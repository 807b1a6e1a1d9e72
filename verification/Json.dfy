/**
 * The canonical text of a JSON value (scripts/migration-schema-compare.ts) and why it is a faithful
 * fingerprint: two values print alike exactly when they denote the same thing.
 */
module Json {
  import opened Wrappers
  import opened Texts

  const QUOTE: Unit := 34
  const COMMA: Unit := 44
  const COLON: Unit := 58
  const BACKSLASH: Unit := 92
  const OPEN_LIST: Unit := 91
  const CLOSE_LIST: Unit := 93
  const OPEN_MAP: Unit := 123
  const CLOSE_MAP: Unit := 125
  const NULL_TEXT: Text := [110, 117, 108, 108]
  const TRUE_TEXT: Text := [116, 114, 117, 101]
  const FALSE_TEXT: Text := [102, 97, 108, 115, 101]

  /**
   * A runtime value offered to the printer.  A number is given by the text the runtime prints for
   * it; an object lists its own keys in insertion order; Foreign stands for everything the printer
   * throws on: undefined, functions, non-finite numbers and instances of other classes.  A Hole is the
   * missing element of a sparse array, which prints as nothing; it is no value of its own.
   */
  datatype Json =
    | JNull
    | JBool(b: bool)
    | JNumber(text: Text)
    | JString(s: Text)
    | JArray(items: seq<Json>)
    | JObject(entries: seq<(Text, Json)>)
    | Foreign
    | Hole

  /** What a value means: arrays are ordered lists, objects are maps from keys. */
  datatype Value =
    | VNull
    | VBool(b: bool)
    | VNumber(text: Text)
    | VString(s: Text)
    | VList(items: seq<Value>)
    | VMap(fields: map<Text, Value>)
    | VForeign
    | VHole

  // ---------------------------------------------------------------------------------------------
  // Strings (RFC 8259, section 7)

  predicate HighSurrogate(u: Unit) { 0xD800 <= u < 0xDC00 }

  predicate LowSurrogate(u: Unit) { 0xDC00 <= u < 0xE000 }

  function HexDigit(d: int): Unit
    requires 0 <= d < 16
  {
    if d < 10 then 48 + d else 87 + d
  }

  function HexValue(u: Unit): (r: Option<int>)
    ensures r.Some? ==> 0 <= r.value < 16
  {
    if 48 <= u <= 57 then Some(u - 48)
    else if 97 <= u <= 102 then Some(u - 87)
    else if 65 <= u <= 70 then Some(u - 55)
    else None
  }

  function Hex4(u: Unit): Text {
    [HexDigit(u / 16 / 16 / 16), HexDigit(u / 16 / 16 % 16), HexDigit(u / 16 % 16), HexDigit(u % 16)]
  }

  function ReadHex4(t: Text): Option<Unit>
    requires |t| == 4
  {
    match (HexValue(t[0]), HexValue(t[1]), HexValue(t[2]), HexValue(t[3]))
    case (Some(a), Some(b), Some(c), Some(d)) => Some(4096 * a + 256 * b + 16 * c + d)
    case _ => None
  }

  lemma HexDigitReads(d: int)
    requires 0 <= d < 16
    ensures HexValue(HexDigit(d)) == Some(d)
  {
  }

  lemma Hex4Reads(u: Unit)
    ensures |Hex4(u)| == 4 && ReadHex4(Hex4(u)) == Some(u)
  {
    HexDigitReads(u / 16 / 16 / 16);
    HexDigitReads(u / 16 / 16 % 16);
    HexDigitReads(u / 16 % 16);
    HexDigitReads(u % 16);
  }

  function EscapeUnit(u: Unit): Text {
    if u == 34 || u == 92 then [BACKSLASH, u]
    else if u == 8 then [BACKSLASH, 98]
    else if u == 9 then [BACKSLASH, 116]
    else if u == 10 then [BACKSLASH, 110]
    else if u == 12 then [BACKSLASH, 102]
    else if u == 13 then [BACKSLASH, 114]
    else if u < 32 || HighSurrogate(u) || LowSurrogate(u) then [BACKSLASH, 117] + Hex4(u)
    else [u]
  }

  /** Well-formed printing: a surrogate pair stays as it is, a lone surrogate is escaped. */
  function Escape(s: Text): Text {
    if s == [] then []
    else if |s| > 1 && HighSurrogate(s[0]) && LowSurrogate(s[1]) then [s[0], s[1]] + Escape(s[2..])
    else EscapeUnit(s[0]) + Escape(s[1..])
  }

  function Quote(s: Text): Text {
    [QUOTE] + Escape(s) + [QUOTE]
  }

  function ShortEscape(u: Unit): Option<Unit> {
    if u == 34 || u == 92 || u == 47 then Some(u)
    else if u == 98 then Some(8)
    else if u == 116 then Some(9)
    else if u == 110 then Some(10)
    else if u == 102 then Some(12)
    else if u == 114 then Some(13)
    else None
  }

  /** The unit an escape sequence at the front stands for, and the sequence's length. */
  function ReadEscape(t: Text): Option<(Unit, nat)>
    ensures ReadEscape(t).Some? ==> 0 < ReadEscape(t).value.1 <= |t|
  {
    if |t| >= 2 && ShortEscape(t[1]).Some? then Some((ShortEscape(t[1]).value, 2))
    else if |t| >= 6 && t[1] == 117 && ReadHex4(t[2..6]).Some? then Some((ReadHex4(t[2..6]).value, 6))
    else None
  }

  /** One unit at the front of a printed string: itself or escaped. */
  function ReadUnit(t: Text): Option<(Unit, nat)>
    ensures ReadUnit(t).Some? ==> 0 < ReadUnit(t).value.1 <= |t|
  {
    if t == [] || t[0] < 32 || t[0] == QUOTE then None
    else if t[0] != BACKSLASH then Some((t[0], 1))
    else ReadEscape(t)
  }

  /** Reads a string after its opening quote; the result is the string and what follows it. */
  function Unescape(t: Text): Option<(Text, Text)>
    decreases |t|
  {
    if t != [] && t[0] == QUOTE then Some(([], t[1..]))
    else
      match ReadUnit(t)
      case None => None
      case Some((u, n)) =>
        match Unescape(t[n..])
        case None => None
        case Some((s, rest)) => Some(([u] + s, rest))
  }

  lemma EscapeUnitReads(u: Unit, rest: Text)
    ensures ReadUnit(EscapeUnit(u) + rest) == Some((u, |EscapeUnit(u)|))
  {
    if |EscapeUnit(u)| > 2 {
      Hex4Reads(u);
      var t := [BACKSLASH, 117] + Hex4(u) + rest;
      assert t[2..6] == Hex4(u);
    }
  }

  /** A printed unit in front of a readable text is read first. */
  lemma UnitReads(u: Unit, e: Text, t: Text)
    requires ReadUnit(e + t) == Some((u, |e|))
    requires Unescape(t).Some?
    ensures Unescape(e + t) == Some(([u] + Unescape(t).value.0, Unescape(t).value.1))
  {
    assert (e + t)[|e|..] == t;
  }

  /** What printing leaves of a string with its closing quote and some following text. */
  function Closed(s: Text, rest: Text): Text {
    Escape(s) + [QUOTE] + rest
  }

  lemma ClosedCons(e: Text, s: Text, rest: Text)
    ensures e + Escape(s) + [QUOTE] + rest == e + Closed(s, rest)
  {
  }

  /** A surrogate pair is printed as it is and read unit by unit. */
  lemma PairReads(s: Text, rest: Text)
    requires |s| > 1 && HighSurrogate(s[0]) && LowSurrogate(s[1])
    requires Unescape(Closed(s[2..], rest)) == Some((s[2..], rest))
    ensures Unescape(Closed(s, rest)) == Some((s, rest))
  {
    var more := Closed(s[2..], rest);
    UnitReads(s[1], [s[1]], more);
    UnitReads(s[0], [s[0]], [s[1]] + more);
    ClosedCons([s[0], s[1]], s[2..], rest);
    TwoFirst(s[0], s[1], more);
    TwoOff(s);
  }

  lemma TwoFirst(a: Unit, b: Unit, rest: Text)
    ensures [a, b] + rest == [a] + ([b] + rest)
  {
  }

  lemma TwoOff(s: Text)
    requires |s| > 1
    ensures s == [s[0]] + ([s[1]] + s[2..]) == [s[0], s[1]] + s[2..]
  {
  }

  /** Reading a printed string gives the string back, whatever follows it. */
  lemma {:induction false} QuoteRoundTrip(s: Text, rest: Text)
    ensures Unescape(Closed(s, rest)) == Some((s, rest))
    decreases |s|
  {
    if s == [] {
      assert Closed(s, rest) == [QUOTE] + rest;
      assert ([QUOTE] + rest)[1..] == rest;
    } else if |s| > 1 && HighSurrogate(s[0]) && LowSurrogate(s[1]) {
      QuoteRoundTrip(s[2..], rest);
      PairReads(s, rest);
    } else {
      QuoteRoundTrip(s[1..], rest);
      EscapeUnitReads(s[0], Closed(s[1..], rest));
      UnitReads(s[0], EscapeUnit(s[0]), Closed(s[1..], rest));
      ClosedCons(EscapeUnit(s[0]), s[1..], rest);
      assert s == [s[0]] + s[1..];
    }
  }

  lemma QuoteOpens(s: Text, rest: Text)
    ensures Quote(s) + rest == [QUOTE] + Closed(s, rest)
  {
  }

  lemma QuotePrefix(a: Text, b: Text, ra: Text, rb: Text)
    requires Quote(a) + ra == Quote(b) + rb
    ensures a == b && ra == rb
  {
    QuoteOpens(a, ra);
    QuoteOpens(b, rb);
    assert Closed(a, ra) == ([QUOTE] + Closed(a, ra))[1..];
    assert Closed(b, rb) == ([QUOTE] + Closed(b, rb))[1..];
    QuoteRoundTrip(a, ra);
    QuoteRoundTrip(b, rb);
  }

  // ---------------------------------------------------------------------------------------------
  // Numbers

  predicate NumeralUnit(u: Unit) {
    48 <= u <= 57 || u == 43 || u == 45 || u == 46 || u == 101
  }

  /** The printed form of a finite number: digits, sign, point and exponent, starting with a digit or minus. */
  predicate Numeral(t: Text) {
    && t != []
    && (48 <= t[0] <= 57 || t[0] == 45)
    && forall i :: 0 <= i < |t| ==> NumeralUnit(t[i])
  }

  /** Nothing follows, or something that cannot continue a number. */
  predicate Ends(rest: Text) {
    rest == [] || !NumeralUnit(rest[0])
  }

  lemma {:induction false} NumeralPrefix(a: Text, b: Text, ra: Text, rb: Text)
    requires forall i :: 0 <= i < |a| ==> NumeralUnit(a[i])
    requires forall i :: 0 <= i < |b| ==> NumeralUnit(b[i])
    requires Ends(ra) && Ends(rb) && a + ra == b + rb
    ensures a == b && ra == rb
    decreases |a|
  {
    if a != [] && b != [] {
      assert (a + ra)[1..] == a[1..] + ra && (b + rb)[1..] == b[1..] + rb;
      assert a[0] == (a + ra)[0] && b[0] == (b + rb)[0];
      NumeralPrefix(a[1..], b[1..], ra, rb);
      assert a == [a[0]] + a[1..] && b == [b[0]] + b[1..];
    } else {
      assert a == [] ==> a + ra == ra;
      assert b == [] ==> b + rb == rb;
    }
  }

  // ---------------------------------------------------------------------------------------------
  // Values

  /** A value the runtime can hold and the printer accepts. */
  predicate Sound(v: Json) {
    match v
    case JNumber(t) => Numeral(t)
    case JArray(items) => forall i :: 0 <= i < |items| ==> items[i] == Hole || Sound(items[i])
    case JObject(entries) => DistinctKeys(entries) && forall i :: 0 <= i < |entries| ==> Sound(entries[i].1)
    case Foreign => false
    case Hole => false
    case _ => true
  }

  /** Sound elements of an array, holes included. */
  predicate SoundItems(items: seq<Json>) {
    forall i :: 0 <= i < |items| ==> items[i] == Hole || Sound(items[i])
  }

  lemma {:induction false} SoundMeans(v: Json)
    ensures Sound(v) <==> Possible(v) && Printable(v)
  {
    match v {
      case JArray(items) =>
        forall i | 0 <= i < |items| && items[i] != Hole { SoundMeans(items[i]); }
      case JObject(entries) =>
        forall i | 0 <= i < |entries| { SoundMeans(entries[i].1); }
      case _ =>
    }
  }

  /** Facts about every value the runtime can hold: keys are unique and numbers print as numerals. */
  predicate Possible(v: Json) {
    match v
    case JNumber(t) => Numeral(t)
    case JArray(items) => forall i :: 0 <= i < |items| ==> items[i] == Hole || Possible(items[i])
    case JObject(entries) => DistinctKeys(entries) && forall i :: 0 <= i < |entries| ==> Possible(entries[i].1)
    case Hole => false
    case _ => true
  }

  /** The printer does not throw. */
  predicate Printable(v: Json) {
    match v
    case Foreign => false
    case JArray(items) => forall i :: 0 <= i < |items| ==> items[i] == Hole || Printable(items[i])
    case JObject(entries) => forall i :: 0 <= i < |entries| ==> Printable(entries[i].1)
    case _ => true
  }

  /** The text of a printable value; what it says of Foreign parts is never used. */
  function Canonical(v: Json): Text
    decreases v, 1
  {
    match v
    case JNull => NULL_TEXT
    case JBool(b) => if b then TRUE_TEXT else FALSE_TEXT
    case JNumber(t) => t
    case JString(s) => Quote(s)
    case JArray(items) => [OPEN_LIST] + ItemsText(items) + [CLOSE_LIST]
    case JObject(entries) =>
      SortedWithin(v);
      [OPEN_MAP] + EntriesText(v, Sort(entries)) + [CLOSE_MAP]
    case Foreign => []
    case Hole => []
  }

  function ItemsText(items: seq<Json>): Text
    decreases items, 0
  {
    if items == [] then [] else Canonical(items[0]) + MoreItems(items[1..])
  }

  /** The items after the first, each behind its comma. */
  function MoreItems(items: seq<Json>): Text
    decreases items, 1
  {
    if items == [] then [] else [COMMA] + ItemsText(items)
  }

  /** Entries that all belong to one object. */
  ghost predicate Within(v: Json, entries: seq<(Text, Json)>) {
    forall i :: 0 <= i < |entries| ==> entries[i].1 < v
  }

  function EntriesText(ghost v: Json, entries: seq<(Text, Json)>): Text
    requires Within(v, entries)
    decreases v, 0, |entries|, 0
  {
    if entries == [] then []
    else Quote(entries[0].0) + [COLON] + Canonical(entries[0].1) + MoreEntries(v, entries[1..])
  }

  function MoreEntries(ghost v: Json, entries: seq<(Text, Json)>): Text
    requires Within(v, entries)
    decreases v, 0, |entries|, 1
  {
    if entries == [] then [] else [COMMA] + EntriesText(v, entries)
  }

  /** The canonical text, or nothing where the printer throws. */
  function Print(v: Json): Option<Text> {
    if Printable(v) then Some(Canonical(v)) else None
  }

  /** Texts with a comma between each two. */
  function Joined(texts: seq<Text>): Text {
    if texts == [] then []
    else if |texts| == 1 then texts[0]
    else texts[0] + Units(",") + Joined(texts[1..])
  }

  lemma {:induction false} ItemsJoined(items: seq<Json>)
    ensures ItemsText(items) == Joined(seq(|items|, i requires 0 <= i < |items| => Canonical(items[i])))
  {
    var texts := seq(|items|, i requires 0 <= i < |items| => Canonical(items[i]));
    if |items| > 0 {
      ItemsJoined(items[1..]);
      assert texts[1..] == seq(|items[1..]|, i requires 0 <= i < |items[1..]| => Canonical(items[1..][i]));
      assert MoreItems(items[1..]) == if |items| == 1 then [] else Units(",") + ItemsText(items[1..]);
    }
  }

  function EntryText(e: (Text, Json)): Text {
    Quote(e.0) + Units(":") + Canonical(e.1)
  }

  lemma {:induction false} EntriesJoined(v: Json, entries: seq<(Text, Json)>)
    requires Within(v, entries)
    ensures EntriesText(v, entries) == Joined(EntryTexts(entries))
    decreases |entries|
  {
    if |entries| > 0 {
      var rest := entries[1..];
      EntriesJoined(v, rest);
      EntriesUnfold(v, entries);
      JoinedUnfolds(EntryTexts(entries));
      assert EntryTexts(entries)[1..] == EntryTexts(rest);
    }
  }

  function EntryTexts(entries: seq<(Text, Json)>): seq<Text> {
    seq(|entries|, i requires 0 <= i < |entries| => EntryText(entries[i]))
  }

  lemma EntriesUnfold(v: Json, entries: seq<(Text, Json)>)
    requires Within(v, entries) && entries != []
    ensures EntriesText(v, entries)
         == EntryText(entries[0]) + (if |entries| == 1 then [] else Units(",") + EntriesText(v, entries[1..]))
  {
  }

  lemma JoinedUnfolds(texts: seq<Text>)
    requires texts != []
    ensures Joined(texts) == texts[0] + (if |texts| == 1 then [] else Units(",") + Joined(texts[1..]))
  {
  }

  /** The text as it is written down: words, brackets, commas and colons, and keys in order. */
  lemma Format(v: Json)
    ensures v == JNull ==> Canonical(v) == Units("null")
    ensures v == JBool(true) ==> Canonical(v) == Units("true")
    ensures v == JBool(false) ==> Canonical(v) == Units("false")
    ensures v.JNumber? ==> Canonical(v) == v.text
    ensures v.JString? ==> Canonical(v) == Units("\"") + Escape(v.s) + Units("\"")
    ensures v.JArray? ==>
              Canonical(v) == Units("[")
                + Joined(seq(|v.items|, i requires 0 <= i < |v.items| => Canonical(v.items[i]))) + Units("]")
    ensures v.JObject? ==>
              Canonical(v) == Units("{") + Joined(EntryTexts(Sort(v.entries))) + Units("}")
  {
    match v
    case JArray(items) => ItemsJoined(items);
    case JObject(entries) =>
      SortedWithin(v);
      EntriesJoined(v, Sort(entries));
    case _ =>
  }

  lemma SortedWithin(v: Json)
    requires v.JObject?
    ensures Within(v, Sort(v.entries))
  {
    var sorted := Sort(v.entries);
    forall i | 0 <= i < |sorted|
      ensures sorted[i].1 < v
    {
      SortMember(v.entries, sorted[i]);
      var k :| 0 <= k < |v.entries| && v.entries[k] == sorted[i];
    }
  }

  // ---------------------------------------------------------------------------------------------
  // Meaning

  /** An array of a single hole counts as the empty array: the printer does not tell them apart. */
  function Denote(v: Json): Value
    decreases v, 1
  {
    match v
    case JNull => VNull
    case JBool(b) => VBool(b)
    case JNumber(t) => VNumber(t)
    case JString(s) => VString(s)
    case JArray(items) => VList(if items == [Hole] then [] else DenoteItems(items))
    case JObject(entries) =>
      assert Within(v, entries);
      VMap(Fields(v, entries))
    case Foreign => VForeign
    case Hole => VHole
  }

  function DenoteItems(items: seq<Json>): seq<Value>
    decreases items, 0
  {
    if items == [] then [] else [Denote(items[0])] + DenoteItems(items[1..])
  }

  function Fields(ghost v: Json, entries: seq<(Text, Json)>): map<Text, Value>
    requires Within(v, entries)
    decreases v, 0, |entries|
  {
    if entries == [] then map[]
    else Fields(v, entries[1..])[entries[0].0 := Denote(entries[0].1)]
  }

  lemma {:induction false} FieldsHold(v: Json, entries: seq<(Text, Json)>, k: Text)
    requires Within(v, entries)
    requires DistinctKeys(entries)
    ensures k in Fields(v, entries) <==> HasKey(entries, k)
    ensures forall i :: 0 <= i < |entries| && entries[i].0 == k ==>
              k in Fields(v, entries) && Fields(v, entries)[k] == Denote(entries[i].1)
    decreases |entries|
  {
    if entries != [] {
      var rest := entries[1..];
      assert forall i :: 0 <= i < |rest| ==> rest[i] == entries[i + 1];
      FieldsHold(v, rest, k);
      if HasKey(rest, k) {
        var i :| 0 <= i < |rest| && rest[i].0 == k;
        assert entries[i + 1].0 == k;
      }
      if HasKey(entries, k) && k != entries[0].0 {
        var i :| 0 <= i < |entries| && entries[i].0 == k;
        assert rest[i - 1].0 == k;
      }
      forall i | 0 <= i < |entries| && entries[i].0 == k
        ensures k in Fields(v, entries) && Fields(v, entries)[k] == Denote(entries[i].1)
      {
        if i > 0 { assert rest[i - 1].0 == k; }
      }
    }
  }

  /** Two entry lists agree place by place, values up to meaning. */
  ghost predicate SameEntries(x: seq<(Text, Json)>, y: seq<(Text, Json)>)
  {
    |x| == |y| && forall i :: 0 <= i < |x| ==> x[i].0 == y[i].0 && Denote(x[i].1) == Denote(y[i].1)
  }

  lemma SortedFields(v: Json, k: Text)
    requires v.JObject? && DistinctKeys(v.entries)
    ensures Within(v, v.entries) && Within(v, Sort(v.entries)) && StrictlyAscending(Sort(v.entries))
              && DistinctKeys(Sort(v.entries))
    ensures HasKey(Sort(v.entries), k) <==> k in Fields(v, v.entries)
    ensures forall i :: 0 <= i < |Sort(v.entries)| && Sort(v.entries)[i].0 == k ==>
              k in Fields(v, v.entries) && Fields(v, v.entries)[k] == Denote(Sort(v.entries)[i].1)
  {
    var es := v.entries;
    var sorted := Sort(es);
    SortedWithin(v);
    SortAscends(es);
    FieldsHold(v, es, k);
    forall i, j | 0 <= i < j < |sorted|
      ensures sorted[i].0 != sorted[j].0
    {
      LessIrreflexive(sorted[i].0);
    }
    forall i | 0 <= i < |sorted| && sorted[i].0 == k
      ensures k in Fields(v, es) && Fields(v, es)[k] == Denote(sorted[i].1)
    {
      SortMember(es, sorted[i]);
      var j :| 0 <= j < |es| && es[j] == sorted[i];
    }
    if HasKey(es, k) {
      var j :| 0 <= j < |es| && es[j].0 == k;
      SortMember(es, es[j]);
      assert es[j] in sorted;
      var i :| 0 <= i < |sorted| && sorted[i] == es[j];
      assert HasKey(sorted, k);
    }
  }

  /** Objects mean the same map exactly when their sorted entries agree. */
  lemma FieldsAgree(a: Json, b: Json)
    requires a.JObject? && Sound(a)
    requires b.JObject? && Sound(b)
    ensures Within(a, Sort(a.entries)) && Within(b, Sort(b.entries))
    ensures Within(a, a.entries) && Within(b, b.entries)
    ensures Fields(a, a.entries) == Fields(b, b.entries) <==> SameEntries(Sort(a.entries), Sort(b.entries))
  {
    var x, y := Sort(a.entries), Sort(b.entries);
    var fa, fb := Fields(a, a.entries), Fields(b, b.entries);
    SortedFields(a, []);
    SortedFields(b, []);
    if fa == fb {
      forall k
        ensures HasKey(x, k) <==> HasKey(y, k)
      {
        SortedFields(a, k);
        SortedFields(b, k);
      }
      AscendingUnique(x, y);
      forall i | 0 <= i < |x|
        ensures Denote(x[i].1) == Denote(y[i].1)
      {
        SortedFields(a, x[i].0);
        SortedFields(b, x[i].0);
      }
    }
    if SameEntries(x, y) {
      forall k
        ensures k in fa <==> k in fb
        ensures k in fa && k in fb ==> fa[k] == fb[k]
      {
        SortedFields(a, k);
        SortedFields(b, k);
        if HasKey(x, k) {
          var i :| 0 <= i < |x| && x[i].0 == k;
          assert y[i].0 == k;
        }
        if HasKey(y, k) {
          var i :| 0 <= i < |y| && y[i].0 == k;
          assert x[i].0 == k;
        }
      }
    }
  }

  // ---------------------------------------------------------------------------------------------
  // Faithfulness

  /** A number for each kind of value, and for either truth value. */
  function Kind(v: Json): int {
    match v
    case JNull => 0
    case JBool(b) => if b then 1 else 2
    case JNumber(_) => 3
    case JString(_) => 4
    case JArray(_) => 5
    case JObject(_) => 6
    case Foreign => 7
    case Hole => 7
  }

  /** The kind that the first unit of a printed value tells. */
  function HeadKind(u: Unit): int {
    if u == 110 then 0
    else if u == 116 then 1
    else if u == 102 then 2
    else if NumeralUnit(u) then 3
    else if u == QUOTE then 4
    else if u == OPEN_LIST then 5
    else if u == OPEN_MAP then 6
    else 7
  }

  lemma CanonicalHead(v: Json)
    requires Sound(v)
    ensures Canonical(v) != [] && HeadKind(Canonical(v)[0]) == Kind(v) < 7
  {
  }

  lemma Strip(p: Text, a: Text, b: Text)
    requires p + a == p + b
    ensures a == b
  {
    assert a == (p + a)[|p|..] && b == (p + b)[|p|..];
  }

  lemma SameKind(a: Json, b: Json, ra: Text, rb: Text)
    requires Sound(a) && Sound(b)
    requires Canonical(a) + ra == Canonical(b) + rb
    ensures Kind(a) == Kind(b)
  {
    CanonicalHead(a);
    CanonicalHead(b);
    assert Canonical(a)[0] == (Canonical(a) + ra)[0] == (Canonical(b) + rb)[0] == Canonical(b)[0];
  }

  /** Equal texts with harmless continuations come from values that mean the same. */
  lemma {:induction false} Prefix(a: Json, b: Json, ra: Text, rb: Text)
    requires Sound(a) && Sound(b)
    requires Ends(ra) && Ends(rb)
    requires Canonical(a) + ra == Canonical(b) + rb
    ensures Denote(a) == Denote(b) && ra == rb
    decreases a, 1
  {
    SameKind(a, b, ra, rb);
    match a {
      case JNull =>
        Strip(NULL_TEXT, ra, rb);
      case JBool(t) =>
        Strip(if t then TRUE_TEXT else FALSE_TEXT, ra, rb);
      case JNumber(t) =>
        NumeralPrefix(t, b.text, ra, rb);
      case JString(s) =>
        QuotePrefix(s, b.s, ra, rb);
      case JArray(x) =>
        Regroup([OPEN_LIST], ItemsText(x), [CLOSE_LIST], ra);
        Regroup([OPEN_LIST], ItemsText(b.items), [CLOSE_LIST], rb);
        Strip([OPEN_LIST], ItemsText(x) + [CLOSE_LIST] + ra, ItemsText(b.items) + [CLOSE_LIST] + rb);
        ListPrefix(x, b.items, ra, rb);
      case JObject(_) =>
        ObjectPrefix(a, b, ra, rb);
    }
  }

  /** What follows the first item of a list. */
  function ItemsTail(items: seq<Json>, rest: Text): Text
    requires items != []
  {
    MoreItems(items[1..]) + [CLOSE_LIST] + rest
  }

  lemma Regroup(a: Text, b: Text, c: Text, d: Text)
    ensures a + b + c + d == a + (b + c + d)
  {
  }

  /** Only an empty remainder closes the list at once; otherwise a comma and the next item follow. */
  lemma MoreItemsHead(items: seq<Json>, rest: Text)
    ensures items == [] ==> MoreItems(items) + [CLOSE_LIST] + rest == [CLOSE_LIST] + rest
    ensures items != [] ==>
              MoreItems(items) + [CLOSE_LIST] + rest == [COMMA] + (ItemsText(items) + [CLOSE_LIST] + rest)
  {
    if items != [] {
      Regroup([COMMA], ItemsText(items), [CLOSE_LIST], rest);
    }
  }

  /** The elements of two lists whose texts agree; an empty list and a single hole both print nothing. */
  lemma {:induction false} ListPrefix(x: seq<Json>, y: seq<Json>, ra: Text, rb: Text)
    requires SoundItems(x) && SoundItems(y)
    requires ItemsText(x) + [CLOSE_LIST] + ra == ItemsText(y) + [CLOSE_LIST] + rb
    ensures (if x == [Hole] then [] else DenoteItems(x)) == (if y == [Hole] then [] else DenoteItems(y)) && ra == rb
    decreases x, 1
  {
    if x != [] { ItemsOpen(x, ra); }
    if y != [] { ItemsOpen(y, rb); }
    if x == [] || y == [] {
      assert ItemsText(x) == [] && ItemsText(y) == [];
      Strip([] + [CLOSE_LIST], ra, rb);
    } else {
      ItemsPrefix(x, y, ra, rb);
      if x == [Hole] || y == [Hole] { HoleDenoted(x, y); }
    }
  }

  lemma HoleDenoted(x: seq<Json>, y: seq<Json>)
    requires x != [] && y != [] && SoundItems(x) && SoundItems(y) && DenoteItems(x) == DenoteItems(y)
    ensures x == [Hole] <==> y == [Hole]
  {
    assert Denote(x[0]) == DenoteItems(x)[0] && Denote(y[0]) == DenoteItems(y)[0];
    assert |DenoteItems(x)| == |x| && |DenoteItems(y)| == |y| by { DenoteLength(x); DenoteLength(y); }
  }

  lemma {:induction false} DenoteLength(items: seq<Json>)
    ensures |DenoteItems(items)| == |items|
  {
    if items != [] { DenoteLength(items[1..]); }
  }

  lemma {:induction false} ItemsPrefix(x: seq<Json>, y: seq<Json>, ra: Text, rb: Text)
    requires x != [] && y != [] && SoundItems(x) && SoundItems(y)
    requires ItemsText(x) + [CLOSE_LIST] + ra == ItemsText(y) + [CLOSE_LIST] + rb
    ensures DenoteItems(x) == DenoteItems(y) && ra == rb
    decreases x, 0
  {
    Regroup(Canonical(x[0]), MoreItems(x[1..]), [CLOSE_LIST], ra);
    Regroup(Canonical(y[0]), MoreItems(y[1..]), [CLOSE_LIST], rb);
    MoreItemsHead(x[1..], ra);
    MoreItemsHead(y[1..], rb);
    FirstItem(x, y, ra, rb);
    if x[0] != Hole {
      Prefix(x[0], y[0], ItemsTail(x, ra), ItemsTail(y, rb));
    } else {
      Strip([], ItemsTail(x, ra), ItemsTail(y, rb));
    }
    assert ItemsTail(x, ra)[0] == ItemsTail(y, rb)[0];
    if x[1..] == [] || y[1..] == [] {
      Strip([CLOSE_LIST], ra, rb);
    } else {
      Strip([COMMA], ItemsText(x[1..]) + [CLOSE_LIST] + ra, ItemsText(y[1..]) + [CLOSE_LIST] + rb);
      ItemsPrefix(x[1..], y[1..], ra, rb);
    }
  }

  /** A hole and a value print differently: a value does not start like a delimiter. */
  lemma FirstItem(x: seq<Json>, y: seq<Json>, ra: Text, rb: Text)
    requires x != [] && y != [] && SoundItems(x) && SoundItems(y)
    requires Canonical(x[0]) + ItemsTail(x, ra) == Canonical(y[0]) + ItemsTail(y, rb)
    ensures x[0] == Hole <==> y[0] == Hole
  {
    var tx, ty := Canonical(x[0]) + ItemsTail(x, ra), Canonical(y[0]) + ItemsTail(y, rb);
    MoreItemsHead(x[1..], ra);
    MoreItemsHead(y[1..], rb);
    if x[0] != Hole { CanonicalHead(x[0]); assert tx[0] == Canonical(x[0])[0]; }
    if y[0] != Hole { CanonicalHead(y[0]); assert ty[0] == Canonical(y[0])[0]; }
    assert x[0] == Hole ==> tx == ItemsTail(x, ra) && HeadKind(tx[0]) == 7;
    assert y[0] == Hole ==> ty == ItemsTail(y, rb) && HeadKind(ty[0]) == 7;
  }

  /** Only a list that prints nothing closes at once. */
  lemma ItemsOpen(x: seq<Json>, rest: Text)
    requires x != [] && SoundItems(x)
    ensures (ItemsText(x) + [CLOSE_LIST] + rest)[0] == CLOSE_LIST <==> x == [Hole]
    ensures x == [Hole] ==> ItemsText(x) == []
  {
    if x[0] != Hole {
      CanonicalHead(x[0]);
      FirstUnit(Canonical(x[0]), MoreItems(x[1..]), [CLOSE_LIST], rest);
    } else {
      assert ItemsText(x) == MoreItems(x[1..]);
      MoreItemsHead(x[1..], rest);
    }
  }

  lemma FirstUnit(a: Text, b: Text, c: Text, d: Text)
    requires a != []
    ensures (a + b + c + d)[0] == a[0]
  {
  }

  lemma {:induction false} ObjectPrefix(a: Json, b: Json, ra: Text, rb: Text)
    requires a.JObject? && Sound(a)
    requires b.JObject? && Sound(b)
    requires Canonical(a) + ra == Canonical(b) + rb
    ensures Denote(a) == Denote(b) && ra == rb
    decreases a, 0
  {
    var x, y := Sort(a.entries), Sort(b.entries);
    FieldsAgree(a, b);
    SortedSound(a);
    SortedSound(b);
    Bracketed(EntriesText(a, x), ra);
    Bracketed(EntriesText(b, y), rb);
    Strip([OPEN_MAP], EntriesText(a, x) + [CLOSE_MAP] + ra, EntriesText(b, y) + [CLOSE_MAP] + rb);
    EntriesPrefix(a, b, x, y, ra, rb);
  }

  lemma Bracketed(body: Text, rest: Text)
    ensures [OPEN_MAP] + body + [CLOSE_MAP] + rest == [OPEN_MAP] + (body + [CLOSE_MAP] + rest)
  {
  }

  lemma SortedSound(v: Json)
    requires v.JObject? && Sound(v)
    ensures forall i :: 0 <= i < |Sort(v.entries)| ==> Sound(Sort(v.entries)[i].1)
  {
    forall i | 0 <= i < |Sort(v.entries)|
      ensures Sound(Sort(v.entries)[i].1)
    {
      SortMember(v.entries, Sort(v.entries)[i]);
      var k :| 0 <= k < |v.entries| && v.entries[k] == Sort(v.entries)[i];
    }
  }

  function EntriesTail(v: Json, entries: seq<(Text, Json)>, rest: Text): Text
    requires entries != [] && Within(v, entries)
  {
    MoreEntries(v, entries[1..]) + [CLOSE_MAP] + rest
  }

  lemma MoreEntriesHead(v: Json, entries: seq<(Text, Json)>, rest: Text)
    requires Within(v, entries)
    ensures entries == [] ==> MoreEntries(v, entries) + [CLOSE_MAP] + rest == [CLOSE_MAP] + rest
    ensures entries != [] ==>
              MoreEntries(v, entries) + [CLOSE_MAP] + rest == [COMMA] + (EntriesText(v, entries) + [CLOSE_MAP] + rest)
  {
    if entries != [] {
      Regroup([COMMA], EntriesText(v, entries), [CLOSE_MAP], rest);
    }
  }

  /** The first entries of two equal texts agree up to the text of their values. */
  lemma FirstEntryAgrees(a: Json, b: Json, x: seq<(Text, Json)>, y: seq<(Text, Json)>, ra: Text, rb: Text)
    requires x != [] && y != [] && Within(a, x) && Within(b, y)
    requires EntriesText(a, x) + [CLOSE_MAP] + ra == EntriesText(b, y) + [CLOSE_MAP] + rb
    ensures x[0].0 == y[0].0
    ensures Canonical(x[0].1) + EntriesTail(a, x, ra) == Canonical(y[0].1) + EntriesTail(b, y, rb)
  {
    EntriesOpen(a, x, ra);
    EntriesOpen(b, y, rb);
    var vx, vy := Canonical(x[0].1) + EntriesTail(a, x, ra), Canonical(y[0].1) + EntriesTail(b, y, rb);
    QuotePrefix(x[0].0, y[0].0, [COLON] + vx, [COLON] + vy);
    Strip([COLON], vx, vy);
  }

  lemma {:induction false} EntriesPrefix(
    a: Json, b: Json, x: seq<(Text, Json)>, y: seq<(Text, Json)>, ra: Text, rb: Text)
    requires Within(a, x) && Within(b, y)
    requires forall i :: 0 <= i < |x| ==> Sound(x[i].1)
    requires forall i :: 0 <= i < |y| ==> Sound(y[i].1)
    requires EntriesText(a, x) + [CLOSE_MAP] + ra == EntriesText(b, y) + [CLOSE_MAP] + rb
    ensures SameEntries(x, y) && ra == rb
    decreases a, 0, |x|, 1
  {
    if x == [] {
      if y != [] { EntriesOpen(b, y, rb); }
      Strip([] + [CLOSE_MAP], ra, rb);
    } else if y == [] {
      EntriesOpen(a, x, ra);
    } else {
      FirstEntryAgrees(a, b, x, y, ra, rb);
      MoreEntriesHead(a, x[1..], ra);
      MoreEntriesHead(b, y[1..], rb);
      Prefix(x[0].1, y[0].1, EntriesTail(a, x, ra), EntriesTail(b, y, rb));
      RestEntriesPrefix(a, b, x, y, ra, rb);
    }
  }

  lemma {:induction false} RestEntriesPrefix(
    a: Json, b: Json, x: seq<(Text, Json)>, y: seq<(Text, Json)>, ra: Text, rb: Text)
    requires x != [] && y != [] && Within(a, x) && Within(b, y)
    requires forall i :: 0 <= i < |x| ==> Sound(x[i].1)
    requires forall i :: 0 <= i < |y| ==> Sound(y[i].1)
    requires x[0].0 == y[0].0 && Denote(x[0].1) == Denote(y[0].1)
    requires EntriesTail(a, x, ra) == EntriesTail(b, y, rb)
    ensures SameEntries(x, y) && ra == rb
    decreases a, 0, |x|, 0
  {
    MoreEntriesHead(a, x[1..], ra);
    MoreEntriesHead(b, y[1..], rb);
    if x[1..] == [] || y[1..] == [] {
      assert EntriesTail(a, x, ra)[0] == EntriesTail(b, y, rb)[0];
      Strip([CLOSE_MAP], ra, rb);
    } else {
      Strip([COMMA], EntriesText(a, x[1..]) + [CLOSE_MAP] + ra, EntriesText(b, y[1..]) + [CLOSE_MAP] + rb);
      EntriesPrefix(a, b, x[1..], y[1..], ra, rb);
      assert forall i :: 1 <= i < |x| ==> x[i] == x[1..][i - 1] && y[i] == y[1..][i - 1];
    }
  }

  lemma EntriesOpen(v: Json, x: seq<(Text, Json)>, rest: Text)
    requires x != [] && Within(v, x)
    ensures EntriesText(v, x) + [CLOSE_MAP] + rest
         == Quote(x[0].0) + ([COLON] + (Canonical(x[0].1) + EntriesTail(v, x, rest)))
    ensures (EntriesText(v, x) + [CLOSE_MAP] + rest)[0] == QUOTE
  {
    EntryGroups(Quote(x[0].0), Canonical(x[0].1), MoreEntries(v, x[1..]), rest);
  }

  lemma EntryGroups(key: Text, value: Text, more: Text, rest: Text)
    requires key != []
    ensures key + [COLON] + value + more + [CLOSE_MAP] + rest == key + ([COLON] + (value + (more + [CLOSE_MAP] + rest)))
    ensures (key + [COLON] + value + more + [CLOSE_MAP] + rest)[0] == key[0]
  {
  }

  lemma {:induction false} SameMeaningPrints(a: Json, b: Json)
    requires Sound(a) && Sound(b)
    requires Denote(a) == Denote(b)
    ensures Canonical(a) == Canonical(b)
    decreases a, 1
  {
    match a {
      case JArray(x) =>
        SameListPrint(x, b.items);
      case JObject(_) =>
        FieldsAgree(a, b);
        SortedSound(a);
        SortedSound(b);
        SameEntriesPrint(a, b, Sort(a.entries), Sort(b.entries));
      case _ =>
    }
  }

  lemma {:induction false} SameListPrint(x: seq<Json>, y: seq<Json>)
    requires SoundItems(x) && SoundItems(y)
    requires (if x == [Hole] then [] else DenoteItems(x)) == (if y == [Hole] then [] else DenoteItems(y))
    ensures ItemsText(x) == ItemsText(y)
    decreases x, 1
  {
    if x == [Hole] || y == [Hole] {
      DenoteLength(x);
      DenoteLength(y);
      assert MoreItems([Hole][1..]) == [];
    } else {
      SameItemsPrint(x, y);
    }
  }

  lemma {:induction false} SameItemsPrint(x: seq<Json>, y: seq<Json>)
    requires SoundItems(x) && SoundItems(y)
    requires DenoteItems(x) == DenoteItems(y)
    ensures ItemsText(x) == ItemsText(y) && |x| == |y|
    decreases x, 0
  {
    if x != [] && y != [] {
      assert Denote(x[0]) == DenoteItems(x)[0] && Denote(y[0]) == DenoteItems(y)[0];
      assert DenoteItems(x[1..]) == DenoteItems(x)[1..] && DenoteItems(y[1..]) == DenoteItems(y)[1..];
      if x[0] != Hole && y[0] != Hole { SameMeaningPrints(x[0], y[0]); }
      SameItemsPrint(x[1..], y[1..]);
      assert MoreItems(x[1..]) == MoreItems(y[1..]);
    }
  }

  lemma {:induction false} SameEntriesPrint(a: Json, b: Json, x: seq<(Text, Json)>, y: seq<(Text, Json)>)
    requires Within(a, x) && Within(b, y)
    requires forall i :: 0 <= i < |x| ==> Sound(x[i].1)
    requires forall i :: 0 <= i < |y| ==> Sound(y[i].1)
    requires SameEntries(x, y)
    ensures EntriesText(a, x) == EntriesText(b, y)
    decreases a, 0, |x|
  {
    if x != [] {
      SameMeaningPrints(x[0].1, y[0].1);
      assert forall i :: 1 <= i < |x| ==> x[i] == x[1..][i - 1] && y[i] == y[1..][i - 1];
      SameEntriesPrint(a, b, x[1..], y[1..]);
      assert MoreEntries(a, x[1..]) == MoreEntries(b, y[1..]);
    }
  }

  /** The canonical text is a faithful fingerprint: equal texts are equal meanings and back. */
  lemma CanonicalFaithful(a: Json, b: Json)
    requires Sound(a) && Sound(b)
    ensures Canonical(a) == Canonical(b) <==> Denote(a) == Denote(b)
  {
    if Canonical(a) == Canonical(b) {
      Prefix(a, b, [], []);
    }
    if Denote(a) == Denote(b) {
      SameMeaningPrints(a, b);
    }
  }

  /** The same over every pair of values: the printer throws on one of them or is faithful. */
  lemma PrintFaithful(a: Json, b: Json)
    requires Possible(a) && Possible(b)
    ensures Print(a).Some? && Print(b).Some? ==> (Print(a) == Print(b) <==> Denote(a) == Denote(b))
  {
    SoundMeans(a);
    SoundMeans(b);
    if Printable(a) && Printable(b) {
      CanonicalFaithful(a, b);
    }
  }

  /** Where the printer is not faithful to the runtime's own equality: a single hole looks like no element. */
  lemma HoleLooksEmpty()
    ensures JArray([Hole]) != JArray([])
    ensures Print(JArray([Hole])) == Print(JArray([])) == Some([OPEN_LIST, CLOSE_LIST])
  {
    var text := [OPEN_LIST, CLOSE_LIST];
    assert [Hole][1..] == [] && ItemsText([Hole]) == [] && ItemsText([]) == [];
    assert Canonical(JArray([Hole])) == [OPEN_LIST] + [] + [CLOSE_LIST] == text;
    assert Canonical(JArray([])) == [OPEN_LIST] + [] + [CLOSE_LIST] == text;
    assert Printable(JArray([Hole])) && Printable(JArray([]));
  }

  /** Arrays print alike exactly when they agree element by element, or when each is empty or a single hole. */
  lemma ArraysAlike(x: seq<Json>, y: seq<Json>)
    requires SoundItems(x) && SoundItems(y)
    ensures Canonical(JArray(x)) == Canonical(JArray(y)) <==>
              DenoteItems(x) == DenoteItems(y) || (x in {[], [Hole]} && y in {[], [Hole]})
  {
    CanonicalFaithful(JArray(x), JArray(y));
    DenoteLength(x);
    DenoteLength(y);
    if x != [] && y != [] && DenoteItems(x) == DenoteItems(y) { HoleDenoted(x, y); }
  }
}
