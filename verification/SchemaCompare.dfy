/**
 * Offline comparison of two schema catalogs (scripts/migration-schema-compare.ts).
 *
 * A catalog lists named objects with a JSON definition each.  The comparison walks the union of
 * identities, counts agreements and lists differences; a fingerprint of each side is the digest of
 * its canonical text.  The digest is taken to be injective, so the text itself stands for it.
 */
module SchemaCompare {
  import opened Wrappers
  import opened Collections
  import opened Texts
  import opened Json

  datatype Kind =
    Table | Column | Constraint | Index | Trigger | Policy | Routine | Extension | Sequence | View

  function KindText(kind: Kind): Text {
    match kind
    case Table => [116, 97, 98, 108, 101]
    case Column => [99, 111, 108, 117, 109, 110]
    case Constraint => [99, 111, 110, 115, 116, 114, 97, 105, 110, 116]
    case Index => [105, 110, 100, 101, 120]
    case Trigger => [116, 114, 105, 103, 103, 101, 114]
    case Policy => [112, 111, 108, 105, 99, 121]
    case Routine => [114, 111, 117, 116, 105, 110, 101]
    case Extension => [101, 120, 116, 101, 110, 115, 105, 111, 110]
    case Sequence => [115, 101, 113, 117, 101, 110, 99, 101]
    case View => [118, 105, 101, 119]
  }

  const KIND: Text := [107, 105, 110, 100]
  const NAME: Text := [110, 97, 109, 101]
  const DEFINITION: Text := [100, 101, 102, 105, 110, 105, 116, 105, 111, 110]

  function KeyText(kind: Kind, name: Text): Text {
    KindText(kind) + [COLON] + name
  }

  datatype Object = Object(kind: Kind, name: Text, definition: Json)
  {
    function Key(): Text {
      KeyText(kind, name)
    }
  }

  /** A parsed catalog: the shape checks of the schema parser have passed, the content checks not. */
  datatype Snapshot = Snapshot(complete: bool, omissions: seq<Text>, objects: seq<Object>)

  /** A catalog in key order. */
  type Catalog = seq<(Text, Object)>

  datatype Disposition = Changed | MissingFromObserved | OnlyInObserved

  datatype Difference = Difference(kind: Kind, name: Text, disposition: Disposition)

  datatype Status = Incomplete | Different | Equal

  datatype Report = Report(
    status: Status,
    observedCount: nat,
    intendedCount: nat,
    matches: nat,
    differences: seq<Difference>,
    observedComplete: bool,
    intendedComplete: bool,
    observedOmissionCount: nat,
    intendedOmissionCount: nat,
    observedFingerprint: Text,
    intendedFingerprint: Text,
    structuralEquality: bool,
    migrationHistoryProven: bool,
    deploymentAllowed: bool)

  // ---------------------------------------------------------------------------------------------
  // Keys

  /** The kinds and field names as they are spelled. */
  lemma Spelling()
    ensures KindText(Table) == Units("table") && KindText(Column) == Units("column")
    ensures KindText(Constraint) == Units("constraint") && KindText(Index) == Units("index")
    ensures KindText(Trigger) == Units("trigger") && KindText(Policy) == Units("policy")
    ensures KindText(Routine) == Units("routine") && KindText(Extension) == Units("extension")
    ensures KindText(Sequence) == Units("sequence") && KindText(View) == Units("view")
    ensures KIND == Units("kind") && NAME == Units("name") && DEFINITION == Units("definition")
  {
  }

  lemma KindTextPlain(kind: Kind)
    ensures COLON !in KindText(kind)
  {
  }

  lemma KindTextDistinct(a: Kind, b: Kind)
    requires KindText(a) == KindText(b)
    ensures a == b
  {
    assert |KindText(a)| == |KindText(b)| && KindText(a)[0] == KindText(b)[0];
  }

  lemma {:induction false} SplitAtColon(a: Text, b: Text, x: Text, y: Text)
    requires COLON !in a && COLON !in b
    requires a + [COLON] + x == b + [COLON] + y
    ensures a == b && x == y
    decreases |a|
  {
    var ta, tb := a + [COLON] + x, b + [COLON] + y;
    assert a != [] ==> ta[0] == a[0] && a[0] in a;
    assert b != [] ==> tb[0] == b[0] && b[0] in b;
    if a != [] && b != [] {
      assert ta[1..] == a[1..] + [COLON] + x && tb[1..] == b[1..] + [COLON] + y;
      SplitAtColon(a[1..], b[1..], x, y);
      assert a == [a[0]] + a[1..] && b == [b[0]] + b[1..];
    } else {
      assert a == [] ==> ta[1..] == x;
      assert b == [] ==> tb[1..] == y;
    }
  }

  /** The key determines the identity it was built from. */
  lemma KeyInjective(a: Object, b: Object)
    requires a.Key() == b.Key()
    ensures a.kind == b.kind && a.name == b.name
  {
    KindTextPlain(a.kind);
    KindTextPlain(b.kind);
    SplitAtColon(KindText(a.kind), KindText(b.kind), a.name, b.name);
    KindTextDistinct(a.kind, b.kind);
  }

  function Keyed(objects: seq<Object>): (r: seq<(Text, Object)>)
    ensures |r| == |objects|
    ensures forall i :: 0 <= i < |r| ==> r[i] == (objects[i].Key(), objects[i])
  {
    seq(|objects|, i requires 0 <= i < |objects| => (objects[i].Key(), objects[i]))
  }

  // ---------------------------------------------------------------------------------------------
  // Validation

  predicate Consistent(s: Snapshot) {
    && (s.complete ==> s.omissions == [])
    && (forall i :: 0 <= i < |s.objects| ==> s.objects[i].name != [] && Printable(s.objects[i].definition))
    && (forall i, j :: 0 <= i < j < |s.objects| ==> s.objects[i].Key() != s.objects[j].Key())
  }

  function CatalogOf(s: Snapshot): Catalog {
    Sort(Keyed(s.objects))
  }

  predicate ObjectOk(o: Object) {
    o.name != [] && Printable(o.definition)
  }

  /** The loop over the objects and their identities: no identity twice, and every object well formed. */
  method CheckObjects(objects: seq<Object>, keys: seq<Text>) returns (ok: bool)
    requires |keys| == |objects|
    ensures ok <==> Distinct(keys) && forall i :: 0 <= i < |objects| ==> ObjectOk(objects[i])
  {
    var names: set<Text> := {};
    for i := 0 to |objects|
      invariant names == set k | 0 <= k < i :: keys[k]
      invariant forall k :: 0 <= k < i ==> ObjectOk(objects[k])
      invariant forall j, k :: 0 <= j < k < i ==> keys[j] != keys[k]
    {
      if objects[i].name == [] || keys[i] in names || Print(objects[i].definition) == None {
        return false;
      }
      names := names + {keys[i]};
    }
    return true;
  }

  lemma ConsistentMeans(s: Snapshot)
    ensures Consistent(s) <==>
              && (s.complete ==> s.omissions == []) && Distinct(Keys(Keyed(s.objects)))
              && (forall i :: 0 <= i < |s.objects| ==> ObjectOk(s.objects[i]))
  {
    var keys := Keys(Keyed(s.objects));
    assert forall i :: 0 <= i < |keys| ==> keys[i] == s.objects[i].Key();
  }

  /** The key-sorted objects of a consistent catalog; nothing when the catalog is rejected. */
  method Validate(s: Snapshot) returns (sorted: Option<Catalog>)
    ensures sorted.Some? <==> Consistent(s)
    ensures sorted.Some? ==> sorted.value == CatalogOf(s)
  {
    ConsistentMeans(s);
    if s.complete && s.omissions != [] {
      return None;
    }
    var ok := CheckObjects(s.objects, Keys(Keyed(s.objects)));
    return if ok then Some(CatalogOf(s)) else None;
  }

  // ---------------------------------------------------------------------------------------------
  // The comparison

  /** A validated catalog: key-sorted, keys belonging to their objects, definitions printable. */
  predicate WellKept(c: Catalog) {
    && StrictlyAscending(c)
    && forall i :: 0 <= i < |c| ==> c[i].0 == c[i].1.Key() && Sound(c[i].1.definition)
  }

  function IndexOf(c: Catalog): map<Text, Object> {
    if c == [] then map[] else IndexOf(c[..|c| - 1])[c[|c| - 1].0 := c[|c| - 1].1]
  }

  /** What the report says about one identity found on at least one side. */
  function Verdict(left: map<Text, Object>, right: map<Text, Object>, key: Text): Option<Disposition> {
    if key in left && key in right && Canonical(left[key].definition) == Canonical(right[key].definition) then None
    else if key !in left then Some(MissingFromObserved)
    else if key !in right then Some(OnlyInObserved)
    else Some(Changed)
  }

  function Named(left: map<Text, Object>, right: map<Text, Object>, key: Text): Object
    requires key in left || key in right
  {
    if key in left then left[key] else right[key]
  }

  function Differences(left: map<Text, Object>, right: map<Text, Object>, keys: seq<Text>): seq<Difference>
    requires Covered(left, right, keys)
  {
    if keys == [] then []
    else
      var last := keys[|keys| - 1];
      var before := Differences(left, right, keys[..|keys| - 1]);
      match Verdict(left, right, last)
      case None => before
      case Some(d) => before + [Difference(Named(left, right, last).kind, Named(left, right, last).name, d)]
  }

  function Dedup(s: seq<Text>): seq<Text> {
    if s == [] then []
    else
      var last := |s| - 1;
      if s[last] in s[..last] then Dedup(s[..last]) else Dedup(s[..last]) + [s[last]]
  }

  /** All identities of both sides, each once, in ascending order. */
  function Identities(left: Catalog, right: Catalog): seq<Text> {
    SortTexts(Dedup(Keys(left) + Keys(right)))
  }

  lemma {:induction false} DedupFacts(s: seq<Text>, k: Text)
    ensures k in Dedup(s) <==> k in s
    ensures forall i, j :: 0 <= i < j < |Dedup(s)| ==> Dedup(s)[i] != Dedup(s)[j]
  {
    if s != [] {
      var last := |s| - 1;
      DedupFacts(s[..last], k);
      DedupFacts(s[..last], s[last]);
      assert s == s[..last] + [s[last]];
    }
  }

  lemma KeysHave<V>(s: seq<(Text, V)>, k: Text)
    ensures k in Keys(s) <==> HasKey(s, k)
  {
    if HasKey(s, k) {
      var i :| 0 <= i < |s| && s[i].0 == k;
      assert Keys(s)[i] == k;
    }
  }

  lemma IdentitiesHold(left: Catalog, right: Catalog, k: Text)
    ensures k in Identities(left, right) <==> HasKey(left, k) || HasKey(right, k)
  {
    var all := Keys(left) + Keys(right);
    var tagged := Tagged(Dedup(all));
    KeysHave(Sort(tagged), k);
    SortKeys(tagged, k);
    KeysHave(tagged, k);
    assert Keys(tagged) == Dedup(all);
    DedupFacts(all, k);
    KeysHave(left, k);
    KeysHave(right, k);
  }

  lemma IdentitiesAscend(left: Catalog, right: Catalog)
    ensures forall i, j :: 0 <= i < j < |Identities(left, right)| ==>
              Less(Identities(left, right)[i], Identities(left, right)[j])
  {
    var all := Keys(left) + Keys(right);
    DedupFacts(all, []);
    SortAscends(Tagged(Dedup(all)));
  }

  lemma {:induction false} IndexHolds(c: Catalog, k: Text)
    requires DistinctKeys(c)
    ensures k in IndexOf(c) <==> HasKey(c, k)
    ensures forall i :: 0 <= i < |c| && c[i].0 == k ==> k in IndexOf(c) && IndexOf(c)[k] == c[i].1
  {
    if c != [] {
      var last := |c| - 1;
      IndexHolds(c[..last], k);
      if HasKey(c[..last], k) {
        var i :| 0 <= i < last && c[..last][i].0 == k;
        assert c[i].0 == k;
      }
      if HasKey(c, k) && c[last].0 != k {
        var i :| 0 <= i < |c| && c[i].0 == k;
        assert c[..last][i].0 == k;
      }
      forall i | 0 <= i < |c| && c[i].0 == k
        ensures k in IndexOf(c) && IndexOf(c)[k] == c[i].1
      {
        if i < last { assert c[..last][i].0 == k; }
      }
    }
  }

  predicate Covered(left: map<Text, Object>, right: map<Text, Object>, keys: seq<Text>) {
    forall i :: 0 <= i < |keys| ==> keys[i] in left || keys[i] in right
  }

  lemma IdentitiesCovered(left: Catalog, right: Catalog)
    requires DistinctKeys(left) && DistinctKeys(right)
    ensures Covered(IndexOf(left), IndexOf(right), Identities(left, right))
  {
    var keys := Identities(left, right);
    forall i | 0 <= i < |keys|
      ensures keys[i] in IndexOf(left) || keys[i] in IndexOf(right)
    {
      IdentitiesHold(left, right, keys[i]);
      IndexHolds(left, keys[i]);
      IndexHolds(right, keys[i]);
    }
  }

  /** The report on two consistent catalogs. */
  function Compare(observed: Snapshot, intended: Snapshot): Report
    requires Consistent(observed) && Consistent(intended)
  {
    var left, right := CatalogOf(observed), CatalogOf(intended);
    CatalogDistinct(observed);
    CatalogDistinct(intended);
    IdentitiesCovered(left, right);
    var keys := Identities(left, right);
    var differences := Differences(IndexOf(left), IndexOf(right), keys);
    DifferencesCount(IndexOf(left), IndexOf(right), keys);
    Report(
      if !(observed.complete && intended.complete) then Incomplete
      else if differences != [] then Different else Equal,
      |left|, |right|, |keys| - |differences|, differences,
      observed.complete, intended.complete, |observed.omissions|, |intended.omissions|,
      Canonical(CatalogJson(left)), Canonical(CatalogJson(right)),
      observed.complete && intended.complete && differences == [], false, false)
  }

  lemma {:induction false} DifferencesCount(left: map<Text, Object>, right: map<Text, Object>, keys: seq<Text>)
    requires Covered(left, right, keys)
    ensures |Differences(left, right, keys)| <= |keys|
  {
    if keys != [] {
      DifferencesCount(left, right, keys[..|keys| - 1]);
    }
  }

  /** The catalog entry as the digest sees it. */
  function ObjectJson(o: Object): Json {
    JObject([(KIND, JString(KindText(o.kind))), (NAME, JString(o.name)), (DEFINITION, o.definition)])
  }

  function CatalogJson(c: Catalog): Json {
    JArray(seq(|c|, i requires 0 <= i < |c| => ObjectJson(c[i].1)))
  }

  /** The comparison as written: one walk over the identities with a counter and a growing list. */
  method CompareSchemaSnapshots(observed: Snapshot, intended: Snapshot) returns (report: Option<Report>)
    ensures report.Some? <==> Consistent(observed) && Consistent(intended)
    ensures report.Some? ==> report.value == Compare(observed, intended)
  {
    var a := Validate(observed);
    if a == None { return None; }
    var b := Validate(intended);
    if b == None { return None; }
    CatalogDistinct(observed);
    CatalogDistinct(intended);
    IdentitiesCovered(a.value, b.value);
    var matches, differences := Walk(IndexOf(a.value), IndexOf(b.value), Identities(a.value, b.value));
    var complete := observed.complete && intended.complete;
    var status := if !complete then Incomplete else if differences != [] then Different else Equal;
    return Some(Report(
      status, |a.value|, |b.value|, matches, differences,
      observed.complete, intended.complete, |observed.omissions|, |intended.omissions|,
      Canonical(CatalogJson(a.value)), Canonical(CatalogJson(b.value)),
      complete && |differences| == 0, false, false));
  }

  method Walk(left: map<Text, Object>, right: map<Text, Object>, keys: seq<Text>)
    returns (matches: nat, differences: seq<Difference>)
    requires Covered(left, right, keys)
    ensures differences == Differences(left, right, keys)
    ensures matches + |differences| == |keys|
  {
    matches, differences := 0, [];
    for i := 0 to |keys|
      invariant Covered(left, right, keys[..i])
      invariant differences == Differences(left, right, keys[..i])
      invariant matches + |differences| == i
    {
      var key := keys[i];
      assert keys[..i + 1][..i] == keys[..i];
      if key in left && key in right && Canonical(left[key].definition) == Canonical(right[key].definition) {
        matches := matches + 1;
      } else {
        var entry := if key in left then left[key] else right[key];
        var disposition :=
          if key !in left then MissingFromObserved
          else if key !in right then OnlyInObserved
          else Changed;
        differences := differences + [Difference(entry.kind, entry.name, disposition)];
      }
    }
    assert keys[..|keys|] == keys;
  }

  lemma CatalogDistinct(s: Snapshot)
    requires Consistent(s)
    ensures StrictlyAscending(CatalogOf(s)) && DistinctKeys(CatalogOf(s))
  {
    var sorted := CatalogOf(s);
    SortAscends(Keyed(s.objects));
    forall i, j | 0 <= i < j < |sorted|
      ensures sorted[i].0 != sorted[j].0
    {
      LessIrreflexive(sorted[i].0);
    }
  }

  // ---------------------------------------------------------------------------------------------
  // What the report means

  lemma {:induction false} NoDifferences(left: map<Text, Object>, right: map<Text, Object>, keys: seq<Text>)
    requires Covered(left, right, keys)
    ensures Differences(left, right, keys) == [] <==> forall k :: k in keys ==> Verdict(left, right, k) == None
  {
    if keys != [] {
      var last := |keys| - 1;
      NoDifferences(left, right, keys[..last]);
      assert keys == keys[..last] + [keys[last]];
      assert keys[last] in keys;
      assert forall k :: k in keys[..last] ==> k in keys;
    }
  }

  /** Two validated catalogs agree place by place, definitions up to meaning. */
  ghost predicate SameCatalog(left: Catalog, right: Catalog) {
    && |left| == |right|
    && forall i :: 0 <= i < |left| ==>
         && left[i].0 == right[i].0
         && Denote(left[i].1.definition) == Denote(right[i].1.definition)
  }

  /** Definitions are values the runtime can hold. */
  predicate Holdable(s: Snapshot) {
    forall i :: 0 <= i < |s.objects| ==> Possible(s.objects[i].definition)
  }

  lemma CatalogWellKept(s: Snapshot)
    requires Consistent(s) && Holdable(s)
    ensures WellKept(CatalogOf(s)) && DistinctKeys(CatalogOf(s))
  {
    var sorted := CatalogOf(s);
    CatalogDistinct(s);
    forall i | 0 <= i < |sorted|
      ensures sorted[i].0 == sorted[i].1.Key() && Sound(sorted[i].1.definition)
    {
      SortMember(Keyed(s.objects), sorted[i]);
      var k :| 0 <= k < |s.objects| && Keyed(s.objects)[k] == sorted[i];
      SoundMeans(s.objects[k].definition);
    }
  }

  lemma AllAgreeMeansSame(left: Catalog, right: Catalog)
    requires WellKept(left) && WellKept(right) && DistinctKeys(left) && DistinctKeys(right)
    ensures (forall k :: k in Identities(left, right) ==> Verdict(IndexOf(left), IndexOf(right), k) == None)
       <==> SameCatalog(left, right)
  {
    var l, r := IndexOf(left), IndexOf(right);
    if forall k :: k in Identities(left, right) ==> Verdict(l, r, k) == None {
      forall k
        ensures HasKey(left, k) <==> HasKey(right, k)
      {
        AgreedKey(left, right, k);
      }
      AscendingUnique(left, right);
      forall i | 0 <= i < |left|
        ensures Denote(left[i].1.definition) == Denote(right[i].1.definition)
      {
        AgreedKey(left, right, left[i].0);
        IndexHolds(left, left[i].0);
        IndexHolds(right, left[i].0);
        CanonicalFaithful(left[i].1.definition, right[i].1.definition);
      }
    }
    if SameCatalog(left, right) {
      forall k | k in Identities(left, right)
        ensures Verdict(l, r, k) == None
      {
        SamePlace(left, right, k);
      }
    }
  }

  lemma AgreedKey(left: Catalog, right: Catalog, k: Text)
    requires DistinctKeys(left) && DistinctKeys(right)
    requires k in Identities(left, right) ==> Verdict(IndexOf(left), IndexOf(right), k) == None
    ensures HasKey(left, k) <==> HasKey(right, k)
    ensures HasKey(left, k) ==> Verdict(IndexOf(left), IndexOf(right), k) == None
  {
    IdentitiesHold(left, right, k);
    IndexHolds(left, k);
    IndexHolds(right, k);
  }

  lemma SamePlace(left: Catalog, right: Catalog, k: Text)
    requires WellKept(left) && WellKept(right) && DistinctKeys(left) && DistinctKeys(right)
    requires SameCatalog(left, right) && k in Identities(left, right)
    ensures Verdict(IndexOf(left), IndexOf(right), k) == None
  {
    IdentitiesHold(left, right, k);
    var i :| 0 <= i < |left| && left[i].0 == k;
    IndexHolds(left, k);
    IndexHolds(right, k);
    CanonicalFaithful(left[i].1.definition, right[i].1.definition);
  }

  function ObjectValue(o: Object): Value {
    VMap(map[KIND := VString(KindText(o.kind)), NAME := VString(o.name), DEFINITION := Denote(o.definition)])
  }

  lemma ObjectDenotes(o: Object)
    requires Sound(o.definition)
    ensures Denote(ObjectJson(o)) == ObjectValue(o) && Sound(ObjectJson(o))
  {
    var v := ObjectJson(o);
    var es := v.entries;
    assert KIND[0] != NAME[0] && KIND[0] != DEFINITION[0] && NAME[0] != DEFINITION[0];
    assert DistinctKeys(es);
    assert Within(v, es);
    var fields := Fields(v, es);
    forall k
      ensures k in fields <==> k in ObjectValue(o).fields
      ensures k in fields && k in ObjectValue(o).fields ==> fields[k] == ObjectValue(o).fields[k]
    {
      FieldsHold(v, es, k);
      assert HasKey(es, k) <==> k == KIND || k == NAME || k == DEFINITION by {
        assert es[0].0 == KIND && es[1].0 == NAME && es[2].0 == DEFINITION;
      }
    }
  }

  lemma ObjectValueInjective(a: Object, b: Object)
    requires ObjectValue(a) == ObjectValue(b)
    ensures a.kind == b.kind && a.name == b.name && Denote(a.definition) == Denote(b.definition)
  {
    assert KIND[0] != NAME[0] && KIND[0] != DEFINITION[0] && NAME[0] != DEFINITION[0];
    assert ObjectValue(a).fields[KIND] == ObjectValue(b).fields[KIND];
    assert ObjectValue(a).fields[NAME] == ObjectValue(b).fields[NAME];
    assert ObjectValue(a).fields[DEFINITION] == ObjectValue(b).fields[DEFINITION];
    KindTextDistinct(a.kind, b.kind);
  }

  lemma {:induction false} ItemsDenote(items: seq<Json>)
    ensures |DenoteItems(items)| == |items|
    ensures forall i :: 0 <= i < |items| ==> DenoteItems(items)[i] == Denote(items[i])
  {
    if items != [] {
      ItemsDenote(items[1..]);
    }
  }

  /** Equal fingerprints are exactly equal catalogs. */
  lemma FingerprintsAgree(left: Catalog, right: Catalog)
    requires WellKept(left) && WellKept(right)
    ensures Canonical(CatalogJson(left)) == Canonical(CatalogJson(right)) <==> SameCatalog(left, right)
  {
    var a, b := CatalogJson(left), CatalogJson(right);
    forall i | 0 <= i < |left| { ObjectDenotes(left[i].1); }
    forall i | 0 <= i < |right| { ObjectDenotes(right[i].1); }
    CanonicalFaithful(a, b);
    ItemsDenote(a.items);
    ItemsDenote(b.items);
    if Denote(a) == Denote(b) {
      forall i | 0 <= i < |left|
        ensures left[i].0 == right[i].0 && Denote(left[i].1.definition) == Denote(right[i].1.definition)
      {
        assert DenoteItems(a.items)[i] == DenoteItems(b.items)[i];
        ObjectValueInjective(left[i].1, right[i].1);
      }
    }
    if SameCatalog(left, right) {
      forall i | 0 <= i < |left|
        ensures DenoteItems(a.items)[i] == DenoteItems(b.items)[i]
      {
        KeyInjective(left[i].1, right[i].1);
      }
      assert DenoteItems(a.items) == DenoteItems(b.items);
    }
  }

  /** The report lists no difference exactly when the two fingerprints are equal. */
  lemma VerdictMatchesFingerprints(observed: Snapshot, intended: Snapshot)
    requires Consistent(observed) && Consistent(intended) && Holdable(observed) && Holdable(intended)
    ensures var report := Compare(observed, intended);
            report.differences == [] <==> report.observedFingerprint == report.intendedFingerprint
  {
    var left, right := CatalogOf(observed), CatalogOf(intended);
    CatalogWellKept(observed);
    CatalogWellKept(intended);
    IdentitiesCovered(left, right);
    NoDifferences(IndexOf(left), IndexOf(right), Identities(left, right));
    AllAgreeMeansSame(left, right);
    FingerprintsAgree(left, right);
  }

  /**
   * The status: incomplete exactly when a side is, equal exactly when both are complete and their
   * fingerprints agree.  Equality is claimed for the status equal alone, and nothing is ever authorized.
   */
  lemma StatusExact(observed: Snapshot, intended: Snapshot)
    requires Consistent(observed) && Consistent(intended) && Holdable(observed) && Holdable(intended)
    ensures var report, complete := Compare(observed, intended), observed.complete && intended.complete;
            && (report.status == Incomplete <==> !complete)
            && (report.status == Equal <==> complete && report.observedFingerprint == report.intendedFingerprint)
            && (report.structuralEquality <==> report.status == Equal)
            && !report.migrationHistoryProven && !report.deploymentAllowed
            && (report.observedComplete <==> observed.complete) && (report.intendedComplete <==> intended.complete)
            && (report.observedComplete ==> report.observedOmissionCount == 0)
            && (report.intendedComplete ==> report.intendedOmissionCount == 0)
  {
    VerdictMatchesFingerprints(observed, intended);
  }

  // The differences, object by object

  function ObjectsOf(s: Snapshot, kind: Kind, name: Text): set<Object> {
    set o | o in s.objects && o.kind == kind && o.name == name
  }

  /** A difference says: two objects of one identity with other definitions, or an object on one side alone. */
  ghost predicate Differs(observed: Snapshot, intended: Snapshot, d: Difference) {
    Apart(ObjectsOf(observed, d.kind, d.name), ObjectsOf(intended, d.kind, d.name), d.disposition)
  }

  ghost predicate Apart(mine: set<Object>, theirs: set<Object>, disposition: Disposition) {
    match disposition
    case Changed => exists a, b :: a in mine && b in theirs && Denote(a.definition) != Denote(b.definition)
    case MissingFromObserved => mine == {} && theirs != {}
    case OnlyInObserved => mine != {} && theirs == {}
  }

  lemma {:induction false} DifferencesHold(
    left: map<Text, Object>, right: map<Text, Object>, keys: seq<Text>, d: Difference)
    requires Covered(left, right, keys)
    ensures d in Differences(left, right, keys) <==> exists k :: k in keys && Reports(left, right, k, d)
  {
    if keys != [] {
      var last, init := keys[|keys| - 1], keys[..|keys| - 1];
      DifferencesHold(left, right, init, d);
      assert keys == init + [last];
      assert forall k :: k in keys <==> k in init || k == last;
      var here, before := Verdict(left, right, last), Differences(left, right, init);
      assert d in Differences(left, right, keys) <==> d in before || Reports(left, right, last, d) by {
        if here.Some? {
          var one := Difference(Named(left, right, last).kind, Named(left, right, last).name, here.value);
          assert Differences(left, right, keys) == before + [one];
          assert Reports(left, right, last, d) <==> d == one;
        }
      }
    }
  }

  predicate Reports(left: map<Text, Object>, right: map<Text, Object>, key: Text, d: Difference) {
    && (key in left || key in right)
    && Verdict(left, right, key) == Some(d.disposition)
    && Named(left, right, key).kind == d.kind && Named(left, right, key).name == d.name
  }

  /** The index of a consistent catalog finds each object under its own identity, and nothing else. */
  lemma IndexFinds(s: Snapshot, o: Object)
    requires Consistent(s)
    ensures o in s.objects <==> o.Key() in IndexOf(CatalogOf(s)) && IndexOf(CatalogOf(s))[o.Key()] == o
  {
    var c, key := CatalogOf(s), o.Key();
    CatalogDistinct(s);
    IndexHolds(c, key);
    SortMember(Keyed(s.objects), (key, o));
    if o in s.objects {
      var i :| 0 <= i < |s.objects| && s.objects[i] == o;
      assert Keyed(s.objects)[i] == (key, o);
      var j :| 0 <= j < |c| && c[j] == (key, o);
    }
    if key in IndexOf(c) && IndexOf(c)[key] == o {
      var j :| 0 <= j < |c| && c[j].0 == key;
      assert c[j] == (key, o);
      var i :| 0 <= i < |s.objects| && Keyed(s.objects)[i] == (key, o);
      assert s.objects[i] == o;
    }
  }

  /** The objects of one identity: the indexed one or none. */
  lemma IdentityFound(s: Snapshot, kind: Kind, name: Text)
    requires Consistent(s)
    ensures var index, key := IndexOf(CatalogOf(s)), KeyText(kind, name);
            ObjectsOf(s, kind, name) == if key in index then {index[key]} else {}
  {
    var index, key := IndexOf(CatalogOf(s)), KeyText(kind, name);
    IndexKeyed(s);
    forall o | o in ObjectsOf(s, kind, name)
      ensures key in index && index[key] == o
    {
      IndexFinds(s, o);
    }
    if key in index {
      var o := index[key];
      assert o.Key() == Object(kind, name, o.definition).Key();
      KeyInjective(o, Object(kind, name, o.definition));
      IndexFinds(s, o);
    }
  }

  /** The list holds exactly the differences between the two snapshots. */
  lemma DifferencesExact(observed: Snapshot, intended: Snapshot, d: Difference)
    requires Consistent(observed) && Consistent(intended) && Holdable(observed) && Holdable(intended)
    ensures d in Compare(observed, intended).differences <==> Differs(observed, intended, d)
  {
    var left, right := IndexOf(CatalogOf(observed)), IndexOf(CatalogOf(intended));
    var keys, key := Identities(CatalogOf(observed), CatalogOf(intended)), KeyText(d.kind, d.name);
    CatalogDistinct(observed);
    CatalogDistinct(intended);
    IdentitiesCovered(CatalogOf(observed), CatalogOf(intended));
    IdentitiesAreUnion(CatalogOf(observed), CatalogOf(intended));
    DifferencesHold(left, right, keys, d);
    IndexKeyed(observed);
    IndexKeyed(intended);
    forall k | Reports(left, right, k, d)
      ensures k == key && k in keys
    {
      InUnion(keys, left, right, k);
    }
    ReportedDiffers(observed, intended, d);
  }

  lemma InUnion(keys: seq<Text>, left: map<Text, Object>, right: map<Text, Object>, k: Text)
    requires (set x | x in keys) == left.Keys + right.Keys && (k in left || k in right)
    ensures k in keys
  {
    assert k in left.Keys + right.Keys;
    assert k in set x | x in keys;
  }

  lemma ReportedDiffers(observed: Snapshot, intended: Snapshot, d: Difference)
    requires Consistent(observed) && Consistent(intended) && Holdable(observed) && Holdable(intended)
    ensures Reports(IndexOf(CatalogOf(observed)), IndexOf(CatalogOf(intended)), KeyText(d.kind, d.name), d)
       <==> Differs(observed, intended, d)
  {
    var left, right := IndexOf(CatalogOf(observed)), IndexOf(CatalogOf(intended));
    var key := KeyText(d.kind, d.name);
    IdentityFound(observed, d.kind, d.name);
    IdentityFound(intended, d.kind, d.name);
    var mine, theirs := ObjectsOf(observed, d.kind, d.name), ObjectsOf(intended, d.kind, d.name);
    forall o: Object | o in mine + theirs ensures Sound(o.definition) { SoundMeans(o.definition); }
    ReportMeans(left, right, key, d, mine, theirs);
  }

  /** One verdict, in terms of the objects of that identity on each side. */
  lemma ReportMeans(
    left: map<Text, Object>, right: map<Text, Object>, key: Text, d: Difference, mine: set<Object>, theirs: set<Object>)
    requires mine == if key in left then {left[key]} else {}
    requires theirs == if key in right then {right[key]} else {}
    requires forall o :: o in mine + theirs ==> o.kind == d.kind && o.name == d.name && Sound(o.definition)
    ensures Reports(left, right, key, d) <==> Apart(mine, theirs, d.disposition)
  {
    if key in left { assert left[key] in mine; }
    if key in right { assert right[key] in theirs; }
    if key in left && key in right { CanonicalFaithful(left[key].definition, right[key].definition); }
  }

  // Counts

  function Count(differences: seq<Difference>, d: Disposition): nat {
    if differences == [] then 0
    else Count(differences[..|differences| - 1], d) + (if differences[|differences| - 1].disposition == d then 1 else 0)
  }

  function CountIn(keys: seq<Text>, m: map<Text, Object>): nat {
    if keys == [] then 0
    else CountIn(keys[..|keys| - 1], m) + (if keys[|keys| - 1] in m then 1 else 0)
  }

  lemma CountAppend(ds: seq<Difference>, one: Difference, d: Disposition)
    ensures Count(ds + [one], d) == Count(ds, d) + (if one.disposition == d then 1 else 0)
  {
    assert (ds + [one])[..|ds|] == ds;
  }

  /** Each identity adds one to the counter or one difference. */
  lemma {:induction false} SidesCounted(left: map<Text, Object>, right: map<Text, Object>, keys: seq<Text>)
    requires Covered(left, right, keys)
    ensures var ds := Differences(left, right, keys);
            && CountIn(keys, left) == |keys| - |ds| + Count(ds, Changed) + Count(ds, OnlyInObserved)
            && CountIn(keys, right) == |keys| - |ds| + Count(ds, Changed) + Count(ds, MissingFromObserved)
  {
    if keys != [] {
      var last, init := keys[|keys| - 1], keys[..|keys| - 1];
      SidesCounted(left, right, init);
      var before := Differences(left, right, init);
      match Verdict(left, right, last) {
        case None =>
        case Some(d) =>
          var one := Difference(Named(left, right, last).kind, Named(left, right, last).name, d);
          CountAppend(before, one, Changed);
          CountAppend(before, one, OnlyInObserved);
          CountAppend(before, one, MissingFromObserved);
      }
    }
  }

  lemma {:induction false} CountInIsSize(keys: seq<Text>, m: map<Text, Object>)
    requires forall i, j :: 0 <= i < j < |keys| ==> keys[i] != keys[j]
    ensures CountIn(keys, m) == |set k | k in keys && k in m|
  {
    if keys != [] {
      var init, last := keys[..|keys| - 1], keys[|keys| - 1];
      CountInIsSize(init, m);
      var all, before := set k | k in keys && k in m, set k | k in init && k in m;
      assert forall k :: k in keys <==> k in init || k == last;
      assert last !in before;
      assert all == if last in m then before + {last} else before;
    }
  }

  lemma CountAll(keys: seq<Text>, m: map<Text, Object>)
    requires Distinct(keys) && forall k :: k in m ==> k in keys
    ensures CountIn(keys, m) == |m|
  {
    CountInIsSize(keys, m);
    assert (set k | k in keys && k in m) == m.Keys;
    assert |m.Keys| == |m|;
  }

  lemma {:induction false} IndexSize(c: Catalog)
    requires DistinctKeys(c)
    ensures |IndexOf(c)| == |c|
  {
    if c != [] {
      var last := |c| - 1;
      IndexSize(c[..last]);
      IndexHolds(c[..last], c[last].0);
    }
  }

  lemma IdentitiesAreUnion(left: Catalog, right: Catalog)
    requires DistinctKeys(left) && DistinctKeys(right)
    ensures var keys := Identities(left, right);
            && (set k | k in keys) == IndexOf(left).Keys + IndexOf(right).Keys
            && (forall i, j :: 0 <= i < j < |keys| ==> keys[i] != keys[j])
  {
    var keys := Identities(left, right);
    IdentitiesAscend(left, right);
    forall i, j | 0 <= i < j < |keys|
      ensures keys[i] != keys[j]
    {
      LessIrreflexive(keys[i]);
    }
    forall k
      ensures k in keys <==> k in IndexOf(left) || k in IndexOf(right)
    {
      IdentitiesHold(left, right, k);
      IndexHolds(left, k);
      IndexHolds(right, k);
    }
  }

  /** Matches and differences make up the union; each side is its matches, changes and own objects. */
  lemma CountsAddUp(observed: Snapshot, intended: Snapshot)
    requires Consistent(observed) && Consistent(intended)
    ensures var report := Compare(observed, intended);
            && report.matches + |report.differences|
                 == |IndexOf(CatalogOf(observed)).Keys + IndexOf(CatalogOf(intended)).Keys|
            && report.observedCount == |observed.objects|
            && report.intendedCount == |intended.objects|
            && report.observedCount
                 == report.matches + Count(report.differences, Changed) + Count(report.differences, OnlyInObserved)
            && report.intendedCount
                 == report.matches + Count(report.differences, Changed) + Count(report.differences, MissingFromObserved)
  {
    var left, right := CatalogOf(observed), CatalogOf(intended);
    var l, r := IndexOf(left), IndexOf(right);
    var keys := Identities(left, right);
    CatalogDistinct(observed);
    CatalogDistinct(intended);
    IdentitiesCovered(left, right);
    IdentitiesAreUnion(left, right);
    SizeMeansDistinct(keys);
    SidesCounted(l, r, keys);
    CountAll(keys, l);
    CountAll(keys, r);
    IndexSize(left);
    IndexSize(right);
    if observed.objects != [] { SortMember(Keyed(observed.objects), Keyed(observed.objects)[0]); }
    if intended.objects != [] { SortMember(Keyed(intended.objects), Keyed(intended.objects)[0]); }
  }

  // Exchange of the two sides

  function Swap(d: Disposition): Disposition {
    match d
    case Changed => Changed
    case MissingFromObserved => OnlyInObserved
    case OnlyInObserved => MissingFromObserved
  }

  function SwapOne(d: Difference): Difference {
    d.(disposition := Swap(d.disposition))
  }

  function SwapAll(ds: seq<Difference>): seq<Difference> {
    if ds == [] then []
    else
      var last := ds[|ds| - 1];
      SwapAll(ds[..|ds| - 1]) + [SwapOne(last)]
  }

  predicate KeyedBy(m: map<Text, Object>) {
    forall k :: k in m ==> m[k].Key() == k
  }

  lemma SwapAppend(ds: seq<Difference>, d: Difference)
    ensures SwapAll(ds + [d]) == SwapAll(ds) + [SwapOne(d)]
  {
    assert (ds + [d])[..|ds|] == ds;
  }

  /** One identity: the same object is named, and the verdict is exchanged. */
  lemma VerdictSwaps(left: map<Text, Object>, right: map<Text, Object>, key: Text)
    requires KeyedBy(left) && KeyedBy(right) && (key in left || key in right)
    ensures Verdict(right, left, key) ==
            match Verdict(left, right, key) case None => None case Some(d) => Some(Swap(d))
    ensures Named(right, left, key).kind == Named(left, right, key).kind
    ensures Named(right, left, key).name == Named(left, right, key).name
  {
    if key in left && key in right { KeyInjective(left[key], right[key]); }
  }

  lemma {:induction false} DifferencesSwap(left: map<Text, Object>, right: map<Text, Object>, keys: seq<Text>)
    requires Covered(left, right, keys) && Covered(right, left, keys)
    requires KeyedBy(left) && KeyedBy(right)
    ensures Differences(right, left, keys) == SwapAll(Differences(left, right, keys))
  {
    if keys != [] {
      var last, init := keys[|keys| - 1], keys[..|keys| - 1];
      DifferencesSwap(left, right, init);
      VerdictSwaps(left, right, last);
      match Verdict(left, right, last) {
        case None =>
        case Some(d) =>
          SwapAppend(Differences(left, right, init),
                     Difference(Named(left, right, last).kind, Named(left, right, last).name, d));
      }
    }
  }

  lemma IdentitiesCommute(left: Catalog, right: Catalog)
    ensures Identities(left, right) == Identities(right, left)
  {
    var a, b := Sort(Tagged(Dedup(Keys(left) + Keys(right)))), Sort(Tagged(Dedup(Keys(right) + Keys(left))));
    IdentitiesAscend(left, right);
    IdentitiesAscend(right, left);
    assert forall i :: 0 <= i < |a| ==> a[i].0 == Identities(left, right)[i];
    assert forall i :: 0 <= i < |b| ==> b[i].0 == Identities(right, left)[i];
    forall k
      ensures HasKey(a, k) <==> HasKey(b, k)
    {
      IdentitiesHold(left, right, k);
      IdentitiesHold(right, left, k);
      KeysHave(a, k);
      KeysHave(b, k);
    }
    AscendingUnique(a, b);
  }

  lemma IndexKeyed(s: Snapshot)
    requires Consistent(s)
    ensures KeyedBy(IndexOf(CatalogOf(s)))
  {
    var c := CatalogOf(s);
    CatalogDistinct(s);
    forall k | k in IndexOf(c)
      ensures IndexOf(c)[k].Key() == k
    {
      IndexHolds(c, k);
      var i :| 0 <= i < |c| && c[i].0 == k;
      SortMember(Keyed(s.objects), c[i]);
      var j :| 0 <= j < |s.objects| && Keyed(s.objects)[j] == c[i];
    }
  }

  /** Exchanging the inputs exchanges the two one-sided dispositions and nothing else. */
  lemma CompareSwaps(observed: Snapshot, intended: Snapshot)
    requires Consistent(observed) && Consistent(intended)
    ensures var report, back := Compare(observed, intended), Compare(intended, observed);
            && back.differences == SwapAll(report.differences)
            && back.matches == report.matches
            && back.status == report.status
            && back.observedFingerprint == report.intendedFingerprint
            && back.intendedFingerprint == report.observedFingerprint
  {
    var left, right := CatalogOf(observed), CatalogOf(intended);
    CatalogDistinct(observed);
    CatalogDistinct(intended);
    IdentitiesCovered(left, right);
    IdentitiesCommute(left, right);
    IndexKeyed(observed);
    IndexKeyed(intended);
    DifferencesSwap(IndexOf(left), IndexOf(right), Identities(left, right));
    SwapKeepsLength(Compare(observed, intended).differences);
  }

  lemma {:induction false} SwapKeepsLength(ds: seq<Difference>)
    ensures |SwapAll(ds)| == |ds|
  {
    if ds != [] {
      SwapKeepsLength(ds[..|ds| - 1]);
    }
  }
}
