/**
 * Texts as the runtime sees them: sequences of 16-bit code units, ordered unit by unit, and the
 * sorting of keyed lists by that order.
 */
module Texts {
  type Unit = u: int | 0 <= u < 0x1_0000
  type Text = seq<Unit>

  /** The text of a literal. */
  function Units(s: string): Text
    requires forall i :: 0 <= i < |s| ==> s[i] as int < 0x1_0000
  {
    seq<Unit>(|s|, i requires 0 <= i < |s| && s[i] as int < 0x1_0000 => s[i] as int)
  }

  /** The order of `<` on strings: the first differing unit decides, a proper prefix is smaller. */
  predicate Less(a: Text, b: Text) {
    b != [] && (a == [] || a[0] < b[0] || (a[0] == b[0] && Less(a[1..], b[1..])))
  }

  /** A text is smaller when it is a proper prefix, or smaller at the first unit that differs. */
  lemma {:induction false} LessMeans(a: Text, b: Text)
    ensures Less(a, b) <==> exists n: nat :: DiffersAt(a, b, n)
  {
    if a == [] || b == [] || a[0] != b[0] {
      if Less(a, b) { assert DiffersAt(a, b, 0); }
    } else {
      LessMeans(a[1..], b[1..]);
      if n: nat :| DiffersAt(a[1..], b[1..], n) {
        assert a == [a[0]] + a[1..] && b == [b[0]] + b[1..];
        assert DiffersAt(a, b, n + 1);
      }
      if n: nat :| DiffersAt(a, b, n) {
        assert DiffersAt(a[1..], b[1..], n - 1);
      }
    }
  }

  /** The texts agree up to n, and the first ends there or has the smaller unit. */
  predicate DiffersAt(a: Text, b: Text, n: nat)
  {
    n <= |a| && n < |b| && (forall i :: 0 <= i < n ==> a[i] == b[i]) && (n == |a| || a[n] < b[n])
  }

  lemma {:induction false} LessIrreflexive(a: Text)
    ensures !Less(a, a)
  {
    if a != [] {
      LessIrreflexive(a[1..]);
    }
  }

  lemma {:induction false} LessTotal(a: Text, b: Text)
    ensures Less(a, b) || a == b || Less(b, a)
  {
    if a != [] && b != [] && a[0] == b[0] {
      LessTotal(a[1..], b[1..]);
      assert a == [a[0]] + a[1..] && b == [b[0]] + b[1..];
    }
  }

  lemma {:induction false} LessTransitive(a: Text, b: Text, c: Text)
    requires Less(a, b) && Less(b, c)
    ensures Less(a, c)
  {
    if a != [] && a[0] == b[0] && b[0] == c[0] {
      LessTransitive(a[1..], b[1..], c[1..]);
    }
  }

  lemma LessAsymmetric(a: Text, b: Text)
    requires Less(a, b)
    ensures !Less(b, a)
  {
    if Less(b, a) {
      LessTransitive(a, b, a);
      LessIrreflexive(a);
    }
  }

  // Keyed lists

  predicate DistinctKeys<V>(s: seq<(Text, V)>) {
    forall i, j :: 0 <= i < j < |s| ==> s[i].0 != s[j].0
  }

  predicate StrictlyAscending<V>(s: seq<(Text, V)>) {
    forall i, j :: 0 <= i < j < |s| ==> Less(s[i].0, s[j].0)
  }

  function Insert<V>(x: (Text, V), s: seq<(Text, V)>): seq<(Text, V)> {
    if s == [] || !Less(s[0].0, x.0) then [x] + s else [s[0]] + Insert(x, s[1..])
  }

  /** The stable sort by key. */
  function Sort<V>(s: seq<(Text, V)>): seq<(Text, V)> {
    if s == [] then [] else Insert(s[0], Sort(s[1..]))
  }

  lemma {:induction false} InsertMember<V>(x: (Text, V), s: seq<(Text, V)>, e: (Text, V))
    ensures |Insert(x, s)| == |s| + 1
    ensures e in Insert(x, s) <==> e == x || e in s
  {
    if s != [] && Less(s[0].0, x.0) {
      InsertMember(x, s[1..], e);
      assert s == [s[0]] + s[1..];
    }
  }

  lemma {:induction false} SortMember<V>(s: seq<(Text, V)>, e: (Text, V))
    ensures |Sort(s)| == |s|
    ensures e in Sort(s) <==> e in s
  {
    if s != [] {
      SortMember(s[1..], e);
      InsertMember(s[0], Sort(s[1..]), e);
      assert s == [s[0]] + s[1..];
    }
  }

  lemma {:induction false} InsertAscends<V>(x: (Text, V), s: seq<(Text, V)>)
    requires StrictlyAscending(s)
    requires forall e :: e in s ==> e.0 != x.0
    ensures StrictlyAscending(Insert(x, s))
  {
    if s == [] {
    } else if !Less(s[0].0, x.0) {
      LessTotal(s[0].0, x.0);
      assert s[0] in s;
      forall j | 0 <= j < |s|
        ensures Less(x.0, s[j].0)
      {
        if j > 0 { LessTransitive(x.0, s[0].0, s[j].0); }
      }
    } else {
      var rest := s[1..];
      forall i, j | 0 <= i < j < |rest|
        ensures Less(rest[i].0, rest[j].0)
      {
        assert rest[i] == s[i + 1] && rest[j] == s[j + 1];
      }
      InsertAscends(x, rest);
      var tail := Insert(x, rest);
      forall j | 0 <= j < |tail|
        ensures Less(s[0].0, tail[j].0)
      {
        InsertMember(x, rest, tail[j]);
        if tail[j] != x {
          var k :| 0 <= k < |rest| && rest[k] == tail[j];
          assert tail[j] == s[k + 1];
        }
      }
    }
  }

  lemma {:induction false} SortAscends<V>(s: seq<(Text, V)>)
    requires DistinctKeys(s)
    ensures StrictlyAscending(Sort(s))
  {
    if s != [] {
      var rest := s[1..];
      assert DistinctKeys(rest) by {
        forall i, j | 0 <= i < j < |rest|
          ensures rest[i].0 != rest[j].0
        {
          assert rest[i] == s[i + 1] && rest[j] == s[j + 1];
        }
      }
      SortAscends(rest);
      forall e | e in Sort(rest)
        ensures e.0 != s[0].0
      {
        SortMember(rest, e);
        var k :| 0 <= k < |rest| && rest[k] == e;
        assert s[k + 1] == e;
      }
      InsertAscends(s[0], Sort(rest));
    }
  }

  ghost predicate HasKey<V>(s: seq<(Text, V)>, k: Text) {
    exists i :: 0 <= i < |s| && s[i].0 == k
  }

  lemma SortKeys<V>(s: seq<(Text, V)>, k: Text)
    ensures HasKey(Sort(s), k) <==> HasKey(s, k)
  {
    if HasKey(Sort(s), k) {
      var i :| 0 <= i < |Sort(s)| && Sort(s)[i].0 == k;
      SortMember(s, Sort(s)[i]);
      var j :| 0 <= j < |s| && s[j] == Sort(s)[i];
    }
    if HasKey(s, k) {
      var j :| 0 <= j < |s| && s[j].0 == k;
      SortMember(s, s[j]);
      var i :| 0 <= i < |Sort(s)| && Sort(s)[i] == s[j];
    }
  }

  /** Two ascending lists with the same keys list them in the same order. */
  lemma {:induction false} AscendingUnique<V, W>(a: seq<(Text, V)>, b: seq<(Text, W)>)
    requires StrictlyAscending(a) && StrictlyAscending(b)
    requires forall k :: HasKey(a, k) <==> HasKey(b, k)
    ensures |a| == |b|
    ensures forall i :: 0 <= i < |a| ==> a[i].0 == b[i].0
    decreases |a|
  {
    assert a != [] ==> HasKey(a, a[0].0);
    assert b != [] ==> HasKey(b, b[0].0);
    if a != [] && b != [] {
      var j :| 0 <= j < |b| && b[j].0 == a[0].0;
      var i :| 0 <= i < |a| && a[i].0 == b[0].0;
      if i > 0 && j > 0 {
        LessAsymmetric(a[0].0, a[i].0);
      }
      RestAscends(a);
      RestAscends(b);
      forall k
        ensures HasKey(a[1..], k) <==> HasKey(b[1..], k)
      {
        RestKeys(a, k);
        RestKeys(b, k);
      }
      AscendingUnique(a[1..], b[1..]);
      forall k | 0 <= k < |a|
        ensures a[k].0 == b[k].0
      {
        if k > 0 { assert a[k] == a[1..][k - 1] && b[k] == b[1..][k - 1]; }
      }
    }
  }

  lemma RestAscends<V>(a: seq<(Text, V)>)
    requires a != [] && StrictlyAscending(a)
    ensures StrictlyAscending(a[1..])
  {
    forall i, j | 0 <= i < j < |a| - 1
      ensures Less(a[1..][i].0, a[1..][j].0)
    {
      assert a[1..][i] == a[i + 1] && a[1..][j] == a[j + 1];
    }
  }

  lemma RestKeys<V>(a: seq<(Text, V)>, k: Text)
    requires a != [] && StrictlyAscending(a)
    ensures HasKey(a[1..], k) <==> HasKey(a, k) && k != a[0].0
  {
    if HasKey(a[1..], k) {
      var i :| 0 <= i < |a[1..]| && a[1..][i].0 == k;
      assert a[i + 1].0 == k && Less(a[0].0, a[i + 1].0);
      LessIrreflexive(k);
    }
    if HasKey(a, k) && k != a[0].0 {
      var i :| 0 <= i < |a| && a[i].0 == k;
      assert a[1..][i - 1].0 == k;
    }
  }

  // Plain lists

  /** The first components. */
  function Keys<V>(s: seq<(Text, V)>): (r: seq<Text>)
    ensures |r| == |s| && forall i :: 0 <= i < |r| ==> r[i] == s[i].0
  {
    seq(|s|, i requires 0 <= i < |s| => s[i].0)
  }

  function Tagged(s: seq<Text>): (r: seq<(Text, ())>)
    ensures |r| == |s| && forall i :: 0 <= i < |r| ==> r[i] == (s[i], ())
  {
    seq(|s|, i requires 0 <= i < |s| => (s[i], ()))
  }

  function SortTexts(s: seq<Text>): seq<Text> {
    Keys(Sort(Tagged(s)))
  }

  lemma SortTextsHolds(s: seq<Text>, x: Text)
    ensures x in SortTexts(s) <==> x in s
  {
    var sorted := Sort(Tagged(s));
    SortKeys(Tagged(s), x);
    if x in s {
      var i :| 0 <= i < |s| && s[i] == x;
      assert Tagged(s)[i].0 == x;
      var j :| 0 <= j < |sorted| && sorted[j].0 == x;
      assert Keys(sorted)[j] == x;
    }
    if x in SortTexts(s) {
      var j :| 0 <= j < |sorted| && Keys(sorted)[j] == x;
      assert HasKey(sorted, x);
    }
  }
}
