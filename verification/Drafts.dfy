/**
 * Estimate drafts and their ancestry: walks along the two parent edges of a table of drafts.
 */
module Drafts {
  import opened Wrappers

  /** An identifier column: a lower-case UUID read as a number, or any other text. */
  datatype Id = Uuid(bits: nat) | Malformed(text: string)

  /** Only a well-formed, non-nil UUID names a row. */
  predicate ValidId(id: Id) {
    id.Uuid? && id.bits != 0
  }

  /** The recorded origin of a draft; any label without a rule of its own is an OtherSource. */
  datatype Source =
    | AssemblyCalculator
    | ScopeDraft
    | Version
    | ChangeOrder
    | HistoricalImport
    | OtherSource(text: string)
  {
    predicate Calculated() {
      AssemblyCalculator? || ScopeDraft? || Version? || ChangeOrder?
    }
  }

  datatype Draft = Draft(
    tenant: Id,
    project: Id,
    client: Option<Id>,
    source: Source,
    supersedes: Option<Id>,
    changeOrderOf: Option<Id>)
  {
    /** The parents in visiting order; one row named by both edges is visited once. */
    function Parents(): (parents: seq<Id>)
      ensures forall b :: b in parents <==> supersedes == Some(b) || changeOrderOf == Some(b)
      ensures |parents| == 2 ==> parents[0] != parents[1] && supersedes == Some(parents[0])
    {
      (match supersedes case Some(a) => [a] case None => []) +
      (match changeOrderOf case Some(b) => if supersedes == changeOrderOf then [] else [b] case None => [])
    }
  }

  // ---------------------------------------------------------------------------------------------
  // Chains of parents

  ghost predicate Edge(t: map<Id, Draft>, child: Id, parent: Id) {
    child in t && (t[child].supersedes == Some(parent) || t[child].changeOrderOf == Some(parent))
  }

  ghost predicate Link(t: map<Id, Draft>, p: seq<Id>, i: int)
    requires 0 <= i < |p| - 1
  {
    Edge(t, p[i], p[i + 1])
  }

  /** A walk along parent edges; a single row is one. */
  ghost predicate Chain(t: map<Id, Draft>, p: seq<Id>) {
    |p| > 0 && forall i {:trigger Link(t, p, i)} :: 0 <= i < |p| - 1 ==> Link(t, p, i)
  }

  ghost predicate ChainFrom(t: map<Id, Draft>, id: Id, p: seq<Id>) {
    Chain(t, p) && p[0] == id
  }

  ghost predicate Reaches(t: map<Id, Draft>, a: Id, b: Id) {
    exists p :: ChainFrom(t, a, p) && p[|p| - 1] == b
  }

  ghost predicate OnCycle(t: map<Id, Draft>, a: Id) {
    exists p :: ChainFrom(t, a, p) && |p| > 1 && p[|p| - 1] == a
  }

  lemma ChainTail(t: map<Id, Draft>, p: seq<Id>)
    requires Chain(t, p) && |p| > 1
    ensures ChainFrom(t, p[1], p[1..])
    ensures Edge(t, p[0], p[1])
  {
    assert Link(t, p, 0);
    forall i | 0 <= i < |p[1..]| - 1
      ensures Link(t, p[1..], i)
    {
      assert Link(t, p, i + 1);
    }
  }

  lemma ChainCons(t: map<Id, Draft>, id: Id, p: seq<Id>)
    requires Chain(t, p) && Edge(t, id, p[0])
    ensures ChainFrom(t, id, [id] + p)
  {
    var r := [id] + p;
    forall i | 0 <= i < |r| - 1
      ensures Link(t, r, i)
    {
      if i > 0 { assert Link(t, p, i - 1); }
    }
  }

  lemma ChainPrefix(t: map<Id, Draft>, p: seq<Id>, n: nat)
    requires Chain(t, p) && 0 < n <= |p|
    ensures ChainFrom(t, p[0], p[..n])
  {
    forall i | 0 <= i < n - 1
      ensures Link(t, p[..n], i)
    {
      assert Link(t, p, i);
    }
  }

  lemma ChainSuffix(t: map<Id, Draft>, p: seq<Id>, n: nat)
    requires Chain(t, p) && n < |p|
    ensures ChainFrom(t, p[n], p[n..])
  {
    forall i | 0 <= i < |p| - n - 1
      ensures Link(t, p[n..], i)
    {
      assert Link(t, p, n + i);
    }
  }

  lemma ChainJoin(t: map<Id, Draft>, a: seq<Id>, b: seq<Id>)
    requires Chain(t, a) && Chain(t, b) && a[|a| - 1] == b[0]
    ensures ChainFrom(t, a[0], a + b[1..])
  {
    var r := a + b[1..];
    forall i | 0 <= i < |r| - 1
      ensures Link(t, r, i)
    {
      if i < |a| - 1 {
        assert Link(t, a, i);
      } else {
        assert Link(t, b, i - |a| + 1);
      }
    }
  }

  lemma ChainGrows(t: map<Id, Draft>, p: seq<Id>, b: Id)
    requires Chain(t, p) && Edge(t, p[|p| - 1], b)
    ensures ChainFrom(t, p[0], p + [b])
  {
    assert Chain(t, [p[|p| - 1], b]);
    ChainJoin(t, p, [p[|p| - 1], b]);
    assert p + [p[|p| - 1], b][1..] == p + [b];
  }

  lemma ChainReaches(t: map<Id, Draft>, p: seq<Id>, i: nat)
    requires Chain(t, p) && i < |p|
    ensures Reaches(t, p[0], p[i])
  {
    ChainPrefix(t, p, i + 1);
    var r := p[..i + 1];
    assert ChainFrom(t, p[0], r) && r[|r| - 1] == p[i];
  }

  lemma RepeatIsCycle(t: map<Id, Draft>, p: seq<Id>, i: nat, j: nat)
    requires Chain(t, p) && i < j < |p| && p[i] == p[j]
    ensures OnCycle(t, p[i])
  {
    ChainPrefix(t, p, j + 1);
    var r := p[..j + 1];
    ChainSuffix(t, r, i);
    var c := r[i..];
    assert ChainFrom(t, p[i], c) && |c| > 1 && c[|c| - 1] == p[i];
  }

  lemma SelfReached(t: map<Id, Draft>, id: Id)
    ensures Reaches(t, id, id)
  {
    assert ChainFrom(t, id, [id]) && [id][|[id]| - 1] == id;
  }

  lemma ReachesParent(t: map<Id, Draft>, start: Id, id: Id, parent: Id)
    requires Reaches(t, start, id) && Edge(t, id, parent)
    ensures Reaches(t, start, parent)
  {
    var p :| ChainFrom(t, start, p) && p[|p| - 1] == id;
    assert Chain(t, [id, parent]);
    ChainJoin(t, p, [id, parent]);
    assert (p + [id, parent][1..])[|p|] == parent;
  }
}
