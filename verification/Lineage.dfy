/**
 * The lineage guard of estimate edits (server/estimate-mutation-db.ts).
 *
 * An estimate derives from earlier ones through two parent edges.  Before a status or a price
 * changes, the guard walks every ancestor and refuses unless all of them are usable.  The walk
 * reads one serializable snapshot, so the table is a fixed map here.
 */
module Lineage {
  import opened Wrappers
  import opened Collections
  import opened Drafts

  const MAX_ROWS: nat := 1000

  datatype Outcome = Accepted | Unresolved | HistoricalDenied

  /** One call of the guard: the snapshot, the row under edit and the caller's option. */
  datatype Query = Query(
    table: map<Id, Draft>,
    imports: set<Id>,
    start: Id,
    current: Draft,
    requireCalculated: bool)
  {
    /** The rows the walk can see: the row under edit is never reloaded. */
    function View(): map<Id, Draft> {
      table[start := current]
    }

    predicate InScope(row: Draft) {
      row.tenant == current.tenant && row.project == current.project && row.client == current.client
    }

    predicate Historical(id: Id, row: Draft) {
      row.source.HistoricalImport? || id in imports
    }

    predicate SourceUsable(row: Draft) {
      && (requireCalculated ==> row.source.Calculated())
      && (row.source.Version? ==> row.supersedes.Some?)
      && (row.source.ChangeOrder? ==> row.changeOrderOf.Some?)
    }

    /** What the guard says about one row alone, in the order in which it asks. */
    function RowVerdict(id: Id): Outcome {
      if !ValidId(id) || id !in View() then Unresolved
      else
        var row := View()[id];
        if !InScope(row) then Unresolved
        else if Historical(id, row) then HistoricalDenied
        else if !SourceUsable(row) then Unresolved
        else Accepted
    }

    /** What the guard asks of each single row. */
    predicate RowOk(id: Id) {
      && ValidId(id)
      && id in View()
      && InScope(View()[id])
      && !Historical(id, View()[id])
      && SourceUsable(View()[id])
    }
  }

  // ---------------------------------------------------------------------------------------------
  // The declarative reading: what the guard promises about a draft it lets through.

  ghost function Ancestry(q: Query): set<Id> {
    set id | id in q.View() && Reaches(q.View(), q.start, id)
  }

  ghost predicate HistoricalAncestor(q: Query) {
    exists id :: Reaches(q.View(), q.start, id) && id in q.View() && q.Historical(id, q.View()[id])
  }

  /** A row that the guard cannot resolve; for a historical row it does not look at the source. */
  ghost predicate Unusable(q: Query, id: Id) {
    || !ValidId(id)
    || id !in q.View()
    || !q.InScope(q.View()[id])
    || (!q.Historical(id, q.View()[id]) && !q.SourceUsable(q.View()[id]))
  }

  /** What an unresolved lineage has wrong with it: a row, a cycle, or its size. */
  ghost predicate Unresolvable(q: Query) {
    || (exists id :: Reaches(q.View(), q.start, id) && (Unusable(q, id) || OnCycle(q.View(), id)))
    || |Ancestry(q)| > MAX_ROWS
  }

  /** A chain of usable rows that ends at a historical row of the same scope. */
  ghost predicate LeadsToHistory(q: Query, p: seq<Id>) {
    && ChainFrom(q.View(), q.start, p)
    && (forall i :: 0 <= i < |p| - 1 ==> q.RowOk(p[i]))
    && var id := p[|p| - 1];
    && ValidId(id) && id in q.View() && q.InScope(q.View()[id]) && q.Historical(id, q.View()[id])
  }

  ghost predicate Acceptable(q: Query) {
    && (forall id :: Reaches(q.View(), q.start, id) ==> q.RowOk(id))
    && (forall id :: Reaches(q.View(), q.start, id) ==> !OnCycle(q.View(), id))
    && |Ancestry(q)| <= MAX_ROWS
  }

  // ---------------------------------------------------------------------------------------------
  // The naive traversal: no memo, no cache, no cap.  It explores every path again.

  function Naive(q: Query, id: Id, path: set<Id>): Outcome
    decreases q.View().Keys - path, 0
  {
    if !ValidId(id) || id in path then Unresolved
    else if q.RowVerdict(id) != Accepted then q.RowVerdict(id)
    else
      assert id in (q.View().Keys - path) && id !in (q.View().Keys - (path + {id}));
      NaiveAll(q, q.View()[id].Parents(), path + {id})
  }

  /** The first refusal among some parents, in visiting order. */
  function NaiveAll(q: Query, ids: seq<Id>, path: set<Id>): Outcome
    decreases q.View().Keys - path, 1 + |ids|
  {
    if ids == [] then Accepted
    else
      var first := Naive(q, ids[0], path);
      if first != Accepted then first else NaiveAll(q, ids[1..], path)
  }

  lemma {:induction false} NaiveAllAccepts(q: Query, ids: seq<Id>, path: set<Id>)
    ensures NaiveAll(q, ids, path) == Accepted
       <==> forall i :: 0 <= i < |ids| ==> Naive(q, ids[i], path) == Accepted
    decreases |ids|
  {
    if ids != [] {
      NaiveAllAccepts(q, ids[1..], path);
      assert forall i :: 1 <= i < |ids| ==> ids[i] == ids[1..][i - 1];
      assert forall i :: 0 <= i < |ids[1..]| ==> ids[1..][i] == ids[i + 1];
    }
  }

  /** Every row of the chain is usable, none lies on the given path, and none repeats. */
  ghost predicate Clean(q: Query, p: seq<Id>, path: set<Id>) {
    && (forall i :: 0 <= i < |p| ==> q.RowOk(p[i]) && p[i] !in path)
    && (forall i, j :: 0 <= i < j < |p| ==> p[i] != p[j])
  }

  /** The naive traversal accepts exactly when every chain that starts at the row is clean. */
  lemma {:induction false} NaiveExact(q: Query, id: Id, path: set<Id>)
    ensures Naive(q, id, path) == Accepted <==> forall p :: ChainFrom(q.View(), id, p) ==> Clean(q, p, path)
    decreases q.View().Keys - path
  {
    assert ChainFrom(q.View(), id, [id]);
    if q.RowOk(id) && id !in path {
      var next := path + {id};
      var parents := q.View()[id].Parents();
      assert id in (q.View().Keys - path) && id !in (q.View().Keys - next);
      NaiveAllAccepts(q, parents, next);
      forall i | 0 <= i < |parents| {
        NaiveExact(q, parents[i], next);
      }
      if Naive(q, id, path) == Accepted {
        forall p | ChainFrom(q.View(), id, p)
          ensures Clean(q, p, path)
        {
          CleanExtends(q, p, path);
        }
      }
      if forall p :: ChainFrom(q.View(), id, p) ==> Clean(q, p, path) {
        forall i, p | 0 <= i < |parents| && ChainFrom(q.View(), parents[i], p)
          ensures Clean(q, p, next)
        {
          CleanShrinks(q, id, p, path);
        }
      }
    } else {
      assert !Clean(q, [id], path) by { assert [id][0] == id; }
    }
  }

  lemma CleanExtends(q: Query, p: seq<Id>, path: set<Id>)
    requires Chain(q.View(), p) && q.RowOk(p[0]) && p[0] !in path
    requires forall b, r :: b in q.View()[p[0]].Parents() && ChainFrom(q.View(), b, r) ==> Clean(q, r, path + {p[0]})
    ensures Clean(q, p, path)
  {
    if |p| > 1 {
      ChainTail(q.View(), p);
      var r := p[1..];
      assert Clean(q, r, path + {p[0]});
      assert forall i :: 1 <= i < |p| ==> p[i] == r[i - 1];
    }
  }

  lemma CleanShrinks(q: Query, id: Id, p: seq<Id>, path: set<Id>)
    requires Chain(q.View(), p) && Edge(q.View(), id, p[0])
    requires forall r :: ChainFrom(q.View(), id, r) ==> Clean(q, r, path)
    ensures Clean(q, p, path + {id})
  {
    ChainCons(q.View(), id, p);
    var r := [id] + p;
    assert Clean(q, r, path);
    assert forall i :: 0 <= i < |p| ==> p[i] == r[i + 1];
    assert r[0] == id;
  }

  lemma CycleRepeats(q: Query, p: seq<Id>, c: seq<Id>) returns (r: seq<Id>)
    requires Chain(q.View(), p) && ChainFrom(q.View(), p[|p| - 1], c) && |c| > 1 && c[|c| - 1] == c[0]
    ensures ChainFrom(q.View(), p[0], r) && !Clean(q, r, {})
  {
    ChainJoin(q.View(), p, c);
    r := p + c[1..];
    assert r[|p| - 1] == r[|r| - 1];
  }

  lemma CleanSound(q: Query, id: Id)
    requires forall p :: ChainFrom(q.View(), q.start, p) ==> Clean(q, p, {})
    requires Reaches(q.View(), q.start, id)
    ensures q.RowOk(id) && !OnCycle(q.View(), id)
  {
    var p :| ChainFrom(q.View(), q.start, p) && p[|p| - 1] == id;
    assert Clean(q, p, {});
    if OnCycle(q.View(), id) {
      var c :| ChainFrom(q.View(), id, c) && |c| > 1 && c[|c| - 1] == id;
      var r := CycleRepeats(q, p, c);
    }
  }

  lemma AcyclicClean(q: Query, p: seq<Id>)
    requires forall id :: Reaches(q.View(), q.start, id) ==> q.RowOk(id) && !OnCycle(q.View(), id)
    requires ChainFrom(q.View(), q.start, p)
    ensures Clean(q, p, {})
  {
    forall i | 0 <= i < |p|
      ensures q.RowOk(p[i]) && !OnCycle(q.View(), p[i])
    {
      ChainReaches(q.View(), p, i);
    }
    forall i, j | 0 <= i < j < |p|
      ensures p[i] != p[j]
    {
      if p[i] == p[j] {
        RepeatIsCycle(q.View(), p, i, j);
      }
    }
  }

  /** Clean chains from the start say the same as usable ancestors and no cycle among them. */
  lemma CleanMeansAcyclic(q: Query)
    ensures (forall p :: ChainFrom(q.View(), q.start, p) ==> Clean(q, p, {}))
       <==> (forall id :: Reaches(q.View(), q.start, id) ==> q.RowOk(id) && !OnCycle(q.View(), id))
  {
    if forall p :: ChainFrom(q.View(), q.start, p) ==> Clean(q, p, {}) {
      forall id | Reaches(q.View(), q.start, id)
        ensures q.RowOk(id) && !OnCycle(q.View(), id)
      {
        CleanSound(q, id);
      }
    }
    if forall id :: Reaches(q.View(), q.start, id) ==> q.RowOk(id) && !OnCycle(q.View(), id) {
      forall p | ChainFrom(q.View(), q.start, p)
        ensures Clean(q, p, {})
      {
        AcyclicClean(q, p);
      }
    }
  }

  /** What acceptance says, column by column. */
  lemma AcceptableMeans(q: Query)
    ensures Acceptable(q) <==>
              && |Ancestry(q)| <= 1000
              && (forall id :: Reaches(q.View(), q.start, id) ==>
                  && !OnCycle(q.View(), id) && id.Uuid? && id.bits != 0 && id in q.View()
                  && var row := q.View()[id];
                  && row.tenant == q.current.tenant && row.project == q.current.project
                  && row.client == q.current.client
                  && row.source != HistoricalImport && id !in q.imports
                  && (row.source == Version ==> row.supersedes.Some?)
                  && (row.source == ChangeOrder ==> row.changeOrderOf.Some?)
                  && (q.requireCalculated ==> row.source in {AssemblyCalculator, ScopeDraft, Version, ChangeOrder}))
  {
  }

  /** The naive traversal, taken with the row cap, decides acceptability. */
  lemma NaiveDecides(q: Query)
    ensures Naive(q, q.start, {}) == Accepted && |Ancestry(q)| <= MAX_ROWS <==> Acceptable(q)
  {
    NaiveExact(q, q.start, {});
    CleanMeansAcyclic(q);
  }

  // ---------------------------------------------------------------------------------------------
  // The naive traversal under the cap: still no memo, but it counts the rows it has loaded.

  /** What is said of one row when some rows are loaded, and the rows loaded then. */
  function Look(q: Query, id: Id, loaded: set<Id>): (Outcome, set<Id>) {
    if id !in loaded && |loaded| >= MAX_ROWS then (Unresolved, loaded)
    else if id !in q.View() then (Unresolved, loaded)
    else (q.RowVerdict(id), loaded + {id})
  }

  function Capped(q: Query, id: Id, path: set<Id>, loaded: set<Id>): (Outcome, set<Id>)
    decreases q.View().Keys - path, 0
  {
    if !ValidId(id) || id in path then (Unresolved, loaded)
    else
      var here := Look(q, id, loaded);
      if here.0 != Accepted then here
      else
        assert id in (q.View().Keys - path) && id !in (q.View().Keys - (path + {id}));
        CappedAll(q, q.View()[id].Parents(), path + {id}, here.1)
  }

  /** The first refusal among some parents; what one of them loaded stays loaded for the next. */
  function CappedAll(q: Query, ids: seq<Id>, path: set<Id>, loaded: set<Id>): (Outcome, set<Id>)
    decreases q.View().Keys - path, 1 + |ids|
  {
    if ids == [] then (Accepted, loaded)
    else
      var first := Capped(q, ids[0], path, loaded);
      if first.0 != Accepted then first else CappedAll(q, ids[1..], path, first.1)
  }

  lemma ParentReached(q: Query, id: Id, parent: Id)
    requires Reaches(q.View(), q.start, id) && id in q.View() && parent in q.View()[id].Parents()
    ensures Reaches(q.View(), q.start, parent)
  {
    assert Edge(q.View(), id, parent);
    ReachesParent(q.View(), q.start, id, parent);
  }

  /** While the ancestry fits the cap, the cap is never felt. */
  lemma {:induction false} CappedWithin(q: Query, id: Id, path: set<Id>, loaded: set<Id>)
    requires |Ancestry(q)| <= MAX_ROWS && loaded <= Ancestry(q) && Reaches(q.View(), q.start, id)
    ensures Capped(q, id, path, loaded).0 == Naive(q, id, path)
    ensures Capped(q, id, path, loaded).1 <= Ancestry(q)
    decreases q.View().Keys - path, 0
  {
    if ValidId(id) && id !in path {
      if id in q.View() && id !in loaded { SubsetSize(loaded + {id}, Ancestry(q)); }
      if Look(q, id, loaded).0 == Accepted {
        assert id in (q.View().Keys - path) && id !in (q.View().Keys - (path + {id}));
        var parents := q.View()[id].Parents();
        forall i | 0 <= i < |parents|
          ensures Reaches(q.View(), q.start, parents[i])
        {
          ParentReached(q, id, parents[i]);
        }
        CappedAllWithin(q, parents, path + {id}, loaded + {id});
      }
    }
  }

  lemma {:induction false} CappedAllWithin(q: Query, ids: seq<Id>, path: set<Id>, loaded: set<Id>)
    requires |Ancestry(q)| <= MAX_ROWS && loaded <= Ancestry(q)
    requires forall i :: 0 <= i < |ids| ==> Reaches(q.View(), q.start, ids[i])
    ensures CappedAll(q, ids, path, loaded).0 == NaiveAll(q, ids, path)
    ensures CappedAll(q, ids, path, loaded).1 <= Ancestry(q)
    decreases q.View().Keys - path, 1 + |ids|
  {
    if ids != [] {
      CappedWithin(q, ids[0], path, loaded);
      CappedAllWithin(q, ids[1..], path, Capped(q, ids[0], path, loaded).1);
    }
  }

  // ---------------------------------------------------------------------------------------------
  // What a refusal says

  /** The members of a path, as the walk keeps them. */
  ghost function Members(p: seq<Id>): set<Id> {
    set id | id in p
  }

  /** A way from the start to the next row: usable rows up to it, loaded rows all ancestors. */
  ghost predicate Way(q: Query, p: seq<Id>, loaded: set<Id>) {
    && ChainFrom(q.View(), q.start, p)
    && (forall i :: 0 <= i < |p| - 1 ==> q.RowOk(p[i]))
    && loaded <= Ancestry(q)
  }

  /** The outcome names a defect that the lineage has. */
  ghost predicate Explained(q: Query, outcome: Outcome) {
    match outcome
    case Accepted => true
    case Unresolved => Unresolvable(q)
    case HistoricalDenied => exists p :: LeadsToHistory(q, p)
  }

  lemma WayEnds(q: Query, p: seq<Id>, loaded: set<Id>)
    requires Way(q, p, loaded)
    ensures Reaches(q.View(), q.start, p[|p| - 1])
  {
    ChainReaches(q.View(), p, |p| - 1);
  }

  lemma WayRepeats(q: Query, p: seq<Id>, loaded: set<Id>)
    requires Way(q, p, loaded) && p[|p| - 1] in Members(p[..|p| - 1])
    ensures Unresolvable(q)
  {
    var last := |p| - 1;
    var i :| 0 <= i < last && p[..last][i] == p[last];
    WayEnds(q, p, loaded);
    RepeatIsCycle(q.View(), p, i, last);
  }

  /** What the look at one row refuses is a defect, and what it loads is an ancestor. */
  lemma LookExplained(q: Query, p: seq<Id>, loaded: set<Id>)
    requires Way(q, p, loaded) && ValidId(p[|p| - 1])
    ensures var here := Look(q, p[|p| - 1], loaded); Explained(q, here.0) && here.1 <= Ancestry(q)
  {
    var id := p[|p| - 1];
    WayEnds(q, p, loaded);
    if id in q.View() && id !in loaded { SubsetSize(loaded + {id}, Ancestry(q)); }
    VerdictExplained(q, p, loaded);
  }

  lemma VerdictExplained(q: Query, p: seq<Id>, loaded: set<Id>)
    requires Way(q, p, loaded)
    ensures Explained(q, q.RowVerdict(p[|p| - 1]))
  {
    WayEnds(q, p, loaded);
    if q.RowVerdict(p[|p| - 1]) == HistoricalDenied { assert LeadsToHistory(q, p); }
  }

  lemma WayGoesOn(q: Query, p: seq<Id>, loaded: set<Id>, parent: Id)
    requires Way(q, p, loaded) && q.RowOk(p[|p| - 1]) && parent in q.View()[p[|p| - 1]].Parents()
    ensures Way(q, p + [parent], loaded)
    ensures Members((p + [parent])[..|p|]) == Members(p[..|p| - 1]) + {p[|p| - 1]}
  {
    var further := p + [parent];
    assert Edge(q.View(), p[|p| - 1], parent);
    ChainGrows(q.View(), p, parent);
    assert further[..|p|] == p;
    MembersSplit(p);
  }

  lemma MembersSplit(p: seq<Id>)
    requires p != []
    ensures Members(p) == Members(p[..|p| - 1]) + {p[|p| - 1]}
  {
    assert p == p[..|p| - 1] + [p[|p| - 1]];
  }

  /** Under the cap as without it, every refusal names a defect of the lineage. */
  lemma {:induction false} CappedExplained(q: Query, p: seq<Id>, path: set<Id>, loaded: set<Id>)
    requires Way(q, p, loaded) && path == Members(p[..|p| - 1])
    ensures var done := Capped(q, p[|p| - 1], path, loaded); Explained(q, done.0) && done.1 <= Ancestry(q)
    decreases q.View().Keys - path, 0
  {
    var id := p[|p| - 1];
    WayEnds(q, p, loaded);
    if id in path {
      WayRepeats(q, p, loaded);
    } else if ValidId(id) {
      LookExplained(q, p, loaded);
      if Look(q, id, loaded).0 == Accepted {
        assert id in (q.View().Keys - path) && id !in (q.View().Keys - (path + {id}));
        CappedAllExplained(q, p, q.View()[id].Parents(), path + {id}, loaded + {id});
      }
    }
  }

  lemma {:induction false} CappedAllExplained(q: Query, p: seq<Id>, ids: seq<Id>, path: set<Id>, loaded: set<Id>)
    requires Way(q, p, loaded) && q.RowOk(p[|p| - 1]) && path == Members(p[..|p| - 1]) + {p[|p| - 1]}
    requires forall b :: b in ids ==> b in q.View()[p[|p| - 1]].Parents()
    ensures var done := CappedAll(q, ids, path, loaded); Explained(q, done.0) && done.1 <= Ancestry(q)
    decreases q.View().Keys - path, 1 + |ids|
  {
    if ids != [] {
      assert ids[0] in ids && forall b :: b in ids[1..] ==> b in ids;
      WayGoesOn(q, p, loaded, ids[0]);
      CappedExplained(q, p + [ids[0]], path, loaded);
      CappedAllExplained(q, p, ids[1..], path, Capped(q, ids[0], path, loaded).1);
    }
  }

  /** A lineage whose one defect is a historical row is refused for just that. */
  lemma OnlyHistory(q: Query, outcome: Outcome)
    requires Explained(q, outcome) && (outcome == Accepted <==> Acceptable(q)) && !Unresolvable(q)
    ensures outcome == HistoricalDenied <==> HistoricalAncestor(q)
    ensures outcome != Unresolved
  {
    if HistoricalAncestor(q) {
      var id :| Reaches(q.View(), q.start, id) && id in q.View() && q.Historical(id, q.View()[id]);
      assert !q.RowOk(id);
    }
    if outcome == HistoricalDenied {
      var p :| LeadsToHistory(q, p);
      ChainReaches(q.View(), p, |p| - 1);
    }
  }

  lemma GuardExplained(q: Query, outcome: Outcome)
    requires outcome == Capped(q, q.start, {}, {q.start}).0 && (outcome == Accepted <==> Acceptable(q))
    ensures Explained(q, outcome)
    ensures !Unresolvable(q) ==> (outcome == HistoricalDenied <==> HistoricalAncestor(q))
  {
    SelfReached(q.View(), q.start);
    assert Chain(q.View(), [q.start]) && Members([q.start][..0]) == {};
    assert {q.start} <= Ancestry(q);
    CappedExplained(q, [q.start], {}, {q.start});
    if !Unresolvable(q) { OnlyHistory(q, outcome); }
  }

  /** An accepted traversal under the cap has loaded everything that is reached, within the cap. */
  lemma {:induction false} CappedAccepts(q: Query, id: Id, path: set<Id>, loaded: set<Id>)
    requires |loaded| <= MAX_ROWS
    ensures var done := Capped(q, id, path, loaded);
            && loaded <= done.1 && |done.1| <= MAX_ROWS
            && (done.0 == Accepted ==> Naive(q, id, path) == Accepted && Reached(q, id, done.1))
    decreases q.View().Keys - path, 0
  {
    if ValidId(id) && id !in path && Look(q, id, loaded).0 == Accepted {
      assert id in (q.View().Keys - path) && id !in (q.View().Keys - (path + {id}));
      var parents, next := q.View()[id].Parents(), loaded + {id};
      CappedAllAccept(q, parents, path + {id}, next);
      var done := CappedAll(q, parents, path + {id}, next);
      if done.0 == Accepted { ReachedThrough(q, id, done.1); }
    }
  }

  /** Whatever is reached from a row is among the loaded ones. */
  ghost predicate Reached(q: Query, id: Id, loaded: set<Id>) {
    forall p :: ChainFrom(q.View(), id, p) ==> p[|p| - 1] in loaded
  }

  lemma ReachedThrough(q: Query, id: Id, loaded: set<Id>)
    requires id in loaded && id in q.View()
    requires forall b :: b in q.View()[id].Parents() ==> Reached(q, b, loaded)
    ensures Reached(q, id, loaded)
  {
    forall p | ChainFrom(q.View(), id, p)
      ensures p[|p| - 1] in loaded
    {
      if |p| > 1 {
        ChainTail(q.View(), p);
        assert Reached(q, p[1], loaded) && ChainFrom(q.View(), p[1], p[1..]);
        assert p[1..][|p[1..]| - 1] == p[|p| - 1];
      }
    }
  }

  lemma {:induction false} CappedAllAccept(q: Query, ids: seq<Id>, path: set<Id>, loaded: set<Id>)
    requires |loaded| <= MAX_ROWS
    ensures var done := CappedAll(q, ids, path, loaded);
            && loaded <= done.1 && |done.1| <= MAX_ROWS
            && (done.0 == Accepted ==>
                NaiveAll(q, ids, path) == Accepted && forall b :: b in ids ==> Reached(q, b, done.1))
    decreases q.View().Keys - path, 1 + |ids|
  {
    if ids != [] {
      CappedAccepts(q, ids[0], path, loaded);
      var first := Capped(q, ids[0], path, loaded);
      if first.0 == Accepted {
        CappedAllAccept(q, ids[1..], path, first.1);
        var done := CappedAll(q, ids[1..], path, first.1);
        assert ids == [ids[0]] + ids[1..];
        if done.0 == Accepted { assert Reached(q, ids[0], done.1); }
      }
    }
  }

  /** The traversal under the cap decides acceptability. */
  lemma GuardDecides(q: Query)
    ensures GuardOutcome(q) == Accepted <==> Acceptable(q)
  {
    NaiveDecides(q);
    CappedAccepts(q, q.start, {}, {q.start});
    var done := Capped(q, q.start, {}, {q.start});
    if done.0 == Accepted {
      forall id | id in Ancestry(q)
        ensures id in done.1
      {
        var p :| ChainFrom(q.View(), q.start, p) && p[|p| - 1] == id;
      }
      SubsetSize(Ancestry(q), done.1);
    }
    if Acceptable(q) {
      SelfReached(q.View(), q.start);
      assert {q.start} <= Ancestry(q);
      CappedWithin(q, q.start, {}, {q.start});
    }
  }

  /** What the guard answers. */
  function GuardOutcome(q: Query): Outcome {
    Capped(q, q.start, {}, {q.start}).0
  }

  /** The parents are visited in turn, the superseded one first: the first refusal is the outcome. */
  lemma ParentsInTurn(q: Query, id: Id, path: set<Id>)
    requires q.RowOk(id) && id !in path
    ensures var row, next := q.View()[id], path + {id};
            var first := if row.supersedes.Some? then Naive(q, row.supersedes.value, next) else Accepted;
            var second := if row.changeOrderOf.Some? then Naive(q, row.changeOrderOf.value, next) else Accepted;
            Naive(q, id, path) == if first != Accepted then first else second
  {
    assert id in (q.View().Keys - path) && id !in (q.View().Keys - (path + {id}));
    var parents, next := q.View()[id].Parents(), path + {id};
    if parents != [] {
      assert NaiveAll(q, parents[1..], next)
          == if |parents| == 1 then Accepted else Naive(q, parents[1], next) by {
        if |parents| == 2 { assert NaiveAll(q, parents[1..][1..], next) == Accepted; }
      }
    }
  }

  // ---------------------------------------------------------------------------------------------
  // The walk as written: a shared row cache, a memo of finished rows and a cap.

  /** A finished row is usable and its parents finished before it did. */
  ghost predicate Finished(q: Query, rank: map<Id, nat>, id: Id) {
    && q.RowOk(id)
    && id in rank
    && rank[id] < |rank|
    && forall b :: b in q.View()[id].Parents() ==> b in rank && rank[b] < rank[id]
  }

  ghost predicate Settled(q: Query, rank: map<Id, nat>) {
    forall id {:trigger Finished(q, rank, id)} :: id in rank ==> Finished(q, rank, id)
  }

  /** A finished row is accepted again, without loading anything, on every path that avoids its own ancestry. */
  lemma {:induction false} SettledAccepts(q: Query, rank: map<Id, nat>, id: Id, path: set<Id>, loaded: set<Id>)
    requires Settled(q, rank) && id in rank && rank.Keys <= loaded
    requires forall x :: x in path && x in rank ==> rank[x] > rank[id]
    ensures Capped(q, id, path, loaded) == (Accepted, loaded)
    decreases rank[id], 0
  {
    assert Finished(q, rank, id);
    assert loaded + {id} == loaded;
    SettledAllAccept(q, rank, q.View()[id].Parents(), rank[id], path + {id}, loaded);
  }

  lemma {:induction false} SettledAllAccept(
    q: Query, rank: map<Id, nat>, ids: seq<Id>, bound: nat, path: set<Id>, loaded: set<Id>)
    requires Settled(q, rank) && rank.Keys <= loaded
    requires forall b :: b in ids ==> b in rank && rank[b] < bound
    requires forall x :: x in path && x in rank ==> rank[x] >= bound
    ensures CappedAll(q, ids, path, loaded) == (Accepted, loaded)
    decreases bound, 0, |ids|
  {
    if ids != [] {
      SettledAccepts(q, rank, ids[0], path, loaded);
      SettledAllAccept(q, rank, ids[1..], bound, path, loaded);
    }
  }

  lemma {:induction false} SettledClosed(q: Query, rank: map<Id, nat>, p: seq<Id>)
    requires Settled(q, rank) && Chain(q.View(), p) && p[0] in rank
    ensures p[|p| - 1] in rank
    decreases |p|
  {
    if |p| > 1 {
      ChainTail(q.View(), p);
      assert Finished(q, rank, p[0]);
      SettledClosed(q, rank, p[1..]);
    }
  }

  lemma AncestryBounded(q: Query, rank: map<Id, nat>)
    requires Settled(q, rank) && q.start in rank
    ensures Ancestry(q) <= rank.Keys && |Ancestry(q)| <= |rank|
  {
    forall id | id in Ancestry(q)
      ensures id in rank
    {
      var p :| ChainFrom(q.View(), q.start, p) && p[|p| - 1] == id;
      SettledClosed(q, rank, p);
    }
    SubsetSize(Ancestry(q), rank.Keys);
    assert |rank.Keys| == |rank|;
  }

  /** A cached row is the stored one and is an ancestor of the start. */
  ghost predicate Known(q: Query, found: map<Id, Draft>, id: Id) {
    id in found && id in q.View() && found[id] == q.View()[id] && Reaches(q.View(), q.start, id)
  }

  /** What the walk knows between two steps. */
  ghost predicate Walk(q: Query, found: map<Id, Draft>, rank: map<Id, nat>, loads: seq<Id>) {
    && q.start in found
    && (forall id {:trigger Known(q, found, id)} :: id in found ==> Known(q, found, id))
    && |found| <= MAX_ROWS
    && rank.Keys <= found.Keys
    && Settled(q, rank)
    && LoadedOnce(q, found, loads)
  }

  ghost predicate LoadedOnce(q: Query, found: map<Id, Draft>, loads: seq<Id>) {
    && (forall i :: 0 <= i < |loads| ==> loads[i] in found && loads[i] != q.start)
    && (forall i, j :: 0 <= i < j < |loads| ==> loads[i] != loads[j])
  }

  lemma WalkStarts(q: Query)
    ensures Walk(q, map[q.start := q.current], map[], [])
  {
    SelfReached(q.View(), q.start);
  }

  lemma LoadsBounded(q: Query, found: map<Id, Draft>, loads: seq<Id>)
    requires q.start in found && |found| <= MAX_ROWS && LoadedOnce(q, found, loads)
    ensures |loads| < MAX_ROWS
  {
    var loaded := set x | x in loads;
    SizeMeansDistinct(loads);
    SubsetSize(loaded + {q.start}, found.Keys);
    assert |found.Keys| == |found|;
  }

  lemma WalkLoads(q: Query, found: map<Id, Draft>, rank: map<Id, nat>, loads: seq<Id>, id: Id)
    requires Walk(q, found, rank, loads) && Reaches(q.View(), q.start, id)
    requires id !in found && |found| < MAX_ROWS && id in q.table
    ensures Walk(q, found[id := q.table[id]], rank, loads + [id])
  {
    forall x | x in found
      ensures Known(q, found[id := q.table[id]], x)
    {
      assert Known(q, found, x);
    }
  }

  lemma WalkCompletes(q: Query, found: map<Id, Draft>, rank: map<Id, nat>, loads: seq<Id>, id: Id)
    requires Walk(q, found, rank, loads)
    requires id in found && id !in rank && q.RowOk(id)
    requires forall b :: b in q.View()[id].Parents() ==> b in rank
    ensures Walk(q, found, rank[id := |rank|], loads)
  {
    var next := rank[id := |rank|];
    assert |next| == |rank| + 1;
    forall x | x in next
      ensures Finished(q, next, x)
    {
      if x != id {
        assert Finished(q, rank, x);
      } else {
        assert forall b :: b in q.View()[id].Parents() ==> Finished(q, rank, b);
      }
    }
  }

  lemma NextParent(q: Query, parents: seq<Id>, i: nat, path: set<Id>, loaded: set<Id>)
    requires i < |parents|
    ensures var first := Capped(q, parents[i], path, loaded);
            CappedAll(q, parents[i..], path, loaded)
            == if first.0 != Accepted then first else CappedAll(q, parents[i + 1..], path, first.1)
  {
    assert parents[i..][0] == parents[i] && parents[i..][1..] == parents[i + 1..];
  }

  class LineageCheck {
    const q: Query
    var found: map<Id, Draft>
    var complete: set<Id>
    ghost var rank: map<Id, nat>
    ghost var loads: seq<Id>
    ghost var calls: nat
    ghost var deepest: nat

    ghost predicate Valid()
      reads this
    {
      complete == rank.Keys && deepest <= MAX_ROWS + 1 && Walk(q, found, rank, loads)
    }

    constructor (q: Query)
      ensures Valid() && this.q == q
      ensures found == map[q.start := q.current] && complete == {} && calls == 0 && loads == []
    {
      this.q := q;
      found := map[q.start := q.current];
      complete := {};
      rank := map[];
      loads := [];
      calls, deepest := 0, 0;
      WalkStarts(q);
    }

    /** Loads a row on first sight, unless that passes the cap, and checks it alone. */
    method Inspect(id: Id) returns (outcome: Outcome)
      requires Valid() && Reaches(q.View(), q.start, id) && ValidId(id)
      modifies this`found, this`loads
      ensures Valid() && old(found.Keys) <= found.Keys
      ensures outcome == Accepted ==> q.RowOk(id) && id in found && found[id] == q.View()[id]
      ensures outcome == HistoricalDenied ==> HistoricalAncestor(q)
      ensures (outcome, found.Keys) == Look(q, id, old(found.Keys))
    {
      assert |found.Keys| == |found|;
      if id !in found {
        if |found| >= MAX_ROWS {
          return Unresolved;
        }
        if id !in q.table {
          return Unresolved;
        }
        WalkLoads(q, found, rank, loads, id);
        found := found[id := q.table[id]];
        loads := loads + [id];
      }
      assert Known(q, found, id) && found.Keys == old(found.Keys) + {id};
      var row := found[id];
      if !q.InScope(row) {
        return Unresolved;
      }
      if q.Historical(id, row) {
        return HistoricalDenied;
      }
      if !q.SourceUsable(row) {
        return Unresolved;
      }
      return Accepted;
    }

    /** Settles a visit that needs no parents: a bad row, a repeat on the path or a finished row. */
    method Enter(id: Id, path: set<Id>) returns (early: Option<Outcome>)
      requires Valid() && Reaches(q.View(), q.start, id)
      requires path <= found.Keys && path !! complete
      modifies this`found, this`loads, this`calls, this`deepest
      ensures Valid() && old(found.Keys) <= found.Keys && calls == old(calls) + 1
      ensures early == Some(Accepted) ==> id in complete
      ensures early == Some(HistoricalDenied) ==> HistoricalAncestor(q)
      ensures early == None ==>
                && id !in path && id !in complete && q.RowOk(id)
                && id in found && found[id] == q.View()[id]
      ensures early.Some? ==> (early.value, found.Keys) == Capped(q, id, path, old(found.Keys))
      ensures early == None ==>
                Capped(q, id, path, old(found.Keys)) == CappedAll(q, q.View()[id].Parents(), path + {id}, found.Keys)
    {
      SubsetSize(path, found.Keys);
      calls, deepest := calls + 1, if deepest <= |path| then |path| + 1 else deepest;
      if !ValidId(id) || id in path {
        return Some(Unresolved);
      }
      if id in complete {
        SettledAccepts(q, rank, id, path, found.Keys);
        return Some(Accepted);
      }
      var outcome := Inspect(id);
      return if outcome == Accepted then None else Some(outcome);
    }

    method Visit(id: Id, path: set<Id>) returns (outcome: Outcome)
      requires Valid() && Reaches(q.View(), q.start, id)
      requires path <= found.Keys && path !! complete
      modifies this
      ensures Valid() && path !! complete
      ensures old(found.Keys) <= found.Keys && old(complete) <= complete
      ensures outcome == Accepted ==> id in complete && calls <= old(calls) + 1 + 2 * (|complete| - |old(complete)|)
      ensures outcome == HistoricalDenied ==> HistoricalAncestor(q)
      ensures (outcome, found.Keys) == Capped(q, id, path, old(found.Keys))
      decreases MAX_ROWS - |path|, 0
    {
      var early := Enter(id, path);
      if early.Some? {
        return early.value;
      }
      SubsetSize(path + {id}, found.Keys);
      outcome := VisitParents(id, path + {id});
      if outcome != Accepted {
        return;
      }
      Finish(id);
    }

    /** Marks a row whose parents are all finished. */
    method Finish(id: Id)
      requires Valid() && id in found && id !in complete && q.RowOk(id)
      requires forall b :: b in q.View()[id].Parents() ==> b in complete
      modifies this`complete, this`rank
      ensures Valid()
      ensures complete == old(complete) + {id} && |complete| == |old(complete)| + 1
    {
      WalkCompletes(q, found, rank, loads, id);
      assert |rank.Keys| == |rank|;
      rank := rank[id := |complete|];
      complete := complete + {id};
    }

    method VisitParents(id: Id, next: set<Id>) returns (outcome: Outcome)
      requires Valid() && Reaches(q.View(), q.start, id)
      requires id in found && id in q.View() && found[id] == q.View()[id]
      requires next <= found.Keys && next !! complete && |next| <= MAX_ROWS
      modifies this
      ensures Valid() && next !! complete
      ensures old(found.Keys) <= found.Keys && old(complete) <= complete
      ensures outcome == Accepted ==>
                && (forall b :: b in q.View()[id].Parents() ==> b in complete)
                && calls <= old(calls) + 2 + 2 * (|complete| - |old(complete)|)
      ensures outcome == HistoricalDenied ==> HistoricalAncestor(q)
      ensures (outcome, found.Keys) == CappedAll(q, q.View()[id].Parents(), next, old(found.Keys))
      decreases MAX_ROWS - |next|, 1
    {
      var parents := found[id].Parents();
      var i := 0;
      assert parents[0..] == parents;
      while i < |parents|
        invariant 0 <= i <= |parents|
        invariant Valid() && next !! complete && next <= found.Keys
        invariant old(found.Keys) <= found.Keys && old(complete) <= complete
        invariant forall b :: b in parents[..i] ==> b in complete
        invariant calls <= old(calls) + i + 2 * (|complete| - |old(complete)|)
        invariant CappedAll(q, parents, next, old(found.Keys)) == CappedAll(q, parents[i..], next, found.Keys)
      {
        assert parents[i] in parents && parents[..i + 1] == parents[..i] + [parents[i]];
        ParentReached(q, id, parents[i]);
        NextParent(q, parents, i, next, found.Keys);
        outcome := Visit(parents[i], next);
        if outcome != Accepted {
          return;
        }
        i := i + 1;
      }
      assert parents[..i] == parents && parents[i..] == [];
      return Accepted;
    }
  }

  /**
   * The guard.  It accepts exactly the acceptable drafts; every refusal names a defect that the lineage
   * has, and a lineage that is historical and otherwise in order is refused as historical.  Its outcome is that
   * of the naive traversal under the cap, and of the naive traversal while the ancestry fits; it loads
   * no row twice; it is never deeper than 1001 calls; and an accepted walk makes at most 2001 visits.
   */
  method AssertNonHistoricalLineage(q: Query)
    returns (outcome: Outcome, ghost loads: seq<Id>, ghost calls: nat, ghost depth: nat)
    ensures outcome == Accepted <==> Acceptable(q)
    ensures outcome == GuardOutcome(q)
    ensures |Ancestry(q)| <= MAX_ROWS ==> outcome == Naive(q, q.start, {})
    ensures forall i, j :: 0 <= i < j < |loads| ==> loads[i] != loads[j]
    ensures |loads| < MAX_ROWS
    ensures Explained(q, outcome)
    ensures !Unresolvable(q) ==> (outcome == HistoricalDenied <==> HistoricalAncestor(q))
    ensures outcome == HistoricalDenied ==> HistoricalAncestor(q)
    ensures outcome == Accepted ==> calls <= 1 + 2 * MAX_ROWS
    ensures depth <= MAX_ROWS + 1
  {
    var check := new LineageCheck(q);
    SelfReached(q.View(), q.start);
    assert check.found.Keys == {q.start} && {q.start} <= Ancestry(q);
    outcome := check.Visit(q.start, {});
    NaiveDecides(q);
    if |Ancestry(q)| <= MAX_ROWS { CappedWithin(q, q.start, {}, {q.start}); }
    if outcome == Accepted {
      AncestryBounded(q, check.rank);
      SubsetSize(check.complete, check.found.Keys);
      assert |check.found.Keys| == |check.found| && |check.rank.Keys| == |check.rank|;
    }
    GuardExplained(q, outcome);
    LoadsBounded(q, check.found, check.loads);
    loads, calls, depth := check.loads, check.calls, check.deepest;
  }
}
