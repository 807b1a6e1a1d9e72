/**
 * The guard of references to estimates (server/historical-estimate-guard.ts): an iterative walk over
 * the ancestry of a referenced draft, with an explicit stack and a cap of its own.
 */
module ScopedLineage {
  import opened Wrappers
  import opened Collections
  import opened Drafts

  const MAX_NODES: nat := 128

  /** Why a reference is refused. */
  datatype Refusal = ScopeUnresolved | Cycle | TooLarge | Unavailable | Historical

  /** One call: the snapshot, the referenced draft if any, and the caller's project and tenant if resolved. */
  datatype Query = Query(
    table: map<Id, Draft>,
    imports: set<Id>,
    start: Option<Id>,
    scope: Option<(Id, Id)>)
  {
    predicate InScope(id: Id) {
      id in table && scope == Some((table[id].project, table[id].tenant))
    }

    predicate IsHistorical(id: Id) {
      id in table && (table[id].source.HistoricalImport? || id in imports)
    }

    predicate RowOk(id: Id) {
      InScope(id) && !IsHistorical(id)
    }
  }

  // ---------------------------------------------------------------------------------------------
  // The declarative reading

  ghost predicate FromStart(q: Query, id: Id) {
    q.start.Some? && Reaches(q.table, q.start.value, id)
  }

  /** Reached through usable rows alone: what the guard may look at without leaving the caller's scope. */
  ghost predicate Approached(q: Query, id: Id) {
    q.start.Some? && exists p :: UsableWay(q, p) && p[|p| - 1] == id
  }

  ghost predicate UsableWay(q: Query, p: seq<Id>) {
    && q.start.Some?
    && ChainFrom(q.table, q.start.value, p)
    && forall i :: 0 <= i < |p| - 1 ==> q.RowOk(p[i])
  }

  lemma ApproachedReached(q: Query, id: Id)
    requires Approached(q, id)
    ensures FromStart(q, id)
  {
  }

  lemma ApproachesParent(q: Query, id: Id, parent: Id)
    requires Approached(q, id) && q.RowOk(id) && Edge(q.table, id, parent)
    ensures Approached(q, parent)
  {
    var p :| UsableWay(q, p) && p[|p| - 1] == id;
    assert Chain(q.table, [id, parent]);
    ChainJoin(q.table, p, [id, parent]);
    var r := p + [id, parent][1..];
    assert UsableWay(q, r) && r[|r| - 1] == parent;
  }

  ghost function Ancestors(q: Query): set<Id> {
    set id | id in q.table && FromStart(q, id)
  }

  /** All rows from the referenced one on are in scope and not historical, acyclic, and at most 128. */
  ghost predicate Usable(q: Query) {
    && q.scope.Some?
    && (forall id :: FromStart(q, id) ==> q.RowOk(id) && !OnCycle(q.table, id))
    && |Ancestors(q)| <= MAX_NODES
  }

  /** What acceptance says, column by column. */
  lemma UsableMeans(q: Query, project: Id, tenant: Id)
    requires q.scope == Some((project, tenant))
    ensures Usable(q) <==>
              && |Ancestors(q)| <= 128
              && forall id :: FromStart(q, id) ==>
                   && !OnCycle(q.table, id) && id in q.table
                   && q.table[id].project == project && q.table[id].tenant == tenant
                   && q.table[id].source != HistoricalImport && id !in q.imports
  {
  }

  /** What a refusal says of the ancestry. */
  ghost predicate Explains(q: Query, why: Refusal) {
    match why
    case ScopeUnresolved => q.scope.None?
    case Cycle => exists id :: Approached(q, id) && OnCycle(q.table, id)
    case TooLarge => |Ancestors(q)| > MAX_NODES || exists id :: Approached(q, id) && id !in q.table
    case Unavailable => exists id :: Approached(q, id) && !q.InScope(id)
    case Historical => exists id :: Approached(q, id) && q.InScope(id) && q.IsHistorical(id)
  }

  /** Reaching by at least one edge. */
  ghost predicate Above(t: map<Id, Draft>, a: Id, b: Id) {
    exists p :: ChainFrom(t, a, p) && |p| > 1 && p[|p| - 1] == b
  }

  lemma EdgeAbove(t: map<Id, Draft>, a: Id, b: Id)
    requires Edge(t, a, b)
    ensures Above(t, a, b)
  {
    var p := [a, b];
    assert Link(t, p, 0);
    assert ChainFrom(t, a, p) && |p| > 1 && p[|p| - 1] == b;
  }

  lemma AboveEdge(t: map<Id, Draft>, a: Id, b: Id, c: Id)
    requires Above(t, a, b) && Edge(t, b, c)
    ensures Above(t, a, c)
  {
    var p :| ChainFrom(t, a, p) && |p| > 1 && p[|p| - 1] == b;
    var e := [b, c];
    assert Link(t, e, 0);
    ChainJoin(t, p, e);
    var r := p + e[1..];
    assert ChainFrom(t, a, r) && |r| > 1 && r[|r| - 1] == c;
  }

  // ---------------------------------------------------------------------------------------------
  // Verified rows

  /** A verified row is usable and its parents were verified before it. */
  ghost predicate Finished(q: Query, rank: map<Id, nat>, id: Id) {
    && id in rank && rank[id] < |rank|
    && q.RowOk(id)
    && forall b :: b in q.table[id].Parents() ==> b in rank && rank[b] < rank[id]
  }

  ghost predicate Settled(q: Query, rank: map<Id, nat>) {
    forall id {:trigger Finished(q, rank, id)} :: id in rank ==> Finished(q, rank, id)
  }

  /** Every chain from a verified row stays among verified rows, and goes down in rank. */
  lemma {:induction false} SettledDescends(q: Query, rank: map<Id, nat>, p: seq<Id>)
    requires Settled(q, rank) && Chain(q.table, p) && p[0] in rank
    ensures p[|p| - 1] in rank && (|p| > 1 ==> rank[p[|p| - 1]] < rank[p[0]])
    decreases |p|
  {
    assert Finished(q, rank, p[0]);
    if |p| > 1 {
      ChainTail(q.table, p);
      SettledDescends(q, rank, p[1..]);
    }
  }

  lemma SettledUsable(q: Query, rank: map<Id, nat>)
    requires q.scope.Some? && q.start.Some? && q.start.value in rank && Settled(q, rank) && |rank| <= MAX_NODES
    ensures Usable(q)
  {
    forall id | FromStart(q, id)
      ensures id in rank && q.RowOk(id) && !OnCycle(q.table, id)
    {
      var p :| ChainFrom(q.table, q.start.value, p) && p[|p| - 1] == id;
      SettledDescends(q, rank, p);
      assert Finished(q, rank, id);
      if c :| ChainFrom(q.table, id, c) && |c| > 1 && c[|c| - 1] == id {
        SettledDescends(q, rank, c);
      }
    }
    SubsetSize(Ancestors(q), rank.Keys);
    assert |rank.Keys| == |rank|;
  }

  lemma SettledGrows(q: Query, rank: map<Id, nat>, id: Id)
    requires Settled(q, rank) && id !in rank && q.RowOk(id)
    requires forall b :: b in q.table[id].Parents() ==> b in rank
    ensures Settled(q, rank[id := |rank|])
  {
    var next := rank[id := |rank|];
    assert |next| == |rank| + 1;
    forall x | x in next
      ensures Finished(q, next, x)
    {
      if x != id {
        assert Finished(q, rank, x);
      } else {
        assert forall b :: b in q.table[id].Parents() ==> Finished(q, rank, b);
      }
    }
  }

  // ---------------------------------------------------------------------------------------------
  // The walk

  /** A row still to visit, or one to leave once everything above it is done. */
  datatype Frame = Frame(id: Id, exiting: bool)

  /** The parents as they are pushed, so that the later of them is visited first. */
  function Pushed(row: Draft): seq<Frame> {
    (match row.changeOrderOf case Some(a) => [Frame(a, false)] case None => []) +
    (match row.supersedes
     case Some(b) => if row.changeOrderOf == row.supersedes then [] else [Frame(b, false)]
     case None => [])
  }

  lemma PushedParents(row: Draft, b: Id)
    ensures b in row.Parents() <==> Frame(b, false) in Pushed(row)
    ensures |Pushed(row)| <= 2 && forall f :: f in Pushed(row) ==> !f.exiting
  {
  }

  /** The frames and the two sets fit together. */
  ghost predicate Stacked(q: Query, pending: seq<Frame>, active: set<Id>) {
    && (forall k :: 0 <= k < |pending| ==> Approached(q, pending[k].id))
    && (forall k :: 0 <= k < |pending| && pending[k].exiting ==> pending[k].id in active)
    && (forall id :: id in active ==> Frame(id, true) in pending)
    && (forall j, k {:trigger Under(q, pending, j, k)} :: 0 <= j < k < |pending| ==> Under(q, pending, j, k))
  }

  /** Whatever lies above a row to leave comes from it by some edges, and is no second exit of it. */
  ghost predicate Under(q: Query, pending: seq<Frame>, j: int, k: int)
    requires 0 <= j < k < |pending|
  {
    pending[j].exiting ==>
      && Above(q.table, pending[j].id, pending[k].id)
      && (pending[k].exiting ==> pending[j].id != pending[k].id)
  }

  /** The parents of a row to leave are verified or wait above it. */
  ghost predicate Awaited(q: Query, pending: seq<Frame>, verified: set<Id>) {
    forall k {:trigger AwaitedAt(q, pending, verified, k)} :: 0 <= k < |pending| ==> AwaitedAt(q, pending, verified, k)
  }

  ghost predicate AwaitedAt(q: Query, pending: seq<Frame>, verified: set<Id>, k: int)
    requires 0 <= k < |pending|
  {
    pending[k].exiting && q.RowOk(pending[k].id) ==>
      forall b :: b in q.table[pending[k].id].Parents() ==> b in verified || Waits(pending, k, b)
  }

  ghost predicate Waits(pending: seq<Frame>, k: int, b: Id) {
    exists j :: k < j < |pending| && 0 <= j && pending[j].id == b
  }

  predicate Counted(active: set<Id>, verified: set<Id>, inspected: nat) {
    active !! verified && inspected == |active| + |verified| && inspected <= MAX_NODES
  }

  lemma CountedLeaves(active: set<Id>, verified: set<Id>, inspected: nat, id: Id)
    requires Counted(active, verified, inspected) && id in active
    ensures Counted(active - {id}, verified + {id}, inspected)
  {
  }

  lemma CountedAll(active: set<Id>, verified: set<Id>, inspected: nat)
    requires Counted(active, verified, inspected)
    ensures |active + verified| == inspected
  {
  }

  ghost predicate Inspected(q: Query, active: set<Id>, rank: map<Id, nat>, inspected: nat) {
    && Counted(active, rank.Keys, inspected)
    && (forall id :: id in active ==> q.RowOk(id))
    && (forall id :: id in active || id in rank ==> Approached(q, id))
    && Settled(q, rank)
  }

  /** The variables of the loop, with the order in which rows were verified. */
  datatype Progress = Progress(pending: seq<Frame>, active: set<Id>, rank: map<Id, nat>, inspected: nat)
  {
    function Top(): Frame
      requires pending != []
    {
      pending[|pending| - 1]
    }

    function Rest(): seq<Frame>
      requires pending != []
    {
      pending[..|pending| - 1]
    }

    function Leaves(): Progress
      requires pending != []
    {
      Progress(Rest(), active - {Top().id}, rank[Top().id := |rank|], inspected)
    }

    function Skips(): Progress
      requires pending != []
    {
      Progress(Rest(), active, rank, inspected)
    }

    function Enters(row: Draft): Progress
      requires pending != []
    {
      Progress(Rest() + [Frame(Top().id, true)] + Pushed(row), active + {Top().id}, rank, inspected + 1)
    }
  }

  /** What holds between two frames. */
  ghost predicate Walk(q: Query, pending: seq<Frame>, active: set<Id>, rank: map<Id, nat>, inspected: nat) {
    && q.start.Some?
    && Stacked(q, pending, active) && Awaited(q, pending, rank.Keys) && Inspected(q, active, rank, inspected)
    && (q.start.value in rank || Waits(pending, -1, q.start.value))
  }

  ghost function Walking(q: Query): Progress -> bool {
    (s: Progress) => Walk(q, s.pending, s.active, s.rank, s.inspected)
  }

  lemma WalkStarts(q: Query)
    requires q.start.Some?
    ensures Walking(q)(Progress([Frame(q.start.value, false)], {}, map[], 0))
  {
    var pending := [Frame(q.start.value, false)];
    var p := [q.start.value];
    assert UsableWay(q, p) && p[|p| - 1] == q.start.value;
    assert pending[0].id == q.start.value;
    assert Waits(pending, -1, q.start.value);
  }

  /** A frame that waited and is taken off the stack is replaced by what is said of its row. */
  lemma WaitsOn(pending: seq<Frame>, k: int, b: Id)
    requires pending != [] && -1 <= k < |pending| - 1 && Waits(pending, k, b)
    ensures b == pending[|pending| - 1].id || Waits(pending[..|pending| - 1], k, b)
  {
    var j :| k < j < |pending| && 0 <= j && pending[j].id == b;
    if j < |pending| - 1 { assert pending[..|pending| - 1][j].id == b; }
  }

  lemma WaitsMore(pending: seq<Frame>, more: seq<Frame>, k: int, b: Id)
    requires Waits(pending, k, b)
    ensures Waits(pending + more, k, b)
  {
    var j :| k < j < |pending| && 0 <= j && pending[j].id == b;
    assert (pending + more)[j].id == b;
  }

  lemma StackSkips(q: Query, pending: seq<Frame>, active: set<Id>)
    requires Stacked(q, pending, active) && pending != [] && !pending[|pending| - 1].exiting
    ensures Stacked(q, pending[..|pending| - 1], active)
  {
    var rest := pending[..|pending| - 1];
    forall id | id in active
      ensures Frame(id, true) in rest
    {
      var k :| 0 <= k < |pending| && pending[k] == Frame(id, true);
      assert rest[k] == pending[k];
    }
    UnderPrefix(q, pending, active, rest);
  }

  lemma UnderPrefix(q: Query, pending: seq<Frame>, active: set<Id>, rest: seq<Frame>)
    requires Stacked(q, pending, active) && pending != [] && rest == pending[..|pending| - 1]
    ensures forall j, k {:trigger Under(q, rest, j, k)} :: 0 <= j < k < |rest| ==> Under(q, rest, j, k)
  {
    forall j, k | 0 <= j < k < |rest|
      ensures Under(q, rest, j, k)
    {
      assert Under(q, pending, j, k);
    }
  }

  lemma AwaitSkips(q: Query, pending: seq<Frame>, verified: set<Id>)
    requires Awaited(q, pending, verified) && pending != [] && pending[|pending| - 1].id in verified
    ensures Awaited(q, pending[..|pending| - 1], verified)
  {
    var rest := pending[..|pending| - 1];
    forall k | 0 <= k < |rest|
      ensures AwaitedAt(q, rest, verified, k)
    {
      assert AwaitedAt(q, pending, verified, k) && pending[k] == rest[k];
      forall b | Waits(pending, k, b) { WaitsOn(pending, k, b); }
    }
  }

  /** A frame for a row already verified is dropped. */
  lemma WalkSkips(q: Query, s: Progress)
    requires Walking(q)(s) && s.pending != [] && !s.Top().exiting && s.Top().id in s.rank
    ensures Walking(q)(s.Skips())
  {
    StackSkips(q, s.pending, s.active);
    AwaitSkips(q, s.pending, s.rank.Keys);
    if q.start.value !in s.rank { WaitsOn(s.pending, -1, q.start.value); }
  }

  lemma StackLeaves(q: Query, pending: seq<Frame>, active: set<Id>)
    requires Stacked(q, pending, active) && pending != [] && pending[|pending| - 1].exiting
    ensures var id := pending[|pending| - 1].id;
            id in active && Stacked(q, pending[..|pending| - 1], active - {id})
  {
    var id, rest := pending[|pending| - 1].id, pending[..|pending| - 1];
    forall x | x in active - {id}
      ensures Frame(x, true) in rest
    {
      var k :| 0 <= k < |pending| && pending[k] == Frame(x, true);
      assert rest[k] == pending[k];
    }
    UnderPrefix(q, pending, active, rest);
    forall k | 0 <= k < |rest| && rest[k].exiting
      ensures rest[k].id in active - {id}
    {
      assert Under(q, pending, k, |rest|) && pending[k] == rest[k];
    }
  }

  /** With its exit frame on top nothing waits above a row, so its parents are verified; then it is too. */
  lemma AwaitLeaves(q: Query, pending: seq<Frame>, verified: set<Id>)
    requires Awaited(q, pending, verified) && pending != [] && pending[|pending| - 1].exiting
    requires q.RowOk(pending[|pending| - 1].id)
    ensures var id := pending[|pending| - 1].id;
            && (forall b :: b in q.table[id].Parents() ==> b in verified)
            && Awaited(q, pending[..|pending| - 1], verified + {id})
  {
    var last := |pending| - 1;
    var id, rest := pending[last].id, pending[..last];
    assert AwaitedAt(q, pending, verified, last);
    forall k | 0 <= k < |rest|
      ensures AwaitedAt(q, rest, verified + {id}, k)
    {
      assert AwaitedAt(q, pending, verified, k) && pending[k] == rest[k];
      forall b | Waits(pending, k, b) { WaitsOn(pending, k, b); }
    }
  }

  lemma InspectedLeaves(q: Query, active: set<Id>, rank: map<Id, nat>, inspected: nat, id: Id)
    requires Inspected(q, active, rank, inspected) && id in active
    requires forall b :: b in q.table[id].Parents() ==> b in rank
    ensures rank[id := |rank|].Keys == rank.Keys + {id}
    ensures Inspected(q, active - {id}, rank[id := |rank|], inspected)
  {
    CountedLeaves(active, rank.Keys, inspected, id);
    SettledGrows(q, rank, id);
    NewKey(rank, id, |rank|);
  }

  lemma NewKey(rank: map<Id, nat>, id: Id, n: nat)
    ensures rank[id := n].Keys == rank.Keys + {id}
  {
  }

  /** A row is left once its exit frame is on top: all its parents are verified by then. */
  lemma WalkLeaves(q: Query, s: Progress)
    requires Walking(q)(s) && s.pending != [] && s.Top().exiting
    ensures s.Top().id in s.active && Walking(q)(s.Leaves())
  {
    var pending, active, rank, inspected := s.pending, s.active, s.rank, s.inspected;
    var id := s.Top().id;
    StackLeaves(q, pending, active);
    AwaitLeaves(q, pending, rank.Keys);
    InspectedLeaves(q, active, rank, inspected, id);
    if q.start.value !in rank { WaitsOn(pending, -1, q.start.value); }
  }

  lemma InspectedEnters(q: Query, active: set<Id>, rank: map<Id, nat>, inspected: nat, id: Id)
    requires Inspected(q, active, rank, inspected) && inspected < MAX_NODES
    requires id !in active && id !in rank && q.RowOk(id) && Approached(q, id)
    ensures Inspected(q, active + {id}, rank, inspected + 1)
  {
  }

  /** The top frame is that of a row to be entered. */
  ghost predicate Entering(q: Query, s: Progress) {
    && s.pending != [] && !s.Top().exiting && s.inspected < MAX_NODES
    && s.Top().id !in s.active && s.Top().id !in s.rank && q.RowOk(s.Top().id)
  }

  lemma EntersStack(q: Query, s: Progress)
    requires Walking(q)(s) && Entering(q, s)
    ensures var next := s.Enters(q.table[s.Top().id]); Stacked(q, next.pending, next.active)
  {
    StackEnters(q, s.pending, s.active);
  }

  lemma EntersAwaited(q: Query, s: Progress)
    requires Walking(q)(s) && Entering(q, s)
    ensures var next := s.Enters(q.table[s.Top().id]); Awaited(q, next.pending, next.rank.Keys)
  {
    AwaitEnters(q, s.pending, s.rank.Keys, s.Enters(q.table[s.Top().id]).pending);
  }

  lemma EntersInspected(q: Query, s: Progress)
    requires Walking(q)(s) && Entering(q, s)
    ensures var next := s.Enters(q.table[s.Top().id]); Inspected(q, next.active, next.rank, next.inspected)
  {
    InspectedEnters(q, s.active, s.rank, s.inspected, s.Top().id);
  }

  lemma EntersStart(q: Query, s: Progress)
    requires Walking(q)(s) && Entering(q, s)
    ensures q.start.Some?
    ensures var next := s.Enters(q.table[s.Top().id]);
            q.start.value in next.rank || Waits(next.pending, -1, q.start.value)
  {
    if q.start.value !in s.rank { WaitsBelow(s.pending, Pushed(q.table[s.Top().id]), -1, q.start.value); }
  }

  /** A new row is entered: its exit frame takes the place of its frame, and its parents come on top. */
  lemma WalkEnters(q: Query, s: Progress)
    requires Walking(q)(s) && Entering(q, s)
    ensures Walking(q)(s.Enters(q.table[s.Top().id]))
  {
    EntersStack(q, s);
    EntersAwaited(q, s);
    EntersInspected(q, s);
    EntersStart(q, s);
  }

  /** The parents pushed for a row are above everything that is above or is the row. */
  lemma PushedAbove(q: Query, pending: seq<Frame>, active: set<Id>, f: Frame)
    requires Stacked(q, pending, active) && pending != [] && q.RowOk(pending[|pending| - 1].id)
    requires f in Pushed(q.table[pending[|pending| - 1].id])
    ensures Approached(q, f.id) && !f.exiting && Above(q.table, pending[|pending| - 1].id, f.id)
    ensures forall j :: 0 <= j < |pending| - 1 && pending[j].exiting ==> Above(q.table, pending[j].id, f.id)
  {
    var last := |pending| - 1;
    var id := pending[last].id;
    PushedParents(q.table[id], f.id);
    assert Edge(q.table, id, f.id) && Approached(q, id);
    ApproachesParent(q, id, f.id);
    EdgeAbove(q.table, id, f.id);
    forall j | 0 <= j < last && pending[j].exiting
      ensures Above(q.table, pending[j].id, f.id)
    {
      assert Under(q, pending, j, last);
      AboveEdge(q.table, pending[j].id, id, f.id);
    }
  }

  /** Turning the top frame into an exit frame. */
  lemma StackTurns(q: Query, pending: seq<Frame>, active: set<Id>)
    requires Stacked(q, pending, active) && pending != [] && !pending[|pending| - 1].exiting
    requires pending[|pending| - 1].id !in active
    ensures var id, rest := pending[|pending| - 1].id, pending[..|pending| - 1];
            Stacked(q, rest + [Frame(id, true)], active + {id})
  {
    var last := |pending| - 1;
    var id, rest := pending[last].id, pending[..last];
    var base := rest + [Frame(id, true)];
    forall x | x in active + {id}
      ensures Frame(x, true) in base
    {
      if x == id {
        assert base[last] == Frame(id, true);
      } else {
        var k :| 0 <= k < |pending| && pending[k] == Frame(x, true);
        assert base[k] == pending[k];
      }
    }
    forall j, k | 0 <= j < k < |base|
      ensures Under(q, base, j, k)
    {
      assert Under(q, pending, j, k);
    }
  }

  /** Frames above everything may be put on top. */
  lemma StackPushes(q: Query, base: seq<Frame>, active: set<Id>, pushed: seq<Frame>)
    requires Stacked(q, base, active)
    requires forall f :: f in pushed ==> Approached(q, f.id) && !f.exiting
    requires forall f, j :: f in pushed && 0 <= j < |base| && base[j].exiting ==> Above(q.table, base[j].id, f.id)
    ensures Stacked(q, base + pushed, active)
  {
    var next := base + pushed;
    assert forall k :: |base| <= k < |next| ==> next[k] in pushed;
    forall x | x in active
      ensures Frame(x, true) in next
    {
      var k :| 0 <= k < |base| && base[k] == Frame(x, true);
      assert next[k] == base[k];
    }
    forall j, k | 0 <= j < k < |next|
      ensures Under(q, next, j, k)
    {
      if k < |base| { assert Under(q, base, j, k); }
    }
  }

  lemma StackEnters(q: Query, pending: seq<Frame>, active: set<Id>)
    requires Stacked(q, pending, active) && pending != [] && !pending[|pending| - 1].exiting
    requires var id := pending[|pending| - 1].id; id !in active && q.RowOk(id)
    ensures var id, rest := pending[|pending| - 1].id, pending[..|pending| - 1];
            Stacked(q, rest + [Frame(id, true)] + Pushed(q.table[id]), active + {id})
  {
    var last := |pending| - 1;
    var id, rest := pending[last].id, pending[..last];
    var pushed := Pushed(q.table[id]);
    forall f | f in pushed
      ensures Approached(q, f.id) && !f.exiting
      ensures Above(q.table, id, f.id)
      ensures forall j :: 0 <= j < last && pending[j].exiting ==> Above(q.table, pending[j].id, f.id)
    {
      PushedAbove(q, pending, active, f);
    }
    StackTurns(q, pending, active);
    StackPushes(q, rest + [Frame(id, true)], active + {id}, pushed);
  }

  /** Below the new exit frame whatever waited waits on. */
  lemma WaitsBelow(pending: seq<Frame>, pushed: seq<Frame>, k: int, b: Id)
    requires pending != [] && -1 <= k < |pending| - 1 && Waits(pending, k, b)
    ensures Waits(pending[..|pending| - 1] + [Frame(pending[|pending| - 1].id, true)] + pushed, k, b)
  {
    var id, rest := pending[|pending| - 1].id, pending[..|pending| - 1];
    var base := rest + [Frame(id, true)];
    WaitsOn(pending, k, b);
    if b == id { assert base[|rest|].id == id; } else { WaitsMore(rest, [Frame(id, true)], k, b); }
    WaitsMore(base, pushed, k, b);
  }

  lemma PushedWait(base: seq<Frame>, row: Draft, b: Id)
    requires base != [] && b in row.Parents()
    ensures Waits(base + Pushed(row), |base| - 1, b)
  {
    var pushed := Pushed(row);
    PushedParents(row, b);
    var j :| 0 <= j < |pushed| && pushed[j] == Frame(b, false);
    assert (base + pushed)[|base| + j].id == b;
  }

  lemma AwaitEnters(q: Query, pending: seq<Frame>, verified: set<Id>, next: seq<Frame>)
    requires Awaited(q, pending, verified) && pending != [] && !pending[|pending| - 1].exiting
    requires pending[|pending| - 1].id in q.table
    requires var id, rest := pending[|pending| - 1].id, pending[..|pending| - 1];
             next == rest + [Frame(id, true)] + Pushed(q.table[id])
    ensures Awaited(q, next, verified)
  {
    var last := |pending| - 1;
    var id, rest := pending[last].id, pending[..last];
    var base, pushed := rest + [Frame(id, true)], Pushed(q.table[id]);
    PushedParents(q.table[id], id);
    forall k | 0 <= k < |next|
      ensures AwaitedAt(q, next, verified, k)
    {
      if k < last {
        assert AwaitedAt(q, pending, verified, k) && next[k] == pending[k];
        forall b | Waits(pending, k, b) { WaitsBelow(pending, pushed, k, b); }
      } else if k == last {
        assert next[k] == Frame(id, true);
        forall b | b in q.table[id].Parents() { PushedWait(base, q.table[id], b); }
      } else {
        assert next[k] == pushed[k - |base|] && next[k] in pushed;
      }
    }
  }

  lemma InspectedAncestors(q: Query, active: set<Id>, rank: map<Id, nat>, inspected: nat)
    requires Inspected(q, active, rank, inspected)
    ensures active + rank.Keys <= Ancestors(q)
  {
    forall x | x in active + rank.Keys
      ensures x in Ancestors(q)
    {
      if x in rank { assert Finished(q, rank, x); }
      assert q.RowOk(x) && Approached(q, x);
    }
  }

  /** The cap refuses only an ancestry that is too large or incomplete. */
  lemma CapExplained(q: Query, active: set<Id>, rank: map<Id, nat>, inspected: nat, id: Id)
    requires Inspected(q, active, rank, inspected) && inspected == MAX_NODES
    requires Approached(q, id) && id !in active && id !in rank
    ensures Explains(q, TooLarge)
  {
    if id in q.table {
      CountedAll(active, rank.Keys, inspected);
      InspectedAncestors(q, active, rank, inspected);
      SubsetSize(active + rank.Keys + {id}, Ancestors(q));
    }
  }

  /** A row met again below itself lies on a cycle. */
  lemma CycleExplained(q: Query, pending: seq<Frame>, active: set<Id>)
    requires Stacked(q, pending, active) && pending != []
    requires var top := pending[|pending| - 1]; !top.exiting && top.id in active
    ensures Explains(q, Cycle)
  {
    var last := |pending| - 1;
    var id := pending[last].id;
    var k :| 0 <= k < |pending| && pending[k] == Frame(id, true);
    assert Under(q, pending, k, last);
    assert Approached(q, id) && OnCycle(q.table, id);
  }

  lemma ExplainedUnusable(q: Query, why: Refusal)
    requires Explains(q, why)
    ensures !Usable(q)
  {
    forall id | Approached(q, id) ensures FromStart(q, id) { ApproachedReached(q, id); }
  }

  // ---------------------------------------------------------------------------------------------
  // The refusal in visiting order

  /** What is said of one row alone, in the order in which it is asked. */
  function Verdict(q: Query, id: Id): Option<Refusal> {
    if !q.InScope(id) then Some(Unavailable) else if q.IsHistorical(id) then Some(Historical) else None
  }

  /** The recursive traversal without memo: it counts the rows it has seen, each once. */
  function Explore(q: Query, id: Id, path: set<Id>, seen: set<Id>): (Option<Refusal>, set<Id>)
    decreases q.table.Keys - path, 0
  {
    if id in path then (Some(Cycle), seen)
    else if id !in seen && |seen| >= MAX_NODES then (Some(TooLarge), seen)
    else if Verdict(q, id).Some? then (Verdict(q, id), seen)
    else
      assert id in (q.table.Keys - path) && id !in (q.table.Keys - (path + {id}));
      ExploreAll(q, q.table[id].Parents(), path + {id}, seen + {id})
  }

  function ExploreAll(q: Query, ids: seq<Id>, path: set<Id>, seen: set<Id>): (Option<Refusal>, set<Id>)
    decreases q.table.Keys - path, 1 + |ids|
  {
    if ids == [] then (None, seen)
    else
      var first := Explore(q, ids[0], path, seen);
      if first.0.Some? then first else ExploreAll(q, ids[1..], path, first.1)
  }

  /** What the traversal has left to do when some frames are pending. */
  function Resume(q: Query, pending: seq<Frame>, path: set<Id>, seen: set<Id>): Option<Refusal>
    decreases |pending|
  {
    if pending == [] then None
    else
      var top, rest := pending[|pending| - 1], pending[..|pending| - 1];
      if top.exiting then Resume(q, rest, path - {top.id}, seen)
      else
        var here := Explore(q, top.id, path, seen);
        if here.0.Some? then here.0 else Resume(q, rest, path, here.1)
  }

  /** Exploring a verified row again finds nothing and sees nothing new. */
  lemma {:induction false} SettledExplores(q: Query, rank: map<Id, nat>, id: Id, path: set<Id>, seen: set<Id>)
    requires Settled(q, rank) && id in rank && rank.Keys <= seen
    requires forall x :: x in path && x in rank ==> rank[x] > rank[id]
    ensures Explore(q, id, path, seen) == (None, seen)
    decreases rank[id], 0
  {
    assert Finished(q, rank, id);
    assert seen + {id} == seen;
    SettledAllExplores(q, rank, q.table[id].Parents(), rank[id], path + {id}, seen);
  }

  lemma {:induction false} SettledAllExplores(
    q: Query, rank: map<Id, nat>, ids: seq<Id>, bound: nat, path: set<Id>, seen: set<Id>)
    requires Settled(q, rank) && rank.Keys <= seen
    requires forall b :: b in ids ==> b in rank && rank[b] < bound
    requires forall x :: x in path && x in rank ==> rank[x] >= bound
    ensures ExploreAll(q, ids, path, seen) == (None, seen)
    decreases bound, 0, |ids|
  {
    if ids != [] {
      SettledExplores(q, rank, ids[0], path, seen);
      SettledAllExplores(q, rank, ids[1..], bound, path, seen);
    }
  }

  lemma ResumeTop(q: Query, rest: seq<Frame>, top: Frame, path: set<Id>, seen: set<Id>)
    ensures Resume(q, rest + [top], path, seen)
         == if top.exiting then Resume(q, rest, path - {top.id}, seen)
            else
              var here := Explore(q, top.id, path, seen);
              if here.0.Some? then here.0 else Resume(q, rest, path, here.1)
  {
    assert (rest + [top])[..|rest|] == rest;
  }

  lemma ResumeDrops(q: Query, pending: seq<Frame>, path: set<Id>, seen: set<Id>, rank: map<Id, nat>)
    requires pending != [] && !pending[|pending| - 1].exiting && pending[|pending| - 1].id in rank
    requires Settled(q, rank) && path !! rank.Keys && rank.Keys <= seen
    ensures Resume(q, pending[..|pending| - 1], path, seen) == Resume(q, pending, path, seen)
  {
    SettledExplores(q, rank, pending[|pending| - 1].id, path, seen);
  }

  /** Frames for some rows, pushed so that the first of them is on top. */
  function Frames(ids: seq<Id>): seq<Frame> {
    if ids == [] then [] else Frames(ids[1..]) + [Frame(ids[0], false)]
  }

  lemma PushedFrames(row: Draft)
    ensures Pushed(row) == Frames(row.Parents())
  {
    var ids := row.Parents();
    if |ids| > 0 { assert Frames(ids) == Frames(ids[1..]) + [Frame(ids[0], false)]; }
    if |ids| > 1 { assert Frames(ids[1..]) == Frames(ids[1..][1..]) + [Frame(ids[1], false)]; }
  }

  /** Pushed frames are taken in the order of the recursive traversal. */
  lemma {:induction false} ResumeFrames(q: Query, base: seq<Frame>, ids: seq<Id>, path: set<Id>, seen: set<Id>)
    ensures var here := ExploreAll(q, ids, path, seen);
            Resume(q, base + Frames(ids), path, seen) == if here.0.Some? then here.0 else Resume(q, base, path, here.1)
    decreases |ids|
  {
    if ids == [] {
      assert base + Frames(ids) == base;
    } else {
      assert base + Frames(ids) == (base + Frames(ids[1..])) + [Frame(ids[0], false)];
      ResumeTop(q, base + Frames(ids[1..]), Frame(ids[0], false), path, seen);
      ResumeFrames(q, base, ids[1..], path, Explore(q, ids[0], path, seen).1);
    }
  }

  lemma ResumeEnters(q: Query, pending: seq<Frame>, path: set<Id>, seen: set<Id>)
    requires pending != [] && !pending[|pending| - 1].exiting
    requires var id := pending[|pending| - 1].id; id !in path && id !in seen && |seen| < MAX_NODES && q.RowOk(id)
    ensures var id, rest := pending[|pending| - 1].id, pending[..|pending| - 1];
            Resume(q, rest + [Frame(id, true)] + Pushed(q.table[id]), path + {id}, seen + {id})
            == Resume(q, pending, path, seen)
  {
    var id, rest := pending[|pending| - 1].id, pending[..|pending| - 1];
    PushedFrames(q.table[id]);
    ResumeFrames(q, rest + [Frame(id, true)], q.table[id].Parents(), path + {id}, seen + {id});
    var here := ExploreAll(q, q.table[id].Parents(), path + {id}, seen + {id});
    ResumeTop(q, rest, Frame(id, true), path + {id}, here.1);
    assert path + {id} - {id} == path;
  }

  // ---------------------------------------------------------------------------------------------
  // The guard

  /** At a row that is refused the ancestry explains why. */
  lemma RefusedThere(
    q: Query, pending: seq<Frame>, active: set<Id>, rank: map<Id, nat>, inspected: nat, why: Refusal)
    requires Walk(q, pending, active, rank, inspected) && pending != [] && !pending[|pending| - 1].exiting
    requires var id := pending[|pending| - 1].id;
             if id in active then why == Cycle
             else id !in rank && (if inspected >= MAX_NODES then why == TooLarge else Verdict(q, id) == Some(why))
    ensures Explains(q, why) && !Usable(q)
  {
    var id := pending[|pending| - 1].id;
    assert Approached(q, id);
    if id in active {
      CycleExplained(q, pending, active);
    } else if inspected >= MAX_NODES {
      CapExplained(q, active, rank, inspected, id);
    }
    ExplainedUnusable(q, why);
  }

  lemma ResumeStarts(q: Query, id: Id)
    ensures Resume(q, [Frame(id, false)], {}, {}) == Explore(q, id, {}, {}).0
  {
    ResumeTop(q, [], Frame(id, false), {}, {});
    assert [] + [Frame(id, false)] == [Frame(id, false)];
  }

  lemma ResumeLeaves(q: Query, pending: seq<Frame>, path: set<Id>, seen: set<Id>)
    requires pending != [] && pending[|pending| - 1].exiting
    ensures Resume(q, pending[..|pending| - 1], path - {pending[|pending| - 1].id}, seen)
         == Resume(q, pending, path, seen)
  {
  }

  // ---------------------------------------------------------------------------------------------
  // The loop

  /** What the loop does next, at a state with frames pending. */
  datatype Move = Leave | Skip | Enter | Refuse(why: Refusal)

  function MoveAt(q: Query, s: Progress): Move
    requires s.pending != []
  {
    var id := s.Top().id;
    if s.Top().exiting then Leave
    else if id in s.active then Refuse(Cycle)
    else if id in s.rank then Skip
    else if s.inspected >= MAX_NODES then Refuse(TooLarge)
    else if Verdict(q, id).Some? then Refuse(Verdict(q, id).value)
    else Enter
  }

  function Moved(q: Query, s: Progress): Progress
    requires s.pending != [] && !MoveAt(q, s).Refuse?
  {
    match MoveAt(q, s)
    case Leave => s.Leaves()
    case Skip => s.Skips()
    case Enter => s.Enters(q.table[s.Top().id])
  }

  /** An answer accepts the usable and explains what it refuses. */
  ghost predicate Justified(q: Query, refusal: Option<Refusal>) {
    (refusal == None <==> Usable(q)) && (refusal.Some? ==> Explains(q, refusal.value))
  }

  ghost function Just(q: Query): Option<Refusal> -> bool {
    (refusal: Option<Refusal>) => Justified(q, refusal)
  }

  /** What a condition on states says of one of them, and that the next state meets it too. */
  ghost predicate Sound(q: Query, holds: Progress -> bool, s: Progress) {
    holds(s) ==>
      && Counted(s.active, s.rank.Keys, s.inspected) && Settled(q, s.rank)
      && if s.pending == [] then Just(q)(None)
         else
           && (s.Top().exiting ==> s.Top().id in s.active)
           && (if MoveAt(q, s).Refuse? then Just(q)(Some(MoveAt(q, s).why)) else holds(Moved(q, s)))
  }

  lemma WalkingMoves(q: Query, s: Progress)
    requires Walking(q)(s) && s.pending != [] && !MoveAt(q, s).Refuse?
    ensures Walking(q)(Moved(q, s))
  {
    match MoveAt(q, s)
    case Leave => WalkLeaves(q, s);
    case Skip => WalkSkips(q, s);
    case Enter => WalkEnters(q, s);
  }

  lemma WalkingEnds(q: Query, s: Progress)
    requires q.scope.Some? && Walking(q)(s) && s.pending == []
    ensures Just(q)(None)
  {
    assert |s.rank.Keys| == |s.rank|;
    SettledUsable(q, s.rank);
  }

  lemma WalkingRefuses(q: Query, s: Progress)
    requires Walking(q)(s) && s.pending != [] && MoveAt(q, s).Refuse?
    ensures Just(q)(Some(MoveAt(q, s).why))
  {
    RefusedThere(q, s.pending, s.active, s.rank, s.inspected, MoveAt(q, s).why);
  }

  lemma WalkingCounts(q: Query, s: Progress)
    requires Walking(q)(s)
    ensures Counted(s.active, s.rank.Keys, s.inspected) && Settled(q, s.rank)
    ensures s.pending != [] && s.Top().exiting ==> s.Top().id in s.active
  {
  }

  lemma WalkingSound(q: Query, s: Progress)
    requires q.scope.Some?
    ensures Sound(q, Walking(q), s)
  {
    if Walking(q)(s) {
      WalkingCounts(q, s);
      if s.pending == [] {
        WalkingEnds(q, s);
      } else if MoveAt(q, s).Refuse? {
        WalkingRefuses(q, s);
      } else {
        WalkingMoves(q, s);
      }
    }
  }

  function Start(q: Query): Progress
    requires q.start.Some?
  {
    Progress([Frame(q.start.value, false)], {}, map[], 0)
  }

  lemma WalkCondition(q: Query) returns (holds: Progress -> bool)
    requires q.scope.Some? && q.start.Some?
    ensures holds(Start(q)) && forall s :: Sound(q, holds, s)
  {
    holds := Walking(q);
    WalkStarts(q);
    forall s { WalkingSound(q, s); }
  }

  // ---------------------------------------------------------------------------------------------
  // The loop finds what the traversal finds

  /** What is left to do at a state gives the refusal of the whole traversal. */
  ghost predicate Owes(q: Query, s: Progress, answer: Option<Refusal>) {
    Resume(q, s.pending, s.active, s.active + s.rank.Keys) == answer
  }

  lemma OwesLeaves(q: Query, s: Progress, answer: Option<Refusal>)
    requires Owes(q, s, answer) && s.pending != [] && s.Top().exiting && s.Top().id in s.active
    ensures Owes(q, s.Leaves(), answer)
  {
    var id, seen := s.Top().id, s.active + s.rank.Keys;
    ResumeLeaves(q, s.pending, s.active, seen);
    NewKey(s.rank, id, |s.rank|);
    assert s.active - {id} + (s.rank.Keys + {id}) == seen;
  }

  lemma OwesSkips(q: Query, s: Progress, answer: Option<Refusal>)
    requires Counted(s.active, s.rank.Keys, s.inspected) && Settled(q, s.rank) && Owes(q, s, answer)
    requires s.pending != [] && !s.Top().exiting && s.Top().id in s.rank
    ensures Owes(q, s.Skips(), answer)
  {
    ResumeDrops(q, s.pending, s.active, s.active + s.rank.Keys, s.rank);
  }

  lemma OneMoreSeen(active: set<Id>, verified: set<Id>, id: Id)
    ensures active + verified + {id} == active + {id} + verified
  {
  }

  lemma OwesEnters(q: Query, s: Progress, answer: Option<Refusal>)
    requires Counted(s.active, s.rank.Keys, s.inspected) && Owes(q, s, answer)
    requires s.pending != [] && !s.Top().exiting && s.inspected < MAX_NODES
    requires s.Top().id !in s.active && s.Top().id !in s.rank && q.RowOk(s.Top().id)
    ensures Owes(q, s.Enters(q.table[s.Top().id]), answer)
  {
    var id, seen := s.Top().id, s.active + s.rank.Keys;
    CountedAll(s.active, s.rank.Keys, s.inspected);
    ResumeEnters(q, s.pending, s.active, seen);
    OneMoreSeen(s.active, s.rank.Keys, id);
  }

  lemma OwesRefuses(q: Query, s: Progress, answer: Option<Refusal>)
    requires Counted(s.active, s.rank.Keys, s.inspected) && Owes(q, s, answer)
    requires s.pending != [] && MoveAt(q, s).Refuse?
    ensures answer == Some(MoveAt(q, s).why)
  {
    CountedAll(s.active, s.rank.Keys, s.inspected);
  }

  lemma OwesStart(q: Query)
    requires q.start.Some?
    ensures Owes(q, Start(q), Explore(q, q.start.value, {}, {}).0)
  {
    var s := Start(q);
    ResumeStarts(q, q.start.value);
    assert s.active + s.rank.Keys == {};
  }

  /** A right answer: it is that of the traversal, accepts the usable and explains what it refuses. */
  ghost predicate Answers(q: Query, refusal: Option<Refusal>) {
    q.start.Some? && refusal == Explore(q, q.start.value, {}, {}).0 && Justified(q, refusal)
  }

  /** Where the condition holds the loop answers rightly, or moves on to where it holds again. */
  ghost predicate Steps(q: Query, holds: Progress -> bool, right: Option<Refusal> -> bool, s: Progress) {
    holds(s) ==>
      && s.inspected <= MAX_NODES
      && if s.pending == [] then right(None)
         else if MoveAt(q, s).Refuse? then right(Some(MoveAt(q, s).why))
         else holds(Moved(q, s))
  }

  ghost function Right(q: Query): Option<Refusal> -> bool {
    (refusal: Option<Refusal>) => Answers(q, refusal)
  }

  lemma OwesMoves(q: Query, s: Progress, answer: Option<Refusal>)
    requires Counted(s.active, s.rank.Keys, s.inspected) && Settled(q, s.rank) && Owes(q, s, answer)
    requires s.pending != [] && (s.Top().exiting ==> s.Top().id in s.active) && !MoveAt(q, s).Refuse?
    ensures Owes(q, Moved(q, s), answer)
  {
    match MoveAt(q, s)
    case Leave => OwesLeaves(q, s, answer);
    case Skip => OwesSkips(q, s, answer);
    case Enter => OwesEnters(q, s, answer);
  }

  ghost function Owing(q: Query, walks: Progress -> bool): Progress -> bool
    requires q.start.Some?
  {
    (s: Progress) => walks(s) && Owes(q, s, Explore(q, q.start.value, {}, {}).0)
  }

  lemma OwesSteps(q: Query, walks: Progress -> bool, s: Progress)
    requires q.start.Some? && Sound(q, walks, s)
    ensures Steps(q, Owing(q, walks), Right(q), s)
  {
    var answer := Explore(q, q.start.value, {}, {}).0;
    if walks(s) && Owes(q, s, answer) && s.pending != [] {
      if MoveAt(q, s).Refuse? { OwesRefuses(q, s, answer); } else { OwesMoves(q, s, answer); }
    }
  }

  lemma LoopCondition(q: Query) returns (holds: Progress -> bool)
    requires q.scope.Some? && q.start.Some?
    ensures holds(Start(q)) && forall s :: Steps(q, holds, Right(q), s)
  {
    var walks := WalkCondition(q);
    OwesStart(q);
    holds := Owing(q, walks);
    forall s | Sound(q, walks, s) { OwesSteps(q, walks, s); }
  }

  /** The loop, over any condition that its steps keep. */
  method WalkAncestry(q: Query, ghost holds: Progress -> bool, ghost right: Option<Refusal> -> bool)
    returns (refusal: Option<Refusal>)
    requires q.scope.Some? && q.start.Some?
    requires holds(Start(q)) && forall s :: Steps(q, holds, right, s)
    ensures right(refusal)
  {
    var active: set<Id>, verified: set<Id> := {}, {};
    var pending, inspected := [Frame(q.start.value, false)], 0;
    ghost var s := Start(q);
    assert Steps(q, holds, right, s);
    while pending != []
      invariant s.pending == pending && s.active == active && s.rank.Keys == verified && s.inspected == inspected
      invariant holds(s) && Steps(q, holds, right, s)
      decreases 3 * (MAX_NODES - inspected) + |pending|
    {
      var last := |pending| - 1;
      var frame := pending[last];
      if frame.exiting {
        pending, active, verified := pending[..last], active - {frame.id}, verified + {frame.id};
        NewKey(s.rank, frame.id, |s.rank|);
        s := s.Leaves();
        continue;
      }
      if frame.id in active {
        return Some(Cycle);
      }
      if frame.id in verified {
        pending := pending[..last];
        s := s.Skips();
        continue;
      }
      if inspected >= MAX_NODES {
        return Some(TooLarge);
      }
      if !q.InScope(frame.id) {
        return Some(Unavailable);
      }
      if q.IsHistorical(frame.id) {
        return Some(Historical);
      }
      PushedParents(q.table[frame.id], frame.id);
      pending := pending[..last] + [Frame(frame.id, true)] + Pushed(q.table[frame.id]);
      active, inspected := active + {frame.id}, inspected + 1;
      s := s.Enters(q.table[frame.id]);
    }
    return None;
  }

  /**
   * The guard as written.  It accepts exactly the references to usable ancestries; every refusal is
   * explained by a row reached through usable rows alone, and is the first that the recursive traversal
   * meets; the walk ends on every table, cyclic ones included.
   */
  method AssertScopedCalculatedLineage(q: Query) returns (refusal: Option<Refusal>)
    ensures refusal == None <==> Usable(q)
    ensures refusal.Some? ==> Explains(q, refusal.value)
    ensures q.scope.Some? && q.start.Some? ==> refusal == Explore(q, q.start.value, {}, {}).0
  {
    if q.scope.None? {
      return Some(ScopeUnresolved);
    }
    if q.start.None? {
      assert Ancestors(q) == {};
      return None;
    }
    ghost var holds := LoopCondition(q);
    refusal := WalkAncestry(q, holds, Right(q));
    assert Answers(q, refusal);
  }
}
