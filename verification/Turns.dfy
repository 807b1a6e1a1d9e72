/**
 * Calls that a system takes in turn: one condition on its states carries it from turn to turn.
 */
module Turns {
  /** Each call comes at its turn, and is ready in the state that the calls before it leave. */
  ghost predicate Due<S(!new), C(!new)>(
    turn: C -> nat, ready: (S, C) -> bool, next: (S, C) -> S, s: S, calls: seq<C>, n: nat)
    decreases |calls|
  {
    calls != [] ==>
      turn(calls[0]) == n && ready(s, calls[0]) && Due(turn, ready, next, next(s, calls[0]), calls[1..], n + 1)
  }

  ghost function AfterAll<S(!new), C(!new)>(next: (S, C) -> S, s: S, calls: seq<C>): S
    decreases |calls|
  {
    if calls == [] then s else AfterAll(next, next(s, calls[0]), calls[1..])
  }

  /** Each call commits when its turn comes. */
  ghost predicate AllCommit<S(!new), C(!new)>(commits: (S, C) -> bool, next: (S, C) -> S, s: S, calls: seq<C>)
    decreases |calls|
  {
    calls != [] ==> commits(s, calls[0]) && AllCommit(commits, next, next(s, calls[0]), calls[1..])
  }

  /** Under the condition a ready call commits, and leaves the condition for the turn after it. */
  ghost predicate CarriesOver<S(!new), C(!new)>(
    holds: (S, nat) -> bool, turn: C -> nat, ready: (S, C) -> bool, commits: (S, C) -> bool, next: (S, C) -> S,
    s: S, call: C)
  {
    holds(s, turn(call)) && ready(s, call) ==> commits(s, call) && holds(next(s, call), turn(call) + 1)
  }

  ghost predicate Carries<S(!new), C(!new)>(
    holds: (S, nat) -> bool, turn: C -> nat, ready: (S, C) -> bool, commits: (S, C) -> bool, next: (S, C) -> S,
    from: nat, to: nat)
  {
    forall s, call :: from <= turn(call) < to ==> CarriesOver(holds, turn, ready, commits, next, s, call)
  }

  lemma {:induction false} DueCommit<S(!new), C(!new)>(
    holds: (S, nat) -> bool, turn: C -> nat, ready: (S, C) -> bool, commits: (S, C) -> bool, next: (S, C) -> S,
    from: nat, to: nat, s: S, calls: seq<C>, n: nat)
    requires Carries(holds, turn, ready, commits, next, from, to)
    requires holds(s, n) && from <= n && n + |calls| == to && Due(turn, ready, next, s, calls, n)
    ensures AllCommit(commits, next, s, calls) && holds(AfterAll(next, s, calls), to)
    decreases |calls|
  {
    if calls != [] {
      assert CarriesOver(holds, turn, ready, commits, next, s, calls[0]);
      DueCommit(holds, turn, ready, commits, next, from, to, next(s, calls[0]), calls[1..], n + 1);
    }
  }

  /** Two calls, one after the other. */
  lemma TwoCalls<S(!new), C(!new)>(
    turn: C -> nat, ready: (S, C) -> bool, commits: (S, C) -> bool, next: (S, C) -> S, s: S, calls: seq<C>, n: nat)
    requires |calls| == 2 && Due(turn, ready, next, s, calls, n)
    ensures turn(calls[0]) == n && ready(s, calls[0])
    ensures turn(calls[1]) == n + 1 && ready(next(s, calls[0]), calls[1])
    ensures AllCommit(commits, next, s, calls) == (commits(s, calls[0]) && commits(next(s, calls[0]), calls[1]))
    ensures AfterAll(next, s, calls) == next(next(s, calls[0]), calls[1])
  {
    var rest, after := calls[1..], next(s, calls[0]);
    assert rest[0] == calls[1] && rest[1..] == [];
    assert Due(turn, ready, next, after, rest, n + 1);
    assert AllCommit(commits, next, after, rest) == commits(after, rest[0]);
    assert AfterAll(next, after, rest) == next(after, rest[0]);
  }

  ghost predicate Alike<S(!new), C(!new)>(
    ready: (S, C) -> bool, commits: (S, C) -> bool, next: (S, C) -> S,
    otherCommits: (S, C) -> bool, otherNext: (S, C) -> S, s: S, call: C)
  {
    ready(s, call) ==> otherCommits(s, call) == commits(s, call) && otherNext(s, call) == next(s, call)
  }

  /** Two systems that agree on the calls ready before some turn take them alike. */
  lemma {:induction false} DueAlike<S(!new), C(!new)>(
    turn: C -> nat, ready: (S, C) -> bool, commits: (S, C) -> bool, next: (S, C) -> S,
    otherCommits: (S, C) -> bool, otherNext: (S, C) -> S, to: nat, s: S, calls: seq<C>, n: nat)
    requires forall t, call :: turn(call) < to ==> Alike(ready, commits, next, otherCommits, otherNext, t, call)
    requires n + |calls| <= to && Due(turn, ready, next, s, calls, n)
    ensures Due(turn, ready, otherNext, s, calls, n) && AfterAll(otherNext, s, calls) == AfterAll(next, s, calls)
    ensures AllCommit(otherCommits, otherNext, s, calls) == AllCommit(commits, next, s, calls)
    decreases |calls|
  {
    if calls != [] {
      assert Alike(ready, commits, next, otherCommits, otherNext, s, calls[0]);
      DueAlike(turn, ready, commits, next, otherCommits, otherNext, to, next(s, calls[0]), calls[1..], n + 1);
    }
  }
}
