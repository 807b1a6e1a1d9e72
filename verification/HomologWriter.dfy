/**
 * The executors: one transaction over the rows and the audit log, with the write loop that the four
 * programs share, and the read-back that follows it.
 */
module HomologWriter {
  import opened HomologEvidence
  import opened HomologAgreement
  import opened HomologProtocol
  import opened HomologRuns
  import opened HomologReadback

  // ---------------------------------------------------------------------------------------------
  // The write loop

  /** The rows once the first n keys are written. */
  function Saved(rows: State, state: State, keys: seq<Key>, n: nat): State
    requires n <= |keys| && forall k :: k in keys ==> k in state
  {
    if n == 0 then rows else Saved(rows, state, keys, n - 1)[keys[n - 1] := state[keys[n - 1]]]
  }

  /** The log once the first n audits are appended. */
  function Logged(log: set<Audit>, audits: seq<Audit>, n: nat): set<Audit>
    requires n <= |audits|
  {
    if n == 0 then log else Logged(log, audits, n - 1) + {audits[n - 1]}
  }

  /** A row not yet reached is still as it was; one that was reached is the written one. */
  lemma {:induction false} SavedRows(rows: State, state: State, keys: seq<Key>, n: nat)
    requires n <= |keys| && forall k :: k in keys ==> k in state
    ensures Saved(rows, state, keys, n) == rows + (map k | k in state && k in keys[..n] :: state[k])
  {
    if n > 0 {
      SavedRows(rows, state, keys, n - 1);
      assert forall k :: k in keys[..n] <==> k in keys[..n - 1] || k == keys[n - 1];
    }
  }

  lemma {:induction false} LoggedAudits(log: set<Audit>, audits: seq<Audit>, n: nat)
    requires n <= |audits|
    ensures Logged(log, audits, n) == log + set i | 0 <= i < n :: audits[i]
  {
    if n > 0 {
      LoggedAudits(log, audits, n - 1);
      assert (set i | 0 <= i < n :: audits[i]) == (set i | 0 <= i < n - 1 :: audits[i]) + {audits[n - 1]};
    }
  }

  /** The audits of the rows, in writing order. */
  function RowAudits(ctx: Context, c: Commit, keys: seq<Key>): seq<Audit>
    requires forall k :: k in keys ==> k in ctx.Next(c.at)
  {
    seq(|keys|, i requires 0 <= i < |keys| => RowAudit(ctx, c, keys[i]))
  }

  /** Writing all rows and the receipt writes the whole operation. */
  lemma WriteComplete(rows: State, log: set<Audit>, ctx: Context, c: Commit, keys: seq<Key>)
    requires forall k :: k in keys <==> k in ctx.Next(c.at)
    ensures Saved(rows, ctx.Next(c.at), keys, |keys|) == rows + ctx.Next(c.at)
    ensures Logged(log, RowAudits(ctx, c, keys), |keys|) + {ReceiptAudit(ctx, c)} == log + Written(ctx, c)
  {
    var audits := RowAudits(ctx, c, keys);
    SavedRows(rows, ctx.Next(c.at), keys, |keys|);
    LoggedAudits(log, audits, |keys|);
    assert keys[..|keys|] == keys;
    assert (map k | k in ctx.Next(c.at) && k in keys :: ctx.Next(c.at)[k]) == ctx.Next(c.at);
    forall a | a in Written(ctx, c) && a != ReceiptAudit(ctx, c)
      ensures a in set i | 0 <= i < |keys| :: audits[i]
    {
      WrittenKinds(ctx, c, a);
      var k :| k in ctx.Next(c.at) && a == RowAudit(ctx, c, k);
      var i :| 0 <= i < |keys| && keys[i] == k;
      assert audits[i] == a;
    }
  }

  /** What a writer brings along for the rows: distinct keys, their new values, an id and an audit for each. */
  predicate Prepared(ctx: Context, state: State, keys: seq<Key>, audits: seq<Audit>, auditedAt: Time, ids: seq<Id>) {
    && |audits| == |keys| <= |ids|
    && (forall i, j :: 0 <= i < j < |keys| ==> keys[i].id != keys[j].id)
    && (forall k :: k in keys ==> k in state)
    && (forall i :: 0 <= i < |keys| ==> audits[i] == Audit(ids[i], auditedAt, RowShape(ctx, keys[i], state[keys[i]])))
  }

  /** An update expects every row as it was before, and changes its activity and time. */
  predicate AsBefore(ctx: Context, rows: State, state: State, keys: seq<Key>, at: Time) {
    ctx.op != Create ==> forall k :: k in keys && k in state ==> k in rows && state[k] == Touched(ctx, rows[k], at)
  }

  function Touched(ctx: Context, row: Row, at: Time): Row {
    row.(isActive := ctx.op == Reactivate, updatedAt := at)
  }

  lemma NextPrepared(ctx: Context, c: Commit, keys: seq<Key>, ids: seq<Id>)
    requires |keys| <= |ids| && c.rowAudits == Assigned(keys, ids, |keys|)
    requires forall i, j :: 0 <= i < j < |keys| ==> keys[i].id != keys[j].id
    requires forall k :: k in keys <==> k in ctx.Next(c.at)
    ensures Prepared(ctx, ctx.Next(c.at), keys, RowAudits(ctx, c, keys), c.auditedAt, ids)
  {
    AssignedIds(keys, ids, |keys|);
  }

  /** The row about to be written is still as it was. */
  lemma StillBefore(rows: State, state: State, keys: seq<Key>, n: nat)
    requires n < |keys| && forall k :: k in keys ==> k in state
    requires forall i, j :: 0 <= i < j < |keys| ==> keys[i].id != keys[j].id
    ensures keys[n] in rows ==>
              keys[n] in Saved(rows, state, keys, n) && Saved(rows, state, keys, n)[keys[n]] == rows[keys[n]]
  {
    SavedRows(rows, state, keys, n);
    assert keys[n] !in keys[..n];
  }

  class HomologDatabase {
    var rows: map<Key, Row>
    var log: set<Audit>

    constructor (rows: map<Key, Row>, log: set<Audit>)
      ensures Value() == Db(rows, log)
    {
      this.rows, this.log := rows, log;
    }

    function Value(): Db
      reads this
    {
      Db(rows, log)
    }

    method InsertAudit(shape: Shape, at: Time, id: Id)
      modifies this`log
      ensures log == old(log) + {Audit(id, at, shape)}
    {
      log := log + {Audit(id, at, shape)};
    }

    /** Insert one row, or update the two columns of one that is there, and append its audit. */
    method WriteRow(ctx: Context, k: Key, row: Row, at: Time, audit: Audit)
      requires ctx.op != Create ==> k in rows && row == Touched(ctx, rows[k], at)
      modifies this
      ensures rows == old(rows)[k := row]
      ensures log == old(log) + {audit}
    {
      if ctx.op == Create {
        rows := rows[k := row];
      } else {
        rows := rows[k := rows[k].(isActive := ctx.op == Reactivate, updatedAt := at)];
      }
      InsertAudit(audit.shape, audit.createdAt, audit.id);
    }

    /** The loop over the rows; it returns the ids of their audits. */
    method WriteRows(
      ctx: Context, state: State, keys: seq<Key>, ghost audits: seq<Audit>, at: Time, auditedAt: Time, ids: seq<Id>)
      returns (rowAuditIds: map<Id, Id>)
      requires Prepared(ctx, state, keys, audits, auditedAt, ids) && AsBefore(ctx, rows, state, keys, at)
      modifies this
      ensures rows == Saved(old(rows), state, keys, |keys|)
      ensures log == Logged(old(log), audits, |keys|)
      ensures rowAuditIds == Assigned(keys, ids, |keys|)
    {
      rowAuditIds := map[];
      for i := 0 to |keys|
        invariant rows == Saved(old(rows), state, keys, i)
        invariant log == Logged(old(log), audits, i)
        invariant rowAuditIds == Assigned(keys, ids, i)
      {
        var k := keys[i];
        StillBefore(old(rows), state, keys, i);
        WriteRow(ctx, k, state[k], at, Audit(ids[i], auditedAt, RowShape(ctx, k, state[k])));
        rowAuditIds := rowAuditIds[k.id := ids[i]];
      }
    }

    /** Insert or update the rows one by one, append an audit for each, and the receipt at the end. */
    method Write(ctx: Context, keys: seq<Key>, at: Time, auditedAt: Time, actor: Actor, ids: seq<Id>)
      requires |keys| < |ids|
      requires forall i, j :: 0 <= i < j < |keys| ==> keys[i].id != keys[j].id
      requires forall k :: k in keys <==> k in ctx.Next(at)
      requires ctx.op != Create ==> forall k :: k in keys ==> k in ctx.before && k in rows && rows[k] == ctx.before[k]
      modifies this
      ensures rows == old(rows) + ctx.Next(at)
      ensures log == old(log)
                   + Written(ctx, Commit(at, auditedAt, actor, Assigned(keys, ids, |keys|), ids[|keys|], Unstated))
    {
      ghost var c := Commit(at, auditedAt, actor, Assigned(keys, ids, |keys|), ids[|keys|], Unstated);
      NextPrepared(ctx, c, keys, ids);
      assert AsBefore(ctx, rows, ctx.Next(at), keys, at);
      var rowAuditIds := WriteRows(ctx, ctx.Next(at), keys, RowAudits(ctx, c, keys), at, auditedAt, ids);
      WriteComplete(old(rows), old(log), ctx, c, keys);
      var listed := if ctx.family == Bootstrap then map[] else rowAuditIds;
      InsertAudit(ReceiptShape(ctx, BuildReceipt(ctx, at, actor, listed, Unstated)), auditedAt, ids[|keys|]);
    }

    /** One call: read, decide, write one whole operation, and check again; a failing check undoes the writes. */
    method Execute(m: ContinuationManifest, call: Call) returns (decision: Decision)
      requires ManifestOk(m) && NewIds(log, call.ids)
      modifies this
      ensures decision == Plan(SurveyOf(m, old(Value())), call)
      ensures Value() == After(m, old(Value()), call)
    {
      decision := Plan(SurveyOf(m, Value()), call);
      if decision.Perform? {
        PerformLeads(m, Value(), call);
        var passed := Attempt(m, call, decision.before);
        decision := if passed then decision else Refuse(FamilyOf(call.stage), Drift);
      }
    }

    /** The writes and the checks after them, which decide whether the writes stay. */
    method Attempt(m: ContinuationManifest, call: Call, before: State) returns (passed: bool)
      requires ManifestOk(m) && StartsFrom(m, call.stage, before) && |call.ids| == 6
      requires call.stage > 0 ==> before == Current(m, Value())
      modifies this
      ensures passed == Passes(m, old(Value()), Committed(m, old(Value()), call, before), call, before)
      ensures Value() == if passed then Committed(m, old(Value()), call, before) else old(Value())
    {
      var saved := Value();
      CommitStage(m, call, before);
      passed := Passes(m, saved, Value(), call, before);
      Settle(passed, saved);
    }

    /** Commit, or roll back to what was there before. */
    method Settle(passed: bool, saved: Db)
      modifies this
      ensures Value() == if passed then old(Value()) else saved
    {
      if !passed {
        rows, log := saved.rows, saved.log;
      }
    }

    /** The transaction of one operation. */
    method CommitStage(m: ContinuationManifest, call: Call, before: State)
      requires ManifestOk(m) && StartsFrom(m, call.stage, before) && |call.ids| == 6
      requires call.stage > 0 ==> before == Current(m, Value())
      modifies this
      ensures Value() == Committed(m, old(Value()), call, before)
    {
      var ctx, keys := ContextFor(m, log, call.stage, before), KeyOrder(m, call.stage);
      StageContext(m, log, call.stage, before);
      KeysFixed(ctx, call.at);
      OrderedKeys(m, call.stage);
      Write(ctx, keys, call.at, if call.stage == 0 then call.auditedAt else call.at, call.actor, call.ids);
    }
  }

  /** The checks after the writes of a call. */
  predicate Passes(m: ContinuationManifest, db: Db, next: Db, call: Call, before: State)
    requires |call.ids| == 6
  {
    var ctx := ContextFor(m, db.log, call.stage, before);
    ReadbackOk(m, db, next, call.stage, ctx.Next(call.at), Written(ctx, CommitOf(m, call)))
  }

  /** What a planned commit leads to: it may start, its writes are the commit, and they pass. */
  lemma PerformLeads(m: ContinuationManifest, db: Db, call: Call)
    requires ManifestOk(m) && Plan(SurveyOf(m, db), call).Perform? && NewIds(db.log, call.ids)
    ensures var before := Plan(SurveyOf(m, db), call).before;
            && StartsFrom(m, call.stage, before) && (call.stage > 0 ==> before == Current(m, db))
            && After(m, db, call) == Committed(m, db, call, before)
            && Passes(m, db, Committed(m, db, call, before), call, before)
  {
    PerformStarts(m, db, call);
    ReadbackPasses(m, db, call);
    if call.stage == 0 { PlanStarts(SurveyOf(m, db), call); }
  }
}
