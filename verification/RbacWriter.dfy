/**
 * The RBAC executor: checks, writes, checks again, and rolls everything back when the last checks
 * refuse.
 */
module RbacWriter {
  import opened Wrappers
  import opened Rbac
  import opened RbacRuns

  class RbacDatabase {
    var profiles: map<Id, Profile>
    var tenants: map<Id, Tenant>
    var permissions: map<Id, Permission>
    var roles: map<Id, Role>
    var edges: map<Id, Edge>
    var log: set<Audit>

    constructor (db: Db)
      ensures Value() == db
    {
      profiles, tenants, permissions := db.profiles, db.tenants, db.permissions;
      roles, edges, log := db.roles, db.edges, db.log;
    }

    function Value(): Db
      reads this
    {
      Db(profiles, tenants, permissions, roles, edges, log)
    }

    method InsertAudit(audit: Audit)
      modifies this`log
      ensures log == old(log) + {audit}
    {
      log := log + {audit};
    }

    /**
     * Append the audit of one change.  If it is the first of its action, verification will find exactly
     * it, with the id, the rows and the manifest that the returned mutation and its receipt name.
     */
    method ChangeAudit(
      m: Manifest, phase: Phase, step: Step, before: Option<Row>, after: Option<Row>, id: Id, stamp: string)
      returns (mutation: Mutation)
      modifies this`log
      ensures mutation == Mutation(Changed(step.change), step.table, step.recordId, before, after, id)
      ensures log == old(log) + {AuditOf(m, phase, mutation, stamp)}
      ensures With(old(log), mutation.action) == {} ==> MutationOk(log, m, phase, step, mutation)
      ensures forall action :: action != mutation.action ==> With(log, action) == With(old(log), action)
      ensures Evidence(m, log) == Evidence(m, old(log)) + {AuditOf(m, phase, mutation, stamp)}
    {
      mutation := Mutation(Changed(step.change), step.table, step.recordId, before, after, id);
      InsertAudit(AuditOf(m, phase, mutation, stamp));
      assert With(log, mutation.action) == With(old(log), mutation.action) + {AuditOf(m, phase, mutation, stamp)};
    }

    /**
     * Set the operator's role.  It changes exactly when the profile is still the identified, active one
     * with the expected role; then the change is one that verification accepts, and no other profile
     * is touched.
     */
    method UpdateRole(m: Manifest, phase: Phase) returns (updated: bool)
      requires Value().Keyed()
      modifies this`profiles
      ensures updated <==>
                m.actor in old(profiles) && Identified(m, old(profiles)[m.actor])
                && old(profiles)[m.actor].role == RoleBefore(phase)
      ensures updated ==>
                m.actor in profiles
                && ValidChange(m, phase, Some(OfProfile(old(profiles)[m.actor])), Some(OfProfile(profiles[m.actor])))
      ensures forall i :: i in profiles <==> i in old(profiles)
      ensures forall i :: i in profiles && (!updated || i != m.actor) ==> profiles[i] == old(profiles)[i]
    {
      updated := m.actor in profiles && profiles[m.actor].subject == m.subject && profiles[m.actor].tenant == m.tenant
                 && profiles[m.actor].isActive && profiles[m.actor].role == RoleBefore(phase);
      if updated {
        profiles := profiles[m.actor := profiles[m.actor].(role := RoleAfter(phase))];
      }
    }

    /** One insert of an apply; the state is read again, checked, and audited as read. */
    method InsertPermission(m: Manifest, before: State, call: Call) returns (ok: bool, mutation: Mutation)
      requires m.Ok() && Value().Keyed() && Supplied(call) && ReadState(m, Value()) == Read(before)
                 && before.permission.None?
      modifies this
      ensures ok && mutation == PermissionCreated(call)
      ensures Value() == old(Value()).(permissions := old(permissions)[PERMISSION_ID := NewPermission(call)],
                                       log := old(log) + {AuditOf(m, Apply, mutation, call.stamps[0])})
      ensures ReadState(m, Value()) == Read(before.(permission := Some(NewPermission(call))))
    {
      ReadsPermission(m, Value(), before, NewPermission(call));
      permissions := permissions[PERMISSION_ID := NewPermission(call)];
      var reading := ReadState(m, Value());
      ok := ValidPermission(reading.state.permission);
      mutation := ChangeAudit(m, Apply, Step(CreatePermission, Permissions, PERMISSION_ID), None,
                              Some(OfPermission(reading.state.permission.value)), call.ids[0], call.stamps[0]);
      ReadsAnyLog(m, Value(), old(log));
    }

    method InsertRole(m: Manifest, before: State, call: Call) returns (ok: bool, mutation: Mutation)
      requires m.Ok() && Value().Keyed() && Supplied(call) && ReadState(m, Value()) == Read(before)
      requires before.role.None? && ValidPermission(before.permission)
      modifies this
      ensures ok && mutation == RoleCreated(call)
      ensures Value() == old(Value()).(roles := old(roles)[ROLE_ID := NewRole(call)],
                                       log := old(log) + {AuditOf(m, Apply, mutation, call.stamps[1])})
      ensures ReadState(m, Value()) == Read(before.(role := Some(NewRole(call))))
    {
      ReadsRole(m, Value(), before, NewRole(call));
      roles := roles[ROLE_ID := NewRole(call)];
      var reading := ReadState(m, Value());
      ok := ValidDefinitions(reading.state);
      mutation := ChangeAudit(m, Apply, Step(CreateRole, Roles, ROLE_ID), None,
                              Some(OfRole(reading.state.role.value)), call.ids[1], call.stamps[1]);
      ReadsAnyLog(m, Value(), old(log));
    }

    method InsertEdge(m: Manifest, before: State, call: Call) returns (ok: bool, mutation: Mutation)
      requires m.Ok() && Value().Keyed() && Supplied(call) && ReadState(m, Value()) == Read(before) && before.edge.None?
      modifies this
      ensures ok && mutation == EdgeCreated(call)
      ensures Value() == old(Value()).(edges := old(edges)[EDGE_ID := NewEdge(call)],
                                       log := old(log) + {AuditOf(m, Apply, mutation, call.stamps[2])})
      ensures ReadState(m, Value()) == Read(before.(edge := Some(NewEdge(call))))
    {
      ReadsEdge(m, Value(), before, NewEdge(call));
      edges := edges[EDGE_ID := NewEdge(call)];
      var reading := ReadState(m, Value());
      ok := ValidEdge(reading.state.edge);
      mutation := ChangeAudit(m, Apply, Step(CreateEdge, Edges, EDGE_ID), None,
                              Some(OfEdge(reading.state.edge.value)), call.ids[2], call.stamps[2]);
      ReadsAnyLog(m, Value(), old(log));
    }

    /** The three inserts of an apply, in order. */
    method InsertRows(m: Manifest, before: State, call: Call) returns (ok: bool, mutations: seq<Mutation>)
      requires m.Ok() && Value().Keyed() && Supplied(call) && ReadState(m, Value()) == Read(before)
      requires before.permission.None? && before.role.None? && before.edge.None?
      modifies this
      ensures ok && mutations == [PermissionCreated(call), RoleCreated(call), EdgeCreated(call)]
      ensures Value() == Granted(m, old(Value()), call)
      ensures ReadState(m, Value()) == Read(GrantedState(before, call))
    {
      var first, second, third: Mutation;
      var one, two, three: bool;
      one, first := InsertPermission(m, before, call);
      var withPermission := before.(permission := Some(NewPermission(call)));
      two, second := InsertRole(m, withPermission, call);
      three, third := InsertEdge(m, withPermission.(role := Some(NewRole(call))), call);
      ok, mutations := one && two && three, [first, second, third];
    }

    /** The delete statement, with all its conditions; it says whether the one row went. */
    method DeleteEdgeRow() returns (deleted: bool)
      requires Value().Keyed()
      modifies this`edges
      ensures deleted <==> EDGE_ID in old(edges) && ValidEdge(Some(old(edges)[EDGE_ID]))
      ensures edges == if deleted then old(edges) - {EDGE_ID} else old(edges)
    {
      deleted := EDGE_ID in edges && edges[EDGE_ID].role == ROLE_ID && edges[EDGE_ID].permission == PERMISSION_ID;
      if deleted {
        edges := edges - {EDGE_ID};
      }
    }

    /** The delete of a withdrawal: one row goes, no edge is read after it, and the audit keeps the row. */
    method DeleteRow(m: Manifest, before: State, call: Call) returns (ok: bool, mutations: seq<Mutation>)
      requires m.Ok() && Value().Keyed() && Supplied(call) && ReadState(m, Value()) == Read(before)
                 && ValidEdge(before.edge)
      modifies this
      ensures ok && mutations == [EdgeDeleted(before, call)]
      ensures Value() == Revoked(m, old(Value()), before, call)
      ensures ReadState(m, Value()) == Read(before.(edge := None))
    {
      ReadsNoEdge(m, Value(), before);
      var deleted := DeleteEdgeRow();
      var reading := ReadState(m, Value());
      ok := deleted && reading.Read? && reading.state.edge.None?;
      var only := ChangeAudit(m, Withdraw, Step(DeleteEdge, Edges, EDGE_ID),
                              Some(OfEdge(before.edge.value)), None, call.ids[0], call.stamps[0]);
      ReadsAnyLog(m, Value(), old(log));
      mutations := [only];
    }

    /** The role update, the state read after it, and the audit of the change. */
    method ChangeProfile(m: Manifest, before: State, call: Call, done: seq<Mutation>)
      returns (ok: bool, after: State, mutation: Mutation)
      requires m.Ok() && Value().Keyed() && Supplied(call) && |done| < 5 && ReadState(m, Value()) == Read(before)
      requires RoleDue(before, call.phase)
      modifies this
      ensures ok && after == before.(profile := before.profile.(role := RoleAfter(call.phase)))
      ensures mutation == ProfileChanged(m, before.profile, call, |done|)
      ensures Value() == old(Value()).(profiles := old(profiles)[m.actor := after.profile],
                                       log := old(log) + {AuditOf(m, call.phase, mutation, call.stamps[|done|])})
      ensures ReadState(m, Value()) == Read(after)
    {
      ReadRows(m, Value());
      ReadsProfile(m, Value(), before, before.profile.(role := RoleAfter(call.phase)));
      var updated := UpdateRole(m, call.phase);
      assert profiles == old(profiles)[m.actor := before.profile.(role := RoleAfter(call.phase))];
      var reading := ReadState(m, Value());
      after := reading.state;
      ok := updated && after.tenant == before.tenant && ValidDefinitions(after)
            && ValidChange(m, call.phase, Some(OfProfile(before.profile)), Some(OfProfile(after.profile)))
            && (if call.phase == Apply then ValidEdge(after.edge) else after.edge.None?);
      mutation := ChangeAudit(m, call.phase,
                              Step(if call.phase == Apply then AssignProfile else RestoreProfile, Profiles, m.actor),
                              Some(OfProfile(before.profile)), Some(OfProfile(after.profile)), call.ids[|done|],
                              call.stamps[|done|]);
      ReadsAnyLog(m, Value(), old(log));
    }

    /** The inserts or the delete of a phase. */
    method ChangeRows(m: Manifest, before: State, call: Call) returns (ok: bool, mutations: seq<Mutation>)
      requires m.Ok() && Value().Keyed() && Supplied(call) && Startable(m, call.phase, before)
                 && ReadState(m, Value()) == Read(before)
      modifies this
      ensures ok && mutations == RowChanges(before, call)
      ensures Value() == RowsChanged(m, old(Value()), before, call) && Value().Keyed()
      ensures ReadState(m, Value()) == Read(ChangedState(before, call))
    {
      if call.phase == Apply {
        ok, mutations := InsertRows(m, before, call);
      } else {
        ok, mutations := DeleteRow(m, before, call);
      }
    }

    /** Row changes, role change and receipt, one after the other. */
    method WriteParts(m: Manifest, before: State, call: Call) returns (ok: bool)
      requires m.Ok() && Value().Keyed() && Supplied(call)
      requires Startable(m, call.phase, before) && ReadState(m, Value()) == Read(before)
      modifies this
      ensures ok && Value() == Assembled(m, RowsChanged(m, old(Value()), before, call), before, call)
    {
      ChangedIsDue(m, before, call);
      var done, mutations := ChangeRows(m, before, call);
      var fits, after, last := ChangeProfile(m, ChangedState(before, call), call, mutations);
      InsertReceipt(m, call, mutations + [last], after);
      ok := done && fits;
    }

    method InsertReceipt(m: Manifest, call: Call, mutations: seq<Mutation>, state: State)
      requires Supplied(call) && |mutations| < 5
      modifies this`log
      ensures log == old(log)
                + {ReceiptAudit(m, ReceiptWith(m, call, mutations, state), call.ids[|mutations|],
                                call.stamps[|mutations|])}
    {
      InsertAudit(ReceiptAudit(m, ReceiptWith(m, call, mutations, state), call.ids[|mutations|],
                               call.stamps[|mutations|]));
    }

    /** All writes of one phase. */
    method Write(m: Manifest, before: State, call: Call) returns (ok: bool)
      requires m.Ok() && Value().Keyed() && Supplied(call)
      requires Startable(m, call.phase, before) && ByPrincipal(m, call) && ReadState(m, Value()) == Read(before)
      modifies this
      ensures ok && Value() == Committed(m, old(Value()), before, call)
    {
      WritesAddUp(m, Value(), before, call);
      ok := WriteParts(m, before, call);
    }

    /**
     * One call.  After the writes the history and the state are read back, and the clock and the
     * deadline are read again; a refusal then restores everything.
     */
    method Execute(m: Manifest, call: Call) returns (decision: Decision)
      requires m.Ok() && Value().Keyed() && Supplied(call)
      modifies this
      ensures decision == Plan(m, old(Value()), call)
      ensures Value() == After(m, old(Value()), call)
    {
      decision := Precheck(m, Value(), call);
      AfterPrecheck(m, Value(), call);
      if decision.Perform? {
        var saved := Value();
        PrecheckStarts(m, saved, call);
        WritesReadBack(m, saved, call);
        var ok := Write(m, decision.before, call);
        var verified := ReadBack(m);
        decision := if ok && verified then Conclude(m, call, decision) else Refuse(StateDrift);
        Settle(decision.Perform?, saved);
      }
    }

    /** The history must verify, and its last state must be the one that is read. */
    method ReadBack(m: Manifest) returns (verified: bool)
      ensures verified <==>
                HistoryOf(m, log).Some? && ReadState(m, Value()) == Read(LastState(HistoryOf(m, log).value))
    {
      var history := HistoryOf(m, log);
      verified := history.Some? && ReadState(m, Value()) == Read(LastState(history.value));
    }

    /** Commit, or roll back to what was there before. */
    method Settle(committed: bool, saved: Db)
      modifies this
      ensures Value() == if committed then old(Value()) else saved
    {
      if !committed {
        profiles, tenants, permissions := saved.profiles, saved.tenants, saved.permissions;
        roles, edges, log := saved.roles, saved.edges, saved.log;
      }
    }
  }

  // ---------------------------------------------------------------------------------------------
  // The single changes

  function PermissionCreated(call: Call): Mutation
    requires Supplied(call)
  {
    Mutation(Changed(CreatePermission), Permissions, PERMISSION_ID, None, Some(OfPermission(NewPermission(call))),
             call.ids[0])
  }

  function RoleCreated(call: Call): Mutation
    requires Supplied(call)
  {
    Mutation(Changed(CreateRole), Roles, ROLE_ID, None, Some(OfRole(NewRole(call))), call.ids[1])
  }

  function EdgeCreated(call: Call): Mutation
    requires Supplied(call)
  {
    Mutation(Changed(CreateEdge), Edges, EDGE_ID, None, Some(OfEdge(NewEdge(call))), call.ids[2])
  }

  function EdgeDeleted(before: State, call: Call): Mutation
    requires Supplied(call) && before.edge.Some?
  {
    Mutation(Changed(DeleteEdge), Edges, EDGE_ID, Some(OfEdge(before.edge.value)), None, call.ids[0])
  }

  function ProfileChanged(m: Manifest, profile: Profile, call: Call, n: nat): Mutation
    requires Supplied(call) && n < 5
  {
    Mutation(Changed(if call.phase == Apply then AssignProfile else RestoreProfile), Profiles, m.actor,
             Some(OfProfile(profile)), Some(OfProfile(profile.(role := RoleAfter(call.phase)))), call.ids[n])
  }

  /** The state and the tables after the three inserts. */
  function GrantedState(before: State, call: Call): State {
    before.(permission := Some(NewPermission(call)), role := Some(NewRole(call)), edge := Some(NewEdge(call)))
  }

  function Granted(m: Manifest, db: Db, call: Call): Db
    requires Supplied(call)
  {
    db.(permissions := db.permissions[PERMISSION_ID := NewPermission(call)],
        roles := db.roles[ROLE_ID := NewRole(call)],
        edges := db.edges[EDGE_ID := NewEdge(call)],
        log := db.log + {AuditOf(m, Apply, PermissionCreated(call), call.stamps[0])}
               + {AuditOf(m, Apply, RoleCreated(call), call.stamps[1])}
               + {AuditOf(m, Apply, EdgeCreated(call), call.stamps[2])})
  }

  function Revoked(m: Manifest, db: Db, before: State, call: Call): Db
    requires Supplied(call) && before.edge.Some?
  {
    db.(edges := db.edges - {EDGE_ID},
        log := db.log + {AuditOf(m, Withdraw, EdgeDeleted(before, call), call.stamps[0])})
  }

  /** Everything but the role is as the phase leaves it. */
  predicate RoleDue(s: State, phase: Phase) {
    s.profile.role == RoleBefore(phase) && ValidDefinitions(s)
      && if phase == Apply then ValidEdge(s.edge) else s.edge.None?
  }

  lemma ChangedIsDue(m: Manifest, before: State, call: Call)
    requires Startable(m, call.phase, before)
    ensures RoleDue(ChangedState(before, call), call.phase) && ChangedState(before, call).profile == before.profile
  {
  }

  function RowChanges(before: State, call: Call): seq<Mutation>
    requires Supplied(call) && (call.phase == Withdraw ==> before.edge.Some?)
  {
    if call.phase == Apply then [PermissionCreated(call), RoleCreated(call), EdgeCreated(call)]
    else [EdgeDeleted(before, call)]
  }

  function ChangedState(before: State, call: Call): State {
    if call.phase == Apply then GrantedState(before, call) else before.(edge := None)
  }

  function RowsChanged(m: Manifest, db: Db, before: State, call: Call): Db
    requires Supplied(call) && (call.phase == Withdraw ==> before.edge.Some?)
  {
    if call.phase == Apply then Granted(m, db, call) else Revoked(m, db, before, call)
  }

  function ReceiptWith(m: Manifest, call: Call, mutations: seq<Mutation>, state: State): Receipt {
    Receipt(m.operationId, Digest(m), m, call.phase, call.currentUser, call.sessionUser, mutations, state)
  }

  /** What the role change and the receipt add to the changed rows. */
  function Assembled(m: Manifest, rows: Db, before: State, call: Call): Db
    requires Supplied(call) && (call.phase == Withdraw ==> before.edge.Some?)
  {
    var changes := RowChanges(before, call);
    var profile := before.profile.(role := RoleAfter(call.phase));
    var last := ProfileChanged(m, before.profile, call, |changes|);
    var receipt := ReceiptWith(m, call, changes + [last], ChangedState(before, call).(profile := profile));
    rows.(profiles := rows.profiles[m.actor := profile],
          log := rows.log + {AuditOf(m, call.phase, last, call.stamps[|changes|])}
                 + {ReceiptAudit(m, receipt, call.ids[|changes| + 1], call.stamps[|changes| + 1])})
  }

  lemma ApplyAddsUp(m: Manifest, db: Db, before: State, call: Call)
    requires Supplied(call) && call.phase == Apply
    ensures Assembled(m, Granted(m, db, call), before, call) == Committed(m, db, before, call)
  {
    var r := ReceiptOf(m, before, call);
    PhaseSet(m, r, call.ids[4], call.stamps);
    assert RowChanges(before, call) + [ProfileChanged(m, before.profile, call, 3)] == r.mutations;
  }

  lemma WithdrawAddsUp(m: Manifest, db: Db, before: State, call: Call)
    requires Supplied(call) && call.phase == Withdraw && before.edge.Some?
    ensures Assembled(m, Revoked(m, db, before, call), before, call) == Committed(m, db, before, call)
  {
    var r := ReceiptOf(m, before, call);
    PhaseSet(m, r, call.ids[2], call.stamps);
    assert RowChanges(before, call) + [ProfileChanged(m, before.profile, call, 1)] == r.mutations;
  }

  /** Row changes, role change and receipt add up to the commit of the phase. */
  lemma WritesAddUp(m: Manifest, db: Db, before: State, call: Call)
    requires Supplied(call) && (call.phase == Withdraw ==> before.edge.Some?)
    ensures Assembled(m, RowsChanged(m, db, before, call), before, call) == Committed(m, db, before, call)
  {
    if call.phase == Apply { ApplyAddsUp(m, db, before, call); } else { WithdrawAddsUp(m, db, before, call); }
  }

  lemma PhaseSet(m: Manifest, r: Receipt, id: Id, stamps: seq<string>)
    requires |r.mutations| < |stamps|
    ensures |r.mutations| == 4 ==> (
      PhaseAudits(m, r, id, stamps)
      == {AuditOf(m, r.phase, r.mutations[0], stamps[0]), AuditOf(m, r.phase, r.mutations[1], stamps[1]),
          AuditOf(m, r.phase, r.mutations[2], stamps[2]), AuditOf(m, r.phase, r.mutations[3], stamps[3]),
          ReceiptAudit(m, r, id, stamps[4])})
    ensures |r.mutations| == 2 ==> (
      PhaseAudits(m, r, id, stamps)
      == {AuditOf(m, r.phase, r.mutations[0], stamps[0]), AuditOf(m, r.phase, r.mutations[1], stamps[1]),
          ReceiptAudit(m, r, id, stamps[2])})
  {
  }

  lemma AfterPrecheck(m: Manifest, db: Db, call: Call)
    requires db.Keyed() && Supplied(call)
    ensures Plan(m, db, call) == Conclude(m, call, Precheck(m, db, call))
    ensures !Plan(m, db, call).Perform? ==> After(m, db, call) == db
    ensures Plan(m, db, call).Perform? ==>
              Precheck(m, db, call).Perform? && Startable(m, call.phase, Precheck(m, db, call).before)
              && After(m, db, call) == Committed(m, db, Precheck(m, db, call).before, call)
  {
    if Plan(m, db, call).Perform? { PlanStarts(m, db, call); }
  }

  /** The first checks alone already fix the state that the writes start from. */
  lemma PrecheckStarts(m: Manifest, db: Db, call: Call)
    requires db.Keyed() && Precheck(m, db, call).Perform?
    ensures var before := Precheck(m, db, call).before;
            && Target(m, call) && ReadState(m, db) == Read(before) && Startable(m, call.phase, before)
            && m.actor in db.profiles && db.profiles[m.actor] == before.profile
            && (call.phase == Withdraw ==> Continues(m, db.log, before))
            && (call.phase == Apply ==> Evidence(m, db.log) == {})
  {
    PrecheckAsPlan(m, db, call);
    PlanStarts(m, db, OnTime(m, call));
    ReadRows(m, db);
  }

  /** The same call with a clock that does not interfere at the end. */
  function OnTime(m: Manifest, call: Call): Call {
    call.(finish := call.start, inTime := true)
  }

  lemma PrecheckAsPlan(m: Manifest, db: Db, call: Call)
    requires Precheck(m, db, call).Perform?
    ensures Plan(m, db, OnTime(m, call)) == Precheck(m, db, call)
  {
    DecideOnTime(m, call, ReadState(m, db), Evidence(m, db.log) != {}, HistoryOf(m, db.log));
  }

  lemma DecideOnTime(m: Manifest, call: Call, reading: Reading, seen: bool, history: Option<History>)
    requires Decide(m, call, reading, seen, history).Perform?
    ensures Conclude(m, OnTime(m, call), Decide(m, OnTime(m, call), reading, seen, history))
         == Decide(m, call, reading, seen, history)
  {
  }

  /** What is read after the writes and before the last checks. */
  lemma WritesReadBack(m: Manifest, db: Db, call: Call)
    requires m.Ok() && db.Keyed() && Supplied(call) && Precheck(m, db, call).Perform?
    ensures Precheck(m, db, call).before.edge.Some? || call.phase == Apply
    ensures var before := Precheck(m, db, call).before;
            && ReadState(m, Committed(m, db, before, call)) == Read(StateAfter(before, call))
            && HistoryOf(m, Committed(m, db, before, call).log).Some?
            && LastState(HistoryOf(m, Committed(m, db, before, call).log).value) == StateAfter(before, call)
  {
    PrecheckStarts(m, db, call);
    var before := Precheck(m, db, call).before;
    StateReadBack(m, db, before, call);
    if call.phase == Apply {
      ApplyVerifies(m, db.log, before, call);
    } else {
      WithdrawVerifies(m, db.log, before, call);
    }
  }
}
