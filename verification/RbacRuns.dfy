/**
 * Whole runs of the RBAC saga: one manifest goes from fresh to applied to withdrawn and never back,
 * whatever happens to the other columns in between.
 */
module RbacRuns {
  import opened Wrappers
  import opened Collections
  import opened Rbac
  import opened RbacAgreement

  // ---------------------------------------------------------------------------------------------
  // What an executor can write

  /** The states a phase can start from. */
  predicate Startable(m: Manifest, phase: Phase, before: State) {
    && Identified(m, before.profile) && before.profile.role == RoleBefore(phase)
    && before.tenant.id == m.tenant && before.tenant.isActive
    && match phase
       case Apply => before.permission.None? && before.role.None? && before.edge.None?
       case Withdraw => ValidDefinitions(before) && ValidEdge(before.edge)
  }

  predicate ByPrincipal(m: Manifest, call: Call) {
    call.currentUser == m.principal && call.sessionUser == m.principal && |call.ids| == 5 && |call.stamps| == 5
  }

  lemma WriterPossible(m: Manifest, before: State, call: Call)
    requires Startable(m, call.phase, before) && ByPrincipal(m, call)
    ensures Possible(m, call.phase, ReceiptOf(m, before, call))
  {
  }

  /** The receipt of a phase: by whom, which changes, and the state that they leave. */
  lemma ReceiptTells(m: Manifest, before: State, call: Call)
    requires ByPrincipal(m, call) && (call.phase == Withdraw ==> before.edge.Some?)
    ensures var r := ReceiptOf(m, before, call);
            && r.operationId == m.operationId && r.manifestHash == Digest(m) && r.manifest == m && r.phase == call.phase
            && r.currentUser == m.principal && r.sessionUser == m.principal
            && r.mutations == Mutations(m, before, call)
            && r.state == (if call.phase == Apply then
                 State(before.profile.(role := NOMINAL), before.tenant,
                       Some(Permission(PERMISSION_ID, "estimate", "create", DESCRIPTION, call.permissionRest)),
                       Some(Role(ROLE_ID, NOMINAL, DESCRIPTION, false, call.roleRest)),
                       Some(Edge(EDGE_ID, ROLE_ID, PERMISSION_ID, call.edgeRest)))
               else before.(profile := before.profile.(role := USER), edge := None))
  {
  }

  /** The five audits of an apply, one by one. */
  lemma ApplyAudits(m: Manifest, before: State, call: Call)
    requires call.phase == Apply && ByPrincipal(m, call)
    ensures var (op, hash, r) := (m.operationId, Digest(m), ReceiptOf(m, before, call));
            var created := (row: Row) => Wrapped(op, hash, Apply, Some(row));
            Written(m, before, call) == {
              Audit(call.ids[0], None, Changed(CreatePermission), Permissions, PERMISSION_ID, Absent,
                    created(OfPermission(r.state.permission.value)), call.stamps[0]),
              Audit(call.ids[1], None, Changed(CreateRole), Roles, ROLE_ID, Absent,
                    created(OfRole(r.state.role.value)), call.stamps[1]),
              Audit(call.ids[2], None, Changed(CreateEdge), Edges, EDGE_ID, Absent,
                    created(OfEdge(r.state.edge.value)), call.stamps[2]),
              Audit(call.ids[3], None, Changed(AssignProfile), Profiles, m.actor, OfRow(OfProfile(before.profile)),
                    created(OfProfile(before.profile.(role := NOMINAL))), call.stamps[3]),
              Audit(call.ids[4], None, Completed(Apply), Receipts, op, Absent, OfReceipt(r), call.stamps[4])}
  {
    var r := ReceiptOf(m, before, call);
    FirstFour(m, r, call.stamps);
  }

  lemma FirstFour(m: Manifest, r: Receipt, stamps: seq<string>)
    requires |r.mutations| == 4 && |stamps| == 5
    ensures (set i | 0 <= i < |r.mutations| :: AuditOf(m, r.phase, r.mutations[i], stamps[i]))
         == {AuditOf(m, r.phase, r.mutations[0], stamps[0]), AuditOf(m, r.phase, r.mutations[1], stamps[1]),
             AuditOf(m, r.phase, r.mutations[2], stamps[2]), AuditOf(m, r.phase, r.mutations[3], stamps[3])}
  {
  }

  /** The three audits of a withdrawal. */
  lemma WithdrawAudits(m: Manifest, before: State, call: Call)
    requires call.phase == Withdraw && ByPrincipal(m, call) && before.edge.Some?
    ensures var (op, hash, r) := (m.operationId, Digest(m), ReceiptOf(m, before, call));
            Written(m, before, call) == {
              Audit(call.ids[0], None, Changed(DeleteEdge), Edges, EDGE_ID, OfRow(OfEdge(before.edge.value)),
                    Wrapped(op, hash, Withdraw, None), call.stamps[0]),
              Audit(call.ids[1], None, Changed(RestoreProfile), Profiles, m.actor, OfRow(OfProfile(before.profile)),
                    Wrapped(op, hash, Withdraw, Some(OfProfile(before.profile.(role := USER)))), call.stamps[1]),
              Audit(call.ids[2], None, Completed(Withdraw), Receipts, op, Absent, OfReceipt(r), call.stamps[2])}
  {
    var r := ReceiptOf(m, before, call);
    FirstTwo(m, r, call.stamps);
  }

  lemma FirstTwo(m: Manifest, r: Receipt, stamps: seq<string>)
    requires |r.mutations| == 2 && |stamps| == 5
    ensures (set i | 0 <= i < |r.mutations| :: AuditOf(m, r.phase, r.mutations[i], stamps[i]))
         == {AuditOf(m, r.phase, r.mutations[0], stamps[0]), AuditOf(m, r.phase, r.mutations[1], stamps[1])}
  {
  }

  /** Every possible receipt is one that an executor writes from some state it can start from. */
  lemma PossibleWritten(m: Manifest, r: Receipt) returns (before: State, call: Call)
    requires Possible(m, r.phase, r)
    ensures call.phase == r.phase && Startable(m, r.phase, before) && ByPrincipal(m, call)
    ensures r == ReceiptOf(m, before, call)
  {
    var profile := r.mutations[|r.mutations| - 1].before.value.profile;
    var stamps := ["", "", "", "", ""];
    match r.phase {
      case Apply =>
        before := State(profile, r.state.tenant, None, None, None);
        call := Call(Apply, m.principal, m.principal, true, 0, 0, true,
                     r.state.permission.value.rest, r.state.role.value.rest, r.state.edge.value.rest,
                     [r.mutations[0].auditId, r.mutations[1].auditId, r.mutations[2].auditId,
                      r.mutations[3].auditId, 0],
                     stamps);
        assert r.mutations == Mutations(m, before, call);
      case Withdraw =>
        before := r.state.(profile := profile, edge := Some(r.mutations[0].before.value.edge));
        call := Call(Withdraw, m.principal, m.principal, true, 0, 0, true, "", "", "",
                     [r.mutations[0].auditId, r.mutations[1].auditId, 0, 0, 0], stamps);
        assert r.mutations == Mutations(m, before, call);
    }
  }

  // ---------------------------------------------------------------------------------------------
  // The invariant

  function HistoryOf(m: Manifest, log: set<Audit>): Option<History> {
    VerifyHistory(Evidence(m, log), m)
  }

  /** The permission and role rows are those the apply created. */
  predicate DefinitionsKept(db: Db, applied: State) {
    && PERMISSION_ID in db.permissions && applied.permission == Some(db.permissions[PERMISSION_ID])
    && ROLE_ID in db.roles && applied.role == Some(db.roles[ROLE_ID])
  }

  predicate HasRole(m: Manifest, db: Db, role: string) {
    m.actor in db.profiles && db.profiles[m.actor].role == role
  }

  /** After n commits: no evidence; an applied history; a withdrawn one; and the rows to match. */
  predicate Reached(m: Manifest, db: Db, n: nat) {
    && db.Keyed() && n <= 2
    && (n == 0 <==> Evidence(m, db.log) == {})
    && (n >= 1 ==>
         && HistoryOf(m, db.log).Some?
         && var h := HistoryOf(m, db.log).value;
         && (n == 2 <==> h.withdrawn.Some?)
         && DefinitionsKept(db, h.applied.state)
         && HasRole(m, db, if n == 1 then NOMINAL else USER)
         && (if n == 1 then EDGE_ID in db.edges && h.applied.state.edge == Some(db.edges[EDGE_ID])
             else EDGE_ID !in db.edges))
  }

  /** 0, 5 or 8 audits. */
  lemma EvidenceCount(m: Manifest, db: Db, n: nat)
    requires Reached(m, db, n)
    ensures |Evidence(m, db.log)| == if n == 0 then 0 else if n == 1 then 5 else 8
  {
  }

  /** The state that the last phase of a history recorded. */
  function LastState(h: History): State {
    if h.withdrawn.Some? then h.withdrawn.value.state else h.applied.state
  }

  // ---------------------------------------------------------------------------------------------
  // One call

  predicate Target(m: Manifest, call: Call) {
    call.currentUser == m.principal && call.sessionUser == m.principal && call.targetOk
  }

  /** The state an executor reads is made of the rows with the manifest's ids, when these exist. */
  lemma ReadRows(m: Manifest, db: Db)
    requires db.Keyed() && ReadState(m, db).Read?
    ensures var s := ReadState(m, db).state;
            && Identified(m, s.profile) && m.actor in db.profiles && s.profile == db.profiles[m.actor]
            && s.tenant.id == m.tenant && s.tenant.isActive
            && (ROLE_ID in db.roles ==> s.role == Some(db.roles[ROLE_ID]))
            && (PERMISSION_ID in db.permissions ==> s.permission == Some(db.permissions[PERMISSION_ID]))
            && (EDGE_ID in db.edges ==> s.edge == Some(db.edges[EDGE_ID]))
  {
    assert ROLE_ID in db.roles ==> ROLE_ID in RolesFound(db);
    assert PERMISSION_ID in db.permissions ==> PERMISSION_ID in PermissionsFound(db);
    assert EDGE_ID in db.edges ==> EDGE_ID in EdgesFound(db);
  }

  predicate NamesRole(r: Role) {
    r.id == ROLE_ID || r.name == NOMINAL
  }

  predicate NamesPermission(p: Permission) {
    p.id == PERMISSION_ID || (p.resource == "estimate" && p.action == "create")
  }

  predicate NamesEdge(e: Edge) {
    e.id == EDGE_ID || e.role == ROLE_ID || e.permission == PERMISSION_ID
  }

  /** The row is the only one of its table that meets a condition, or no row does. */
  predicate Alone<T(==)>(table: map<Id, T>, matches: T -> bool, row: Option<T>) {
    match row
    case None => forall i :: i in table ==> !matches(table[i])
    case Some(r) => exists i :: i in table && table[i] == r && matches(r)
                                && forall j :: j in table && j != i ==> !matches(table[j])
  }

  /** The operator is the only user with its subject or with the nominal role, and no other nominal row exists. */
  predicate Shows(m: Manifest, db: Db, s: State) {
    && m.actor in db.profiles && s.profile == db.profiles[m.actor]
    && s.profile.id == m.actor && s.profile.subject == m.subject && s.profile.tenant == m.tenant && s.profile.isActive
    && (forall i :: i in db.profiles && i != m.actor ==>
        db.profiles[i].subject != m.subject && db.profiles[i].role != NOMINAL)
    && m.tenant in db.tenants && s.tenant == db.tenants[m.tenant] && s.tenant.isActive
    && Alone(db.roles, NamesRole, s.role)
    && Alone(db.permissions, NamesPermission, s.permission)
    && Alone(db.edges, NamesEdge, s.edge)
  }

  lemma OneAlone<T>(table: map<Id, T>, matches: T -> bool, ids: set<Id>, row: Option<T>)
    requires ids == set i | i in table && matches(table[i])
    ensures |ids| <= 1 && row == TheOne(table, ids) <==> Alone(table, matches, row) && |ids| <= 1
    ensures Alone(table, matches, row) ==> |ids| <= 1
  {
    if Alone(table, matches, row) && row.Some? {
      var i :| i in table && table[i] == row.value && matches(row.value)
               && forall j :: j in table && j != i ==> !matches(table[j]);
      assert ids == {i};
    }
    if |ids| <= 1 && ids != {} {
      var i :| i in ids;
      forall j | j in ids ensures j == i { SizeOne(ids, i, j); }
      assert forall j :: j in table && j != i ==> j !in ids;
      assert i in table && table[i] == table[i] && matches(table[i]);
    }
  }

  /** A state is read exactly when the tables show it. */
  lemma ReadExact(m: Manifest, db: Db, s: State)
    requires db.Keyed()
    ensures ReadState(m, db) == Read(s) <==> Shows(m, db, s)
  {
    OneAlone(db.roles, NamesRole, RolesFound(db), s.role);
    OneAlone(db.permissions, NamesPermission, PermissionsFound(db), s.permission);
    OneAlone(db.edges, NamesEdge, EdgesFound(db), s.edge);
    if Shows(m, db, s) { assert People(m, db) == {m.actor}; }
    if People(m, db) == {m.actor} {
      assert forall i :: i in db.profiles && i != m.actor ==> i !in People(m, db);
    }
  }

  /** What applying needs besides being the first. */
  predicate ReadyToApply(m: Manifest, call: Call, reading: Reading) {
    && Target(m, call) && call.inTime
    && m.opensAt <= call.start < m.closesAt && m.opensAt <= call.finish < m.closesAt
    && reading.Read?
    && reading.state.profile.role == USER
    && reading.state.role.None? && reading.state.permission.None? && reading.state.edge.None?
  }

  /** What withdrawing needs besides following an apply: nothing about the rows except that they can be read. */
  predicate ReadyToWithdraw(m: Manifest, call: Call, reading: Reading) {
    Target(m, call) && reading.Read? && call.inTime
  }

  /** What a repeat needs to be answered as one: the rows are those that the last receipt recorded. */
  predicate ReadyToReplay(m: Manifest, call: Call, reading: Reading, recorded: State) {
    Target(m, call) && reading == Read(recorded) && call.inTime
    && (call.phase == Apply ==> m.opensAt <= call.start < m.closesAt)
  }

  /** A first apply finds the operator an ordinary user, and none of the rows it would create. */
  predicate Fresh(s: State) {
    s.profile.role == USER && s.role.None? && s.permission.None? && s.edge.None?
  }

  /** When each refusal is given, once n phases have committed and the connection is the right one. */
  predicate Refuses(m: Manifest, call: Call, reading: Reading, recorded: Option<State>, n: nat, reason: Reason) {
    match reading
    case Unread(why) => reason == why
    case Read(s) =>
      var replays := n == if call.phase == Apply then 1 else 2;
      var open := call.phase == Withdraw || m.opensAt <= call.start < m.closesAt;
      var stillOpen := m.opensAt <= call.finish < m.closesAt;
      match reason
      case Terminal => n == 2 && call.phase == Apply
      case OperationMissing => n == 0 && call.phase == Withdraw
      case WindowClosed => call.phase == Apply && n < 2 && (!open || (n == 0 && Fresh(s) && !stillOpen))
      case ProfileCas => call.phase == Apply && n == 0 && open && s.profile.role != USER
      case Collision => call.phase == Apply && n == 0 && open && s.profile.role == USER && !Fresh(s)
      case StateDrift => replays && open && recorded != Some(s)
      case Deadline =>
        !call.inTime &&
        (if replays then open && recorded == Some(s)
         else if call.phase == Apply then n == 0 && open && Fresh(s) && stillOpen
         else n == 1)
      case _ => false
  }

  /** The invariant as one call sees it. */
  predicate Seen(reading: Reading, seen: bool, history: Option<History>, n: nat) {
    && n <= 2
    && (seen <==> n > 0)
    && (n > 0 ==> history.Some? && (n == 2 <==> history.value.withdrawn.Some?))
    && (n == 1 && reading.Read? ==>
         var s, applied := reading.state, history.value.applied.state;
         s.profile.role == NOMINAL && s.role == applied.role && s.permission == applied.permission
         && s.edge == applied.edge)
  }

  lemma SeenWhenReached(m: Manifest, db: Db, n: nat)
    requires Reached(m, db, n)
    ensures Seen(ReadState(m, db), Evidence(m, db.log) != {}, HistoryOf(m, db.log), n)
  {
    if ReadState(m, db).Read? { ReadRows(m, db); }
  }

  lemma DecidedInTurn(m: Manifest, call: Call, reading: Reading, seen: bool, history: Option<History>, n: nat)
    requires Seen(reading, seen, history, n)
    ensures var plan := Conclude(m, call, Decide(m, call, reading, seen, history));
            && (call.phase == Apply ==> (plan.Perform? <==> n == 0 && ReadyToApply(m, call, reading)))
            && (call.phase == Withdraw ==> (plan.Perform? <==> n == 1 && ReadyToWithdraw(m, call, reading)))
            && (plan.Replay? <==> n == (if call.phase == Apply then 1 else 2)
                                  && ReadyToReplay(m, call, reading, LastState(history.value)))
            && (n == 2 && call.phase == Apply && Target(m, call) && reading.Read? ==> plan == Refuse(Terminal))
  {
  }

  lemma RefusedInTurn(
    m: Manifest, call: Call, reading: Reading, seen: bool, history: Option<History>, n: nat, reason: Reason)
    requires Seen(reading, seen, history, n)
    ensures var plan := Conclude(m, call, Decide(m, call, reading, seen, history));
            var recorded := if n == 0 then None else Some(LastState(history.value));
            plan == Refuse(reason) <==>
              if Target(m, call) then Refuses(m, call, reading, recorded, n, reason) else reason == TargetMismatch
  {
  }

  /**
   * An apply commits only first and a withdrawal only second, and exactly when their own conditions
   * hold; a repeat is a replay exactly when it repeats the last commit and finds the rows as recorded,
   * and an apply after the withdrawal is final.
   */
  lemma CommitsInTurn(m: Manifest, db: Db, call: Call, n: nat)
    requires Reached(m, db, n)
    ensures call.phase == Apply ==> (Plan(m, db, call).Perform? <==> n == 0 && ReadyToApply(m, call, ReadState(m, db)))
    ensures call.phase == Withdraw ==>
              (Plan(m, db, call).Perform? <==> n == 1 && ReadyToWithdraw(m, call, ReadState(m, db)))
    ensures Plan(m, db, call).Replay? <==>
              n == (if call.phase == Apply then 1 else 2)
              && ReadyToReplay(m, call, ReadState(m, db), LastState(HistoryOf(m, db.log).value))
    ensures n == 2 && call.phase == Apply && Target(m, call) && ReadState(m, db).Read? ==>
              Plan(m, db, call) == Refuse(Terminal)
  {
    SeenWhenReached(m, db, n);
    DecidedInTurn(m, call, ReadState(m, db), Evidence(m, db.log) != {}, HistoryOf(m, db.log), n);
  }

  /** Each refusal is given exactly when its condition holds; evidence in reachable databases never conflicts. */
  lemma RefusalsExact(m: Manifest, db: Db, call: Call, n: nat, reason: Reason)
    requires Reached(m, db, n)
    ensures var recorded := if n == 0 then None else Some(LastState(HistoryOf(m, db.log).value));
            Plan(m, db, call) == Refuse(reason) <==>
              if Target(m, call) then Refuses(m, call, ReadState(m, db), recorded, n, reason)
              else reason == TargetMismatch
  {
    SeenWhenReached(m, db, n);
    RefusedInTurn(m, call, ReadState(m, db), Evidence(m, db.log) != {}, HistoryOf(m, db.log), n, reason);
  }

  /** An audit concerns the operation when it is recorded under its id, or carries the id. */
  predicate Concerns(m: Manifest, a: Audit) {
    a.recordId == m.operationId || OperationOf(a.newValues) == Some(m.operationId)
  }

  /** One audit that concerns the operation under a foreign action makes every call refuse. */
  lemma StrayRefuses(m: Manifest, db: Db, call: Call, a: Audit)
    requires a in db.log && Concerns(m, a) && a.action.OtherAction?
    ensures Plan(m, db, call).Refuse?
  {
    assert a in Evidence(m, db.log);
    if HistoryOf(m, db.log).Some? { AllBelong(m, Evidence(m, db.log)); }
  }

  lemma AllBelong(m: Manifest, audits: set<Audit>)
    requires VerifyHistory(audits, m).Some?
    ensures forall a :: a in audits ==> !a.action.OtherAction?
  {
    var h := VerifyHistory(audits, m).value;
    AcceptedIsWritten(m, audits);
    forall a | a in audits
      ensures !a.action.OtherAction?
    {
      var id, stamps, id', stamps' :| |stamps| > |h.applied.mutations|
        && (a in PhaseAudits(m, h.applied, id, stamps)
            || (h.withdrawn.Some? && |stamps'| > |h.withdrawn.value.mutations|
                && a in PhaseAudits(m, h.withdrawn.value, id', stamps')));
      if a in PhaseAudits(m, h.applied, id, stamps) {
        AuditKinds(m, h.applied, id, stamps, a);
      } else {
        AuditKinds(m, h.withdrawn.value, id', stamps', a);
      }
    }
  }

  /** Audits that do not concern the operation change no decision. */
  lemma OthersIgnored(m: Manifest, db: Db, log: set<Audit>, call: Call)
    requires forall a :: Concerns(m, a) ==> (a in log <==> a in db.log)
    ensures Plan(m, db.(log := log), call) == Plan(m, db, call)
  {
    assert forall a :: a in Evidence(m, log) ==> Concerns(m, a);
    assert forall a :: a in Evidence(m, db.log) ==> Concerns(m, a);
    assert Evidence(m, log) == Evidence(m, db.log);
    ReadsAnyLog(m, db, log);
  }

  // ---------------------------------------------------------------------------------------------
  // What a commit does

  lemma WrittenMention(m: Manifest, log: set<Audit>, r: Receipt, id: Id, stamps: seq<string>)
    requires Shaped(m, r) && |r.mutations| < |stamps| && r.operationId == m.operationId
    ensures Evidence(m, log + PhaseAudits(m, r, id, stamps)) == Evidence(m, log) + PhaseAudits(m, r, id, stamps)
  {
    forall a | a in PhaseAudits(m, r, id, stamps)
      ensures OperationOf(a.newValues) == Some(m.operationId)
    {
      AuditKinds(m, r, id, stamps, a);
    }
  }

  lemma DecideStarts(m: Manifest, call: Call, reading: Reading, seen: bool, history: Option<History>)
    requires Conclude(m, call, Decide(m, call, reading, seen, history)).Perform?
    ensures Target(m, call) && reading == Read(Conclude(m, call, Decide(m, call, reading, seen, history)).before)
    ensures var s := reading.state;
            s.profile.role == RoleBefore(call.phase) &&
            if call.phase == Apply then !seen && s.role.None? && s.permission.None? && s.edge.None?
            else seen && history.Some? && history.value.withdrawn.None? && s.role == history.value.applied.state.role
                 && s.permission == history.value.applied.state.permission && s.edge == history.value.applied.state.edge
  {
  }

  /** A withdrawal starts from the rows that the verified apply created. */
  predicate Continues(m: Manifest, log: set<Audit>, before: State) {
    HistoryOf(m, log).Some? && HistoryOf(m, log).value.withdrawn.None? &&
    var applied := HistoryOf(m, log).value.applied.state;
    before.role == applied.role && before.permission == applied.permission && before.edge == applied.edge
  }

  lemma AppliedRows(m: Manifest, audits: set<Audit>)
    requires VerifyHistory(audits, m).Some?
    ensures var s := VerifyHistory(audits, m).value.applied.state;
            ValidDefinitions(s) && ValidEdge(s.edge)
  {
    AcceptedIsWritten(m, audits);
  }

  /** The plan of a commit starts from a state that fits the phase. */
  lemma PlanStarts(m: Manifest, db: Db, call: Call)
    requires db.Keyed() && Plan(m, db, call).Perform?
    ensures Target(m, call) && ReadState(m, db) == Read(Plan(m, db, call).before)
    ensures Startable(m, call.phase, Plan(m, db, call).before)
    ensures if call.phase == Apply then Evidence(m, db.log) == {} else Continues(m, db.log, Plan(m, db, call).before)
  {
    DecideStarts(m, call, ReadState(m, db), Evidence(m, db.log) != {}, HistoryOf(m, db.log));
    ReadRows(m, db);
    if call.phase == Withdraw { AppliedRows(m, Evidence(m, db.log)); }
  }

  predicate IsOperator(m: Manifest, p: Profile) {
    p.id == m.actor && p.subject == m.subject && p.tenant == m.tenant && p.isActive
  }

  /**
   * What an accepted history says: the operator was an ordinary user and got the nominal role, with one
   * permission through one edge; and, if it was withdrawn, lost that edge and that role and nothing else.
   */
  lemma AcceptedHistory(m: Manifest, audits: set<Audit>)
    requires VerifyHistory(audits, m).Some?
    ensures var s := VerifyHistory(audits, m).value.applied.state;
            && IsOperator(m, s.profile) && s.profile.role == NOMINAL && s.tenant.id == m.tenant && s.tenant.isActive
            && s.permission.Some? && s.permission.value.id == PERMISSION_ID
            && s.permission.value.resource == "estimate" && s.permission.value.action == "create"
            && s.role.Some? && s.role.value.id == ROLE_ID && s.role.value.name == NOMINAL && !s.role.value.isSystem
            && s.edge.Some? && s.edge.value.id == EDGE_ID
            && s.edge.value.role == ROLE_ID && s.edge.value.permission == PERMISSION_ID
    ensures VerifyHistory(audits, m).value.withdrawn.Some? ==>
              var (s, t) := (VerifyHistory(audits, m).value.applied.state,
                             VerifyHistory(audits, m).value.withdrawn.value.state);
              && IsOperator(m, t.profile) && t.profile.role == USER && t.tenant.id == m.tenant && t.tenant.isActive
              && t.permission == s.permission && t.role == s.role && t.edge == None
    ensures |audits| == if VerifyHistory(audits, m).value.withdrawn.Some? then 8 else 5
  {
    AcceptedIsWritten(m, audits);
  }

  lemma ApplyVerifies(m: Manifest, log: set<Audit>, before: State, call: Call)
    requires call.phase == Apply && Startable(m, Apply, before) && ByPrincipal(m, call) && Evidence(m, log) == {}
    ensures HistoryOf(m, log + Written(m, before, call)) == Some(History(ReceiptOf(m, before, call), None))
  {
    var r := ReceiptOf(m, before, call);
    WriterPossible(m, before, call);
    WrittenMention(m, log, r, call.ids[4], call.stamps);
    assert Evidence(m, log + Written(m, before, call)) == PhaseAudits(m, r, call.ids[4], call.stamps);
    AppliedAccepted(m, History(r, None), call.ids[4], call.stamps);
  }

  lemma WithdrawVerifies(m: Manifest, log: set<Audit>, before: State, call: Call)
    requires call.phase == Withdraw && Startable(m, Withdraw, before) && ByPrincipal(m, call)
    requires Continues(m, log, before)
    ensures HistoryOf(m, log + Written(m, before, call))
         == Some(History(HistoryOf(m, log).value.applied, Some(ReceiptOf(m, before, call))))
  {
    var a, w := HistoryOf(m, log).value.applied, ReceiptOf(m, before, call);
    WriterPossible(m, before, call);
    WrittenMention(m, log, w, call.ids[2], call.stamps);
    AcceptedIsWritten(m, Evidence(m, log));
    var id, stamps :| |stamps| > |a.mutations| && Evidence(m, log) == PhaseAudits(m, a, id, stamps);
    WithdrawnAccepted(m, History(a, Some(w)), id, stamps, call.ids[2], call.stamps);
  }

  /** A state in the middle of the writes: read again, it shows the one change just made. */
  lemma ReadsPermission(m: Manifest, db: Db, before: State, p: Permission)
    requires db.Keyed() && ReadState(m, db) == Read(before) && before.permission.None? && p.id == PERMISSION_ID
    ensures ReadState(m, db.(permissions := db.permissions[PERMISSION_ID := p])) == Read(before.(permission := Some(p)))
  {
    var next := db.(permissions := db.permissions[PERMISSION_ID := p]);
    assert People(m, next) == People(m, db) && RolesFound(next) == RolesFound(db) && EdgesFound(next) == EdgesFound(db);
    assert PermissionsFound(next) == {PERMISSION_ID};
  }

  lemma ReadsRole(m: Manifest, db: Db, before: State, r: Role)
    requires db.Keyed() && ReadState(m, db) == Read(before) && before.role.None? && r.id == ROLE_ID
    ensures ReadState(m, db.(roles := db.roles[ROLE_ID := r])) == Read(before.(role := Some(r)))
  {
    var next := db.(roles := db.roles[ROLE_ID := r]);
    assert People(m, next) == People(m, db) && PermissionsFound(next) == PermissionsFound(db)
             && EdgesFound(next) == EdgesFound(db);
    assert RolesFound(next) == {ROLE_ID};
  }

  lemma ReadsEdge(m: Manifest, db: Db, before: State, e: Edge)
    requires db.Keyed() && ReadState(m, db) == Read(before) && before.edge.None? && e.id == EDGE_ID
    ensures ReadState(m, db.(edges := db.edges[EDGE_ID := e])) == Read(before.(edge := Some(e)))
  {
    var next := db.(edges := db.edges[EDGE_ID := e]);
    assert People(m, next) == People(m, db) && PermissionsFound(next) == PermissionsFound(db)
             && RolesFound(next) == RolesFound(db);
    assert EdgesFound(next) == {EDGE_ID};
  }

  lemma ReadsNoEdge(m: Manifest, db: Db, before: State)
    requires db.Keyed() && ReadState(m, db) == Read(before) && ValidEdge(before.edge)
    ensures EDGE_ID in db.edges && before.edge == Some(db.edges[EDGE_ID])
    ensures ReadState(m, db.(edges := db.edges - {EDGE_ID})) == Read(before.(edge := None))
  {
    var next := db.(edges := db.edges - {EDGE_ID});
    EdgeFound(db);
    assert People(m, next) == People(m, db) && PermissionsFound(next) == PermissionsFound(db)
             && RolesFound(next) == RolesFound(db);
    assert EdgesFound(next) == {};
  }

  lemma ReadsProfile(m: Manifest, db: Db, before: State, p: Profile)
    requires m.Ok() && db.Keyed() && ReadState(m, db) == Read(before) && Identified(m, p)
    ensures ReadState(m, db.(profiles := db.profiles[m.actor := p])) == Read(before.(profile := p))
  {
    var next := db.(profiles := db.profiles[m.actor := p]);
    assert forall i :: i in People(m, next) ==> i == m.actor || i in People(m, db);
    assert People(m, next) == {m.actor};
    assert PermissionsFound(next) == PermissionsFound(db) && RolesFound(next) == RolesFound(db)
             && EdgesFound(next) == EdgesFound(db);
  }

  lemma ReadsAnyLog(m: Manifest, db: Db, log: set<Audit>)
    ensures ReadState(m, db.(log := log)) == ReadState(m, db)
  {
    var next := db.(log := log);
    assert People(m, next) == People(m, db) && PermissionsFound(next) == PermissionsFound(db);
    assert RolesFound(next) == RolesFound(db) && EdgesFound(next) == EdgesFound(db);
  }

  /** The read-back of a commit: exactly the state that the receipt records. */
  lemma StateReadBack(m: Manifest, db: Db, before: State, call: Call)
    requires m.Ok() && db.Keyed() && ReadState(m, db) == Read(before) && Startable(m, call.phase, before)
    requires |call.ids| == 5 && |call.stamps| == 5
    ensures ReadState(m, Committed(m, db, before, call)) == Read(StateAfter(before, call))
  {
    var next := Committed(m, db, before, call);
    ReadRows(m, db);
    assert People(m, next) == {m.actor};
    if call.phase == Apply {
      assert RolesFound(next) == {ROLE_ID};
      assert PermissionsFound(next) == {PERMISSION_ID};
      assert EdgesFound(next) == {EDGE_ID};
    } else {
      assert RolesFound(next) == RolesFound(db);
      assert PermissionsFound(next) == PermissionsFound(db);
      EdgeFound(db);
      assert EdgesFound(next) == {};
    }
  }

  lemma EdgeFound(db: Db)
    requires db.Keyed() && |EdgesFound(db)| <= 1 && ValidEdge(TheOne(db.edges, EdgesFound(db)))
    ensures EdgesFound(db) == {EDGE_ID} && EDGE_ID in db.edges
  {
    var i :| i in EdgesFound(db);
    assert db.edges[i].id == EDGE_ID;
    forall j | j in EdgesFound(db) ensures j == i { SizeOne(EdgesFound(db), i, j); }
  }

  // ---------------------------------------------------------------------------------------------
  // Transitions

  predicate Supplied(call: Call) {
    |call.ids| == 5 && |call.stamps| == 5
  }

  /** The database after a call. */
  function After(m: Manifest, db: Db, call: Call): Db
    requires db.Keyed() && Supplied(call)
  {
    var plan := Plan(m, db, call);
    if !plan.Perform? then db
    else
      PlanStarts(m, db, call);
      Committed(m, db, plan.before, call)
  }

  lemma HistoryShown(m: Manifest, log: set<Audit>)
    requires HistoryOf(m, log).Some?
    ensures Evidence(m, log) != {}
  {
  }

  /** A verified history and the rows to match it. */
  lemma ReachedBy(m: Manifest, db: Db, h: History)
    requires db.Keyed() && HistoryOf(m, db.log) == Some(h) && DefinitionsKept(db, h.applied.state)
    requires HasRole(m, db, if h.withdrawn.None? then NOMINAL else USER)
    requires if h.withdrawn.None? then EDGE_ID in db.edges && h.applied.state.edge == Some(db.edges[EDGE_ID])
             else EDGE_ID !in db.edges
    ensures Reached(m, db, if h.withdrawn.None? then 1 else 2)
  {
    HistoryShown(m, db.log);
  }

  lemma ApplyRows(m: Manifest, db: Db, before: State, call: Call)
    requires db.Keyed() && call.phase == Apply && Supplied(call) && before.profile.id == m.actor
    ensures var next, state := Committed(m, db, before, call), StateAfter(before, call);
            && next.Keyed() && DefinitionsKept(next, state) && HasRole(m, next, NOMINAL)
            && EDGE_ID in next.edges && state.edge == Some(next.edges[EDGE_ID])
  {
  }

  lemma WithdrawRows(m: Manifest, db: Db, before: State, call: Call, applied: State)
    requires db.Keyed() && call.phase == Withdraw && Supplied(call) && before.profile.id == m.actor && before.edge.Some?
    requires DefinitionsKept(db, applied)
    ensures var next := Committed(m, db, before, call);
            next.Keyed() && DefinitionsKept(next, applied) && HasRole(m, next, USER) && EDGE_ID !in next.edges
  {
  }

  lemma ApplyReaches(m: Manifest, db: Db, before: State, call: Call)
    requires Reached(m, db, 0) && call.phase == Apply && Startable(m, Apply, before) && ByPrincipal(m, call)
    ensures Reached(m, Committed(m, db, before, call), 1)
  {
    ApplyVerifies(m, db.log, before, call);
    ApplyRows(m, db, before, call);
    ReachedBy(m, Committed(m, db, before, call), History(ReceiptOf(m, before, call), None));
  }

  lemma WithdrawReaches(m: Manifest, db: Db, before: State, call: Call)
    requires Reached(m, db, 1) && call.phase == Withdraw && Startable(m, Withdraw, before) && ByPrincipal(m, call)
    requires Continues(m, db.log, before)
    ensures Reached(m, Committed(m, db, before, call), 2)
  {
    var h := HistoryOf(m, db.log).value;
    WithdrawVerifies(m, db.log, before, call);
    WithdrawRows(m, db, before, call, h.applied.state);
    ReachedBy(m, Committed(m, db, before, call), History(h.applied, Some(ReceiptOf(m, before, call))));
  }

  /** One call: it commits the next phase or leaves the database as it is. */
  lemma CallReaches(m: Manifest, db: Db, call: Call, n: nat)
    requires Reached(m, db, n) && Supplied(call)
    ensures !Plan(m, db, call).Perform? ==> After(m, db, call) == db
    ensures Plan(m, db, call).Perform? ==>
              n == (if call.phase == Apply then 0 else 1) && Reached(m, After(m, db, call), n + 1)
  {
    if Plan(m, db, call).Perform? {
      CommitsInTurn(m, db, call, n);
      PlanStarts(m, db, call);
      if call.phase == Apply { ApplyReaches(m, db, Plan(m, db, call).before, call); }
      else { WithdrawReaches(m, db, Plan(m, db, call).before, call); }
    }
  }

  /**
   * Withdrawing leaves the profile as it just was, except for its role; removes the edge; and keeps
   * the permission and role rows that the apply created.
   */
  lemma WithdrawEffect(m: Manifest, db: Db, call: Call)
    requires Reached(m, db, 1) && Supplied(call) && call.phase == Withdraw && Plan(m, db, call).Perform?
    ensures m.actor in db.profiles
    ensures var next := After(m, db, call);
            && next.profiles == db.profiles[m.actor := db.profiles[m.actor].(role := USER)]
            && next.edges == db.edges - {EDGE_ID}
            && next.permissions == db.permissions && next.roles == db.roles && next.tenants == db.tenants
            && DefinitionsKept(next, HistoryOf(m, db.log).value.applied.state)
  {
    PlanStarts(m, db, call);
    ReadRows(m, db);
  }

  /** Applying leaves the profile as it just was, except for its role, and adds the three rows and nothing else. */
  lemma ApplyEffect(m: Manifest, db: Db, call: Call)
    requires Reached(m, db, 0) && Supplied(call) && call.phase == Apply && Plan(m, db, call).Perform?
    ensures m.actor in db.profiles
    ensures PERMISSION_ID !in db.permissions && ROLE_ID !in db.roles && EDGE_ID !in db.edges
    ensures var next := After(m, db, call);
            && next.profiles == db.profiles[m.actor := db.profiles[m.actor].(role := NOMINAL)]
            && next.tenants == db.tenants
            && next.permissions
            == db.permissions[PERMISSION_ID :=
                 Permission(PERMISSION_ID, "estimate", "create", DESCRIPTION, call.permissionRest)]
            && next.roles == db.roles[ROLE_ID := Role(ROLE_ID, NOMINAL, DESCRIPTION, false, call.roleRest)]
            && next.edges == db.edges[EDGE_ID := Edge(EDGE_ID, ROLE_ID, PERMISSION_ID, call.edgeRest)]
  {
    PlanStarts(m, db, call);
    ReadRows(m, db);
  }

  // ---------------------------------------------------------------------------------------------
  // Runs

  datatype Event = Calls(call: Call) | Outside(next: Db)

  /** Other programs may change every profile column but identity, role and activity, and any unrelated row or audit. */
  predicate OutsideOk(m: Manifest, db: Db, next: Db) {
    && next.Keyed()
    && Evidence(m, next.log) == Evidence(m, db.log)
    && (m.actor in db.profiles ==>
         m.actor in next.profiles
         && next.profiles[m.actor] == db.profiles[m.actor].(rest := next.profiles[m.actor].rest))
    && (PERMISSION_ID in db.permissions ==>
         PERMISSION_ID in next.permissions && next.permissions[PERMISSION_ID] == db.permissions[PERMISSION_ID])
    && (ROLE_ID in db.roles ==> ROLE_ID in next.roles && next.roles[ROLE_ID] == db.roles[ROLE_ID])
    && (EDGE_ID in db.edges <==> EDGE_ID in next.edges)
    && (EDGE_ID in db.edges ==> next.edges[EDGE_ID] == db.edges[EDGE_ID])
  }

  predicate EventOk(m: Manifest, db: Db, event: Event) {
    match event
    case Calls(call) => Supplied(call)
    case Outside(next) => OutsideOk(m, db, next)
  }

  function Moved(m: Manifest, db: Db, event: Event): (next: Db)
    requires db.Keyed() && EventOk(m, db, event)
    ensures next.Keyed()
  {
    match event
    case Calls(call) => KeyedAfter(m, db, call); After(m, db, call)
    case Outside(next) => next
  }

  lemma KeyedAfter(m: Manifest, db: Db, call: Call)
    requires db.Keyed() && Supplied(call)
    ensures After(m, db, call).Keyed()
  {
    if Plan(m, db, call).Perform? {
      PlanStarts(m, db, call);
      KeyedCommitted(m, db, Plan(m, db, call).before, call);
    }
  }

  lemma KeyedCommitted(m: Manifest, db: Db, before: State, call: Call)
    requires db.Keyed() && Supplied(call) && Startable(m, call.phase, before)
    ensures Committed(m, db, before, call).Keyed()
  {
  }

  predicate RunOk(m: Manifest, db: Db, events: seq<Event>)
    requires db.Keyed()
    decreases |events|
  {
    events != [] ==> EventOk(m, db, events[0]) && RunOk(m, Moved(m, db, events[0]), events[1..])
  }

  function Played(m: Manifest, db: Db, events: seq<Event>): (end: Db)
    requires db.Keyed() && RunOk(m, db, events)
    decreases |events|
  {
    if events == [] then db else Played(m, Moved(m, db, events[0]), events[1..])
  }

  function CommitAt(m: Manifest, db: Db, event: Event): seq<Phase> {
    if event.Calls? && Plan(m, db, event.call).Perform? then [event.call.phase] else []
  }

  /** The phases that commit during a run, in order. */
  function CommitsOf(m: Manifest, db: Db, events: seq<Event>): seq<Phase>
    requires db.Keyed() && RunOk(m, db, events)
    decreases |events|
  {
    if events == [] then []
    else CommitAt(m, db, events[0]) + CommitsOf(m, Moved(m, db, events[0]), events[1..])
  }

  lemma OutsideReaches(m: Manifest, db: Db, next: Db, n: nat)
    requires Reached(m, db, n) && OutsideOk(m, db, next)
    ensures Reached(m, next, n)
  {
  }

  /** The phases still to come once n have committed. */
  function Remaining(n: nat): seq<Phase> {
    if n == 0 then [Apply, Withdraw] else if n == 1 then [Withdraw] else []
  }

  lemma EventReaches(m: Manifest, db: Db, event: Event, n: nat)
    requires Reached(m, db, n) && EventOk(m, db, event)
    ensures CommitAt(m, db, event) == [] || (n < 2 && CommitAt(m, db, event) == [Remaining(n)[0]])
    ensures Reached(m, Moved(m, db, event), n + |CommitAt(m, db, event)|)
  {
    match event
    case Calls(call) => CallReaches(m, db, call, n);
    case Outside(next) => OutsideReaches(m, db, next, n);
  }

  lemma Prefixes(here: seq<Phase>, later: seq<Phase>, n: nat)
    requires here == [] || (n < 2 && here == [Remaining(n)[0]])
    requires later <= Remaining(n + |here|)
    ensures here + later <= Remaining(n)
  {
  }

  /** Every run commits a prefix of what remains: apply at most once, then withdraw at most once, then nothing. */
  lemma {:induction false} RunInOrder(m: Manifest, db: Db, events: seq<Event>, n: nat)
    requires Reached(m, db, n) && RunOk(m, db, events)
    ensures CommitsOf(m, db, events) <= Remaining(n)
    ensures Reached(m, Played(m, db, events), n + |CommitsOf(m, db, events)|)
    decreases |events|
  {
    if events != [] {
      var here, next := CommitAt(m, db, events[0]), Moved(m, db, events[0]);
      EventReaches(m, db, events[0], n);
      RunInOrder(m, next, events[1..], n + |here|);
      Prefixes(here, CommitsOf(m, next, events[1..]), n);
    }
  }

  /** From a database without evidence, a run leaves 0, 5 or 8 audits of the operation, by the phases it committed. */
  lemma FreshRun(m: Manifest, db: Db, events: seq<Event>)
    requires db.Keyed() && Evidence(m, db.log) == {} && RunOk(m, db, events)
    ensures CommitsOf(m, db, events) <= [Apply, Withdraw]
    ensures |Evidence(m, Played(m, db, events).log)|
         == (match |CommitsOf(m, db, events)| case 0 => 0 case 1 => 5 case _ => 8)
  {
    RunInOrder(m, db, events, 0);
    EvidenceCount(m, Played(m, db, events), |CommitsOf(m, db, events)|);
  }
}
