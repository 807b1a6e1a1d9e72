/**
 * The calculator RBAC saga: one manifest grants a nominal role to one operator and later withdraws
 * it, and each transaction first verifies the audits that earlier ones must have written
 * (scripts/financial-executor-homologation-rbac.ts).
 */
module Rbac {
  import opened Wrappers
  import opened Collections

  type Id = nat

  const NOMINAL := "calculator_pilot_operator_v1"
  const USER := "user"
  const DESCRIPTION := "Nominal Calculator homologation candidate; no other grant"
  const PERMISSION_ID: Id := 0xc8310000_0000_4000_8000_000000000001
  const ROLE_ID: Id := 0xc8310000_0000_4000_8000_000000000002
  const EDGE_ID: Id := 0xc8310000_0000_4000_8000_000000000003
  const LONGEST_WINDOW := 7200000

  // ---------------------------------------------------------------------------------------------
  // Data

  datatype Manifest = Manifest(
    operationId: Id,
    sourceCommit: string,
    principal: string,
    subject: Id,
    actor: Id,
    tenant: Id,
    opensAt: int,
    closesAt: int)
  {
    predicate Ok() {
      var ids := [operationId, subject, actor, tenant, PERMISSION_ID, ROLE_ID, EDGE_ID];
      && (forall i, j :: 0 <= i < j < |ids| ==> ids[i] != ids[j])
      && 0 < closesAt - opensAt <= LONGEST_WINDOW
    }

    predicate Open(now: int) {
      opensAt <= now < closesAt
    }
  }

  /** `rest` stands for every column the program neither sets nor names. */
  datatype Profile = Profile(id: Id, subject: Id, tenant: Id, isActive: bool, role: string, rest: string)

  datatype Tenant = Tenant(id: Id, isActive: bool, rest: string)

  datatype Permission = Permission(id: Id, resource: string, action: string, description: string, rest: string)

  datatype Role = Role(id: Id, name: string, description: string, isSystem: bool, rest: string)

  datatype Edge = Edge(id: Id, role: Id, permission: Id, rest: string)

  datatype State = State(
    profile: Profile,
    tenant: Tenant,
    permission: Option<Permission>,
    role: Option<Role>,
    edge: Option<Edge>)

  datatype Phase = Apply | Withdraw

  datatype Row =
    | OfProfile(profile: Profile)
    | OfPermission(permission: Permission)
    | OfRole(role: Role)
    | OfEdge(edge: Edge)

  datatype Change = CreatePermission | CreateRole | CreateEdge | AssignProfile | DeleteEdge | RestoreProfile

  datatype Action = Changed(change: Change) | Completed(phase: Phase) | OtherAction(text: string)

  datatype Table = Permissions | Roles | Edges | Profiles | Receipts | OtherTable(text: string)

  datatype Mutation = Mutation(
    action: Action, table: Table, recordId: Id, before: Option<Row>, after: Option<Row>, auditId: Id)

  datatype Hash = Digest(manifest: Manifest)

  datatype Receipt = Receipt(
    operationId: Id,
    manifestHash: Hash,
    manifest: Manifest,
    phase: Phase,
    currentUser: string,
    sessionUser: string,
    mutations: seq<Mutation>,
    state: State)

  datatype Payload =
    | Absent
    | OfRow(row: Row)
    | Wrapped(operationId: Id, manifestHash: Hash, phase: Phase, after: Option<Row>)
    | OfReceipt(receipt: Receipt)
    | OtherPayload(operation: Option<Id>, text: string)

  /** `stamp` stands for the columns that no verifier here reads: time, address, agent. */
  datatype Audit = Audit(
    id: Id, userId: Option<Id>, action: Action, table: Table, recordId: Id,
    oldValues: Payload, newValues: Payload, stamp: string)

  datatype Db = Db(
    profiles: map<Id, Profile>,
    tenants: map<Id, Tenant>,
    permissions: map<Id, Permission>,
    roles: map<Id, Role>,
    edges: map<Id, Edge>,
    log: set<Audit>)
  {
    /** Rows are stored under their primary keys. */
    predicate Keyed() {
      && (forall i :: i in profiles ==> profiles[i].id == i)
      && (forall i :: i in tenants ==> tenants[i].id == i)
      && (forall i :: i in permissions ==> permissions[i].id == i)
      && (forall i :: i in roles ==> roles[i].id == i)
      && (forall i :: i in edges ==> edges[i].id == i)
    }
  }

  // ---------------------------------------------------------------------------------------------
  // Reading the state

  datatype Reason =
    | TargetMismatch | IdentityMismatch | StateDrift | OperationConflict | Terminal
    | WindowClosed | ProfileCas | Collision | OperationMissing | Deadline

  datatype Reading = Read(state: State) | Unread(reason: Reason)

  /** The one row of a query that returned at most one. */
  function TheOne<T>(table: map<Id, T>, ids: set<Id>): (row: Option<T>)
    requires ids <= table.Keys && |ids| <= 1
    ensures forall i :: i in ids ==> row == Some(table[i])
    ensures row.None? <==> ids == {}
  {
    if ids == {} then None
    else
      assert forall i, j :: i in ids && j in ids ==> i == j by {
        forall i, j | i in ids && j in ids ensures i == j { SizeOne(ids, i, j); }
      }
      var i :| i in ids;
      Some(table[i])
  }

  function People(m: Manifest, db: Db): set<Id> {
    set i | i in db.profiles && (i == m.actor || db.profiles[i].subject == m.subject || db.profiles[i].role == NOMINAL)
  }

  function RolesFound(db: Db): set<Id> {
    set i | i in db.roles && (i == ROLE_ID || db.roles[i].name == NOMINAL)
  }

  function PermissionsFound(db: Db): set<Id> {
    set i | i in db.permissions &&
            (i == PERMISSION_ID || (db.permissions[i].resource == "estimate" && db.permissions[i].action == "create"))
  }

  function EdgesFound(db: Db): set<Id> {
    set i | i in db.edges && (i == EDGE_ID || db.edges[i].role == ROLE_ID || db.edges[i].permission == PERMISSION_ID)
  }

  predicate Identified(m: Manifest, p: Profile) {
    p.id == m.actor && p.subject == m.subject && p.tenant == m.tenant && p.isActive
  }

  function ReadState(m: Manifest, db: Db): Reading {
    if People(m, db) != {m.actor} || m.actor !in db.profiles || !Identified(m, db.profiles[m.actor]) then
      Unread(IdentityMismatch)
    else if m.tenant !in db.tenants || !db.tenants[m.tenant].isActive then Unread(IdentityMismatch)
    else if |RolesFound(db)| > 1 || |PermissionsFound(db)| > 1 || |EdgesFound(db)| > 1 then Unread(StateDrift)
    else
      Read(State(db.profiles[m.actor], db.tenants[m.tenant],
                 TheOne(db.permissions, PermissionsFound(db)), TheOne(db.roles, RolesFound(db)),
                 TheOne(db.edges, EdgesFound(db))))
  }

  // ---------------------------------------------------------------------------------------------
  // Verifying evidence

  function OperationOf(p: Payload): Option<Id> {
    match p
    case Wrapped(op, _, _, _) => Some(op)
    case OfReceipt(r) => Some(r.operationId)
    case OtherPayload(op, _) => op
    case _ => None
  }

  function Evidence(m: Manifest, log: set<Audit>): set<Audit> {
    set a | a in log && (a.recordId == m.operationId || OperationOf(a.newValues) == Some(m.operationId))
  }

  predicate ValidPermission(p: Option<Permission>) {
    p.Some? && p.value.id == PERMISSION_ID && p.value.resource == "estimate" && p.value.action == "create"
    && p.value.description == DESCRIPTION
  }

  predicate ValidRole(r: Option<Role>) {
    r.Some? && r.value.id == ROLE_ID && r.value.name == NOMINAL && r.value.description == DESCRIPTION
      && !r.value.isSystem
  }

  predicate ValidDefinitions(s: State) {
    ValidRole(s.role) && ValidPermission(s.permission)
  }

  predicate ValidEdge(e: Option<Edge>) {
    e.Some? && e.value.id == EDGE_ID && e.value.role == ROLE_ID && e.value.permission == PERMISSION_ID
  }

  function RoleBefore(phase: Phase): string {
    if phase == Apply then USER else NOMINAL
  }

  function RoleAfter(phase: Phase): string {
    if phase == Apply then NOMINAL else USER
  }

  predicate ValidChange(m: Manifest, phase: Phase, before: Option<Row>, after: Option<Row>) {
    && before.Some? && before.value.OfProfile?
    && Identified(m, before.value.profile)
    && before.value.profile.role == RoleBefore(phase)
    && after == Some(OfProfile(before.value.profile.(role := RoleAfter(phase))))
  }

  datatype Step = Step(change: Change, table: Table, recordId: Id)

  function Required(m: Manifest, phase: Phase): seq<Step> {
    match phase
    case Apply => [Step(CreatePermission, Permissions, PERMISSION_ID), Step(CreateRole, Roles, ROLE_ID),
                   Step(CreateEdge, Edges, EDGE_ID), Step(AssignProfile, Profiles, m.actor)]
    case Withdraw => [Step(DeleteEdge, Edges, EDGE_ID), Step(RestoreProfile, Profiles, m.actor)]
  }

  function With(audits: set<Audit>, action: Action): set<Audit> {
    set a | a in audits && a.action == action
  }

  function Old(row: Option<Row>): Payload {
    match row
    case None => Absent
    case Some(r) => OfRow(r)
  }

  /** Exactly one audit has the change's action, and it says what the mutation says. */
  predicate MutationOk(audits: set<Audit>, m: Manifest, phase: Phase, step: Step, mu: Mutation) {
    && mu.action == Changed(step.change) && mu.table == step.table && mu.recordId == step.recordId
    && |With(audits, mu.action)| == 1
    && forall a :: a in With(audits, mu.action) ==>
         && a.id == mu.auditId && a.userId == None && a.table == step.table && a.recordId == step.recordId
         && a.oldValues == Old(mu.before)
         && a.newValues == Wrapped(m.operationId, Digest(m), phase, mu.after)
  }

  /** What a receipt must say about itself and about the state it leaves. */
  predicate ReceiptOk(m: Manifest, phase: Phase, r: Receipt) {
    && r.operationId == m.operationId && r.manifestHash == Digest(m) && r.manifest == m && r.phase == phase
    && r.currentUser == m.principal && r.sessionUser == m.principal
    && ValidDefinitions(r.state)
    && |r.mutations| == |Required(m, phase)|
    && var last := r.mutations[|r.mutations| - 1];
    && ValidChange(m, phase, last.before, last.after)
    && last.after == Some(OfProfile(r.state.profile))
    && r.state.tenant.id == m.tenant && r.state.tenant.isActive
    && match phase
       case Apply =>
         && ValidEdge(r.state.edge)
         && (forall i :: 0 <= i < 3 ==> r.mutations[i].before == None)
         && r.mutations[0].after == Some(OfPermission(r.state.permission.value))
         && r.mutations[1].after == Some(OfRole(r.state.role.value))
         && r.mutations[2].after == Some(OfEdge(r.state.edge.value))
       case Withdraw =>
         && r.state.edge == None
         && r.mutations[0].before.Some? && r.mutations[0].before.value.OfEdge?
         && ValidEdge(Some(r.mutations[0].before.value.edge))
         && r.mutations[0].after == None
  }

  /** The one completion audit of a phase. */
  function Completion(audits: set<Audit>, phase: Phase): (found: Option<Audit>)
    ensures found.Some? <==> |With(audits, Completed(phase))| == 1
    ensures found.Some? ==> With(audits, Completed(phase)) == {found.value}
  {
    var found := With(audits, Completed(phase));
    if |found| != 1 then None
    else
      assert forall a, b :: a in found && b in found ==> a == b by {
        forall a, b | a in found && b in found ensures a == b { SizeOne(found, a, b); }
      }
      var a :| a in found;
      Some(a)
  }

  function VerifyPhase(audits: set<Audit>, m: Manifest, phase: Phase): Option<Receipt> {
    match Completion(audits, phase)
    case None => None
    case Some(a) =>
      if !a.newValues.OfReceipt? || a.userId != None || a.recordId != m.operationId
         || a.table != Receipts || a.oldValues != Absent then None
      else
        var r := a.newValues.receipt;
        if !ReceiptOk(m, phase, r) then None
        else if !(forall i :: 0 <= i < |r.mutations| ==>
                  MutationOk(audits, m, phase, Required(m, phase)[i], r.mutations[i])) then None
        else Some(r)
  }

  datatype History = History(applied: Receipt, withdrawn: Option<Receipt>)

  predicate Consistent(h: History) {
    h.withdrawn.Some? ==>
      && h.withdrawn.value.state.role == h.applied.state.role
      && h.withdrawn.value.state.permission == h.applied.state.permission
      && |h.withdrawn.value.mutations| > 0
      && h.applied.state.edge.Some?
      && h.withdrawn.value.mutations[0].before == Some(OfEdge(h.applied.state.edge.value))
  }

  /** The verdict on a history, from what was found of its two phases. */
  function Judge(size: nat, applied: Option<Receipt>, withdrawal: bool, withdrawn: Option<Receipt>): Option<History> {
    if applied.None? || (withdrawal && withdrawn.None?) then None
    else
      var h := History(applied.value, if withdrawal then withdrawn else None);
      if size != (if withdrawal then 8 else 5) || !Consistent(h) then None else Some(h)
  }

  function VerifyHistory(audits: set<Audit>, m: Manifest): Option<History> {
    Judge(|audits|, VerifyPhase(audits, m, Apply), With(audits, Completed(Withdraw)) != {},
          VerifyPhase(audits, m, Withdraw))
  }

  // ---------------------------------------------------------------------------------------------
  // One call

  datatype Decision = Refuse(reason: Reason) | Replay | Perform(before: State)

  /**
   * One call: its phase, what the connection reports, the clock at the start and at the end, whether
   * the deadline is met, the defaults and ids that the database will supply.
   */
  datatype Call = Call(
    phase: Phase,
    currentUser: string,
    sessionUser: string,
    targetOk: bool,
    start: int,
    finish: int,
    inTime: bool,
    permissionRest: string,
    roleRest: string,
    edgeRest: string,
    ids: seq<Id>,
    stamps: seq<string>)

  /** Everything up to the first write: the state read, whether there is evidence, and its history. */
  function Decide(m: Manifest, call: Call, reading: Reading, seen: bool, history: Option<History>): Decision {
    if call.currentUser != m.principal || call.sessionUser != m.principal || !call.targetOk then Refuse(TargetMismatch)
    else
      match reading
      case Unread(reason) => Refuse(reason)
      case Read(before) =>
        if seen && history.None? then Refuse(OperationConflict)
        else if seen && history.value.withdrawn.Some? then
          if call.phase == Apply then Refuse(Terminal)
          else if before != history.value.withdrawn.value.state then Refuse(StateDrift)
          else if !call.inTime then Refuse(Deadline)
          else Replay
        else if call.phase == Apply then
          if !m.Open(call.start) then Refuse(WindowClosed)
          else if seen then
            if before != history.value.applied.state then Refuse(StateDrift)
            else if !call.inTime then Refuse(Deadline)
            else Replay
          else if before.profile.role != USER then Refuse(ProfileCas)
          else if before.role.Some? || before.permission.Some? || before.edge.Some? then Refuse(Collision)
          else Perform(before)
        else if !seen then Refuse(OperationMissing)
        else
          var applied := history.value.applied.state;
          if before.profile.role != NOMINAL || before.role != applied.role
             || before.permission != applied.permission || before.edge != applied.edge then Refuse(StateDrift)
          else Perform(before)
  }

  function Precheck(m: Manifest, db: Db, call: Call): Decision {
    var audits := Evidence(m, db.log);
    Decide(m, call, ReadState(m, db), audits != {}, VerifyHistory(audits, m))
  }

  /** The last checks come after the writes, and roll them back. */
  function Conclude(m: Manifest, call: Call, first: Decision): Decision {
    if !first.Perform? then first
    else if call.phase == Apply && !m.Open(call.finish) then Refuse(WindowClosed)
    else if !call.inTime then Refuse(Deadline)
    else first
  }

  function Plan(m: Manifest, db: Db, call: Call): Decision {
    Conclude(m, call, Precheck(m, db, call))
  }

  // ---------------------------------------------------------------------------------------------
  // What one phase writes

  function NewPermission(call: Call): Permission {
    Permission(PERMISSION_ID, "estimate", "create", DESCRIPTION, call.permissionRest)
  }

  function NewRole(call: Call): Role {
    Role(ROLE_ID, NOMINAL, DESCRIPTION, false, call.roleRest)
  }

  function NewEdge(call: Call): Edge {
    Edge(EDGE_ID, ROLE_ID, PERMISSION_ID, call.edgeRest)
  }

  /** The state a phase leaves. */
  function StateAfter(before: State, call: Call): State {
    var profile := before.profile.(role := RoleAfter(call.phase));
    match call.phase
    case Apply => State(profile, before.tenant, Some(NewPermission(call)), Some(NewRole(call)), Some(NewEdge(call)))
    case Withdraw => before.(profile := profile, edge := None)
  }

  /** The mutations of a phase, in order. */
  function Mutations(m: Manifest, before: State, call: Call): seq<Mutation>
    requires |call.ids| == 5 && (call.phase == Withdraw ==> before.edge.Some?)
  {
    var after := Some(OfProfile(before.profile.(role := RoleAfter(call.phase))));
    match call.phase
    case Apply =>
      [Mutation(Changed(CreatePermission), Permissions, PERMISSION_ID, None, Some(OfPermission(NewPermission(call))),
                call.ids[0]),
       Mutation(Changed(CreateRole), Roles, ROLE_ID, None, Some(OfRole(NewRole(call))), call.ids[1]),
       Mutation(Changed(CreateEdge), Edges, EDGE_ID, None, Some(OfEdge(NewEdge(call))), call.ids[2]),
       Mutation(Changed(AssignProfile), Profiles, m.actor, Some(OfProfile(before.profile)), after, call.ids[3])]
    case Withdraw =>
      [Mutation(Changed(DeleteEdge), Edges, EDGE_ID, Some(OfEdge(before.edge.value)), None, call.ids[0]),
       Mutation(Changed(RestoreProfile), Profiles, m.actor, Some(OfProfile(before.profile)), after, call.ids[1])]
  }

  function AuditOf(m: Manifest, phase: Phase, mu: Mutation, stamp: string): Audit {
    Audit(mu.auditId, None, mu.action, mu.table, mu.recordId, Old(mu.before),
          Wrapped(m.operationId, Digest(m), phase, mu.after), stamp)
  }

  function ReceiptAudit(m: Manifest, r: Receipt, id: Id, stamp: string): Audit {
    Audit(id, None, Completed(r.phase), Receipts, m.operationId, Absent, OfReceipt(r), stamp)
  }

  function ReceiptOf(m: Manifest, before: State, call: Call): Receipt
    requires |call.ids| == 5 && (call.phase == Withdraw ==> before.edge.Some?)
  {
    Receipt(m.operationId, Digest(m), m, call.phase, call.currentUser, call.sessionUser,
            Mutations(m, before, call), StateAfter(before, call))
  }

  /** The audits of a receipt's mutations, and of the receipt itself. */
  function PhaseAudits(m: Manifest, r: Receipt, id: Id, stamps: seq<string>): set<Audit>
    requires |r.mutations| < |stamps|
  {
    (set i | 0 <= i < |r.mutations| :: AuditOf(m, r.phase, r.mutations[i], stamps[i]))
    + {ReceiptAudit(m, r, id, stamps[|r.mutations|])}
  }

  function Written(m: Manifest, before: State, call: Call): set<Audit>
    requires |call.ids| == 5 && |call.stamps| == 5 && (call.phase == Withdraw ==> before.edge.Some?)
  {
    var r := ReceiptOf(m, before, call);
    PhaseAudits(m, r, call.ids[|r.mutations|], call.stamps)
  }

  /** The database once a phase has committed. */
  function Committed(m: Manifest, db: Db, before: State, call: Call): Db
    requires |call.ids| == 5 && |call.stamps| == 5 && (call.phase == Withdraw ==> before.edge.Some?)
  {
    var profiles := db.profiles[m.actor := before.profile.(role := RoleAfter(call.phase))];
    var log := db.log + Written(m, before, call);
    match call.phase
    case Apply =>
      db.(profiles := profiles, log := log,
          permissions := db.permissions[PERMISSION_ID := NewPermission(call)],
          roles := db.roles[ROLE_ID := NewRole(call)],
          edges := db.edges[EDGE_ID := NewEdge(call)])
    case Withdraw =>
      db.(profiles := profiles, log := log, edges := db.edges - {EDGE_ID})
  }
}
