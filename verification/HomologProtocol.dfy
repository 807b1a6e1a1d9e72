/**
 * The identity protocol over whole runs: bootstrap, create, withdraw, reactivate, withdraw, and the
 * continuation's reactivate and withdraw (scripts/homolog-read-proof.ts,
 * scripts/homolog-access-bootstrap.ts).
 *
 * A call reads, decides, and then either commits one transaction or changes nothing.  Stages 0 to 6
 * number the seven operations of one fixed continuation manifest, which contains the manifests of
 * all earlier operations.
 */
module HomologProtocol {
  import opened Wrappers
  import opened Collections
  import opened HomologEvidence

  type Stage = k: nat | k < 7

  datatype Db = Db(rows: map<Key, Row>, log: set<Audit>)

  // ---------------------------------------------------------------------------------------------
  // The manifest and the seven stages

  function OpIds(m: ContinuationManifest): seq<Id> {
    [m.prior.identity.operationId, m.prior.operationId, m.prior.withdrawalOperationId,
     m.predecessor.reactivationOperationId, m.predecessor.withdrawalOperationId,
     m.reactivationOperationId, m.withdrawalOperationId]
  }

  function RowIds(m: ReadProofManifest): seq<Id> {
    [m.clientId, m.projectId, m.draftId, m.membershipId,
     m.identity.tenantA.id, m.identity.tenantB.id,
     m.identity.profileA1.id, m.identity.profileA2.id, m.identity.profileB1.id]
  }

  function Subjects(m: IdentityManifest): seq<Id> {
    [m.profileA1.subject, m.profileA2.subject, m.profileB1.subject]
  }

  function FormationIds(formations: seq<Formation>): seq<Id> {
    if formations == [] then []
    else
      var f := formations[0];
      [f.clientId, f.projectId, f.intakeId] + seq(|f.audits|, i requires 0 <= i < |f.audits| => f.audits[i].id)
      + FormationIds(formations[1..])
  }

  function AllIds(m: ContinuationManifest): seq<Id> {
    OpIds(m) + RowIds(m.prior) + Subjects(m.prior.identity) + FormationIds(m.formations)
  }

  function IdSet(ids: seq<Id>): set<Id> {
    set id | id in ids
  }

  lemma IdSetSize(ids: seq<Id>)
    ensures |IdSet(ids)| == |ids| <==> Distinct(ids)
  {
    var members := MemberSet(ids);
    assert IdSet(ids) == members;
  }

  /** What parsing a continuation manifest establishes. */
  predicate ManifestOk(m: ContinuationManifest) {
    && m.predecessor.prior == m.prior
    && m.predecessorHash == Digest(ManifestDoc(OfCycle(m.predecessor)))
    && m.prior.identity.tenantA.slug != m.prior.identity.tenantB.slug
    && 35 <= m.historyCount <= 10000
    && |m.formations| == 2
    && (forall f :: f in m.formations ==> |f.audits| == 3)
    && |IdSet(AllIds(m))| == |AllIds(m)|
  }

  lemma IdsApart(m: ContinuationManifest)
    requires ManifestOk(m)
    ensures Distinct(OpIds(m)) && Distinct(RowIds(m.prior))
    ensures forall i, j :: 0 <= i < 7 && 0 <= j < 9 ==> OpIds(m)[i] != RowIds(m.prior)[j]
  {
    var all := AllIds(m);
    IdSetSize(all);
    assert forall i :: 0 <= i < 7 ==> all[i] == OpIds(m)[i];
    assert forall j :: 0 <= j < 9 ==> all[7 + j] == RowIds(m.prior)[j];
  }

  function IdentitySet(m: ContinuationManifest): set<Key> {
    set k | k in IdentityKeys(m.prior.identity)
  }

  function FixtureSet(m: ContinuationManifest): set<Key> {
    set k | k in FixtureKeys(m.prior)
  }

  function FamilyOf(k: Stage): Family {
    if k == 0 then Bootstrap else if k <= 2 then ReadProof else if k <= 4 then Cycle else Continuation
  }

  function OpOf(k: Stage): Operation {
    if k <= 1 then Create else if k == 3 || k == 5 then Reactivate else Withdraw
  }

  function ManifestFor(m: ContinuationManifest, k: Stage): Manifest {
    match FamilyOf(k)
    case Bootstrap => OfIdentity(m.prior.identity)
    case ReadProof => OfReadProof(m.prior)
    case Cycle => OfCycle(m.predecessor)
    case Continuation => OfContinuation(m)
  }

  /** The stage whose rows stage k starts from; create and the first withdrawal both follow the bootstrap. */
  function Before(k: nat): (j: nat)
    requires 1 <= k <= 7
    ensures j < k
  {
    if k <= 2 then 0 else k - 1
  }

  function Evid(m: ContinuationManifest, log: set<Audit>, k: Stage): set<Audit> {
    Evidence(log, OpIds(m)[k])
  }

  function MetaOf(audits: set<Audit>): set<AuditMeta> {
    set a | a in audits :: AuditMeta(a.id, a.createdAt, a.shape.action, a.shape.recordId)
  }

  /** The digest of the first three operations' evidence. */
  function HistoryHash(m: ContinuationManifest, log: set<Audit>): Hash {
    Digest(AuditsDoc(Evid(m, log, 0) + Evid(m, log, 1) + Evid(m, log, 2)))
  }

  /** What the receipt of stage k binds. */
  function LinkFor(m: ContinuationManifest, log: set<Audit>, k: Stage): Link {
    match k
    case 0 => NoLink
    case 1 => BootstrapAudits(MetaOf(Evid(m, log, 0)))
    case 2 => BootstrapAudits(MetaOf(Evid(m, log, 0)))
    case 3 => PriorEvidence(HistoryHash(m, log))
    case 4 => PriorEvidence(Digest(ChainDoc(HistoryHash(m, log), Evid(m, log, 3))))
    case 5 => PriorEvidence(m.historyHash)
    case _ => PriorEvidence(Digest(ChainDoc(m.historyHash, Evid(m, log, 5))))
  }

  function ContextFor(m: ContinuationManifest, log: set<Audit>, k: Stage, before: State): Context {
    Context(FamilyOf(k), OpOf(k), OpIds(m)[k], ManifestFor(m, k), before, LinkFor(m, log, k))
  }

  /** The rows stage k left, rebuilt from the evidence of all stages it rests on; None when refused. */
  function Verified(m: ContinuationManifest, log: set<Audit>, k: Stage): Option<State>
    decreases k
  {
    if k == 0 then Check(ContextFor(m, log, 0, map[]), Evid(m, log, 0))
    else
      match Verified(m, log, Before(k))
      case None => None
      case Some(before) => Check(ContextFor(m, log, k, before), Evid(m, log, k))
  }

  // ---------------------------------------------------------------------------------------------
  // What a call reads besides the evidence

  function Rows(db: Db, keys: set<Key>): State {
    map k | k in keys && k in db.rows :: db.rows[k]
  }

  function Current(m: ContinuationManifest, db: Db): State {
    Rows(db, IdentitySet(m))
  }

  function TenantOf(c: Content): Option<Id> {
    match c
    case TenantContent(_, _) => None
    case ProfileContent(_, tenant, _) => Some(tenant)
    case ClientContent(tenant, _) => Some(tenant)
    case ProjectContent(tenant, _, _, _) => Some(tenant)
    case DraftContent(tenant, _, _, _) => Some(tenant)
    case MemberContent(tenant, _, _) => Some(tenant)
    case FormedClient(tenant, _, _) => Some(tenant)
    case FormedProject(tenant, _, _, _, _, _, _) => Some(tenant)
    case FormedIntake(tenant, _, _, _, _, _) => Some(tenant)
    case OtherContent(holder, _) => holder
  }

  /** The rows of one table that belong to one of the two tenants. */
  function Held(m: ContinuationManifest, db: Db, table: Table): set<Key> {
    set k | k in db.rows && k.table == table &&
            TenantOf(db.rows[k].content) in {Some(m.prior.identity.tenantA.id), Some(m.prior.identity.tenantB.id)}
  }

  predicate Population(m: ContinuationManifest, db: Db, hasFixture: bool) {
    var n := if hasFixture then 1 else 0;
    && |Held(m, db, Profiles)| == 3
    && |Held(m, db, Clients)| == n
    && |Held(m, db, Projects)| == n
    && |Held(m, db, Drafts)| == n
    && |Held(m, db, Members)| == n
  }

  /** Exactly the three manifest profiles belong to the tenants. */
  predicate ProfilesExact(m: ContinuationManifest, db: Db) {
    var i := m.prior.identity;
    Held(m, db, Profiles)
      == {Key(Profiles, i.profileA1.id), Key(Profiles, i.profileA2.id), Key(Profiles, i.profileB1.id)}
  }

  predicate SubjectTaken(db: Db, ids: set<Id>) {
    exists k :: k in db.rows && k.table == Profiles && db.rows[k].content.ProfileContent?
      && db.rows[k].content.subject in ids
  }

  /** The collision scan of create: no table of the fixture or the identities holds one of the ids. */
  predicate Collides(m: ContinuationManifest, db: Db) {
    var p := m.prior;
    var ids := {p.operationId, p.withdrawalOperationId, p.clientId, p.projectId, p.draftId, p.membershipId};
    (exists k :: k in db.rows && k.table != Intakes && k.id in ids) || SubjectTaken(db, ids)
  }

  /** The collision scan of the bootstrap. */
  predicate IdentityCollides(m: ContinuationManifest, db: Db) {
    var i := m.prior.identity;
    var ids := {i.operationId, i.tenantA.id, i.tenantB.id, i.profileA1.id, i.profileA2.id, i.profileB1.id,
                i.profileA1.subject, i.profileA2.subject, i.profileB1.subject};
    || (exists k :: k in db.rows && k.table in {Tenants, Profiles} && k.id in ids)
    || SubjectTaken(db, ids)
    || (exists k :: k in db.rows && k.table == Tenants && db.rows[k].content.TenantContent? &&
                    db.rows[k].content.slug in {i.tenantA.slug, i.tenantB.slug})
  }

  // ---------------------------------------------------------------------------------------------
  // What a continuation preserves

  /** Every audit except those of the continuation itself. */
  function History(m: ContinuationManifest, log: set<Audit>): set<Audit> {
    set a | a in log && !Mentions(a, m.reactivationOperationId) && !Mentions(a, m.withdrawalOperationId)
  }

  function AuditsOf(log: set<Audit>, id: Id): set<Audit> {
    set a | a in log && a.shape.recordId == id
  }

  /** A row as the audit of its creation shows it: its times, in microseconds, are cut to milliseconds. */
  function Wire(row: Row): Payload {
    RowWire(row.(createdAt := row.createdAt / 1000, updatedAt := row.updatedAt / 1000))
  }

  /** A row never changed since its creation, which the first principal did and one audit records. */
  predicate Left(m: ContinuationManifest, db: Db, key: Key, action: string) {
    && key in db.rows
    && db.rows[key].updatedAt == db.rows[key].createdAt
    && TenantOf(db.rows[key].content) == Some(m.prior.identity.tenantA.id)
    && |AuditsOf(db.log, key.id)| == 1
    && forall a :: a in AuditsOf(db.log, key.id) ==>
         && a.createdAt == db.rows[key].createdAt
         && a.shape
         == Shape(Some(m.prior.identity.profileA1.id), OtherAction(action), RowTable(key.table), key.id,
                  Absent, Wire(db.rows[key]), None)
  }

  predicate Pinned(m: ContinuationManifest, db: Db, f: Formation, key: Key, hash: Hash, action: string) {
    && Left(m, db, key, action)
    && Digest(RowDoc(db.rows[key])) == hash
    && forall a :: a in AuditsOf(db.log, key.id) ==> AuditPin(a.id, Digest(AuditDoc(a))) in f.audits
  }

  /** A digest in hexadecimal: 64 lower-case digits. */
  predicate IsDigestText(s: string) {
    |s| == 64 && forall i :: 0 <= i < |s| ==> '0' <= s[i] <= '9' || 'a' <= s[i] <= 'f'
  }

  /** The columns of a formation: a live client, its undeleted project at intake, and its draft form. */
  predicate FormationColumns(m: ContinuationManifest, f: Formation, client: Row, project: Row, intake: Row) {
    && client.createdAt == project.createdAt && client.createdAt == intake.createdAt
    && client.content.FormedClient? && client.isActive && !client.content.isDeleted
    && project.content.FormedProject? && !project.content.isDeleted
    && project.content.clientRef == Some(f.clientId)
    && project.content.ownerRef == Some(m.prior.identity.profileA1.id)
    && project.content.status == "intake" && project.content.provenance == "formation_only"
    && intake.content.FormedIntake?
    && intake.content.projectRef == Some(f.projectId) && intake.content.leadRef == None
    && intake.content.status == "draft" && intake.content.form.Some?
    && intake.content.form.value.client == f.clientId && IsDigestText(intake.content.form.value.fingerprint)
  }

  predicate FormationKept(m: ContinuationManifest, db: Db, f: Formation) {
    var client, project, intake := Key(Clients, f.clientId), Key(Projects, f.projectId), Key(Intakes, f.intakeId);
    && Pinned(m, db, f, client, f.clientHash, "client.create")
    && Pinned(m, db, f, project, f.projectHash, "project.create")
    && Pinned(m, db, f, intake, f.intakeHash, "intake.create")
    && FormationColumns(m, f, db.rows[client], db.rows[project], db.rows[intake])
  }

  function FormedKey(f: Formation, table: Table): Key {
    Key(table, if table == Clients then f.clientId else if table == Projects then f.projectId else f.intakeId)
  }

  function FormedKeys(formations: seq<Formation>, table: Table): set<Key> {
    set f | f in formations :: FormedKey(f, table)
  }

  /** The tenants hold the fixture and the formations, and no other business row. */
  predicate HeldExactly(m: ContinuationManifest, db: Db) {
    && Held(m, db, Clients) == {Key(Clients, m.prior.clientId)} + FormedKeys(m.formations, Clients)
    && Held(m, db, Projects) == {Key(Projects, m.prior.projectId)} + FormedKeys(m.formations, Projects)
    && Held(m, db, Intakes) == FormedKeys(m.formations, Intakes)
    && Held(m, db, Drafts) == {Key(Drafts, m.prior.draftId)}
    && Held(m, db, Members) == {Key(Members, m.prior.membershipId)}
  }

  predicate Preserved(m: ContinuationManifest, db: Db) {
    && HeldExactly(m, db)
    && |History(m, db.log)| == m.historyCount
    && Digest(AuditsDoc(History(m, db.log))) == m.historyHash
    && (forall f :: f in m.formations ==> FormationKept(m, db, f))
  }

  /** The pins on the predecessor cycle's receipts and on the state it left. */
  predicate PredecessorPinned(m: ContinuationManifest, log: set<Audit>) {
    var activation := SingleReceipt(ContextFor(m, log, 3, map[]), Evid(m, log, 3));
    var withdrawal := SingleReceipt(ContextFor(m, log, 4, map[]), Evid(m, log, 4));
    && activation.Some? && Digest(ReceiptDoc(activation.value)) == m.reactivationReceiptHash
    && withdrawal.Some? && Digest(ReceiptDoc(withdrawal.value)) == m.withdrawalReceiptHash
    && Verified(m, log, 4).Some? && Digest(StateDoc(Verified(m, log, 4).value)) == m.withdrawnStateHash
  }

  // ---------------------------------------------------------------------------------------------
  // Decisions

  datatype Reason = Failed | IdentityConflict | Conflict | Withdrawn | Drift | Collision

  datatype Decision =
    | Refuse(family: Family, reason: Reason)
    | Replay
    | Perform(before: State)

  /**
   * One call: its stage, the clock of the executor and of the database, the database principal, and
   * the ids the database will give to new audits.
   */
  datatype Call = Call(
    stage: Stage,
    at: Time,
    auditedAt: Time,
    actor: Actor,
    ids: seq<Id>)

  /** The evidence query of the bootstrap, narrower than that of the later operations. */
  function BootstrapEvidence(m: ContinuationManifest, log: set<Audit>): set<Audit> {
    var op := m.prior.identity.operationId;
    set a | a in log &&
            ((a.shape.action == Completed(Bootstrap, Create) && a.shape.recordId == op)
             || OperationOf(a.shape.newValues) == Some(op))
  }

  predicate OneRowAudit(ctx: Context, audits: set<Audit>, k: Key, row: Row) {
    var logs := set a | a in audits && a.shape.action == RowAction(Bootstrap, k.table, Create)
                        && a.shape.table == RowTable(k.table) && a.shape.recordId == k.id;
    && |logs| == 1
    && (forall a :: a in logs ==>
         a.shape.userId == None && a.shape.oldValues == Absent
         && a.shape.newValues == RowAfter(ctx.operationId, ctx.ManifestHash(), row))
  }

  /** The receipt fields that the bootstrap's own replay test reads. */
  predicate ReceiptFits(ctx: Context, r: Receipt) {
    && r.family == Bootstrap && r.op == Create
    && r.operationId == ctx.operationId && r.manifestHash == ctx.ManifestHash() && r.manifest == ctx.manifest
    && ActorOk(r.actor)
    && (r.executor == Unstated || r.executor == SqlRenderer)
  }

  predicate PlainReceipts(ctx: Context, audits: set<Audit>) {
    forall a :: a in Receipts(ctx, audits) ==> a.shape.userId == None && a.shape.oldValues == Absent
  }

  predicate RowsAudited(ctx: Context, audits: set<Audit>, current: State) {
    forall k :: k in current ==> OneRowAudit(ctx, audits, k, current[k])
  }

  /** The bootstrap's own replay test, against the rows as they are now. */
  function PlanReplay(ctx: Context, audits: set<Audit>, current: State): Decision {
    match SingleReceipt(ctx, audits)
    case None => Refuse(Bootstrap, Conflict)
    case Some(r) =>
      if |audits| != 6 || !ReceiptFits(ctx, r) || !PlainReceipts(ctx, audits) then Refuse(Bootstrap, Conflict)
      else if current.Keys != ctx.Keys() || current != r.state then Refuse(Bootstrap, Drift)
      else if !RowsAudited(ctx, audits, current) then Refuse(Bootstrap, Conflict)
      else Replay
  }

  /** What the log shows of one operation: no evidence, evidence that is refused, or verified rows. */
  datatype Trace = Nothing | Unreadable | Shows(state: State)

  function TraceOf(m: ContinuationManifest, log: set<Audit>, k: Stage): Trace {
    if Evid(m, log, k) == {} then Nothing
    else
      match Verified(m, log, k)
      case None => Unreadable
      case Some(state) => Shows(state)
  }

  /** All that a call can read, in one snapshot. */
  datatype Survey = Survey(
    traces: seq<Trace>,
    bootstrapSeen: bool,
    bootstrapReplay: Decision,
    identityCollides: bool,
    current: State,
    fixture: State,
    collides: bool,
    unpopulated: bool,
    populated: bool,
    profilesExact: bool,
    pinned: bool,
    preserved: bool)
  {
    function Trace(k: Stage): Trace {
      if k < |traces| then traces[k] else Nothing
    }
  }

  function SurveyOf(m: ContinuationManifest, db: Db): Survey {
    var bootstrap := BootstrapEvidence(m, db.log);
    Survey(
      seq(7, k requires 0 <= k < 7 => TraceOf(m, db.log, k)),
      bootstrap != {},
      PlanReplay(ContextFor(m, db.log, 0, map[]), bootstrap, Current(m, db)),
      IdentityCollides(m, db),
      Current(m, db),
      Rows(db, FixtureSet(m)),
      Collides(m, db),
      Population(m, db, false),
      Population(m, db, true),
      ProfilesExact(m, db),
      PredecessorPinned(m, db.log),
      Preserved(m, db))
  }

  function PlanBootstrap(s: Survey, call: Call): Decision {
    if s.bootstrapSeen then s.bootstrapReplay
    else if s.identityCollides then Refuse(Bootstrap, Collision)
    else if !ActorOk(call.actor) then Refuse(Bootstrap, Failed)
    else Perform(map[])
  }

  /** Creation must verify, and its four business rows must still be as created. */
  function FixtureObjection(s: Survey): Option<Reason> {
    if !s.Trace(1).Shows? then Some(Conflict)
    else if s.Trace(1).state != s.fixture then Some(Drift)
    else None
  }

  function PlanReadProof(s: Survey, call: Call): Decision {
    var create, fixture := call.stage == 1, FixtureObjection(s);
    if !ActorOk(call.actor) then Refuse(ReadProof, Failed)
    else if !s.Trace(0).Shows? then Refuse(ReadProof, IdentityConflict)
    else if s.Trace(2) != Nothing then
      if create then Refuse(ReadProof, Withdrawn)
      else if fixture.Some? then Refuse(ReadProof, fixture.value)
      else if !s.Trace(2).Shows? then Refuse(ReadProof, Conflict)
      else if s.Trace(2).state != s.current || !s.populated then Refuse(ReadProof, Drift)
      else Replay
    else if s.current != s.Trace(0).state then Refuse(ReadProof, IdentityConflict)
    else if create && s.Trace(1) == Nothing then
      if s.collides then Refuse(ReadProof, Collision)
      else if !s.unpopulated then Refuse(ReadProof, Drift)
      else Perform(s.current)
    else if fixture.Some? then Refuse(ReadProof, fixture.value)
    else if !s.populated then Refuse(ReadProof, Drift)
    else if create then Replay
    else Perform(s.current)
  }

  /** The verification of the first three operations that every cycle starts with. */
  function HistoryObjection(s: Survey): Option<Reason> {
    if !s.Trace(0).Shows? then Some(IdentityConflict)
    else if FixtureObjection(s).Some? then FixtureObjection(s)
    else if !s.Trace(2).Shows? then Some(Conflict)
    else None
  }

  /** What a cycle and a continuation share: reactivate once, then withdraw once. */
  function PlanRound(s: Survey, first: Stage, reactivate: bool, initial: State, populated: bool): Decision
    requires first == 3 || first == 5
  {
    var family, withdrawal := FamilyOf(first), s.Trace(first + 1);
    if reactivate && withdrawal != Nothing then Refuse(family, Withdrawn)
    else
      match s.Trace(first)
      case Unreadable => Refuse(family, Conflict)
      case Shows(active) =>
        if reactivate then
          if s.current != active then Refuse(family, Drift) else Replay
        else if withdrawal == Unreadable then Refuse(family, Conflict)
        else if withdrawal.Shows? then
          if s.current != withdrawal.state then Refuse(family, Drift) else Replay
        else if s.current != active then Refuse(family, Drift)
        else Perform(active)
      case Nothing =>
        if !reactivate || withdrawal != Nothing then Refuse(family, Conflict)
        else if !populated then Refuse(ReadProof, Drift)
        else if s.current != initial then Refuse(family, Drift)
        else Perform(initial)
  }

  function PlanCycle(s: Survey, call: Call): Decision {
    var objection := HistoryObjection(s);
    if !ActorOk(call.actor) then Refuse(ReadProof, Failed)
    else if objection.Some? then Refuse(ReadProof, objection.value)
    else if !s.profilesExact then Refuse(Cycle, Drift)
    else PlanRound(s, 3, call.stage == 3, s.Trace(2).state, s.populated)
  }

  function PlanContinuation(s: Survey, call: Call): Decision {
    var objection := HistoryObjection(s);
    if !ActorOk(call.actor) then Refuse(ReadProof, Failed)
    else if objection.Some? then Refuse(ReadProof, objection.value)
    else if !s.Trace(3).Shows? || !s.Trace(4).Shows? then Refuse(Cycle, Conflict)
    else if !s.pinned then Refuse(Continuation, Conflict)
    else if !s.profilesExact then Refuse(Cycle, Drift)
    else if !s.preserved then Refuse(Continuation, Drift)
    else PlanRound(s, 5, call.stage == 5, s.Trace(4).state, true)
  }

  function Plan(s: Survey, call: Call): Decision {
    match FamilyOf(call.stage)
    case Bootstrap => PlanBootstrap(s, call)
    case ReadProof => PlanReadProof(s, call)
    case Cycle => PlanCycle(s, call)
    case Continuation => PlanContinuation(s, call)
  }

  // ---------------------------------------------------------------------------------------------
  // Effects

  /** The rows one stage writes, in writing order. */
  function KeyOrder(m: ContinuationManifest, k: Stage): seq<Key> {
    if k == 1 then FixtureKeys(m.prior) else IdentityKeys(m.prior.identity)
  }

  /** The ids of the first n row audits, by row id. */
  function Assigned(keys: seq<Key>, ids: seq<Id>, n: nat): map<Id, Id>
    requires n <= |keys| && n <= |ids|
  {
    if n == 0 then map[] else Assigned(keys, ids, n - 1)[keys[n - 1].id := ids[n - 1]]
  }

  /** The ids that the database gives to new audits are new and distinct. */
  predicate NewIds(log: set<Audit>, ids: seq<Id>) {
    |ids| == 6 && Distinct(ids) && forall a :: a in log ==> a.id !in ids
  }

  function CommitOf(m: ContinuationManifest, call: Call): Commit
    requires |call.ids| == 6
  {
    var keys := KeyOrder(m, call.stage);
    Commit(call.at, if call.stage == 0 then call.auditedAt else call.at, call.actor,
           Assigned(keys, call.ids, |keys|), call.ids[|keys|], Unstated)
  }

  /** The database once a call has committed. */
  function Committed(m: ContinuationManifest, db: Db, call: Call, before: State): Db
    requires |call.ids| == 6
  {
    var ctx, c := ContextFor(m, db.log, call.stage, before), CommitOf(m, call);
    Db(db.rows + ctx.Next(c.at), db.log + Written(ctx, c))
  }

  /** The database after a call. */
  function After(m: ContinuationManifest, db: Db, call: Call): Db
    requires |call.ids| == 6
  {
    match Plan(SurveyOf(m, db), call)
    case Perform(before) => Committed(m, db, call, before)
    case _ => db
  }
}
