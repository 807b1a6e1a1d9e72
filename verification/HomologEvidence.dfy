/**
 * The audit evidence of the homologation identity protocol: what each transaction writes and what
 * later verifiers accept (scripts/homolog-read-proof.ts, scripts/homolog-access-bootstrap.ts).
 *
 * Audit rows are unique by id, so the id-ordered list of a query and the set of its rows determine
 * each other; evidence is a set here.  The digest is injective: it is the constructor Digest.
 */
module HomologEvidence {
  import opened Wrappers
  import opened Collections

  type Id = nat
  type Time = nat

  // ---------------------------------------------------------------------------------------------
  // Manifests

  datatype TenantRef = TenantRef(id: Id, slug: string)

  datatype ProfileRef = ProfileRef(id: Id, subject: Id)

  datatype IdentityManifest = IdentityManifest(
    operationId: Id,
    tenantA: TenantRef, tenantB: TenantRef,
    profileA1: ProfileRef, profileA2: ProfileRef, profileB1: ProfileRef)

  datatype ReadProofManifest = ReadProofManifest(
    operationId: Id,
    withdrawalOperationId: Id,
    identity: IdentityManifest,
    clientId: Id, projectId: Id, draftId: Id, membershipId: Id)

  datatype CycleManifest = CycleManifest(
    reactivationOperationId: Id,
    withdrawalOperationId: Id,
    prior: ReadProofManifest)

  datatype AuditPin = AuditPin(id: Id, hash: Hash)

  /** A business formation that an earlier executor committed, pinned row by row and audit by audit. */
  datatype Formation = Formation(
    clientId: Id, projectId: Id, intakeId: Id,
    clientHash: Hash, projectHash: Hash, intakeHash: Hash,
    audits: seq<AuditPin>)

  datatype ContinuationManifest = ContinuationManifest(
    reactivationOperationId: Id,
    withdrawalOperationId: Id,
    prior: ReadProofManifest,
    predecessor: CycleManifest,
    predecessorHash: Hash,
    reactivationReceiptHash: Hash,
    withdrawalReceiptHash: Hash,
    withdrawnStateHash: Hash,
    historyCount: nat,
    historyHash: Hash,
    formations: seq<Formation>)

  datatype Manifest =
    | OfIdentity(identity: IdentityManifest)
    | OfReadProof(readProof: ReadProofManifest)
    | OfCycle(cycle: CycleManifest)
    | OfContinuation(continuation: ContinuationManifest)

  // ---------------------------------------------------------------------------------------------
  // Rows

  datatype Table = Tenants | Profiles | Clients | Projects | Drafts | Members | Intakes

  datatype Key = Key(table: Table, id: Id)

  /** What a formation keeps of the intake form: its client and the fingerprint of its creation. */
  datatype IntakeForm = IntakeForm(client: Id, fingerprint: string)

  /** Every column that the protocol fixes or compares, apart from activity and times. */
  datatype Content =
    | TenantContent(tag: string, slug: string)
    | ProfileContent(tag: string, tenant: Id, subject: Id)
    | ClientContent(tenant: Id, operation: Id)
    | ProjectContent(tenant: Id, operation: Id, client: Id, owner: Id)
    | DraftContent(tenant: Id, operation: Id, project: Id, client: Id)
    | MemberContent(tenant: Id, project: Id, user: Id)
    | FormedClient(tenant: Id, isDeleted: bool, text: string)
    | FormedProject(tenant: Id, clientRef: Option<Id>, ownerRef: Option<Id>, status: string, provenance: string,
                    isDeleted: bool, text: string)
    | FormedIntake(tenant: Id, projectRef: Option<Id>, leadRef: Option<Id>, status: string, form: Option<IntakeForm>,
                   text: string)
    | OtherContent(holder: Option<Id>, text: string)

  datatype Row = Row(content: Content, isActive: bool, createdAt: Time, updatedAt: Time)

  type State = map<Key, Row>

  // ---------------------------------------------------------------------------------------------
  // Audits

  datatype Family = Bootstrap | ReadProof | Cycle | Continuation

  datatype Operation = Create | Withdraw | Reactivate

  datatype Action =
    | RowAction(family: Family, table: Table, op: Operation)
    | Completed(family: Family, op: Operation)
    | OtherAction(text: string)

  datatype AuditTable = RowTable(table: Table) | ReceiptTable(family: Family) | OtherTable(text: string)

  datatype Actor = Actor(currentUser: string, sessionUser: string)

  /** What a bootstrap receipt says about its executor: nothing, or the reviewed SQL renderer. */
  datatype Executor = Unstated | SqlRenderer | Forged(text: string)

  datatype AuditMeta = AuditMeta(id: Id, createdAt: Time, action: Action, recordId: Id)

  /** How a receipt binds what came before it. */
  datatype Link = NoLink | BootstrapAudits(meta: set<AuditMeta>) | PriorEvidence(hash: Hash)

  datatype Receipt = Receipt(
    family: Family,
    op: Operation,
    operationId: Id,
    manifestHash: Hash,
    manifest: Manifest,
    before: State,
    link: Link,
    state: State,
    at: Time,
    actor: Actor,
    rowAuditIds: map<Id, Id>,
    executor: Executor)

  datatype Payload =
    | Absent
    | RowBefore(row: Row)
    | RowAfter(operationId: Id, manifestHash: Hash, row: Row)
    | ReceiptOf(receipt: Receipt)
    | RowWire(row: Row)
    | OtherPayload(operation: Option<Id>, text: string)

  datatype Shape = Shape(
    userId: Option<Id>,
    action: Action,
    table: AuditTable,
    recordId: Id,
    oldValues: Payload,
    newValues: Payload,
    client: Option<string>)

  datatype Audit = Audit(id: Id, createdAt: Time, shape: Shape)

  /** The documents that are digested, and the injective digest itself. */
  datatype Doc =
    | ManifestDoc(manifest: Manifest)
    | AuditsDoc(audits: set<Audit>)
    | ChainDoc(history: Hash, reactivation: set<Audit>)
    | ReceiptDoc(receipt: Receipt)
    | StateDoc(state: State)
    | RowDoc(row: Row)
    | AuditDoc(audit: Audit)

  datatype Hash = Digest(doc: Doc)

  function OperationOf(p: Payload): Option<Id> {
    match p
    case RowAfter(op, _, _) => Some(op)
    case ReceiptOf(r) => Some(r.operationId)
    case OtherPayload(op, _) => op
    case _ => None
  }

  predicate Mentions(a: Audit, op: Id) {
    a.shape.recordId == op || OperationOf(a.shape.newValues) == Some(op)
  }

  function Evidence(log: set<Audit>, op: Id): set<Audit> {
    set a | a in log && Mentions(a, op)
  }

  predicate UniqueIds(log: set<Audit>) {
    forall a, b :: a in log && b in log && a.id == b.id ==> a == b
  }

  // ---------------------------------------------------------------------------------------------
  // What one operation writes

  function IdentityKeys(m: IdentityManifest): seq<Key> {
    [Key(Tenants, m.tenantA.id), Key(Tenants, m.tenantB.id),
     Key(Profiles, m.profileA1.id), Key(Profiles, m.profileA2.id), Key(Profiles, m.profileB1.id)]
  }

  function FixtureKeys(m: ReadProofManifest): seq<Key> {
    [Key(Clients, m.clientId), Key(Projects, m.projectId), Key(Drafts, m.draftId), Key(Members, m.membershipId)]
  }

  /** The five identity rows as the bootstrap creates them. */
  function IdentityRows(m: IdentityManifest, at: Time): State {
    map[
      Key(Tenants, m.tenantA.id) := Row(TenantContent("A", m.tenantA.slug), true, at, at),
      Key(Tenants, m.tenantB.id) := Row(TenantContent("B", m.tenantB.slug), true, at, at),
      Key(Profiles, m.profileA1.id) := Row(ProfileContent("A1", m.tenantA.id, m.profileA1.subject), true, at, at),
      Key(Profiles, m.profileA2.id) := Row(ProfileContent("A2", m.tenantA.id, m.profileA2.subject), true, at, at),
      Key(Profiles, m.profileB1.id) := Row(ProfileContent("B1", m.tenantB.id, m.profileB1.subject), true, at, at)]
  }

  /** The four business rows of the read proof. */
  function BusinessRows(m: ReadProofManifest, at: Time): State {
    var tenant := m.identity.tenantA.id;
    map[
      Key(Clients, m.clientId) := Row(ClientContent(tenant, m.operationId), true, at, at),
      Key(Projects, m.projectId) :=
        Row(ProjectContent(tenant, m.operationId, m.clientId, m.identity.profileA1.id), true, at, at),
      Key(Drafts, m.draftId) := Row(DraftContent(tenant, m.operationId, m.projectId, m.clientId), true, at, at),
      Key(Members, m.membershipId) := Row(MemberContent(tenant, m.projectId, m.identity.profileA2.id), true, at, at)]
  }

  function Toggled(before: State, active: bool, at: Time): State {
    map k | k in before :: before[k].(isActive := active, updatedAt := at)
  }

  /** One operation, as its writer and its verifiers see it. */
  datatype Context = Context(
    family: Family,
    op: Operation,
    operationId: Id,
    manifest: Manifest,
    before: State,
    link: Link)
  {
    /** The rows the operation writes, given its time. */
    function Next(at: Time): State {
      match op
      case Withdraw => Toggled(before, false, at)
      case Reactivate => Toggled(before, true, at)
      case Create =>
        match manifest
        case OfIdentity(m) => IdentityRows(m, at)
        case OfReadProof(m) => BusinessRows(m, at)
        case _ => map[]
    }

    function Keys(): set<Key> {
      Next(0).Keys
    }

    function Ids(): set<Id> {
      set k | k in Keys() :: k.id
    }

    function OldValue(k: Key): Payload {
      if op == Create || k !in before then Absent else RowBefore(before[k])
    }

    function ManifestHash(): Hash {
      Digest(ManifestDoc(manifest))
    }
  }

  /** The circumstances of one committed transaction. */
  datatype Commit = Commit(
    at: Time,
    auditedAt: Time,
    actor: Actor,
    rowAudits: map<Id, Id>,
    receiptAudit: Id,
    executor: Executor)

  function Lookup(m: map<Id, Id>, id: Id): Id {
    if id in m then m[id] else 0
  }

  function RowShape(ctx: Context, k: Key, row: Row): Shape {
    Shape(None, RowAction(ctx.family, k.table, ctx.op), RowTable(k.table), k.id,
          ctx.OldValue(k), RowAfter(ctx.operationId, ctx.ManifestHash(), row), None)
  }

  function ReceiptShape(ctx: Context, r: Receipt): Shape {
    Shape(None, Completed(ctx.family, ctx.op), ReceiptTable(ctx.family), ctx.operationId, Absent, ReceiptOf(r), None)
  }

  function BuildReceipt(ctx: Context, at: Time, actor: Actor, rowAuditIds: map<Id, Id>, executor: Executor): Receipt {
    Receipt(ctx.family, ctx.op, ctx.operationId, ctx.ManifestHash(), ctx.manifest, ctx.before, ctx.link,
            ctx.Next(at), at, actor, rowAuditIds, executor)
  }

  /** The receipt of a bootstrap predates the listing of row audits. */
  function CommitReceipt(ctx: Context, c: Commit): Receipt {
    BuildReceipt(ctx, c.at, c.actor, if ctx.family == Bootstrap then map[] else c.rowAudits, c.executor)
  }

  function RowAudit(ctx: Context, c: Commit, k: Key): Audit
    requires k in ctx.Next(c.at)
  {
    Audit(Lookup(c.rowAudits, k.id), c.auditedAt, RowShape(ctx, k, ctx.Next(c.at)[k]))
  }

  function ReceiptAudit(ctx: Context, c: Commit): Audit {
    Audit(c.receiptAudit, c.auditedAt, ReceiptShape(ctx, CommitReceipt(ctx, c)))
  }

  /** The audits one committed operation appends. */
  function Written(ctx: Context, c: Commit): set<Audit> {
    (set k | k in ctx.Next(c.at) :: RowAudit(ctx, c, k)) + {ReceiptAudit(ctx, c)}
  }

  predicate ActorOk(a: Actor) {
    a.currentUser != "" && a.sessionUser != ""
  }

  predicate Injective(m: map<Id, Id>) {
    forall x, y :: x in m && y in m && m[x] == m[y] ==> x == y
  }

  /** What the database and the writer guarantee about a commit. */
  predicate CommitOk(ctx: Context, c: Commit) {
    && ActorOk(c.actor)
    && c.rowAudits.Keys == ctx.Ids()
    && Injective(c.rowAudits)
    && c.receiptAudit !in c.rowAudits.Values
    && (if ctx.family == Bootstrap then c.executor == Unstated || c.executor == SqlRenderer
        else c.executor == Unstated && c.auditedAt == c.at)
  }

  /** The shape of a context: one key per row id, and none of them is the operation's own id. */
  predicate ContextOk(ctx: Context) {
    && (forall j, k :: j in ctx.Keys() && k in ctx.Keys() && j.id == k.id ==> j == k)
    && ctx.operationId !in ctx.Ids()
  }

  // ---------------------------------------------------------------------------------------------
  // What the verifiers accept

  function Shapes(ctx: Context, at: Time, r: Receipt): set<Shape> {
    (set k | k in ctx.Next(at) :: RowShape(ctx, k, ctx.Next(at)[k])) + {ReceiptShape(ctx, r)}
  }

  function ShapesOf(audits: set<Audit>): set<Shape> {
    set a | a in audits :: a.shape
  }

  /** As many audits as expected, with the expected shapes; the expected shapes are all different. */
  predicate SameShapes(audits: set<Audit>, expected: set<Shape>) {
    |audits| == |expected| && ShapesOf(audits) == expected
  }

  predicate IsReceipt(ctx: Context, a: Audit) {
    && a.shape.recordId == ctx.operationId
    && a.shape.action == Completed(ctx.family, ctx.op)
    && a.shape.table == ReceiptTable(ctx.family)
  }

  function Receipts(ctx: Context, audits: set<Audit>): set<Audit> {
    set a | a in audits && IsReceipt(ctx, a)
  }

  /** The receipt of the operation, if there is exactly one. */
  function SingleReceipt(ctx: Context, audits: set<Audit>): Option<Receipt> {
    var found := Receipts(ctx, audits);
    if |found| != 1 then None
    else
      assert forall x, y :: x in found && y in found ==> x == y by {
        forall x, y | x in found && y in found ensures x == y { SizeOne(found, x, y); }
      }
      var a :| a in found;
      if a.shape.newValues.ReceiptOf? then Some(a.shape.newValues.receipt) else None
  }

  /** Every audit carries the receipt's time, and each row audit the id the receipt lists for it. */
  predicate MetadataOk(audits: set<Audit>, at: Time, ids: map<Id, Id>) {
    forall a :: a in audits ==> a.createdAt == at && (a.shape.recordId in ids ==> a.id == ids[a.shape.recordId])
  }

  /** The verifier of read-proof, cycle and continuation operations. */
  function Verify(ctx: Context, audits: set<Audit>): Option<State> {
    match SingleReceipt(ctx, audits)
    case None => None
    case Some(r) =>
      if !ActorOk(r.actor) || r.rowAuditIds.Keys != ctx.Ids() || !Injective(r.rowAuditIds) then None
      else
        var expected := BuildReceipt(ctx, r.at, r.actor, r.rowAuditIds, Unstated);
        if r != expected then None
        else if !SameShapes(audits, Shapes(ctx, r.at, expected)) || !MetadataOk(audits, r.at, r.rowAuditIds) then None
        else Some(ctx.Next(r.at))
  }

  /** The verifier of the original bootstrap: one audit time, the time of the rows in the receipt. */
  function VerifyBootstrap(ctx: Context, audits: set<Audit>): Option<State> {
    match SingleReceipt(ctx, audits)
    case None => None
    case Some(r) =>
      if !(forall a, b :: a in audits && b in audits ==> a.createdAt == b.createdAt) then None
      else if !ActorOk(r.actor) || !(r.executor == Unstated || r.executor == SqlRenderer) then None
      else
        var expected := BuildReceipt(ctx, r.at, r.actor, map[], r.executor);
        if r != expected || !SameShapes(audits, Shapes(ctx, r.at, expected)) then None
        else Some(ctx.Next(r.at))
  }

  function Check(ctx: Context, audits: set<Audit>): Option<State> {
    if ctx.family == Bootstrap then VerifyBootstrap(ctx, audits) else Verify(ctx, audits)
  }
}
