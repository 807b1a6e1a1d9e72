/**
 * What a call that is answered has found, row by row and column by column, and what a commit is made of.
 */
module HomologFindings {
  import opened Wrappers
  import opened Collections
  import opened HomologEvidence
  import opened HomologAgreement
  import opened HomologProtocol
  import opened HomologRuns
  import opened HomologReadback
  import opened HomologHistory

  // ---------------------------------------------------------------------------------------------
  // What a continuation finds

  /** The row of a formation and the one audit of its creation. */
  ghost predicate FoundAsCreated(
    m: ContinuationManifest, db: Db, f: Formation, key: Key, hash: Hash, action: string)
  {
    && key in db.rows
    && var row := db.rows[key];
    && Digest(RowDoc(row)) == hash && row.updatedAt == row.createdAt
    && exists a ::
         && a in db.log && AuditPin(a.id, Digest(AuditDoc(a))) in f.audits
         && a.createdAt == row.createdAt && a.shape.recordId == key.id
         && a.shape.userId == Some(m.prior.identity.profileA1.id) && a.shape.action == OtherAction(action)
         && a.shape.table == RowTable(key.table) && a.shape.oldValues == Absent && a.shape.client == None
         && a.shape.newValues
         == RowWire(row.(createdAt := row.createdAt / 1000, updatedAt := row.updatedAt / 1000))
         && forall b :: b in db.log && b.shape.recordId == key.id ==> b == a
  }

  lemma PinnedFound(m: ContinuationManifest, db: Db, f: Formation, key: Key, hash: Hash, action: string)
    requires Pinned(m, db, f, key, hash, action)
    ensures FoundAsCreated(m, db, f, key, hash, action)
  {
    var audits := AuditsOf(db.log, key.id);
    var a :| a in audits;
    forall b | b in audits ensures b == a { SizeOne(audits, a, b); }
    assert a in db.log && forall b :: b in db.log && b.shape.recordId == key.id ==> b in audits;
  }

  /** Every continuation that is not refused has found each formation exactly as it was created. */
  lemma FormationFound(m: ContinuationManifest, db: Db, call: Call, f: Formation)
    requires call.stage >= 5 && !Plan(SurveyOf(m, db), call).Refuse? && f in m.formations
    ensures var client, project, intake :=
              Key(Clients, f.clientId), Key(Projects, f.projectId), Key(Intakes, f.intakeId);
            var tenant, owner := m.prior.identity.tenantA.id, m.prior.identity.profileA1.id;
            && FoundAsCreated(m, db, f, client, f.clientHash, "client.create")
            && FoundAsCreated(m, db, f, project, f.projectHash, "project.create")
            && FoundAsCreated(m, db, f, intake, f.intakeHash, "intake.create")
            && db.rows[client].createdAt == db.rows[project].createdAt == db.rows[intake].createdAt
            && db.rows[client].isActive
            && (exists text :: db.rows[client].content == FormedClient(tenant, false, text))
            && (exists text ::
                  db.rows[project].content
                  == FormedProject(tenant, Some(f.clientId), Some(owner), "intake", "formation_only", false, text))
            && (exists code, text ::
                  IsDigestText(code) && db.rows[intake].content
                  == FormedIntake(tenant, Some(f.projectId), None, "draft", Some(IntakeForm(f.clientId, code)), text))
  {
    Answered(m, db, call);
    assert FormationKept(m, db, f);
    var client, project, intake := Key(Clients, f.clientId), Key(Projects, f.projectId), Key(Intakes, f.intakeId);
    PinnedFound(m, db, f, client, f.clientHash, "client.create");
    PinnedFound(m, db, f, project, f.projectHash, "project.create");
    PinnedFound(m, db, f, intake, f.intakeHash, "intake.create");
    ColumnsFound(m, f, db.rows[client], db.rows[project], db.rows[intake]);
  }

  lemma ColumnsFound(m: ContinuationManifest, f: Formation, client: Row, project: Row, intake: Row)
    requires FormationColumns(m, f, client, project, intake)
    requires TenantOf(client.content) == Some(m.prior.identity.tenantA.id)
    requires TenantOf(project.content) == Some(m.prior.identity.tenantA.id)
    requires TenantOf(intake.content) == Some(m.prior.identity.tenantA.id)
    ensures client.createdAt == project.createdAt == intake.createdAt && client.isActive
    ensures var tenant, owner := m.prior.identity.tenantA.id, m.prior.identity.profileA1.id;
            && (exists text :: client.content == FormedClient(tenant, false, text))
            && (exists text ::
                  project.content
                  == FormedProject(tenant, Some(f.clientId), Some(owner), "intake", "formation_only", false, text))
            && (exists code, text ::
                  IsDigestText(code) && intake.content
                  == FormedIntake(tenant, Some(f.projectId), None, "draft", Some(IntakeForm(f.clientId, code)), text))
  {
    var tenant, owner := m.prior.identity.tenantA.id, m.prior.identity.profileA1.id;
    assert client.content == FormedClient(tenant, false, client.content.text);
    assert project.content
        == FormedProject(tenant, Some(f.clientId), Some(owner), "intake", "formation_only", false,
                         project.content.text);
    var code, text := intake.content.form.value.fingerprint, intake.content.text;
    assert IsDigestText(code) && intake.content
        == FormedIntake(tenant, Some(f.projectId), None, "draft", Some(IntakeForm(f.clientId, code)), text);
  }

  predicate OfTenants(m: ContinuationManifest, row: Row) {
    TenantOf(row.content) in {Some(m.prior.identity.tenantA.id), Some(m.prior.identity.tenantB.id)}
  }

  /** Every business row and profile of the two tenants is the fixture's, a formation's or one of the three. */
  lemma NoOtherRow(m: ContinuationManifest, db: Db, call: Call, k: Key)
    requires call.stage >= 5 && !Plan(SurveyOf(m, db), call).Refuse? && k in db.rows && OfTenants(m, db.rows[k])
    ensures k.table == Clients ==> k.id == m.prior.clientId || exists f :: f in m.formations && f.clientId == k.id
    ensures k.table == Projects ==> k.id == m.prior.projectId || exists f :: f in m.formations && f.projectId == k.id
    ensures k.table == Intakes ==> exists f :: f in m.formations && f.intakeId == k.id
    ensures k.table == Drafts ==> k.id == m.prior.draftId
    ensures k.table == Members ==> k.id == m.prior.membershipId
    ensures k.table == Profiles ==>
              k.id in {m.prior.identity.profileA1.id, m.prior.identity.profileA2.id, m.prior.identity.profileB1.id}
  {
    Answered(m, db, call);
    HeldRow(m, db, k);
  }

  lemma HeldRow(m: ContinuationManifest, db: Db, k: Key)
    requires HeldExactly(m, db) && ProfilesExact(m, db) && k in db.rows && OfTenants(m, db.rows[k])
    ensures k.table == Clients ==> k.id == m.prior.clientId || exists f :: f in m.formations && f.clientId == k.id
    ensures k.table == Projects ==> k.id == m.prior.projectId || exists f :: f in m.formations && f.projectId == k.id
    ensures k.table == Intakes ==> exists f :: f in m.formations && f.intakeId == k.id
    ensures k.table == Drafts ==> k.id == m.prior.draftId
    ensures k.table == Members ==> k.id == m.prior.membershipId
    ensures k.table == Profiles ==>
              k.id in {m.prior.identity.profileA1.id, m.prior.identity.profileA2.id, m.prior.identity.profileB1.id}
  {
    assert k in Held(m, db, k.table);
    if k in FormedKeys(m.formations, k.table) {
      var f :| f in m.formations && k == FormedKey(f, k.table);
    }
  }

  /** What the plan of a continuation has checked when it does not refuse. */
  lemma Answered(m: ContinuationManifest, db: Db, call: Call)
    requires call.stage >= 5 && !Plan(SurveyOf(m, db), call).Refuse?
    ensures Preserved(m, db) && PredecessorPinned(m, db.log) && ProfilesExact(m, db)
  {
    ContinuationPreserved(SurveyOf(m, db), call);
    ContinuationProfiles(SurveyOf(m, db), call);
  }

  lemma ContinuationProfiles(s: Survey, call: Call)
    requires call.stage >= 5 && !Plan(s, call).Refuse?
    ensures s.profilesExact
  {
  }

  /** The operation that an audit's new values name, if they name one, is neither of the continuation's. */
  predicate NamesOther(a: Audit, own: set<Id>) {
    match OperationOf(a.shape.newValues) case Some(op) => op !in own case None => true
  }

  /** The audits of all other records and operations. */
  function Others(m: ContinuationManifest, log: set<Audit>): set<Audit> {
    var own := {m.reactivationOperationId, m.withdrawalOperationId};
    set a | a in log && a.shape.recordId !in own && NamesOther(a, own)
  }

  lemma OthersAreHistory(m: ContinuationManifest, log: set<Audit>)
    ensures Others(m, log) == History(m, log)
  {
  }

  /** It has found the pinned history, whole and unchanged. */
  lemma HistoryFound(m: ContinuationManifest, db: Db, call: Call)
    requires call.stage >= 5 && !Plan(SurveyOf(m, db), call).Refuse?
    ensures |Others(m, db.log)| == m.historyCount && Digest(AuditsDoc(Others(m, db.log))) == m.historyHash
  {
    Answered(m, db, call);
    OthersAreHistory(m, db.log);
  }

  /** It has found the predecessor cycle that the manifest pins: its two receipts and the rows it left. */
  lemma PredecessorFound(m: ContinuationManifest, db: Db, call: Call)
    requires call.stage >= 5 && !Plan(SurveyOf(m, db), call).Refuse?
    ensures exists r :: ReceiptAt(m, db.log, 3) == Some(r) && Digest(ReceiptDoc(r)) == m.reactivationReceiptHash
    ensures exists r :: ReceiptAt(m, db.log, 4) == Some(r) && Digest(ReceiptDoc(r)) == m.withdrawalReceiptHash
    ensures exists s :: Verified(m, db.log, 4) == Some(s) && Digest(StateDoc(s)) == m.withdrawnStateHash
  {
    Answered(m, db, call);
    PinnedPredecessor(m, db.log);
  }

  lemma PinnedPredecessor(m: ContinuationManifest, log: set<Audit>)
    requires PredecessorPinned(m, log)
    ensures exists r :: ReceiptAt(m, log, 3) == Some(r) && Digest(ReceiptDoc(r)) == m.reactivationReceiptHash
    ensures exists r :: ReceiptAt(m, log, 4) == Some(r) && Digest(ReceiptDoc(r)) == m.withdrawalReceiptHash
    ensures exists s :: Verified(m, log, 4) == Some(s) && Digest(StateDoc(s)) == m.withdrawnStateHash
  {
    assert ReceiptAt(m, log, 3) == Some(ReceiptAt(m, log, 3).value);
    assert ReceiptAt(m, log, 4) == Some(ReceiptAt(m, log, 4).value);
  }

  // ---------------------------------------------------------------------------------------------
  // What a bootstrap finds

  /** What the later operations count as bootstrap evidence and the bootstrap itself does not. */
  lemma EvidenceGap(m: ContinuationManifest, log: set<Audit>, a: Audit)
    ensures BootstrapEvidence(m, log) <= Evid(m, log, 0)
    ensures a in Evid(m, log, 0) && a !in BootstrapEvidence(m, log) <==>
              && a in log && a.shape.recordId == m.prior.identity.operationId
              && a.shape.action != Completed(Bootstrap, Create)
              && OperationOf(a.shape.newValues) != Some(m.prior.identity.operationId)
  {
  }

  predicate AuditsCreation(a: Audit, k: Key) {
    a.shape.recordId == k.id && a.shape.action == RowAction(Bootstrap, k.table, Create)
      && a.shape.table == RowTable(k.table)
  }

  /** The audit of one row by the bootstrap, and no other audit of its creation. */
  ghost predicate RowFoundOnce(ctx: Context, audits: set<Audit>, k: Key, row: Row) {
    exists a ::
      && a in audits && AuditsCreation(a, k) && a.shape.userId == None && a.shape.oldValues == Absent
      && a.shape.newValues == RowAfter(ctx.operationId, Digest(ManifestDoc(ctx.manifest)), row)
      && forall b :: b in audits && AuditsCreation(b, k) ==> b == a
  }

  predicate AuditsCompletion(ctx: Context, a: Audit) {
    a.shape.recordId == ctx.operationId && a.shape.action == Completed(ctx.family, ctx.op)
      && a.shape.table == ReceiptTable(ctx.family)
  }

  /** The one receipt of the bootstrap, by a named principal, with the manifest and the rows as they are. */
  ghost predicate ReceiptFoundOnce(ctx: Context, audits: set<Audit>, current: State) {
    exists a, r ::
      && a in audits && AuditsCompletion(ctx, a) && a.shape.userId == None && a.shape.oldValues == Absent
      && a.shape.newValues == ReceiptOf(r)
      && (forall b :: b in audits && AuditsCompletion(ctx, b) ==> b == a)
      && r.family == Bootstrap && r.op == Create && r.operationId == ctx.operationId && r.manifest == ctx.manifest
      && r.manifestHash == Digest(ManifestDoc(ctx.manifest)) && r.state == current
      && r.actor.currentUser != "" && r.actor.sessionUser != ""
      && (r.executor == Unstated || r.executor == SqlRenderer)
  }

  /** A repeated bootstrap is a replay exactly when it finds its six audits and its five rows as they were. */
  lemma ReplayExact(ctx: Context, audits: set<Audit>, current: State)
    ensures PlanReplay(ctx, audits, current).Replay? <==>
              && |audits| == 6 && current.Keys == ctx.Keys() && ReceiptFoundOnce(ctx, audits, current)
              && forall k :: k in current ==> RowFoundOnce(ctx, audits, k, current[k])
  {
    forall k | k in current
      ensures OneRowAudit(ctx, audits, k, current[k]) <==> RowFoundOnce(ctx, audits, k, current[k])
    {
      RowOnce(ctx, audits, k, current[k]);
    }
    ReceiptOnce(ctx, audits, current);
  }

  lemma RowOnce(ctx: Context, audits: set<Audit>, k: Key, row: Row)
    ensures OneRowAudit(ctx, audits, k, row) <==> RowFoundOnce(ctx, audits, k, row)
  {
    var logs := set a | a in audits && a.shape.action == RowAction(Bootstrap, k.table, Create)
                        && a.shape.table == RowTable(k.table) && a.shape.recordId == k.id;
    assert forall a :: a in logs <==> a in audits && AuditsCreation(a, k);
    if OneRowAudit(ctx, audits, k, row) {
      var a :| a in logs;
      forall b | b in logs ensures b == a { SizeOne(logs, a, b); }
    }
    if RowFoundOnce(ctx, audits, k, row) {
      var a :| a in audits && AuditsCreation(a, k) && forall b :: b in audits && AuditsCreation(b, k) ==> b == a;
      assert logs == {a};
    }
  }

  lemma ReceiptOnce(ctx: Context, audits: set<Audit>, current: State)
    ensures ReceiptFoundOnce(ctx, audits, current) <==>
              && SingleReceipt(ctx, audits).Some? && ReceiptFits(ctx, SingleReceipt(ctx, audits).value)
              && PlainReceipts(ctx, audits) && SingleReceipt(ctx, audits).value.state == current
  {
    if SingleReceipt(ctx, audits).Some? { var a := ReceiptFound(ctx, audits); }
    if ReceiptFoundOnce(ctx, audits, current) { OnlyCompletion(ctx, audits, current); }
  }

  lemma OnlyCompletion(ctx: Context, audits: set<Audit>, current: State)
    requires ReceiptFoundOnce(ctx, audits, current)
    ensures SingleReceipt(ctx, audits).Some? && ReceiptFits(ctx, SingleReceipt(ctx, audits).value)
    ensures PlainReceipts(ctx, audits) && SingleReceipt(ctx, audits).value.state == current
  {
    var a :| a in audits && AuditsCompletion(ctx, a)
             && forall b :: b in audits && AuditsCompletion(ctx, b) ==> b == a;
    assert Receipts(ctx, audits) == {a};
  }

  // ---------------------------------------------------------------------------------------------
  // What a commit is made of

  /** The seven operations, one by one: family, kind, id and manifest. */
  function Operations(m: ContinuationManifest): seq<(Family, Operation, Id, Manifest)> {
    [(Bootstrap, Create, m.prior.identity.operationId, OfIdentity(m.prior.identity)),
     (ReadProof, Create, m.prior.operationId, OfReadProof(m.prior)),
     (ReadProof, Withdraw, m.prior.withdrawalOperationId, OfReadProof(m.prior)),
     (Cycle, Reactivate, m.predecessor.reactivationOperationId, OfCycle(m.predecessor)),
     (Cycle, Withdraw, m.predecessor.withdrawalOperationId, OfCycle(m.predecessor)),
     (Continuation, Reactivate, m.reactivationOperationId, OfContinuation(m)),
     (Continuation, Withdraw, m.withdrawalOperationId, OfContinuation(m))]
  }

  /** The receipt of a verified operation names it, and carries its manifest with the digest. */
  lemma ReceiptNames(m: ContinuationManifest, log: set<Audit>, k: Stage)
    requires Verified(m, log, k).Some?
    ensures ReceiptAt(m, log, k).Some?
    ensures var r := ReceiptAt(m, log, k).value;
            && Names(r, Operations(m)[k]) && r.manifestHash == Digest(ManifestDoc(r.manifest))
  {
    ReceiptLinks(m, log, k);
    var ctx := VerifiedContext(m, log, k);
    SameReceipt(ctx, ContextFor(m, log, k, map[]), Evid(m, log, k));
    ReceiptOfContext(ctx, Evid(m, log, k));
    ContextNames(m, k);
  }

  predicate Names(r: Receipt, named: (Family, Operation, Id, Manifest)) {
    r.family == named.0 && r.op == named.1 && r.operationId == named.2 && r.manifest == named.3
  }

  lemma VerifiedContext(m: ContinuationManifest, log: set<Audit>, k: Stage) returns (ctx: Context)
    requires Verified(m, log, k).Some?
    ensures Check(ctx, Evid(m, log, k)).Some?
    ensures ctx.family == FamilyOf(k) && ctx.op == OpOf(k) && ctx.operationId == OpIds(m)[k]
    ensures ctx.manifest == ManifestFor(m, k)
  {
    ctx := ContextFor(m, log, k, if k == 0 then map[] else Verified(m, log, Before(k)).value);
  }

  lemma ContextNames(m: ContinuationManifest, k: Stage)
    ensures (FamilyOf(k), OpOf(k), OpIds(m)[k], ManifestFor(m, k)) == Operations(m)[k]
  {
  }

  lemma ReceiptOfContext(ctx: Context, audits: set<Audit>)
    requires Check(ctx, audits).Some?
    ensures SingleReceipt(ctx, audits).Some?
    ensures var r := SingleReceipt(ctx, audits).value;
            && r.family == ctx.family && r.op == ctx.op && r.operationId == ctx.operationId
            && r.manifest == ctx.manifest && r.manifestHash == Digest(ManifestDoc(ctx.manifest))
  {
  }

  /**
   * The circumstances that a writer records: its own clock, that of the database for the audits of the
   * bootstrap, the principal, and the ids of its audits: one for each row in writing order, then the receipt's.
   */
  lemma CommitTells(m: ContinuationManifest, call: Call, i: nat)
    requires ManifestOk(m) && |call.ids| == 6 && i < |KeyOrder(m, call.stage)|
    ensures var c, keys := CommitOf(m, call), KeyOrder(m, call.stage);
            && c.at == call.at && c.actor == call.actor && c.executor == Unstated
            && (call.stage == 0 ==> c.auditedAt == call.auditedAt) && (call.stage > 0 ==> c.auditedAt == call.at)
            && keys[i].id in c.rowAudits && c.rowAudits[keys[i].id] == call.ids[i]
            && c.receiptAudit == call.ids[if call.stage == 1 then 4 else 5]
  {
    OrderedKeys(m, call.stage);
    AssignedIds(KeyOrder(m, call.stage), call.ids, |KeyOrder(m, call.stage)|);
  }
}
