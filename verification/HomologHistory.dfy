/**
 * Whole runs of the identity protocol, and what its receipts say about the past.
 */
module HomologHistory {
  import opened Wrappers
  import opened Collections
  import opened HomologEvidence
  import opened HomologAgreement
  import opened HomologProtocol
  import opened HomologRuns

  // ---------------------------------------------------------------------------------------------
  // Runs

  /** One step of a run: a call, or anything other programs do to the database. */
  datatype Step = Calls(call: Call) | Outside(next: Db)

  /** Other programs may change any other row and add any audit that names none of the seven operations. */
  predicate OutsideOk(m: ContinuationManifest, db: Db, next: Db) {
    && UniqueIds(next.log)
    && Current(m, next) == Current(m, db)
    && (forall k: Stage :: Evid(m, next.log, k) == Evid(m, db.log, k))
  }

  predicate StepOk(m: ContinuationManifest, db: Db, step: Step) {
    match step
    case Calls(call) => NewIds(db.log, call.ids)
    case Outside(next) => OutsideOk(m, db, next)
  }

  function Moved(m: ContinuationManifest, db: Db, step: Step): Db
    requires step.Calls? ==> |step.call.ids| == 6
  {
    match step
    case Calls(call) => After(m, db, call)
    case Outside(next) => next
  }

  predicate RunOk(m: ContinuationManifest, db: Db, steps: seq<Step>)
    decreases |steps|
  {
    steps != [] ==> StepOk(m, db, steps[0]) && RunOk(m, Moved(m, db, steps[0]), steps[1..])
  }

  function Played(m: ContinuationManifest, db: Db, steps: seq<Step>): Db
    requires RunOk(m, db, steps)
    decreases |steps|
  {
    if steps == [] then db else Played(m, Moved(m, db, steps[0]), steps[1..])
  }

  function CommitAt(m: ContinuationManifest, db: Db, step: Step): seq<Stage> {
    if step.Calls? && Plan(SurveyOf(m, db), step.call).Perform? then [step.call.stage] else []
  }

  /** The operations that commit during a run, in order. */
  function CommitsOf(m: ContinuationManifest, db: Db, steps: seq<Step>): seq<Stage>
    requires RunOk(m, db, steps)
    decreases |steps|
  {
    if steps == [] then []
    else CommitAt(m, db, steps[0]) + CommitsOf(m, Moved(m, db, steps[0]), steps[1..])
  }

  /** In a reachable database, what a call that commits does. */
  lemma CallDecided(m: ContinuationManifest, db: Db, call: Call, n: nat)
    requires ManifestOk(m) && Reached(m, db, n) && |call.ids| == 6
    requires Plan(SurveyOf(m, db), call).Perform?
    ensures call.stage == n && ActorOk(call.actor)
    ensures After(m, db, call) == Committed(m, db, call, Start(m, db, n))
  {
    SeenWhenReached(m, db, n);
    CommitsInTurn(SurveyOf(m, db), call, n);
  }

  /** One call: it commits the next operation or leaves the database as it is. */
  lemma CallReaches(m: ContinuationManifest, db: Db, call: Call, n: nat)
    requires ManifestOk(m) && Reached(m, db, n) && NewIds(db.log, call.ids)
    ensures !Plan(SurveyOf(m, db), call).Perform? ==> After(m, db, call) == db
    ensures Plan(SurveyOf(m, db), call).Perform? ==> call.stage == n && Reached(m, After(m, db, call), n + 1)
  {
    if Plan(SurveyOf(m, db), call).Perform? {
      CallDecided(m, db, call, n);
      CommitReaches(m, db, call);
    }
  }

  /** The log only grows: by five audits when create commits, and by six for every other commit. */
  lemma CallAppends(m: ContinuationManifest, db: Db, call: Call, n: nat)
    requires ManifestOk(m) && Reached(m, db, n) && NewIds(db.log, call.ids)
    ensures db.log <= After(m, db, call).log
    ensures |After(m, db, call).log| - |db.log|
         == if !Plan(SurveyOf(m, db), call).Perform? then 0 else if n == 1 then 5 else 6
  {
    if Plan(SurveyOf(m, db), call).Perform? {
      CallDecided(m, db, call, n);
      StartKeys(m, db, n);
      LogGrows(m, db, call, Start(m, db, n));
    }
  }

  lemma OutsideReaches(m: ContinuationManifest, db: Db, next: Db, n: nat)
    requires ManifestOk(m) && Reached(m, db, n) && OutsideOk(m, db, next)
    ensures Reached(m, next, n)
  {
    forall k: Stage
      ensures Verified(m, next.log, k) == Verified(m, db.log, k)
    {
      VerifiedReads(m, db.log, next.log, k);
    }
  }

  lemma StepReaches(m: ContinuationManifest, db: Db, step: Step, n: nat)
    requires ManifestOk(m) && Reached(m, db, n) && StepOk(m, db, step)
    ensures CommitAt(m, db, step) == [] || CommitAt(m, db, step) == [n]
    ensures Reached(m, Moved(m, db, step), n + |CommitAt(m, db, step)|)
  {
    match step
    case Calls(call) =>
      CallReaches(m, db, call, n);
      assert CommitAt(m, db, step) == if Plan(SurveyOf(m, db), call).Perform? then [n] else [];
      assert Moved(m, db, step) == After(m, db, call);
    case Outside(next) =>
      OutsideReaches(m, db, next, n);
      assert CommitAt(m, db, step) == [] && Moved(m, db, step) == next;
  }

  /** The stages of a run that starts when n operations have committed. */
  predicate InOrder(commits: seq<Stage>, n: nat) {
    forall i :: 0 <= i < |commits| ==> commits[i] == n + i
  }

  lemma RunUnfolds(m: ContinuationManifest, db: Db, steps: seq<Step>)
    requires RunOk(m, db, steps) && steps != []
    ensures StepOk(m, db, steps[0]) && RunOk(m, Moved(m, db, steps[0]), steps[1..])
    ensures var here, next := CommitAt(m, db, steps[0]), Moved(m, db, steps[0]);
            && CommitsOf(m, db, steps) == here + CommitsOf(m, next, steps[1..])
            && |CommitsOf(m, db, steps)| == |here| + |CommitsOf(m, next, steps[1..])|
            && Played(m, db, steps) == Played(m, next, steps[1..])
  {
  }

  lemma {:induction false} RunReaches(m: ContinuationManifest, db: Db, steps: seq<Step>, n: nat, end: nat)
    requires ManifestOk(m) && Reached(m, db, n) && RunOk(m, db, steps) && end == n + |CommitsOf(m, db, steps)|
    ensures Reached(m, Played(m, db, steps), end)
    ensures InOrder(CommitsOf(m, db, steps), n)
    decreases |steps|
  {
    if steps != [] {
      RunUnfolds(m, db, steps);
      var here, next := CommitAt(m, db, steps[0]), Moved(m, db, steps[0]);
      StepReaches(m, db, steps[0], n);
      RunReaches(m, next, steps[1..], n + |here|, end);
      Consecutive(here, CommitsOf(m, next, steps[1..]), n);
    }
  }

  /** In every run the operations commit in order, each at most once. */
  lemma RunInOrder(m: ContinuationManifest, db: Db, steps: seq<Step>, n: nat)
    requires ManifestOk(m) && Reached(m, db, n) && RunOk(m, db, steps)
    ensures Reached(m, Played(m, db, steps), n + |CommitsOf(m, db, steps)|)
    ensures InOrder(CommitsOf(m, db, steps), n)
  {
    RunReaches(m, db, steps, n, n + |CommitsOf(m, db, steps)|);
  }

  lemma Consecutive(here: seq<Stage>, later: seq<Stage>, n: nat)
    requires (here == [] || here == [n]) && InOrder(later, n + |here|)
    ensures InOrder(here + later, n)
  {
  }

  /** From a database without any of the seven operations, a run commits a prefix of them. */
  lemma FreshRun(m: ContinuationManifest, db: Db, steps: seq<Step>)
    requires ManifestOk(m) && UniqueIds(db.log) && RunOk(m, db, steps)
    requires forall k: Stage :: Evid(m, db.log, k) == {}
    ensures |CommitsOf(m, db, steps)| <= 7 && InOrder(CommitsOf(m, db, steps), 0)
    ensures Reached(m, Played(m, db, steps), |CommitsOf(m, db, steps)|)
  {
    RunInOrder(m, db, steps, 0);
  }

  /** What has committed never commits again: a withdrawn cycle is never reactivated. */
  lemma NeverAgain(m: ContinuationManifest, db: Db, steps: seq<Step>, n: nat, k: Stage)
    requires ManifestOk(m) && Reached(m, db, n) && RunOk(m, db, steps) && k < n
    ensures k !in CommitsOf(m, db, steps)
  {
    RunInOrder(m, db, steps, n);
  }

  // ---------------------------------------------------------------------------------------------
  // The identity rows

  /** The five rows of a bootstrap at `born`, last changed at `changed`. */
  function IdentityState(m: ContinuationManifest, born: Time, active: bool, changed: Time): State {
    map k | k in IdentityRows(m.prior.identity, born) ::
      IdentityRows(m.prior.identity, born)[k].(isActive := active, updatedAt := changed)
  }

  lemma {:induction false} VerifiedRows(m: ContinuationManifest, log: set<Audit>, k: Stage)
    returns (born: Time, changed: Time)
    requires Verified(m, log, k).Some? && k != 1
    ensures Verified(m, log, k).value == IdentityState(m, born, OpOf(k) != Withdraw, changed)
    decreases k
  {
    if k == 0 {
      born := CheckedNext(ContextFor(m, log, 0, map[]), Evid(m, log, 0));
      changed := born;
    } else {
      born, changed := VerifiedRows(m, log, Before(k));
      var before, active := Verified(m, log, Before(k)).value, OpOf(Before(k)) != Withdraw;
      var ctx := ContextFor(m, log, k, before);
      var at := CheckedNext(ctx, Evid(m, log, k));
      ToggledState(m, ctx, born, active, changed, at);
      changed := at;
    }
  }

  lemma ToggledState(m: ContinuationManifest, ctx: Context, born: Time, active: bool, changed: Time, at: Time)
    requires ctx.op != Create && ctx.before == IdentityState(m, born, active, changed)
    ensures ctx.Next(at) == IdentityState(m, born, ctx.op != Withdraw, at)
  {
  }

  lemma CheckedNext(ctx: Context, audits: set<Audit>) returns (at: Time)
    requires Check(ctx, audits).Some?
    ensures Check(ctx, audits) == Some(ctx.Next(at))
  {
    at := SingleReceipt(ctx, audits).value.at;
  }

  /**
   * The identities are active exactly when the last commit was the bootstrap, the create or a
   * reactivation; nothing but activity and the time of the last change ever differs from the bootstrap.
   */
  lemma IdentitiesFollow(m: ContinuationManifest, db: Db, n: nat) returns (born: Time, changed: Time)
    requires ManifestOk(m) && Reached(m, db, n) && n > 0
    ensures Current(m, db) == IdentityState(m, born, n in {1, 2, 4, 6}, changed)
    ensures forall k :: k in IdentitySet(m) ==> k in db.rows && (db.rows[k].isActive <==> n in {1, 2, 4, 6})
  {
    born, changed := VerifiedRows(m, db.log, Before(n));
    VerifiedShape(m, db.log, Before(n));
    assert forall k :: k in IdentitySet(m) ==> k in Current(m, db) && Current(m, db)[k] == db.rows[k];
  }

  // ---------------------------------------------------------------------------------------------
  // Chaining

  function ReceiptAt(m: ContinuationManifest, log: set<Audit>, k: Stage): Option<Receipt> {
    SingleReceipt(ContextFor(m, log, k, map[]), Evid(m, log, k))
  }

  /** What the receipt of a stage binds, if there is one. */
  function LinkAt(m: ContinuationManifest, log: set<Audit>, k: Stage): Option<Link> {
    match ReceiptAt(m, log, k)
    case None => None
    case Some(r) => Some(r.link)
  }

  lemma SameReceipt(ctx: Context, other: Context, audits: set<Audit>)
    requires ctx.family == other.family && ctx.op == other.op && ctx.operationId == other.operationId
    ensures SingleReceipt(ctx, audits) == SingleReceipt(other, audits)
  {
    assert Receipts(ctx, audits) == Receipts(other, audits);
    if |Receipts(ctx, audits)| == 1 {
      var a :| a in Receipts(ctx, audits);
      forall b | b in Receipts(ctx, audits) ensures b == a { SizeOne(Receipts(ctx, audits), a, b); }
    }
  }

  lemma CheckedReceipt(ctx: Context, audits: set<Audit>)
    requires Check(ctx, audits).Some?
    ensures SingleReceipt(ctx, audits).Some?
    ensures var r := SingleReceipt(ctx, audits).value;
            r.link == ctx.link && r.before == ctx.before && Check(ctx, audits) == Some(r.state)
  {
  }

  /** A verified receipt binds what its link binds, and the rows it started from. */
  lemma ReceiptLinks(m: ContinuationManifest, log: set<Audit>, k: Stage)
    requires Verified(m, log, k).Some?
    ensures ReceiptAt(m, log, k).Some?
    ensures ReceiptAt(m, log, k).value.link == LinkFor(m, log, k)
    ensures k > 0 ==> Verified(m, log, Before(k)) == Some(ReceiptAt(m, log, k).value.before)
    ensures Verified(m, log, k) == Some(ReceiptAt(m, log, k).value.state)
  {
    var ctx := ContextFor(m, log, k, if k == 0 then map[] else Verified(m, log, Before(k)).value);
    SameReceipt(ctx, ContextFor(m, log, k, map[]), Evid(m, log, k));
    CheckedReceipt(ctx, Evid(m, log, k));
  }

  lemma SplitUnion(m: ContinuationManifest, a: set<Audit>, b: set<Audit>, j: Stage)
    requires j < 3
    requires Evid(m, a, 0) + Evid(m, a, 1) + Evid(m, a, 2) == Evid(m, b, 0) + Evid(m, b, 1) + Evid(m, b, 2)
    ensures Evid(m, a, j) == Evid(m, b, j)
  {
    var union := Evid(m, a, 0) + Evid(m, a, 1) + Evid(m, a, 2);
    assert Evid(m, union, j) == Evid(m, a, j);
    assert Evid(m, union, j) == Evid(m, b, j);
  }

  /** A reactivation receipt fixes the whole evidence of bootstrap, create and withdrawal. */
  lemma ReactivationPins(m: ContinuationManifest, a: set<Audit>, b: set<Audit>)
    requires Verified(m, a, 3).Some? && Verified(m, b, 3).Some?
    requires ReceiptAt(m, a, 3) == ReceiptAt(m, b, 3)
    ensures forall j: Stage :: j < 3 ==> Evid(m, a, j) == Evid(m, b, j)
  {
    ReceiptLinks(m, a, 3);
    ReceiptLinks(m, b, 3);
    assert HistoryHash(m, a) == HistoryHash(m, b);
    forall j: Stage | j < 3 ensures Evid(m, a, j) == Evid(m, b, j) { SplitUnion(m, a, b, j); }
  }

  /**
   * A cycle withdrawal fixes all evidence before it: wherever its receipt verifies, in whatever
   * database, the bootstrap, create, withdrawal and reactivation evidence is the one present when
   * that receipt was written.
   */
  lemma CycleWithdrawalPins(m: ContinuationManifest, a: set<Audit>, b: set<Audit>)
    requires Verified(m, a, 4).Some? && Verified(m, b, 4).Some?
    requires ReceiptAt(m, a, 4) == ReceiptAt(m, b, 4)
    ensures forall j: Stage :: j < 4 ==> Evid(m, a, j) == Evid(m, b, j)
  {
    ReceiptLinks(m, a, 4);
    ReceiptLinks(m, b, 4);
    assert HistoryHash(m, a) == HistoryHash(m, b) && Evid(m, a, 3) == Evid(m, b, 3);
    forall j: Stage | j < 3 ensures Evid(m, a, j) == Evid(m, b, j) { SplitUnion(m, a, b, j); }
  }

  /** A continuation is answered in two databases only if they agree on every audit but its own. */
  lemma ContinuationPins(m: ContinuationManifest, a: Db, b: Db, callA: Call, callB: Call)
    requires ManifestOk(m) && callA.stage >= 5 && callB.stage >= 5
    requires !Plan(SurveyOf(m, a), callA).Refuse? && !Plan(SurveyOf(m, b), callB).Refuse?
    ensures History(m, a.log) == History(m, b.log)
    ensures Verified(m, a.log, 4) == Verified(m, b.log, 4)
  {
    ContinuationPreserved(SurveyOf(m, a), callA);
    ContinuationPreserved(SurveyOf(m, b), callB);
    assert Digest(AuditsDoc(History(m, a.log))) == Digest(AuditsDoc(History(m, b.log)));
  }

  /** The last receipt fixes the whole evidence of the continuation's reactivation, in whatever database. */
  lemma ContinuationWithdrawalPins(m: ContinuationManifest, a: set<Audit>, b: set<Audit>)
    requires Verified(m, a, 6).Some? && Verified(m, b, 6).Some?
    requires ReceiptAt(m, a, 6) == ReceiptAt(m, b, 6)
    ensures Evid(m, a, 5) == Evid(m, b, 5)
    ensures Verified(m, a, 5) == Verified(m, b, 5)
  {
    ReceiptLinks(m, a, 6);
    ReceiptLinks(m, b, 6);
  }

  /**
   * In a database where a continuation is answered, its receipts carry digests of what is there: that of
   * every audit outside the continuation, and the withdrawal's of the reactivation evidence as well.
   */
  lemma ContinuationReceiptsBind(m: ContinuationManifest, db: Db, call: Call)
    requires ManifestOk(m) && call.stage >= 5 && !Plan(SurveyOf(m, db), call).Refuse?
    ensures var history := Digest(AuditsDoc(History(m, db.log)));
            && (Verified(m, db.log, 5).Some? ==> LinkAt(m, db.log, 5) == Some(PriorEvidence(history)))
            && (Verified(m, db.log, 6).Some? ==>
                LinkAt(m, db.log, 6) == Some(PriorEvidence(Digest(ChainDoc(history, Evid(m, db.log, 5))))))
  {
    ContinuationPreserved(SurveyOf(m, db), call);
    if Verified(m, db.log, 5).Some? { ReceiptLinks(m, db.log, 5); }
    if Verified(m, db.log, 6).Some? { ReceiptLinks(m, db.log, 6); }
  }

  lemma ContinuationPreserved(s: Survey, call: Call)
    requires call.stage >= 5 && !Plan(s, call).Refuse?
    ensures s.preserved && s.pinned
  {
  }

  // ---------------------------------------------------------------------------------------------
  // What a create receipt does not fix

  /** The row audit of one row is found again by its metadata. */
  lemma MetaFindsRow(ctx: Context, c: Commit, d: Commit, k: Key)
    requires ContextOk(ctx) && k in ctx.Keys() && CommitOk(ctx, c) && CommitOk(ctx, d)
    requires MetaOf(Written(ctx, c)) == MetaOf(Written(ctx, d))
    ensures c.rowAudits[k.id] == d.rowAudits[k.id] && c.auditedAt == d.auditedAt
  {
    KeysFixed(ctx, c.at);
    KeysFixed(ctx, d.at);
    assert k.id in ctx.Ids();
    var a := RowAudit(ctx, c, k);
    assert a in Written(ctx, c);
    var meta := AuditMeta(a.id, a.createdAt, a.shape.action, a.shape.recordId);
    assert meta in MetaOf(Written(ctx, c));
    var b :| b in Written(ctx, d) && AuditMeta(b.id, b.createdAt, b.shape.action, b.shape.recordId) == meta;
    WrittenKinds(ctx, d, b);
    if j :| j in ctx.Next(d.at) && b == RowAudit(ctx, d, j) { assert j == k; }
  }

  lemma MetaFindsReceipt(ctx: Context, c: Commit, d: Commit)
    requires ContextOk(ctx) && MetaOf(Written(ctx, c)) == MetaOf(Written(ctx, d))
    ensures c.receiptAudit == d.receiptAudit && c.auditedAt == d.auditedAt
  {
    KeysFixed(ctx, d.at);
    var a := ReceiptAudit(ctx, c);
    assert a in Written(ctx, c);
    var meta := AuditMeta(a.id, a.createdAt, a.shape.action, a.shape.recordId);
    assert meta in MetaOf(Written(ctx, c));
    var b :| b in Written(ctx, d) && AuditMeta(b.id, b.createdAt, b.shape.action, b.shape.recordId) == meta;
    assert forall j :: j in ctx.Keys() ==> j.id in ctx.Ids();
    WrittenKinds(ctx, d, b);
  }

  /** Bootstrap evidence with the same metadata and the same receipt is the same evidence. */
  lemma BootstrapFromMeta(ctx: Context, a: set<Audit>, b: set<Audit>)
    requires ContextOk(ctx) && ctx.family == Bootstrap && UniqueIds(a) && UniqueIds(b)
    requires VerifyBootstrap(ctx, a).Some? && VerifyBootstrap(ctx, b).Some?
    requires MetaOf(a) == MetaOf(b) && SingleReceipt(ctx, a) == SingleReceipt(ctx, b)
    ensures a == b
  {
    var c := VerifiedBootstrapIsWritten(ctx, a);
    var d := VerifiedBootstrapIsWritten(ctx, b);
    SameCommit(ctx, c, d);
  }

  lemma SameCommit(ctx: Context, c: Commit, d: Commit)
    requires ContextOk(ctx) && ctx.family == Bootstrap && CommitOk(ctx, c) && CommitOk(ctx, d)
    requires MetaOf(Written(ctx, c)) == MetaOf(Written(ctx, d))
    requires SingleReceipt(ctx, Written(ctx, c)) == SingleReceipt(ctx, Written(ctx, d))
    ensures c == d
  {
    WrittenReceipt(ctx, c);
    WrittenReceipt(ctx, d);
    MetaFindsReceipt(ctx, c, d);
    forall id | id in c.rowAudits
      ensures c.rowAudits[id] == d.rowAudits[id]
    {
      var k :| k in ctx.Keys() && k.id == id;
      MetaFindsRow(ctx, c, d, k);
    }
    assert c.rowAudits == d.rowAudits;
  }

  /** Bootstrap receipts with the same rows differ in principal and executor at most. */
  lemma BootstrapReceipts(ctx: Context, a: set<Audit>, b: set<Audit>)
    requires ctx.family == Bootstrap && ctx.op == Create && ctx.manifest.OfIdentity?
    requires VerifyBootstrap(ctx, a).Some? && VerifyBootstrap(ctx, a) == VerifyBootstrap(ctx, b)
    ensures var (r, q) := (SingleReceipt(ctx, a).value, SingleReceipt(ctx, b).value);
            r == q <==> r.actor == q.actor && r.executor == q.executor
  {
    var r, q := SingleReceipt(ctx, a).value, SingleReceipt(ctx, b).value;
    var tenant := Key(Tenants, ctx.manifest.identity.tenantA.id);
    assert ctx.Next(r.at) == ctx.Next(q.at);
    TenantBorn(ctx.manifest.identity, r.at);
    TenantBorn(ctx.manifest.identity, q.at);
  }

  lemma TenantBorn(i: IdentityManifest, at: Time)
    ensures Key(Profiles, i.profileB1.id) in IdentityRows(i, at)
    ensures IdentityRows(i, at)[Key(Profiles, i.profileB1.id)].createdAt == at
  {
  }

  /**
   * The receipts of create and of the first withdrawal list the metadata of the bootstrap audits, not
   * their contents.  Of the bootstrap evidence they fix all but the principal and the executor.
   */
  lemma CreatePins(m: ContinuationManifest, a: set<Audit>, b: set<Audit>, k: Stage)
    requires ManifestOk(m) && UniqueIds(a) && UniqueIds(b) && 1 <= k <= 2
    requires Verified(m, a, k).Some? && Verified(m, b, k).Some?
    requires ReceiptAt(m, a, k) == ReceiptAt(m, b, k)
    ensures Verified(m, a, 0).Some? && Verified(m, a, 0) == Verified(m, b, 0)
    ensures ReceiptAt(m, a, 0).Some? && ReceiptAt(m, b, 0).Some?
    ensures Evid(m, a, 0) == Evid(m, b, 0) <==>
              ReceiptAt(m, a, 0).value.actor == ReceiptAt(m, b, 0).value.actor
              && ReceiptAt(m, a, 0).value.executor == ReceiptAt(m, b, 0).value.executor
  {
    ReceiptLinks(m, a, k);
    ReceiptLinks(m, b, k);
    ReceiptLinks(m, a, 0);
    ReceiptLinks(m, b, 0);
    SameBootstrapContext(m, a, b);
    var ctx := ContextFor(m, a, 0, map[]);
    BootstrapReceipts(ctx, Evid(m, a, 0), Evid(m, b, 0));
    if ReceiptAt(m, a, 0) == ReceiptAt(m, b, 0) {
      StageContext(m, a, 0, map[]);
      BootstrapFromMeta(ctx, Evid(m, a, 0), Evid(m, b, 0));
    }
  }

  lemma SameBootstrapContext(m: ContinuationManifest, a: set<Audit>, b: set<Audit>)
    ensures ContextFor(m, a, 0, map[]) == ContextFor(m, b, 0, map[])
  {
  }

  /** The same bootstrap by another principal or executor: other evidence, with the same metadata and rows. */
  lemma OtherBootstrap(ctx: Context, c: Commit, other: Actor, executor: Executor)
    requires ContextOk(ctx) && (c.actor, c.executor) != (other, executor)
    ensures var d := c.(actor := other, executor := executor);
            && Written(ctx, c) != Written(ctx, d)
            && MetaOf(Written(ctx, c)) == MetaOf(Written(ctx, d))
            && ctx.Next(c.at) == ctx.Next(d.at)
  {
    var d := c.(actor := other, executor := executor);
    WrittenReceipt(ctx, c);
    WrittenReceipt(ctx, d);
    MetaIncluded(ctx, c, other, executor);
    MetaIncluded(ctx, d, c.actor, c.executor);
    assert d.(actor := c.actor, executor := c.executor) == c;
  }

  lemma MetaIncluded(ctx: Context, c: Commit, other: Actor, executor: Executor)
    ensures MetaOf(Written(ctx, c)) <= MetaOf(Written(ctx, c.(actor := other, executor := executor)))
  {
    var d := c.(actor := other, executor := executor);
    forall a | a in Written(ctx, c)
      ensures AuditMeta(a.id, a.createdAt, a.shape.action, a.shape.recordId) in MetaOf(Written(ctx, d))
    {
      WrittenKinds(ctx, c, a);
      if a == ReceiptAudit(ctx, c) {
        assert ReceiptAudit(ctx, d) in Written(ctx, d);
      } else {
        var k :| k in ctx.Next(c.at) && a == RowAudit(ctx, c, k);
        assert RowAudit(ctx, d, k) in Written(ctx, d);
      }
    }
  }

  /** The log with its bootstrap evidence exchanged. */
  lemma Exchanged(m: ContinuationManifest, a: set<Audit>, c: Commit, d: Commit)
    requires ManifestOk(m) && UniqueIds(a)
    requires var ctx := ContextFor(m, a, 0, map[]);
             && CommitOk(ctx, c) && CommitOk(ctx, d) && Evid(m, a, 0) == Written(ctx, c)
             && MetaOf(Written(ctx, c)) == MetaOf(Written(ctx, d))
    ensures var b := (a - Evid(m, a, 0)) + Written(ContextFor(m, a, 0, map[]), d);
            && UniqueIds(b)
            && Evid(m, b, 0) == Written(ContextFor(m, a, 0, map[]), d)
            && forall j: Stage :: j > 0 ==> Evid(m, b, j) == Evid(m, a, j)
  {
    var ctx := ContextFor(m, a, 0, map[]);
    var before, after := Written(ctx, c), Written(ctx, d);
    var b := (a - before) + after;
    StageContext(m, a, 0, map[]);
    WrittenUnique(ctx, d);
    forall x | x in after
      ensures exists y :: y in before && y.id == x.id
    {
      var meta := AuditMeta(x.id, x.createdAt, x.shape.action, x.shape.recordId);
      assert meta in MetaOf(after);
      var y :| y in before && AuditMeta(y.id, y.createdAt, y.shape.action, y.shape.recordId) == meta;
    }
    forall j: Stage
      ensures Evid(m, b, j) == if j == 0 then after else Evid(m, a, j)
    {
      forall x | x in before ensures Mentions(x, OpIds(m)[j]) <==> j == 0 { WrittenMentions(m, a, 0, map[], c, x, j); }
      forall x | x in after ensures Mentions(x, OpIds(m)[j]) <==> j == 0 { WrittenMentions(m, a, 0, map[], d, x, j); }
    }
  }

  /**
   * From any log in which create or the first withdrawal verifies there is another, with another
   * principal or executor in its bootstrap receipt, in which the same evidence of every later
   * operation verifies to the same rows: the two receipts cannot tell the bootstraps apart.
   */
  lemma PrincipalStaysFree(m: ContinuationManifest, a: set<Audit>, k: Stage, other: Actor, executor: Executor)
    returns (b: set<Audit>)
    requires ManifestOk(m) && UniqueIds(a) && 1 <= k <= 2 && Verified(m, a, k).Some?
    requires ActorOk(other) && (executor == Unstated || executor == SqlRenderer)
    requires ReceiptAt(m, a, 0).Some? ==>
               (ReceiptAt(m, a, 0).value.actor, ReceiptAt(m, a, 0).value.executor) != (other, executor)
    ensures UniqueIds(b) && Evid(m, b, 0) != Evid(m, a, 0)
    ensures forall j: Stage :: j > 0 ==> Evid(m, b, j) == Evid(m, a, j)
    ensures Verified(m, b, 0) == Verified(m, a, 0) && Verified(m, b, k) == Verified(m, a, k)
    ensures ReceiptAt(m, b, k) == ReceiptAt(m, a, k)
    ensures ReceiptAt(m, b, 0).Some?
         && ReceiptAt(m, b, 0).value.actor == other && ReceiptAt(m, b, 0).value.executor == executor
  {
    var ctx := ContextFor(m, a, 0, map[]);
    VerifiedShape(m, a, k);
    StageContext(m, a, 0, map[]);
    var c := VerifiedBootstrapIsWritten(ctx, Evid(m, a, 0));
    var d := c.(actor := other, executor := executor);
    WrittenReceipt(ctx, c);
    OtherBootstrap(ctx, c, other, executor);
    Exchanged(m, a, c, d);
    b := (a - Evid(m, a, 0)) + Written(ctx, d);
    SameBootstrapContext(m, a, b);
    WrittenReceipt(ctx, d);
    WriterAccepted(ctx, d);
    WriterAccepted(ctx, c);
    assert LinkFor(m, b, k) == LinkFor(m, a, k);
    var before := Verified(m, a, 0).value;
    SameReceipt(ContextFor(m, a, k, map[]), ContextFor(m, b, k, map[]), Evid(m, a, k));
  }

  /** The first withdrawal says nothing of the create: its verification reads bootstrap and own evidence alone. */
  lemma WithdrawalReads(m: ContinuationManifest, a: set<Audit>, b: set<Audit>)
    requires Evid(m, a, 0) == Evid(m, b, 0) && Evid(m, a, 2) == Evid(m, b, 2)
    ensures Verified(m, a, 2) == Verified(m, b, 2)
  {
    VerifiedReads(m, a, b, 0);
    assert LinkFor(m, a, 2) == LinkFor(m, b, 2);
  }
}
