/**
 * What every run of the identity protocol keeps: the seven operations commit at most once each and
 * only in order, their evidence stays what was written, and the identities are exactly what the last
 * commit left.
 */
module HomologRuns {
  import opened Wrappers
  import opened Collections
  import opened HomologEvidence
  import opened HomologAgreement
  import opened HomologProtocol

  // ---------------------------------------------------------------------------------------------
  // Contexts and evidence

  function KeysOf(m: ContinuationManifest, k: Stage): set<Key> {
    if k == 1 then FixtureSet(m) else IdentitySet(m)
  }

  /** A stage that follows the bootstrap starts from five identity rows. */
  predicate StartsFrom(m: ContinuationManifest, k: Stage, before: State) {
    if k == 0 then before == map[] else before.Keys == IdentitySet(m)
  }

  /** Row ids differ from each other and from all operation ids. */
  lemma KeyIds(m: ContinuationManifest, k: Stage, key: Key)
    requires ManifestOk(m) && key in KeysOf(m, k)
    ensures forall i :: 0 <= i < 7 ==> key.id != OpIds(m)[i]
    ensures forall other :: other in KeysOf(m, k) && other.id == key.id ==> other == key
  {
    IdsApart(m);
    var keys, from := KeyOrder(m, k), if k == 1 then 0 else 4;
    assert forall i :: 0 <= i < |keys| ==> keys[i].id == RowIds(m.prior)[from + i];
    assert key in keys;
    forall other | other in KeysOf(m, k) && other.id == key.id
      ensures other == key
    {
      assert other in keys;
    }
  }

  /** The rows of a bootstrap: two tenants, two users in the first and one in the second, all active. */
  lemma IdentitiesCreated(m: ContinuationManifest, at: Time)
    requires ManifestOk(m)
    ensures var i := m.prior.identity;
            var rows := IdentityRows(i, at);
            && rows.Keys == IdentitySet(m)
            && rows[Key(Tenants, i.tenantA.id)] == Row(TenantContent("A", i.tenantA.slug), true, at, at)
            && rows[Key(Tenants, i.tenantB.id)] == Row(TenantContent("B", i.tenantB.slug), true, at, at)
            && rows[Key(Profiles, i.profileA1.id)]
            == Row(ProfileContent("A1", i.tenantA.id, i.profileA1.subject), true, at, at)
            && rows[Key(Profiles, i.profileA2.id)]
            == Row(ProfileContent("A2", i.tenantA.id, i.profileA2.subject), true, at, at)
            && rows[Key(Profiles, i.profileB1.id)]
            == Row(ProfileContent("B1", i.tenantB.id, i.profileB1.subject), true, at, at)
  {
    IdsApart(m);
    var ids := RowIds(m.prior);
    assert ids[4] != ids[5] && ids[6] != ids[7] && ids[6] != ids[8] && ids[7] != ids[8];
  }

  /**
   * The rows of a create: a client, its project owned by the first user, a draft of that project, and
   * the second user's membership, all of the first tenant.
   */
  lemma FixtureCreated(m: ContinuationManifest, at: Time)
    ensures var (p, i) := (m.prior, m.prior.identity);
            var rows := BusinessRows(p, at);
            && rows.Keys == FixtureSet(m)
            && rows[Key(Clients, p.clientId)] == Row(ClientContent(i.tenantA.id, p.operationId), true, at, at)
            && rows[Key(Projects, p.projectId)]
            == Row(ProjectContent(i.tenantA.id, p.operationId, p.clientId, i.profileA1.id), true, at, at)
            && rows[Key(Drafts, p.draftId)]
            == Row(DraftContent(i.tenantA.id, p.operationId, p.projectId, p.clientId), true, at, at)
            && rows[Key(Members, p.membershipId)]
            == Row(MemberContent(i.tenantA.id, p.projectId, i.profileA2.id), true, at, at)
  {
    assert FixtureSet(m) == {Key(Clients, m.prior.clientId), Key(Projects, m.prior.projectId),
                             Key(Drafts, m.prior.draftId), Key(Members, m.prior.membershipId)};
  }

  lemma StageContext(m: ContinuationManifest, log: set<Audit>, k: Stage, before: State)
    requires ManifestOk(m) && StartsFrom(m, k, before)
    ensures ContextOk(ContextFor(m, log, k, before))
    ensures ContextFor(m, log, k, before).Keys() == KeysOf(m, k)
  {
    var ctx := ContextFor(m, log, k, before);
    assert ctx.Keys() == KeysOf(m, k);
    forall key | key in ctx.Keys()
      ensures key.id != ctx.operationId
      ensures forall other :: other in ctx.Keys() && other.id == key.id ==> other == key
    {
      KeyIds(m, k, key);
    }
  }

  /** Evidence that verifies is non-empty, rests on verified evidence, and gives the stage's rows. */
  lemma {:induction false} VerifiedShape(m: ContinuationManifest, log: set<Audit>, k: Stage)
    requires ManifestOk(m) && Verified(m, log, k).Some?
    ensures Verified(m, log, k).value.Keys == KeysOf(m, k)
    ensures Evid(m, log, k) != {}
    ensures k > 0 ==> Verified(m, log, Before(k)).Some?
    decreases k
  {
    var before := map[];
    if k > 0 {
      VerifiedShape(m, log, Before(k));
      before := Verified(m, log, Before(k)).value;
    }
    CheckedShape(m, log, k, before);
  }

  lemma CheckedShape(m: ContinuationManifest, log: set<Audit>, k: Stage, before: State)
    requires ManifestOk(m) && StartsFrom(m, k, before)
    requires Check(ContextFor(m, log, k, before), Evid(m, log, k)).Some?
    ensures Check(ContextFor(m, log, k, before), Evid(m, log, k)).value.Keys == KeysOf(m, k)
    ensures Evid(m, log, k) != {}
  {
    var ctx := ContextFor(m, log, k, before);
    StageContext(m, log, k, before);
    var r := SingleReceipt(ctx, Evid(m, log, k)).value;
    KeysFixed(ctx, r.at);
    var a := ReceiptFound(ctx, Evid(m, log, k));
  }

  lemma LinkReads(m: ContinuationManifest, log: set<Audit>, other: set<Audit>, k: Stage)
    requires forall j: Stage :: j < k ==> Evid(m, log, j) == Evid(m, other, j)
    ensures LinkFor(m, log, k) == LinkFor(m, other, k)
  {
  }

  /** Verification of a stage reads only the evidence of that stage and of earlier ones. */
  lemma {:induction false} VerifiedReads(m: ContinuationManifest, log: set<Audit>, other: set<Audit>, k: Stage)
    requires forall j: Stage :: j <= k ==> Evid(m, log, j) == Evid(m, other, j)
    ensures Verified(m, log, k) == Verified(m, other, k)
    decreases k
  {
    if k > 0 {
      VerifiedReads(m, log, other, Before(k));
    }
    LinkReads(m, log, other, k);
  }

  /** Every audit of an operation mentions that operation and no other. */
  lemma WrittenMentions(
    m: ContinuationManifest, log: set<Audit>, k: Stage, before: State, c: Commit, a: Audit, j: Stage)
    requires ManifestOk(m) && StartsFrom(m, k, before)
    requires a in Written(ContextFor(m, log, k, before), c)
    ensures Mentions(a, OpIds(m)[j]) <==> j == k
  {
    var ctx := ContextFor(m, log, k, before);
    OpIdsDiffer(m, j, k);
    WrittenKinds(ctx, c, a);
    if a != ReceiptAudit(ctx, c) {
      var key :| key in ctx.Next(c.at) && a == RowAudit(ctx, c, key);
      StageContext(m, log, k, before);
      KeysFixed(ctx, c.at);
      KeyIds(m, k, key);
    }
  }

  lemma OpIdsDiffer(m: ContinuationManifest, j: Stage, k: Stage)
    requires ManifestOk(m)
    ensures OpIds(m)[j] == OpIds(m)[k] <==> j == k
  {
    IdsApart(m);
  }

  /** A commit adds to the evidence of its own operation, and to no other. */
  lemma EvidenceGrows(m: ContinuationManifest, log: set<Audit>, k: Stage, before: State, c: Commit, j: Stage)
    requires ManifestOk(m) && StartsFrom(m, k, before)
    ensures var written := Written(ContextFor(m, log, k, before), c);
            Evid(m, log + written, j) == Evid(m, log, j) + (if j == k then written else {})
  {
    var written := Written(ContextFor(m, log, k, before), c);
    forall a | a in written
      ensures Mentions(a, OpIds(m)[j]) <==> j == k
    {
      WrittenMentions(m, log, k, before, c, a, j);
    }
  }

  // ---------------------------------------------------------------------------------------------
  // The invariant

  /**
   * Exactly the first n operations have committed: their evidence verifies, the later ones left
   * none, and the five identity rows are what the last identity operation wrote.
   */
  predicate Reached(m: ContinuationManifest, db: Db, n: nat) {
    && n <= 7
    && UniqueIds(db.log)
    && (forall k: Stage :: k < n ==> Verified(m, db.log, k).Some?)
    && (forall k: Stage :: k < n && k == Before(n) ==> Verified(m, db.log, k) == Some(Current(m, db)))
    && (forall k: Stage :: n <= k ==> Evid(m, db.log, k) == {})
  }

  lemma NoneWithoutEvidence(m: ContinuationManifest, log: set<Audit>, k: Stage)
    requires ManifestOk(m) && Evid(m, log, k) == {}
    ensures Verified(m, log, k).None?
  {
    if Verified(m, log, k).Some? { VerifiedShape(m, log, k); }
  }

  /** The rows that stage n starts from. */
  function Start(m: ContinuationManifest, db: Db, n: nat): State {
    if n == 0 then map[] else Current(m, db)
  }

  lemma BootstrapSeen(m: ContinuationManifest, log: set<Audit>)
    requires ManifestOk(m)
    ensures Verified(m, log, 0).Some? ==> BootstrapEvidence(m, log) != {}
    ensures Evid(m, log, 0) == {} ==> BootstrapEvidence(m, log) == {}
  {
    assert BootstrapEvidence(m, log) <= Evid(m, log, 0);
    if Verified(m, log, 0).Some? {
      var a := ReceiptFound(ContextFor(m, log, 0, map[]), Evid(m, log, 0));
      assert a in BootstrapEvidence(m, log);
    }
  }

  /** Which stages have verified evidence, and which have any. */
  lemma StagesReached(m: ContinuationManifest, db: Db, n: nat)
    requires ManifestOk(m) && Reached(m, db, n)
    ensures forall k: Stage :: Verified(m, db.log, k).Some? <==> k < n
    ensures forall k: Stage :: Evid(m, db.log, k) != {} <==> k < n
  {
    forall k: Stage
      ensures Verified(m, db.log, k).Some? <==> k < n
      ensures Evid(m, db.log, k) != {} <==> k < n
    {
      if n <= k { NoneWithoutEvidence(m, db.log, k); } else { VerifiedShape(m, db.log, k); }
    }
  }

  /** The invariant as one call sees it. */
  predicate Seen(s: Survey, n: nat) {
    && n <= 7
    && (forall k: Stage :: s.Trace(k) == Nothing <==> n <= k)
    && (forall k: Stage :: s.Trace(k).Shows? <==> k < n)
    && (s.bootstrapSeen <==> n > 0)
    && !s.bootstrapReplay.Perform?
    && (s.bootstrapSeen && s.bootstrapReplay.Replay? ==> s.Trace(0) == Shows(s.current))
    && (n > 0 ==> s.Trace(Before(n)).Shows? && s.Trace(Before(n)).state == s.current)
  }

  /** What one operation needs besides its turn. */
  predicate Ready(s: Survey, call: Call) {
    && ActorOk(call.actor)
    && (call.stage >= 2 ==> s.Trace(1) == Shows(s.fixture))
    && match call.stage
       case 0 => !s.identityCollides
       case 1 => !s.collides && s.unpopulated
       case 2 => s.populated
       case 3 => s.profilesExact && s.populated
       case 4 => s.profilesExact
       case _ => s.profilesExact && s.pinned && s.preserved
  }

  /** What a repeat of the last commit needs to be recognised as one. */
  predicate Repeatable(s: Survey, call: Call) {
    && ActorOk(call.actor)
    && s.Trace(1) == Shows(s.fixture)
    && match FamilyOf(call.stage)
       case Bootstrap => false
       case ReadProof => s.populated
       case Cycle => s.profilesExact
       case Continuation => s.profilesExact && s.pinned && s.preserved
  }

  /** What the plan of a call makes of the survey after n commits. */
  predicate InTurn(s: Survey, call: Call, n: nat, plan: Decision) {
    && (plan.Perform? <==> n == call.stage && Ready(s, call))
    && (plan.Perform? ==> plan.before == if n == 0 then map[] else s.current)
    && (plan.Replay? ==> s.Trace(call.stage) == Shows(if call.stage == 1 then s.fixture else s.current))
    && (n == call.stage + 1 && Repeatable(s, call) ==> plan.Replay?)
  }

  lemma BootstrapInTurn(s: Survey, call: Call, n: nat)
    requires Seen(s, n) && call.stage == 0
    ensures InTurn(s, call, n, PlanBootstrap(s, call))
  {
  }

  lemma ReadProofInTurn(s: Survey, call: Call, n: nat)
    requires Seen(s, n) && 1 <= call.stage <= 2
    ensures InTurn(s, call, n, PlanReadProof(s, call))
  {
  }

  lemma CycleInTurn(s: Survey, call: Call, n: nat)
    requires Seen(s, n) && 3 <= call.stage <= 4
    ensures InTurn(s, call, n, PlanCycle(s, call))
  {
  }

  lemma ContinuationInTurn(s: Survey, call: Call, n: nat)
    requires Seen(s, n) && call.stage >= 5
    ensures InTurn(s, call, n, PlanContinuation(s, call))
  {
  }

  /**
   * A call commits exactly when it is its turn and its own conditions hold.  A replay is only
   * reported for an operation whose rows are the current ones, and a repeat of the last commit is
   * always one.
   */
  lemma CommitsInTurn(s: Survey, call: Call, n: nat)
    requires Seen(s, n)
    ensures Plan(s, call).Perform? <==> n == call.stage && Ready(s, call)
    ensures Plan(s, call).Perform? ==> Plan(s, call).before == if n == 0 then map[] else s.current
    ensures Plan(s, call).Replay? ==> s.Trace(call.stage) == Shows(if call.stage == 1 then s.fixture else s.current)
    ensures n == call.stage + 1 && Repeatable(s, call) ==> Plan(s, call).Replay?
  {
    match FamilyOf(call.stage)
    case Bootstrap => BootstrapInTurn(s, call, n);
    case ReadProof => ReadProofInTurn(s, call, n);
    case Cycle => CycleInTurn(s, call, n);
    case Continuation => ContinuationInTurn(s, call, n);
  }

  // The plan by the number of commits

  /** Create verifies, and its four business rows are still as created. */
  predicate FixtureIntact(s: Survey) {
    s.Trace(1) == Shows(s.fixture)
  }

  function ReadProofAt(s: Survey, create: bool, n: nat): Decision {
    if n == 0 then Refuse(ReadProof, IdentityConflict)
    else if create && n >= 3 then Refuse(ReadProof, Withdrawn)
    else if n == 1 then
      if !create then Refuse(ReadProof, Conflict)
      else if s.collides then Refuse(ReadProof, Collision)
      else if !s.unpopulated then Refuse(ReadProof, Drift)
      else Perform(s.current)
    else if !FixtureIntact(s) || !s.populated then Refuse(ReadProof, Drift)
    else if n == 2 then
      if create then Replay else Perform(s.current)
    else if s.Trace(2) != Shows(s.current) then Refuse(ReadProof, Drift)
    else Replay
  }

  /** What every cycle and continuation needs of the first three operations. */
  function EarlierObjection(s: Survey, n: nat): Option<Reason> {
    if n == 0 then Some(IdentityConflict)
    else if n == 1 then Some(Conflict)
    else if !FixtureIntact(s) then Some(Drift)
    else if n == 2 then Some(Conflict)
    else None
  }

  function CycleAt(s: Survey, up: bool, n: nat): Decision {
    if EarlierObjection(s, n).Some? then Refuse(ReadProof, EarlierObjection(s, n).value)
    else if !s.profilesExact then Refuse(Cycle, Drift)
    else if n == 3 then
      if !up then Refuse(Cycle, Conflict)
      else if !s.populated then Refuse(ReadProof, Drift)
      else Perform(s.current)
    else if n == 4 then
      if up then Replay else Perform(s.current)
    else if up then Refuse(Cycle, Withdrawn)
    else if s.Trace(4) != Shows(s.current) then Refuse(Cycle, Drift)
    else Replay
  }

  function ContinuationAt(s: Survey, up: bool, n: nat): Decision {
    if EarlierObjection(s, n).Some? then Refuse(ReadProof, EarlierObjection(s, n).value)
    else if n < 5 then Refuse(Cycle, Conflict)
    else if !s.pinned then Refuse(Continuation, Conflict)
    else if !s.profilesExact then Refuse(Cycle, Drift)
    else if !s.preserved then Refuse(Continuation, Drift)
    else if n == 5 then
      if up then Perform(s.current) else Refuse(Continuation, Conflict)
    else if n == 6 then
      if up then Replay else Perform(s.current)
    else if up then Refuse(Continuation, Withdrawn)
    else Replay
  }

  /** What becomes of a call once n operations have committed. */
  function DecisionAt(s: Survey, call: Call, n: nat): Decision {
    if call.stage == 0 then
      if n > 0 then s.bootstrapReplay
      else if s.identityCollides then Refuse(Bootstrap, Collision)
      else if !ActorOk(call.actor) then Refuse(Bootstrap, Failed)
      else Perform(map[])
    else if !ActorOk(call.actor) then Refuse(ReadProof, Failed)
    else if call.stage <= 2 then ReadProofAt(s, call.stage == 1, n)
    else if call.stage <= 4 then CycleAt(s, call.stage == 3, n)
    else ContinuationAt(s, call.stage == 5, n)
  }

  lemma ReadProofDecided(s: Survey, call: Call, n: nat)
    requires Seen(s, n) && 1 <= call.stage <= 2
    ensures PlanReadProof(s, call) == DecisionAt(s, call, n)
  {
  }

  lemma CycleDecided(s: Survey, call: Call, n: nat)
    requires Seen(s, n) && 3 <= call.stage <= 4
    ensures PlanCycle(s, call) == DecisionAt(s, call, n)
  {
  }

  lemma ContinuationDecided(s: Survey, call: Call, n: nat)
    requires Seen(s, n) && call.stage >= 5
    ensures PlanContinuation(s, call) == DecisionAt(s, call, n)
  {
  }

  /**
   * The plan reads seven verified traces; in a reachable database it decides as the table of the
   * number of commits: who commits, who is a replay, and which refusal everybody else gets.
   */
  lemma PlanByCount(m: ContinuationManifest, db: Db, call: Call, n: nat)
    requires ManifestOk(m) && Reached(m, db, n)
    ensures Plan(SurveyOf(m, db), call) == DecisionAt(SurveyOf(m, db), call, n)
  {
    var s := SurveyOf(m, db);
    SeenWhenReached(m, db, n);
    match FamilyOf(call.stage)
    case Bootstrap =>
    case ReadProof => ReadProofDecided(s, call, n);
    case Cycle => CycleDecided(s, call, n);
    case Continuation => ContinuationDecided(s, call, n);
  }

  /** A bootstrap replay shows the rows that the later verifiers rebuild. */
  lemma BootstrapReplayState(m: ContinuationManifest, db: Db)
    requires ManifestOk(m) && Verified(m, db.log, 0).Some?
    requires PlanReplay(ContextFor(m, db.log, 0, map[]), BootstrapEvidence(m, db.log), Current(m, db)).Replay?
    ensures Verified(m, db.log, 0) == Some(Current(m, db))
  {
    var ctx := ContextFor(m, db.log, 0, map[]);
    assert Receipts(ctx, BootstrapEvidence(m, db.log)) == Receipts(ctx, Evid(m, db.log, 0));
    var a := ReceiptFound(ctx, Evid(m, db.log, 0));
    var b := ReceiptFound(ctx, BootstrapEvidence(m, db.log));
    assert a == b;
  }

  lemma SeenWhenReached(m: ContinuationManifest, db: Db, n: nat)
    requires ManifestOk(m) && Reached(m, db, n)
    ensures Seen(SurveyOf(m, db), n)
  {
    var s := SurveyOf(m, db);
    StagesReached(m, db, n);
    BootstrapSeen(m, db.log);
    forall k: Stage
      ensures s.Trace(k) == if k < n then Shows(Verified(m, db.log, k).value) else Nothing
    {
    }
    assert !s.bootstrapReplay.Perform?;
    if s.bootstrapSeen && s.bootstrapReplay.Replay? { BootstrapReplayState(m, db); }
  }

  // ---------------------------------------------------------------------------------------------
  // Commits

  lemma {:induction false} AssignedIds(keys: seq<Key>, ids: seq<Id>, n: nat)
    requires n <= |keys| && n <= |ids|
    requires forall i, j :: 0 <= i < j < |keys| ==> keys[i].id != keys[j].id
    ensures Assigned(keys, ids, n).Keys == set i | 0 <= i < n :: keys[i].id
    ensures forall i :: 0 <= i < n ==> Assigned(keys, ids, n)[keys[i].id] == ids[i]
  {
    if n > 0 { AssignedIds(keys, ids, n - 1); }
  }

  lemma OrderedKeys(m: ContinuationManifest, k: Stage)
    requires ManifestOk(m)
    ensures forall key :: key in KeyOrder(m, k) <==> key in KeysOf(m, k)
    ensures forall i, j :: 0 <= i < j < |KeyOrder(m, k)| ==> KeyOrder(m, k)[i].id != KeyOrder(m, k)[j].id
  {
    IdsApart(m);
    var from := if k == 1 then 0 else 4;
    assert forall i :: 0 <= i < |KeyOrder(m, k)| ==> KeyOrder(m, k)[i].id == RowIds(m.prior)[from + i];
  }

  lemma AssignedIndex(keys: seq<Key>, ids: seq<Id>, id: Id) returns (i: nat)
    requires |keys| <= |ids|
    requires forall i, j :: 0 <= i < j < |keys| ==> keys[i].id != keys[j].id
    requires id in Assigned(keys, ids, |keys|)
    ensures i < |keys| && id == keys[i].id && Assigned(keys, ids, |keys|)[id] == ids[i]
  {
    AssignedIds(keys, ids, |keys|);
    i :| 0 <= i < |keys| && id == keys[i].id;
  }

  lemma AssignedKeys(keys: seq<Key>, ids: seq<Id>)
    requires |keys| <= |ids|
    requires forall i, j :: 0 <= i < j < |keys| ==> keys[i].id != keys[j].id
    ensures Assigned(keys, ids, |keys|).Keys == set key | key in keys :: key.id
  {
    AssignedIds(keys, ids, |keys|);
    var rowAudits := Assigned(keys, ids, |keys|);
    forall id | id in rowAudits
      ensures exists key :: key in keys && key.id == id
    {
      var i := AssignedIndex(keys, ids, id);
      assert keys[i] in keys;
    }
    forall key | key in keys
      ensures key.id in rowAudits
    {
      var i :| 0 <= i < |keys| && keys[i] == key;
    }
  }

  /** Distinct rows get distinct new audit ids, and the receipt one more. */
  lemma AssignedOk(keys: seq<Key>, ids: seq<Id>)
    requires |keys| < |ids| && Distinct(ids)
    requires forall i, j :: 0 <= i < j < |keys| ==> keys[i].id != keys[j].id
    ensures var rowAudits := Assigned(keys, ids, |keys|);
            && Injective(rowAudits)
            && ids[|keys|] !in rowAudits.Values
            && rowAudits.Values + {ids[|keys|]} <= set id | id in ids
  {
    var rowAudits := Assigned(keys, ids, |keys|);
    forall id | id in rowAudits
      ensures rowAudits[id] != ids[|keys|] && rowAudits[id] in ids
      ensures forall other :: other in rowAudits && rowAudits[other] == rowAudits[id] ==> other == id
    {
      var i := AssignedIndex(keys, ids, id);
      forall other | other in rowAudits && rowAudits[other] == rowAudits[id]
        ensures other == id
      {
        var j := AssignedIndex(keys, ids, other);
        assert i == j;
      }
    }
  }

  lemma StageIds(m: ContinuationManifest, log: set<Audit>, k: Stage, before: State, ids: seq<Id>)
    requires ManifestOk(m) && StartsFrom(m, k, before) && |ids| == 6
    ensures Assigned(KeyOrder(m, k), ids, |KeyOrder(m, k)|).Keys == ContextFor(m, log, k, before).Ids()
  {
    var ctx, keys := ContextFor(m, log, k, before), KeyOrder(m, k);
    StageContext(m, log, k, before);
    OrderedKeys(m, k);
    AssignedKeys(keys, ids);
    assert ctx.Ids() == set key | key in keys :: key.id;
  }

  /** The database and the writer give every commit the properties the verifiers rely on. */
  lemma CommitIsOk(m: ContinuationManifest, log: set<Audit>, call: Call, before: State)
    requires ManifestOk(m) && StartsFrom(m, call.stage, before)
    requires NewIds(log, call.ids) && ActorOk(call.actor)
    ensures CommitOk(ContextFor(m, log, call.stage, before), CommitOf(m, call))
    ensures CommitOf(m, call).rowAudits.Values + {CommitOf(m, call).receiptAudit} <= set id | id in call.ids
  {
    var keys := KeyOrder(m, call.stage);
    OrderedKeys(m, call.stage);
    AssignedOk(keys, call.ids);
    StageIds(m, log, call.stage, before, call.ids);
  }

  lemma WrittenUnique(ctx: Context, c: Commit)
    requires ContextOk(ctx) && CommitOk(ctx, c)
    ensures UniqueIds(Written(ctx, c))
    ensures forall a :: a in Written(ctx, c) ==> a.id in c.rowAudits.Values + {c.receiptAudit}
  {
    KeysFixed(ctx, c.at);
    forall a | a in Written(ctx, c)
      ensures a == ReceiptAudit(ctx, c) || (a.shape.recordId in c.rowAudits && a.id == c.rowAudits[a.shape.recordId])
    {
      WrittenKinds(ctx, c, a);
      if key :| key in ctx.Next(c.at) && a == RowAudit(ctx, c, key) { assert key.id in ctx.Ids(); }
    }
    WrittenDiffer(ctx, c);
    forall a, b | a in Written(ctx, c) && b in Written(ctx, c) && a.id == b.id
      ensures a == b
    {
      WrittenKinds(ctx, c, a);
      WrittenKinds(ctx, c, b);
      if a != ReceiptAudit(ctx, c) {
        var j :| j in ctx.Next(c.at) && a == RowAudit(ctx, c, j);
        var k :| k in ctx.Next(c.at) && b == RowAudit(ctx, c, k);
        assert j.id in c.rowAudits && k.id in c.rowAudits;
      }
    }
  }

  /** One audit for each row, and the receipt. */
  lemma WrittenSize(ctx: Context, c: Commit)
    requires ContextOk(ctx) && CommitOk(ctx, c)
    ensures |Written(ctx, c)| == |ctx.Keys()| + 1
  {
    KeysFixed(ctx, c.at);
    RowAuditsSize(ctx, c, ctx.Keys());
    var rows := set k | k in ctx.Next(c.at) :: RowAudit(ctx, c, k);
    assert rows == set k | k in ctx.Keys() :: RowAudit(ctx, c, k);
    assert ReceiptAudit(ctx, c) !in rows by {
      assert forall k :: k in ctx.Keys() ==> k.id in ctx.Ids();
    }
  }

  lemma {:induction false} RowAuditsSize(ctx: Context, c: Commit, keys: set<Key>)
    requires ContextOk(ctx) && keys <= ctx.Next(c.at).Keys
    ensures |set k | k in keys :: RowAudit(ctx, c, k)| == |keys|
  {
    if keys != {} {
      var k :| k in keys;
      KeysFixed(ctx, c.at);
      RowAuditsSize(ctx, c, keys - {k});
      var rest := set j | j in keys - {k} :: RowAudit(ctx, c, j);
      assert (set j | j in keys :: RowAudit(ctx, c, j)) == rest + {RowAudit(ctx, c, k)};
      assert RowAudit(ctx, c, k) !in rest;
    }
  }

  lemma StartKeys(m: ContinuationManifest, db: Db, n: Stage)
    requires ManifestOk(m) && Reached(m, db, n)
    ensures StartsFrom(m, n, Start(m, db, n))
  {
    if n > 0 { VerifiedShape(m, db.log, Before(n)); }
  }

  lemma Appended(log: set<Audit>, added: set<Audit>, ids: seq<Id>)
    requires UniqueIds(log) && UniqueIds(added)
    requires forall a :: a in log ==> a.id !in ids
    requires forall a :: a in added ==> a.id in ids
    ensures UniqueIds(log + added) && |log + added| == |log| + |added|
  {
    assert log !! added;
  }

  /** Create writes 5 audits, every other operation 6. */
  lemma StageSize(m: ContinuationManifest, log: set<Audit>, k: Stage, before: State, c: Commit)
    requires ManifestOk(m) && StartsFrom(m, k, before) && CommitOk(ContextFor(m, log, k, before), c)
    ensures |Written(ContextFor(m, log, k, before), c)| == if k == 1 then 5 else 6
  {
    StageContext(m, log, k, before);
    WrittenSize(ContextFor(m, log, k, before), c);
    KeyCount(m, k);
  }

  /** The log of a commit: 5 new audits for create and 6 otherwise, all evidence of that one operation. */
  lemma LogGrows(m: ContinuationManifest, db: Db, call: Call, before: State)
    requires ManifestOk(m) && StartsFrom(m, call.stage, before)
    requires UniqueIds(db.log) && NewIds(db.log, call.ids) && ActorOk(call.actor)
    ensures var log := Committed(m, db, call, before).log;
            && db.log <= log && |log| == |db.log| + (if call.stage == 1 then 5 else 6)
            && UniqueIds(log)
  {
    var ctx, c := ContextFor(m, db.log, call.stage, before), CommitOf(m, call);
    StageContext(m, db.log, call.stage, before);
    CommitIsOk(m, db.log, call, before);
    WrittenUnique(ctx, c);
    StageSize(m, db.log, call.stage, before, c);
    Appended(db.log, Written(ctx, c), call.ids);
  }

  lemma EvidenceAfter(m: ContinuationManifest, db: Db, call: Call, before: State)
    requires ManifestOk(m) && StartsFrom(m, call.stage, before) && |call.ids| == 6
    requires Evid(m, db.log, call.stage) == {}
    ensures var log := Committed(m, db, call, before).log;
            && (forall j: Stage :: j != call.stage ==> Evid(m, log, j) == Evid(m, db.log, j))
            && Evid(m, log, call.stage) == Written(ContextFor(m, db.log, call.stage, before), CommitOf(m, call))
  {
    var log := Committed(m, db, call, before).log;
    var written := Written(ContextFor(m, db.log, call.stage, before), CommitOf(m, call));
    forall j: Stage
      ensures Evid(m, log, j) == Evid(m, db.log, j) + (if j == call.stage then written else {})
    {
      EvidenceGrows(m, db.log, call.stage, before, CommitOf(m, call), j);
    }
  }

  /** Stage n done: earlier evidence untouched, its own verified, the identity rows as it left them. */
  lemma OneMore(m: ContinuationManifest, db: Db, next: Db, n: Stage, state: State)
    requires ManifestOk(m) && Reached(m, db, n) && UniqueIds(next.log)
    requires forall j: Stage :: j != n ==> Evid(m, next.log, j) == Evid(m, db.log, j)
    requires Verified(m, next.log, n) == Some(state)
    requires Current(m, next) == if n == 1 then Current(m, db) else state
    ensures Reached(m, next, n + 1)
  {
    forall k: Stage | k < n
      ensures Verified(m, next.log, k) == Verified(m, db.log, k)
    {
      VerifiedReads(m, db.log, next.log, k);
    }
    assert Before(n + 1) == if n == 1 then 0 else n;
  }

  /** The rows a stage starts from stay verified while only its own evidence is added. */
  lemma StartVerified(m: ContinuationManifest, db: Db, log: set<Audit>, n: Stage)
    requires Reached(m, db, n)
    requires forall j: Stage :: j != n ==> Evid(m, log, j) == Evid(m, db.log, j)
    ensures n > 0 ==> Verified(m, log, Before(n)) == Some(Start(m, db, n))
  {
    if n > 0 {
      var k: Stage := Before(n);
      assert Verified(m, db.log, k) == Some(Current(m, db));
      VerifiedReads(m, db.log, log, k);
    }
  }

  /** A commit in turn reaches the next stage. */
  lemma CommitReaches(m: ContinuationManifest, db: Db, call: Call)
    requires ManifestOk(m) && Reached(m, db, call.stage)
    requires NewIds(db.log, call.ids) && ActorOk(call.actor)
    ensures Reached(m, Committed(m, db, call, Start(m, db, call.stage)), call.stage + 1)
  {
    var n, before := call.stage, Start(m, db, call.stage);
    var next := Committed(m, db, call, before);
    StartKeys(m, db, n);
    LogGrows(m, db, call, before);
    EvidenceAfter(m, db, call, before);
    CommitIsOk(m, db.log, call, before);
    StartVerified(m, db, next.log, n);
    StageVerified(m, db, next.log, n, before, CommitOf(m, call));
    CurrentAfter(m, db, call, before);
    OneMore(m, db, next, n, ContextFor(m, db.log, n, before).Next(call.at));
  }

  lemma KeyCount(m: ContinuationManifest, k: Stage)
    requires ManifestOk(m)
    ensures |KeysOf(m, k)| == if k == 1 then 4 else 5
  {
    IdsApart(m);
    if k == 1 {
      var p := m.prior;
      assert FixtureSet(m)
               == {Key(Clients, p.clientId), Key(Projects, p.projectId), Key(Drafts, p.draftId),
                   Key(Members, p.membershipId)};
    } else {
      var i, ids := m.prior.identity, RowIds(m.prior);
      assert ids[4] != ids[5] && ids[6] != ids[7] && ids[6] != ids[8] && ids[7] != ids[8];
      assert IdentitySet(m) == {Key(Tenants, i.tenantA.id), Key(Tenants, i.tenantB.id), Key(Profiles, i.profileA1.id),
                                Key(Profiles, i.profileA2.id), Key(Profiles, i.profileB1.id)};
    }
  }

  /** Evidence just written verifies and shows the written rows. */
  lemma StageVerified(m: ContinuationManifest, db: Db, log: set<Audit>, n: Stage, before: State, c: Commit)
    requires ManifestOk(m) && StartsFrom(m, n, before)
    requires n > 0 ==> Verified(m, log, Before(n)) == Some(before)
    requires forall j: Stage :: j < n ==> Evid(m, log, j) == Evid(m, db.log, j)
    requires var ctx := ContextFor(m, db.log, n, before);
             CommitOk(ctx, c) && Evid(m, log, n) == Written(ctx, c)
    ensures Verified(m, log, n) == Some(ContextFor(m, db.log, n, before).Next(c.at))
  {
    StageContext(m, db.log, n, before);
    LinkReads(m, log, db.log, n);
    WriterAccepted(ContextFor(m, db.log, n, before), c);
  }

  lemma TablesApart(m: ContinuationManifest)
    ensures IdentitySet(m) !! FixtureSet(m)
  {
    assert forall k :: k in IdentitySet(m) ==> k.table == Tenants || k.table == Profiles;
    assert forall k :: k in FixtureSet(m) ==> k.table != Tenants && k.table != Profiles;
  }

  lemma Overlay(db: Db, written: State, log: set<Audit>, keys: set<Key>)
    ensures keys == written.Keys ==> Rows(Db(db.rows + written, log), keys) == written
    ensures keys !! written.Keys ==> Rows(Db(db.rows + written, log), keys) == Rows(db, keys)
  {
  }

  lemma CurrentAfter(m: ContinuationManifest, db: Db, call: Call, before: State)
    requires ManifestOk(m) && StartsFrom(m, call.stage, before) && |call.ids| == 6
    ensures Current(m, Committed(m, db, call, before))
         == if call.stage == 1 then Current(m, db) else ContextFor(m, db.log, call.stage, before).Next(call.at)
  {
    var ctx := ContextFor(m, db.log, call.stage, before);
    StageContext(m, db.log, call.stage, before);
    KeysFixed(ctx, call.at);
    Overlay(db, ctx.Next(call.at), Committed(m, db, call, before).log, IdentitySet(m));
    if call.stage == 1 { TablesApart(m); }
  }
}
