/**
 * What each operation of the identity protocol finds when those before it have committed on an otherwise
 * vacant database, and that it therefore commits.
 */
module HomologStanding {
  import opened Wrappers
  import opened Collections
  import opened HomologEvidence
  import opened HomologProtocol
  import opened HomologRuns
  import opened HomologReadback
  import opened HomologHistory

  /** Create verifies, and its four business rows are still as created. */
  predicate FixtureKept(m: ContinuationManifest, db: Db) {
    match TraceOf(m, db.log, 1)
    case Shows(state) => state == Rows(db, FixtureSet(m))
    case _ => false
  }

  /** A database that knows nothing of the manifest: no evidence, no colliding id, no row of the tenants. */
  predicate Vacant(m: ContinuationManifest, db: Db) {
    && UniqueIds(db.log)
    && (forall k: Stage :: Evid(m, db.log, k) == {})
    && !IdentityCollides(m, db) && !Collides(m, db)
    && forall table :: Held(m, db, table) == {}
  }

  /** What the operation after n commits reads, besides the pins. */
  predicate Standing(m: ContinuationManifest, db: Db, n: nat) {
    match FamilyOf(if n < 7 then n else 6)
    case Bootstrap => Vacant(m, db)
    case ReadProof =>
      && Reached(m, db, n) && ProfilesExact(m, db) && Population(m, db, n == 2)
      && (if n == 1 then !Collides(m, db) else FixtureKept(m, db))
    case Cycle =>
      && Reached(m, db, n) && ProfilesExact(m, db) && FixtureKept(m, db)
      && (n == 3 ==> Population(m, db, true))
    case Continuation => Reached(m, db, n) && ProfilesExact(m, db) && FixtureKept(m, db)
  }

  /** What a continuation reads besides. */
  predicate PinsHold(m: ContinuationManifest, db: Db) {
    PredecessorPinned(m, db.log) && Preserved(m, db)
  }

  /** An operation in turn commits. */
  lemma InTurnCommits(m: ContinuationManifest, db: Db, call: Call)
    requires ManifestOk(m) && call.stage > 0 && Standing(m, db, call.stage) && ActorOk(call.actor)
    requires call.stage >= 5 ==> PinsHold(m, db)
    ensures Plan(SurveyOf(m, db), call).Perform?
  {
    SeenWhenReached(m, db, call.stage);
    SurveyTraces(m, db);
    assert Ready(SurveyOf(m, db), call);
    CommitsInTurn(SurveyOf(m, db), call, call.stage);
  }

  lemma ProfilesKept(m: ContinuationManifest, db: Db, call: Call)
    requires ManifestOk(m) && StartsFrom(m, call.stage, Current(m, db)) && |call.ids| == 6 && call.stage > 0
    requires ProfilesExact(m, db)
    ensures ProfilesExact(m, Committed(m, db, call, Current(m, db)))
  {
    var next := Committed(m, db, call, Current(m, db));
    if call.stage == 1 {
      BusinessTables(m.prior, call.at);
      HeldAdds(m, db, next, call.at, Profiles);
    } else {
      TogglesOnly(m, db, call);
      HeldAfterToggle(m, db, next, Profiles);
    }
  }

  /** A create adds its four rows to a database without them, and the tenants then hold these and no others. */
  lemma CreateLeavesExactly(m: ContinuationManifest, db: Db, call: Call)
    requires ManifestOk(m) && call.stage == 1 && Plan(SurveyOf(m, db), call).Perform? && |call.ids| == 6
    ensures var (p, next) := (m.prior, After(m, db, call));
            && ProfilesExact(m, next)
            && Held(m, next, Clients) == {Key(Clients, p.clientId)}
            && Held(m, next, Projects) == {Key(Projects, p.projectId)}
            && Held(m, next, Drafts) == {Key(Drafts, p.draftId)}
            && Held(m, next, Members) == {Key(Members, p.membershipId)}
            && FixtureSet(m) !! db.rows.Keys
            && next.rows == db.rows + BusinessRows(p, call.at)
    ensures var p := m.prior;
            var ids := {p.operationId, p.withdrawalOperationId, p.clientId, p.projectId, p.draftId, p.membershipId};
            && (forall k :: k in db.rows && k.table != Intakes ==> k.id !in ids)
            && (forall k :: k in db.rows && k.table == Profiles && db.rows[k].content.ProfileContent? ==>
                db.rows[k].content.subject !in ids)
  {
    var next := After(m, db, call);
    CreateFinds(m, db, call);
    HeldSizes(m, db);
    BusinessTables(m.prior, call.at);
    HeldAdds(m, db, next, call.at, Profiles);
    HeldAdds(m, db, next, call.at, Clients);
    HeldAdds(m, db, next, call.at, Projects);
    HeldAdds(m, db, next, call.at, Drafts);
    HeldAdds(m, db, next, call.at, Members);
  }

  /** What a create has found: the three profiles, no fixture, and no id that it claims. */
  lemma CreateFinds(m: ContinuationManifest, db: Db, call: Call)
    requires ManifestOk(m) && call.stage == 1 && Plan(SurveyOf(m, db), call).Perform? && |call.ids| == 6
    ensures Population(m, db, false) && ProfilesExact(m, db) && !Collides(m, db) && FixtureSet(m) !! db.rows.Keys
    ensures After(m, db, call).rows == db.rows + BusinessRows(m.prior, call.at)
    ensures var p := m.prior;
            var ids := {p.operationId, p.withdrawalOperationId, p.clientId, p.projectId, p.draftId, p.membershipId};
            && (forall k :: k in db.rows && k.table != Intakes ==> k.id !in ids)
            && (forall k :: k in db.rows && k.table == Profiles && db.rows[k].content.ProfileContent? ==>
                db.rows[k].content.subject !in ids)
  {
    PlanMeans(m, db, call);
    PlanPopulations(m, db, call);
    TraceMeans(m, db.log, 0);
    ProfilesHeld(m, db);
    FixtureFree(m, db);
    CreateRows(m, db, call);
  }

  lemma CreateRows(m: ContinuationManifest, db: Db, call: Call)
    requires ManifestOk(m) && call.stage == 1 && Plan(SurveyOf(m, db), call).Perform? && |call.ids| == 6
    ensures After(m, db, call).rows == db.rows + BusinessRows(m.prior, call.at)
  {
    PlanMeans(m, db, call);
  }

  /** Where nothing collides, no fixture row is there and no row or subject has an id that create claims. */
  lemma FixtureFree(m: ContinuationManifest, db: Db)
    requires !Collides(m, db)
    ensures FixtureSet(m) !! db.rows.Keys
    ensures var p := m.prior;
            var ids := {p.operationId, p.withdrawalOperationId, p.clientId, p.projectId, p.draftId, p.membershipId};
            && (forall k :: k in db.rows && k.table != Intakes ==> k.id !in ids)
            && (forall k :: k in db.rows && k.table == Profiles && db.rows[k].content.ProfileContent? ==>
                db.rows[k].content.subject !in ids)
  {
    forall k | k in FixtureSet(m) ensures k !in db.rows {
      assert k in FixtureKeys(m.prior);
    }
  }

  lemma HeldSizes(m: ContinuationManifest, db: Db)
    requires Population(m, db, false)
    ensures Held(m, db, Clients) == {} && Held(m, db, Projects) == {}
    ensures Held(m, db, Drafts) == {} && Held(m, db, Members) == {}
  {
  }

  /** Where the bootstrap is verified and current, three profiles of the tenants are the three of the manifest. */
  lemma ProfilesHeld(m: ContinuationManifest, db: Db)
    requires ManifestOk(m) && Verified(m, db.log, 0) == Some(Current(m, db)) && |Held(m, db, Profiles)| == 3
    ensures ProfilesExact(m, db)
  {
    var born, changed := VerifiedRows(m, db.log, 0);
    ProfileTenants(m, born, true, changed);
    forall k | k in ProfileKeys(m)
      ensures k in Held(m, db, Profiles)
    {
      assert k in Current(m, db) && Current(m, db)[k] == db.rows[k];
    }
    ThreeProfiles(m);
    SubsetSize(ProfileKeys(m), Held(m, db, Profiles));
  }

  function ProfileKeys(m: ContinuationManifest): set<Key> {
    var i := m.prior.identity;
    {Key(Profiles, i.profileA1.id), Key(Profiles, i.profileA2.id), Key(Profiles, i.profileB1.id)}
  }

  /** The three profiles belong to the two tenants, whatever their activity. */
  lemma ProfileTenants(m: ContinuationManifest, born: Time, active: bool, changed: Time)
    requires ManifestOk(m)
    ensures var i, state := m.prior.identity, IdentityState(m, born, active, changed);
            forall k :: k in ProfileKeys(m) ==>
              k in state && TenantOf(state[k].content) in {Some(i.tenantA.id), Some(i.tenantB.id)}
  {
    IdentitiesCreated(m, born);
  }

  /** A bootstrap adds its five rows to a database that has none of them, nor their slugs and subjects. */
  lemma BootstrapAddsOnly(m: ContinuationManifest, db: Db, call: Call)
    requires call.stage == 0 && Plan(SurveyOf(m, db), call).Perform? && |call.ids| == 6
    ensures var i := m.prior.identity;
            && IdentitySet(m) !! db.rows.Keys
            && (forall k :: k in db.rows && k.table in {Tenants, Profiles} ==> k.id != i.operationId)
            && After(m, db, call).rows == db.rows + IdentityRows(i, call.at)
            && (forall k :: k in db.rows && k.table == Tenants && db.rows[k].content.TenantContent? ==>
                db.rows[k].content.slug != i.tenantA.slug && db.rows[k].content.slug != i.tenantB.slug)
            && (forall k :: k in db.rows && k.table == Profiles && db.rows[k].content.ProfileContent? ==>
                db.rows[k].content.subject !in {i.profileA1.subject, i.profileA2.subject, i.profileB1.subject})
  {
    BootstrapRows(m, db, call);
    IdentitiesFree(m, db);
  }

  /** Where nothing collides, no identity row is there, nor its operation id, slug or subject. */
  lemma IdentitiesFree(m: ContinuationManifest, db: Db)
    requires !IdentityCollides(m, db)
    ensures var i := m.prior.identity;
            && IdentitySet(m) !! db.rows.Keys
            && (forall k :: k in db.rows && k.table in {Tenants, Profiles} ==> k.id != i.operationId)
            && (forall k :: k in db.rows && k.table == Tenants && db.rows[k].content.TenantContent? ==>
                db.rows[k].content.slug != i.tenantA.slug && db.rows[k].content.slug != i.tenantB.slug)
            && (forall k :: k in db.rows && k.table == Profiles && db.rows[k].content.ProfileContent? ==>
                db.rows[k].content.subject !in {i.profileA1.subject, i.profileA2.subject, i.profileB1.subject})
  {
    forall k | k in IdentitySet(m) ensures k !in db.rows {
      assert k in IdentityKeys(m.prior.identity);
      assert k.table in {Tenants, Profiles};
    }
  }

  lemma ProfilesStay(m: ContinuationManifest, db: Db, call: Call)
    requires ManifestOk(m) && Plan(SurveyOf(m, db), call).Perform? && |call.ids| == 6 && call.stage > 0
    requires ProfilesExact(m, db)
    ensures ProfilesExact(m, After(m, db, call))
  {
    PerformStarts(m, db, call);
    PlanMeans(m, db, call);
    ProfilesKept(m, db, call);
  }

  lemma LaterKeeps(m: ContinuationManifest, db: Db, call: Call)
    requires ManifestOk(m) && Plan(SurveyOf(m, db), call).Perform? && NewIds(db.log, call.ids) && call.stage > 0
    ensures var next := After(m, db, call);
            && TraceOf(m, next.log, 1) == Shows(Rows(next, FixtureSet(m)))
            && (call.stage <= 2 ==> Population(m, next, true))
            && (call.stage >= 5 ==> PinsHold(m, next))
  {
    LaterReadback(m, db, call);
  }

  lemma TurnReaches(m: ContinuationManifest, db: Db, call: Call)
    requires ManifestOk(m) && Reached(m, db, call.stage) && NewIds(db.log, call.ids)
    requires Plan(SurveyOf(m, db), call).Perform?
    ensures Reached(m, After(m, db, call), call.stage + 1)
  {
    CallReaches(m, db, call, call.stage);
  }

  /** What a commit leaves is what the operation after it needs. */
  lemma StandsAfter(m: ContinuationManifest, db: Db, call: Call)
    requires ManifestOk(m) && call.stage > 0 && Standing(m, db, call.stage) && ActorOk(call.actor)
               && NewIds(db.log, call.ids)
    requires call.stage >= 5 ==> PinsHold(m, db)
    ensures Plan(SurveyOf(m, db), call).Perform?
    ensures Standing(m, After(m, db, call), call.stage + 1)
    ensures call.stage >= 5 ==> PinsHold(m, After(m, db, call))
  {
    InTurnCommits(m, db, call);
    CommitStands(m, db, call);
  }

  lemma CommitStands(m: ContinuationManifest, db: Db, call: Call)
    requires ManifestOk(m) && call.stage > 0 && Standing(m, db, call.stage) && NewIds(db.log, call.ids)
    requires Plan(SurveyOf(m, db), call).Perform?
    ensures Standing(m, After(m, db, call), call.stage + 1)
    ensures call.stage >= 5 ==> PinsHold(m, After(m, db, call))
  {
    TurnReaches(m, db, call);
    LaterKeeps(m, db, call);
    ProfilesStay(m, db, call);
  }

  /** Neither the subjects nor the ids of the identity rows are among the ids that create claims. */
  lemma IdentitiesApart(m: ContinuationManifest)
    requires ManifestOk(m)
    ensures var p := m.prior;
            var ids := {p.operationId, p.withdrawalOperationId, p.clientId, p.projectId, p.draftId, p.membershipId};
            && (forall k :: k in IdentitySet(m) ==> k.id !in ids)
            && (forall s :: s in Subjects(p.identity) ==> s !in ids)
  {
    var p := m.prior;
    IdSetSize(AllIds(m));
    var front := OpIds(m) + RowIds(p) + Subjects(p.identity);
    var all := front + FormationIds(m.formations);
    var keys, claimed := IdentityKeys(p.identity), [front[1], front[2], front[7], front[8], front[9], front[10]];
    assert claimed == [p.operationId, p.withdrawalOperationId, p.clientId, p.projectId, p.draftId, p.membershipId];
    assert forall i :: 0 <= i < |front| ==> all[i] == front[i];
    assert forall i, j :: 0 <= i < 11 <= j < 19 ==> front[i] != front[j];
    assert forall j :: 0 <= j < 5 ==> front[11 + j] == keys[j].id;
    assert forall j :: 0 <= j < 3 ==> front[16 + j] == Subjects(p.identity)[j];
  }

  lemma ThreeProfiles(m: ContinuationManifest)
    requires ManifestOk(m)
    ensures |ProfileKeys(m)| == 3
  {
    IdsApart(m);
    var ids := RowIds(m.prior);
    assert ids[6] != ids[7] && ids[6] != ids[8] && ids[7] != ids[8];
  }

  lemma HeldAfterBootstrap(m: ContinuationManifest, db: Db, next: Db, at: Time)
    requires ManifestOk(m) && next.rows == db.rows + IdentityRows(m.prior.identity, at)
    requires forall table :: Held(m, db, table) == {}
    ensures ProfilesExact(m, next)
    ensures forall table :: table != Profiles ==> Held(m, next, table) == {}
  {
    var i := m.prior.identity;
    var added := IdentityRows(i, at);
    assert forall k :: k in added ==>
      (TenantOf(added[k].content) in {Some(i.tenantA.id), Some(i.tenantB.id)} <==> k.table == Profiles);
    forall table
      ensures Held(m, next, table) == if table == Profiles then In(added, Profiles) else {}
    {
      assert forall k :: k in Held(m, next, table) && k !in added ==> k in Held(m, db, table);
    }
  }

  lemma IdentityContents(i: IdentityManifest, at: Time)
    ensures forall k :: k in IdentityRows(i, at) ==> k in IdentityKeys(i)
    ensures forall k :: k in IdentityRows(i, at) && IdentityRows(i, at)[k].content.ProfileContent? ==>
              IdentityRows(i, at)[k].content.subject in Subjects(i)
  {
    assert Subjects(i)[0] == i.profileA1.subject && Subjects(i)[1] == i.profileA2.subject
        && Subjects(i)[2] == i.profileB1.subject;
    var keys := IdentityKeys(i);
    assert forall j :: 0 <= j < 5 ==> keys[j] in keys;
    assert IdentityRows(i, at).Keys == {keys[0], keys[1], keys[2], keys[3], keys[4]};
  }

  lemma NoCollision(m: ContinuationManifest, db: Db, next: Db, at: Time)
    requires ManifestOk(m) && next.rows == db.rows + IdentityRows(m.prior.identity, at) && !Collides(m, db)
    ensures !Collides(m, next)
  {
    IdentitiesApart(m);
    IdentityContents(m.prior.identity, at);
  }

  lemma BootstrapTurn(m: ContinuationManifest, db: Db, call: Call)
    requires ManifestOk(m) && Vacant(m, db) && call.stage == 0 && ActorOk(call.actor)
    ensures Reached(m, db, 0) && Plan(SurveyOf(m, db), call).Perform?
  {
    SeenWhenReached(m, db, 0);
    assert Ready(SurveyOf(m, db), call);
    CommitsInTurn(SurveyOf(m, db), call, 0);
  }

  lemma BootstrapRows(m: ContinuationManifest, db: Db, call: Call)
    requires call.stage == 0 && Plan(SurveyOf(m, db), call).Perform? && |call.ids| == 6
    ensures After(m, db, call).rows == db.rows + IdentityRows(m.prior.identity, call.at)
  {
    BootstrapPlan(m, db, call);
  }

  lemma BootstrapPopulation(m: ContinuationManifest, db: Db, next: Db, at: Time)
    requires ManifestOk(m) && next.rows == db.rows + IdentityRows(m.prior.identity, at)
    requires forall table :: Held(m, db, table) == {}
    ensures ProfilesExact(m, next) && Population(m, next, false)
  {
    HeldAfterBootstrap(m, db, next, at);
    ThreeProfiles(m);
  }

  lemma BootstrapLeaves(m: ContinuationManifest, db: Db, call: Call)
    requires ManifestOk(m) && Vacant(m, db) && call.stage == 0 && |call.ids| == 6
    requires Plan(SurveyOf(m, db), call).Perform?
    ensures var next := After(m, db, call);
            ProfilesExact(m, next) && Population(m, next, false) && !Collides(m, next)
  {
    BootstrapRows(m, db, call);
    BootstrapPopulation(m, db, After(m, db, call), call.at);
    NoCollision(m, db, After(m, db, call), call.at);
  }

  lemma StandsFirst(m: ContinuationManifest, db: Db)
    requires Reached(m, db, 1) && ProfilesExact(m, db) && Population(m, db, false) && !Collides(m, db)
    ensures Standing(m, db, 1)
  {
  }

  /** On a vacant database the bootstrap commits, and leaves what create needs. */
  lemma BootstrapStands(m: ContinuationManifest, db: Db, call: Call)
    requires ManifestOk(m) && Vacant(m, db) && call.stage == 0 && ActorOk(call.actor) && NewIds(db.log, call.ids)
    ensures Plan(SurveyOf(m, db), call).Perform?
    ensures Standing(m, After(m, db, call), 1)
  {
    BootstrapTurn(m, db, call);
    TurnReaches(m, db, call);
    BootstrapLeaves(m, db, call);
    StandsFirst(m, After(m, db, call));
  }

  /** Every operation finds what it needs, and leaves what the next one needs. */
  lemma NextCommits(m: ContinuationManifest, db: Db, call: Call)
    requires ManifestOk(m) && Standing(m, db, call.stage) && (call.stage >= 5 ==> PinsHold(m, db))
    requires ActorOk(call.actor) && NewIds(db.log, call.ids)
    ensures Plan(SurveyOf(m, db), call).Perform?
    ensures Standing(m, After(m, db, call), call.stage + 1)
    ensures call.stage >= 5 ==> PinsHold(m, After(m, db, call))
  {
    if call.stage == 0 { BootstrapStands(m, db, call); } else { StandsAfter(m, db, call); }
  }

  lemma StandingAfter(m: ContinuationManifest, db: Db, call: Call)
    requires ManifestOk(m) && call.stage < 5
    ensures Standing(m, db, call.stage) && ActorOk(call.actor) && NewIds(db.log, call.ids) ==>
              Plan(SurveyOf(m, db), call).Perform? && Standing(m, After(m, db, call), call.stage + 1)
  {
    if Standing(m, db, call.stage) && ActorOk(call.actor) && NewIds(db.log, call.ids) {
      NextCommits(m, db, call);
    }
  }
}
