/**
 * The read-back: once the writes of a commit are done, every check that the executors then repeat
 * passes, so no committed write is ever rolled back by the program's own checks.
 */
module HomologReadback {
  import opened Wrappers
  import opened Collections
  import opened HomologEvidence
  import opened HomologAgreement
  import opened HomologProtocol
  import opened HomologRuns

  // ---------------------------------------------------------------------------------------------
  // What a commit starts from

  /** The shared start of every commit: the rows that the operation starts from are the current ones. */
  lemma PerformStarts(m: ContinuationManifest, db: Db, call: Call)
    requires ManifestOk(m) && Plan(SurveyOf(m, db), call).Perform?
    ensures var before := Plan(SurveyOf(m, db), call).before;
            StartsFrom(m, call.stage, before) && (call.stage > 0 ==> before == Current(m, db))
  {
    var s := SurveyOf(m, db);
    PlanStarts(s, call);
    if call.stage > 0 {
      var k := Before(call.stage);
      assert s.Trace(k) == TraceOf(m, db.log, k);
      VerifiedShape(m, db.log, k);
    }
  }

  /** What the plan of a commit has established. */
  lemma PlanStarts(s: Survey, call: Call)
    requires Plan(s, call).Perform? && !s.bootstrapReplay.Perform?
    ensures ActorOk(call.actor)
    ensures if call.stage == 0 then !s.bootstrapSeen && Plan(s, call).before == map[]
            else s.Trace(call.stage) == Nothing && Plan(s, call).before == s.current
                 && s.Trace(Before(call.stage)) == Shows(s.current)
    ensures call.stage == 1 ==> s.unpopulated && !s.collides
    ensures call.stage >= 2 ==> s.Trace(1) == Shows(s.fixture)
    ensures call.stage == 2 ==> s.populated
    ensures call.stage >= 3 ==> s.profilesExact
    ensures call.stage >= 5 ==> s.preserved && s.pinned
  {
  }

  // ---------------------------------------------------------------------------------------------
  // Formations

  lemma {:induction false} FormationIdsHold(formations: seq<Formation>, f: Formation)
    requires f in formations
    ensures f.clientId in FormationIds(formations)
    ensures f.projectId in FormationIds(formations)
    ensures f.intakeId in FormationIds(formations)
  {
    var head := formations[0];
    var own := [head.clientId, head.projectId, head.intakeId];
    var pins := seq(|head.audits|, i requires 0 <= i < |head.audits| => head.audits[i].id);
    assert FormationIds(formations) == own + pins + FormationIds(formations[1..]);
    assert own[0] == head.clientId && own[1] == head.projectId && own[2] == head.intakeId;
    if f != head { FormationIdsHold(formations[1..], f); }
  }

  /** No formation row is a row of the protocol or carries the id of an operation. */
  lemma FormationApart(m: ContinuationManifest, id: Id)
    requires ManifestOk(m) && id in FormationIds(m.formations)
    ensures forall i :: 0 <= i < 7 ==> id != OpIds(m)[i]
    ensures forall s: Stage, k :: k in KeysOf(m, s) ==> id != k.id
  {
    IdSetSize(AllIds(m));
    var front := OpIds(m) + RowIds(m.prior) + Subjects(m.prior.identity);
    var all := front + FormationIds(m.formations);
    var x :| 0 <= x < |FormationIds(m.formations)| && FormationIds(m.formations)[x] == id;
    assert all[|front| + x] == id;
    assert forall i :: 0 <= i < |front| ==> all[i] == front[i] && all[i] != all[|front| + x];
    forall i | 0 <= i < 7 ensures id != OpIds(m)[i] { assert front[i] == OpIds(m)[i]; }
    forall s: Stage, k | k in KeysOf(m, s)
      ensures id != k.id
    {
      var keys, from := KeyOrder(m, s), if s == 1 then 7 else 11;
      assert forall j :: 0 <= j < |keys| ==> front[from + j] == keys[j].id;
      var j :| 0 <= j < |keys| && keys[j] == k;
    }
  }

  // ---------------------------------------------------------------------------------------------
  // Populations

  /** A change of activity and time: same rows, same content. */
  predicate OnlyToggled(m: ContinuationManifest, db: Db, next: Db) {
    && next.rows.Keys == db.rows.Keys
    && (forall k :: k in db.rows ==> next.rows[k].content == db.rows[k].content)
    && (forall k :: k in db.rows && k !in IdentitySet(m) ==> next.rows[k] == db.rows[k])
  }

  lemma TogglesOnly(m: ContinuationManifest, db: Db, call: Call)
    requires ManifestOk(m) && call.stage >= 2 && |call.ids| == 6
    requires Current(m, db).Keys == IdentitySet(m)
    ensures OnlyToggled(m, db, Committed(m, db, call, Current(m, db)))
  {
    var next := Committed(m, db, call, Current(m, db));
    var written := ContextFor(m, db.log, call.stage, Current(m, db)).Next(call.at);
    assert next.rows == db.rows + written;
    assert written.Keys == Current(m, db).Keys;
    assert forall k :: k in written ==> k in db.rows && written[k].content == db.rows[k].content;
    assert db.rows.Keys + written.Keys == db.rows.Keys;
  }

  lemma HeldAfterToggle(m: ContinuationManifest, db: Db, next: Db, table: Table)
    requires OnlyToggled(m, db, next)
    ensures Held(m, next, table) == Held(m, db, table)
  {
  }

  function In(state: State, table: Table): set<Key> {
    set k | k in state && k.table == table
  }

  lemma BusinessTables(m: ReadProofManifest, at: Time)
    ensures In(BusinessRows(m, at), Profiles) == {}
    ensures In(BusinessRows(m, at), Clients) == {Key(Clients, m.clientId)}
    ensures In(BusinessRows(m, at), Projects) == {Key(Projects, m.projectId)}
    ensures In(BusinessRows(m, at), Drafts) == {Key(Drafts, m.draftId)}
    ensures In(BusinessRows(m, at), Members) == {Key(Members, m.membershipId)}
  {
    assert BusinessRows(m, at).Keys
        == {Key(Clients, m.clientId), Key(Projects, m.projectId), Key(Drafts, m.draftId), Key(Members, m.membershipId)};
  }

  /** Create fills four empty tables with one row each. */
  lemma HeldAfterCreate(m: ContinuationManifest, db: Db, next: Db, at: Time)
    requires next.rows == db.rows + BusinessRows(m.prior, at) && Population(m, db, false)
    ensures Population(m, next, true)
  {
    BusinessTables(m.prior, at);
    HeldAdds(m, db, next, at, Profiles);
    HeldAdds(m, db, next, at, Clients);
    HeldAdds(m, db, next, at, Projects);
    HeldAdds(m, db, next, at, Drafts);
    HeldAdds(m, db, next, at, Members);
  }

  lemma HeldAdds(m: ContinuationManifest, db: Db, next: Db, at: Time, table: Table)
    requires next.rows == db.rows + BusinessRows(m.prior, at)
    ensures Held(m, db, table) == {} ==> Held(m, next, table) == In(BusinessRows(m.prior, at), table)
    ensures In(BusinessRows(m.prior, at), table) == {} ==> Held(m, next, table) == Held(m, db, table)
  {
    var added := BusinessRows(m.prior, at);
    assert forall k :: k in added ==> TenantOf(added[k].content) == Some(m.prior.identity.tenantA.id);
    assert Held(m, next, table) == (set k | k in Held(m, db, table) && k !in added) + In(added, table);
  }

  // ---------------------------------------------------------------------------------------------
  // Preservation

  lemma HistoryUnchanged(m: ContinuationManifest, log: set<Audit>, k: Stage, before: State, c: Commit)
    requires ManifestOk(m) && StartsFrom(m, k, before) && k >= 5
    ensures History(m, log + Written(ContextFor(m, log, k, before), c)) == History(m, log)
  {
    var written := Written(ContextFor(m, log, k, before), c);
    forall a | a in written
      ensures Mentions(a, OpIds(m)[k])
    {
      WrittenMentions(m, log, k, before, c, a, k);
    }
  }

  /** No audit of an operation is an audit of a formation. */
  lemma RecordsOf(m: ContinuationManifest, log: set<Audit>, k: Stage, before: State, c: Commit, id: Id)
    requires ManifestOk(m) && StartsFrom(m, k, before)
    requires id in FormationIds(m.formations)
    ensures forall a :: a in Written(ContextFor(m, log, k, before), c) ==> a.shape.recordId != id
  {
    var ctx := ContextFor(m, log, k, before);
    StageContext(m, log, k, before);
    KeysFixed(ctx, c.at);
    FormationApart(m, id);
    forall a | a in Written(ctx, c)
      ensures a.shape.recordId != id
    {
      WrittenKinds(ctx, c, a);
      if a == ReceiptAudit(ctx, c) { assert a.shape.recordId == OpIds(m)[k]; }
    }
  }

  lemma PinnedUnchanged(m: ContinuationManifest, db: Db, next: Db, f: Formation, key: Key, hash: Hash, action: string)
    requires Pinned(m, db, f, key, hash, action)
    requires key in next.rows && next.rows[key] == db.rows[key]
    requires db.log <= next.log && forall a :: a in next.log - db.log ==> a.shape.recordId != key.id
    ensures Pinned(m, next, f, key, hash, action)
  {
    assert AuditsOf(next.log, key.id) == AuditsOf(db.log, key.id);
  }

  lemma FormationUnchanged(m: ContinuationManifest, db: Db, next: Db, f: Formation)
    requires f in m.formations && FormationKept(m, db, f)
    requires OnlyToggled(m, db, next) && db.log <= next.log
    requires forall a :: a in next.log - db.log ==> a.shape.recordId !in FormationIds(m.formations)
    ensures FormationKept(m, next, f)
  {
    FormationIdsHold(m.formations, f);
    IdentityTables(m);
    PinnedUnchanged(m, db, next, f, Key(Clients, f.clientId), f.clientHash, "client.create");
    PinnedUnchanged(m, db, next, f, Key(Projects, f.projectId), f.projectHash, "project.create");
    PinnedUnchanged(m, db, next, f, Key(Intakes, f.intakeId), f.intakeHash, "intake.create");
  }

  lemma IdentityTables(m: ContinuationManifest)
    ensures forall k :: k in IdentitySet(m) ==> k.table == Tenants || k.table == Profiles
  {
  }

  /** A continuation leaves everything it preserves as it was. */
  lemma PreservedAfter(m: ContinuationManifest, db: Db, call: Call, before: State)
    requires ManifestOk(m) && call.stage >= 5 && |call.ids| == 6
    requires before == Current(m, db) && StartsFrom(m, call.stage, before)
    requires Preserved(m, db)
    ensures Preserved(m, Committed(m, db, call, before))
  {
    var next := Committed(m, db, call, before);
    TogglesOnly(m, db, call);
    HistoryUnchanged(m, db.log, call.stage, before, CommitOf(m, call));
    forall table ensures Held(m, next, table) == Held(m, db, table) { HeldAfterToggle(m, db, next, table); }
    forall id | id in FormationIds(m.formations)
      ensures forall a :: a in next.log - db.log ==> a.shape.recordId != id
    {
      RecordsOf(m, db.log, call.stage, before, CommitOf(m, call), id);
    }
    forall f | f in m.formations
      ensures FormationKept(m, next, f)
    {
      FormationUnchanged(m, db, next, f);
    }
  }

  lemma PinsAfter(m: ContinuationManifest, log: set<Audit>, other: set<Audit>)
    requires forall j: Stage :: j < 5 ==> Evid(m, log, j) == Evid(m, other, j)
    requires PredecessorPinned(m, log)
    ensures PredecessorPinned(m, other)
  {
    VerifiedReads(m, log, other, 4);
    LinkReads(m, log, other, 3);
    LinkReads(m, log, other, 4);
  }

  // ---------------------------------------------------------------------------------------------
  // The checks after a commit

  /** Identity-table rows that the protocol never writes; a continuation compares them before and after. */
  function Protected(m: ContinuationManifest, db: Db): State {
    map k | k in db.rows && k.table in {Tenants, Profiles} && k !in IdentitySet(m) :: db.rows[k]
  }

  /** What the executor of a stage after the bootstrap checks again once it has written. */
  predicate LaterOk(m: ContinuationManifest, db: Db, next: Db, stage: Stage, state: State) {
    && TraceOf(m, next.log, stage) == Shows(state)
    && (forall j: Stage :: j < stage ==> TraceOf(m, next.log, j) == TraceOf(m, db.log, j))
    && (forall j: Stage :: j < 7 && j != stage ==> Evid(m, next.log, j) == Evid(m, db.log, j))
    && (if stage == 1 then Current(m, next) == Current(m, db) && Rows(next, FixtureSet(m)) == state
        else Current(m, next) == state && Rows(next, FixtureSet(m)) == Rows(db, FixtureSet(m)))
    && TraceOf(m, next.log, 1) == Shows(Rows(next, FixtureSet(m)))
    && (stage <= 2 ==> Population(m, next, true))
    && (stage >= 3 ==> ProfilesExact(m, next))
    && (stage >= 5 ==> PredecessorPinned(m, next.log) && Preserved(m, next) && Protected(m, next) == Protected(m, db))
  }

  /** All checks after a commit: the expected audits are found, and the stage's own verification passes. */
  predicate ReadbackOk(m: ContinuationManifest, db: Db, next: Db, stage: Stage, state: State, expected: set<Audit>) {
    if stage == 0 then
      && BootstrapEvidence(m, next.log) == expected && Current(m, next) == state
      && PlanReplay(ContextFor(m, next.log, 0, map[]), expected, state).Replay?
    else
      Evid(m, next.log, stage) == expected && LaterOk(m, db, next, stage, state)
  }

  lemma TracesRead(m: ContinuationManifest, log: set<Audit>, other: set<Audit>, k: Stage)
    requires forall j: Stage :: j < k ==> Evid(m, log, j) == Evid(m, other, j)
    ensures forall j: Stage :: j < k ==> TraceOf(m, other, j) == TraceOf(m, log, j)
  {
    forall j: Stage | j < k
      ensures TraceOf(m, other, j) == TraceOf(m, log, j)
    {
      VerifiedReads(m, log, other, j);
    }
  }

  lemma TracesAfter(m: ContinuationManifest, db: Db, call: Call, before: State)
    requires ManifestOk(m) && StartsFrom(m, call.stage, before)
    requires NewIds(db.log, call.ids) && ActorOk(call.actor)
    requires Evid(m, db.log, call.stage) == {}
    requires call.stage > 0 ==> Verified(m, db.log, Before(call.stage)) == Some(before)
    ensures var ctx, log := ContextFor(m, db.log, call.stage, before), Committed(m, db, call, before).log;
            && Evid(m, log, call.stage) == Written(ctx, CommitOf(m, call))
            && TraceOf(m, log, call.stage) == Shows(ctx.Next(call.at))
            && (forall j: Stage :: j < call.stage ==> TraceOf(m, log, j) == TraceOf(m, db.log, j))
            && (forall j: Stage :: j != call.stage ==> Evid(m, log, j) == Evid(m, db.log, j))
  {
    var ctx, c, next := ContextFor(m, db.log, call.stage, before), CommitOf(m, call), Committed(m, db, call, before);
    EvidenceAfter(m, db, call, before);
    CommitIsOk(m, db.log, call, before);
    if call.stage > 0 { VerifiedReads(m, db.log, next.log, Before(call.stage)); }
    StageVerified(m, db, next.log, call.stage, before, c);
    assert ReceiptAudit(ctx, c) in Evid(m, next.log, call.stage);
    TracesRead(m, db.log, next.log, call.stage);
  }

  /** The rows after a commit: its own as written, the others as they were. */
  lemma RowsAfter(m: ContinuationManifest, db: Db, call: Call, before: State)
    requires ManifestOk(m) && StartsFrom(m, call.stage, before) && |call.ids| == 6 && call.stage > 0
    ensures var next, state := Committed(m, db, call, before), ContextFor(m, db.log, call.stage, before).Next(call.at);
            if call.stage == 1 then Current(m, next) == Current(m, db) && Rows(next, FixtureSet(m)) == state
            else Current(m, next) == state && Rows(next, FixtureSet(m)) == Rows(db, FixtureSet(m))
  {
    var ctx := ContextFor(m, db.log, call.stage, before);
    CurrentAfter(m, db, call, before);
    StageContext(m, db.log, call.stage, before);
    KeysFixed(ctx, call.at);
    TablesApart(m);
    Overlay(db, ctx.Next(call.at), Committed(m, db, call, before).log, FixtureSet(m));
  }

  /** The populations and pins after a commit. */
  lemma PopulationsAfter(m: ContinuationManifest, db: Db, call: Call)
    requires ManifestOk(m) && StartsFrom(m, call.stage, Current(m, db)) && |call.ids| == 6 && call.stage > 0
    requires call.stage == 1 ==> Population(m, db, false)
    requires call.stage == 2 ==> Population(m, db, true)
    requires call.stage >= 3 ==> ProfilesExact(m, db)
    requires call.stage >= 5 ==> Preserved(m, db)
    ensures var next := Committed(m, db, call, Current(m, db));
            && (call.stage <= 2 ==> Population(m, next, true))
            && (call.stage >= 3 ==> ProfilesExact(m, next))
            && (call.stage >= 5 ==> Preserved(m, next) && Protected(m, next) == Protected(m, db))
  {
    var next := Committed(m, db, call, Current(m, db));
    if call.stage == 1 {
      HeldAfterCreate(m, db, next, call.at);
    } else {
      TogglesOnly(m, db, call);
      forall table ensures Held(m, next, table) == Held(m, db, table) { HeldAfterToggle(m, db, next, table); }
      if call.stage >= 5 {
        PreservedAfter(m, db, call, Current(m, db));
        ProtectedAfter(m, db, next);
      }
    }
  }

  lemma ProtectedAfter(m: ContinuationManifest, db: Db, next: Db)
    requires OnlyToggled(m, db, next)
    ensures Protected(m, next) == Protected(m, db)
  {
  }

  lemma PlanPopulations(m: ContinuationManifest, db: Db, call: Call)
    requires Plan(SurveyOf(m, db), call).Perform? && call.stage > 0
    ensures call.stage == 1 ==> Population(m, db, false) && !Collides(m, db)
    ensures call.stage == 2 ==> Population(m, db, true)
    ensures call.stage >= 3 ==> ProfilesExact(m, db)
    ensures call.stage >= 5 ==> Preserved(m, db)
  {
    PlanStarts(SurveyOf(m, db), call);
  }

  lemma SurveyTraces(m: ContinuationManifest, db: Db)
    ensures forall k: Stage :: SurveyOf(m, db).Trace(k) == TraceOf(m, db.log, k)
    ensures SurveyOf(m, db).current == Current(m, db) && SurveyOf(m, db).fixture == Rows(db, FixtureSet(m))
    ensures SurveyOf(m, db).pinned == PredecessorPinned(m, db.log)
    ensures !SurveyOf(m, db).bootstrapReplay.Perform?
  {
  }

  /** The plan of a commit, in terms of the database. */
  lemma PlanMeans(m: ContinuationManifest, db: Db, call: Call)
    requires ManifestOk(m) && Plan(SurveyOf(m, db), call).Perform? && call.stage > 0
    ensures ActorOk(call.actor)
    ensures TraceOf(m, db.log, call.stage) == Nothing && TraceOf(m, db.log, Before(call.stage)) == Shows(Current(m, db))
    ensures call.stage >= 2 ==> TraceOf(m, db.log, 1) == Shows(Rows(db, FixtureSet(m)))
    ensures call.stage >= 5 ==> PredecessorPinned(m, db.log)
    ensures |call.ids| == 6 ==> After(m, db, call) == Committed(m, db, call, Current(m, db))
  {
    SurveyTraces(m, db);
    PlanStarts(SurveyOf(m, db), call);
  }

  lemma TraceMeans(m: ContinuationManifest, log: set<Audit>, k: Stage)
    ensures TraceOf(m, log, k).Nothing? <==> Evid(m, log, k) == {}
    ensures TraceOf(m, log, k).Shows? ==> Verified(m, log, k) == Some(TraceOf(m, log, k).state)
  {
  }

  lemma LaterReadback(m: ContinuationManifest, db: Db, call: Call)
    requires ManifestOk(m) && Plan(SurveyOf(m, db), call).Perform? && NewIds(db.log, call.ids) && call.stage > 0
    ensures var ctx, next := ContextFor(m, db.log, call.stage, Current(m, db)), After(m, db, call);
            && Evid(m, next.log, call.stage) == Written(ctx, CommitOf(m, call))
            && LaterOk(m, db, next, call.stage, ctx.Next(call.at))
  {
    PlanMeans(m, db, call);
    PerformStarts(m, db, call);
    TraceMeans(m, db.log, call.stage);
    TraceMeans(m, db.log, Before(call.stage));
    TracesAfter(m, db, call, Current(m, db));
    RowsAfter(m, db, call, Current(m, db));
    PlanPopulations(m, db, call);
    PopulationsAfter(m, db, call);
    if call.stage >= 5 { PinsAfter(m, db.log, After(m, db, call).log); }
  }

  // ---------------------------------------------------------------------------------------------
  // The bootstrap

  lemma BootstrapWritten(m: ContinuationManifest, log: set<Audit>, c: Commit)
    requires ManifestOk(m) && BootstrapEvidence(m, log) == {}
    ensures var written := Written(ContextFor(m, log, 0, map[]), c);
            BootstrapEvidence(m, log + written) == written
  {
    var ctx := ContextFor(m, log, 0, map[]);
    forall a | a in Written(ctx, c)
      ensures OperationOf(a.shape.newValues) == Some(m.prior.identity.operationId)
    {
      WrittenKinds(ctx, c, a);
    }
    assert forall a :: a in log ==> a !in BootstrapEvidence(m, log);
  }

  lemma OneAuditPerRow(ctx: Context, c: Commit, k: Key)
    requires ContextOk(ctx) && ctx.family == Bootstrap && ctx.op == Create && k in ctx.Next(c.at)
    ensures OneRowAudit(ctx, Written(ctx, c), k, ctx.Next(c.at)[k])
  {
    KeysFixed(ctx, c.at);
    var logs := set a | a in Written(ctx, c) && a.shape.action == RowAction(Bootstrap, k.table, Create)
                        && a.shape.table == RowTable(k.table) && a.shape.recordId == k.id;
    forall a | a in logs
      ensures a == RowAudit(ctx, c, k)
    {
      WrittenKinds(ctx, c, a);
    }
    assert RowAudit(ctx, c, k) in logs;
    assert logs == {RowAudit(ctx, c, k)};
  }

  lemma WrittenFits(ctx: Context, c: Commit)
    requires CommitOk(ctx, c) && ctx.family == Bootstrap && ctx.op == Create
    ensures ReceiptFits(ctx, CommitReceipt(ctx, c))
    ensures CommitReceipt(ctx, c).state == ctx.Next(c.at) && ctx.Next(c.at).Keys == ctx.Keys()
  {
    KeysFixed(ctx, c.at);
  }

  lemma WrittenPlain(ctx: Context, c: Commit)
    ensures PlainReceipts(ctx, Written(ctx, c))
  {
    forall a | a in Receipts(ctx, Written(ctx, c))
      ensures a.shape.userId == None && a.shape.oldValues == Absent
    {
      WrittenKinds(ctx, c, a);
    }
  }

  lemma WrittenRows(ctx: Context, c: Commit)
    requires ContextOk(ctx) && ctx.family == Bootstrap && ctx.op == Create
    ensures RowsAudited(ctx, Written(ctx, c), ctx.Next(c.at))
  {
    forall k | k in ctx.Next(c.at)
      ensures OneRowAudit(ctx, Written(ctx, c), k, ctx.Next(c.at)[k])
    {
      OneAuditPerRow(ctx, c, k);
    }
  }

  lemma ReplayAccepts(ctx: Context, c: Commit)
    requires ContextOk(ctx) && CommitOk(ctx, c) && ctx.family == Bootstrap && ctx.op == Create
    requires |Written(ctx, c)| == 6
    ensures PlanReplay(ctx, Written(ctx, c), ctx.Next(c.at)).Replay?
  {
    WrittenReceipt(ctx, c);
    WrittenFits(ctx, c);
    WrittenPlain(ctx, c);
    WrittenRows(ctx, c);
  }

  /**
   * A committed bootstrap passes its own verification, and every repeat is a replay as long as its
   * rows are current.
   */
  lemma BootstrapReplays(m: ContinuationManifest, db: Db, call: Call)
    requires ManifestOk(m) && call.stage == 0 && BootstrapEvidence(m, db.log) == {}
    requires ActorOk(call.actor) && NewIds(db.log, call.ids)
    ensures var ctx, next := ContextFor(m, db.log, 0, map[]), Committed(m, db, call, map[]);
            && BootstrapEvidence(m, next.log) == Written(ctx, CommitOf(m, call))
            && Current(m, next) == ctx.Next(call.at)
            && PlanReplay(ContextFor(m, next.log, 0, map[]), BootstrapEvidence(m, next.log), Current(m, next)).Replay?
  {
    var ctx, c := ContextFor(m, db.log, 0, map[]), CommitOf(m, call);
    StageContext(m, db.log, 0, map[]);
    CommitIsOk(m, db.log, call, map[]);
    BootstrapWritten(m, db.log, c);
    StageSize(m, db.log, 0, map[], c);
    CurrentAfter(m, db, call, map[]);
    ReplayAccepts(ctx, c);
  }

  /** The plan of a bootstrap, in terms of the database. */
  lemma BootstrapPlan(m: ContinuationManifest, db: Db, call: Call)
    requires call.stage == 0 && Plan(SurveyOf(m, db), call).Perform?
    ensures ActorOk(call.actor) && BootstrapEvidence(m, db.log) == {}
    ensures |call.ids| == 6 ==> After(m, db, call) == Committed(m, db, call, map[])
  {
    SurveyTraces(m, db);
    PlanStarts(SurveyOf(m, db), call);
  }

  /** The rows that a call starts from, as the plan says. */
  function StartOf(m: ContinuationManifest, db: Db, stage: Stage): State {
    if stage == 0 then map[] else Current(m, db)
  }

  /**
   * In every database in which an operation may commit, what it writes passes all the checks that
   * follow: its evidence is exactly the written audits, it verifies to the rows now present, other
   * evidence, the fixture and the protected rows are untouched, populations and pins still hold.
   */
  lemma ReadbackPasses(m: ContinuationManifest, db: Db, call: Call)
    requires ManifestOk(m) && Plan(SurveyOf(m, db), call).Perform? && NewIds(db.log, call.ids)
    ensures var ctx := ContextFor(m, db.log, call.stage, StartOf(m, db, call.stage));
            ReadbackOk(m, db, After(m, db, call), call.stage, ctx.Next(call.at), Written(ctx, CommitOf(m, call)))
  {
    if call.stage == 0 {
      BootstrapPlan(m, db, call);
      BootstrapReplays(m, db, call);
    } else {
      LaterReadback(m, db, call);
    }
  }

  // ---------------------------------------------------------------------------------------------
  // The two evidence queries of the bootstrap

  /**
   * The bootstrap looks for its evidence more narrowly than the later operations do.  What it commits
   * verifies for them if and only if their own query had found nothing before.
   */
  lemma BootstrapVerifiedLater(m: ContinuationManifest, db: Db, call: Call)
    requires ManifestOk(m) && call.stage == 0 && BootstrapEvidence(m, db.log) == {}
    requires UniqueIds(db.log) && ActorOk(call.actor) && NewIds(db.log, call.ids)
    ensures Verified(m, Committed(m, db, call, map[]).log, 0).Some? <==> Evid(m, db.log, 0) == {}
  {
    var ctx, c, log := ContextFor(m, db.log, 0, map[]), CommitOf(m, call), Committed(m, db, call, map[]).log;
    StageContext(m, db.log, 0, map[]);
    CommitIsOk(m, db.log, call, map[]);
    EvidenceGrows(m, db.log, 0, map[], c, 0);
    StageSize(m, db.log, 0, map[], c);
    LogGrows(m, db, call, map[]);
    assert Evid(m, log, 0) == Evid(m, db.log, 0) + Written(ctx, c);
    if Evid(m, db.log, 0) == {} {
      WriterAccepted(ctx, c);
    }
    if Verified(m, log, 0).Some? {
      var d := VerifiedBootstrapIsWritten(ctx, Evid(m, log, 0));
      StageSize(m, db.log, 0, map[], d);
      SubsetSize(Written(ctx, c), Evid(m, log, 0));
      assert Evid(m, db.log, 0) <= Written(ctx, c);
      assert forall a :: a in Evid(m, db.log, 0) ==> a in db.log && a.id !in call.ids;
      WrittenUnique(ctx, c);
    }
  }

  /** An audit that carries the bootstrap's operation id as its record, and nothing else of it. */
  function Stray(m: ContinuationManifest): Audit {
    Audit(0, 0, Shape(None, OtherAction("other"), OtherTable("other"), m.prior.identity.operationId, Absent, Absent,
                      None))
  }

  /**
   * One such audit: the bootstrap commits beside it and replays, yet every later operation is refused.
   */
  lemma StrayAuditLocksOut(m: ContinuationManifest, call: Call, later: Call)
    requires ManifestOk(m) && call.stage == 0 && ActorOk(call.actor) && NewIds({Stray(m)}, call.ids)
    requires later.stage > 0
    ensures var db := Db(map[], {Stray(m)});
            var next := After(m, db, call);
            && Plan(SurveyOf(m, db), call) == Perform(map[])
            && Plan(SurveyOf(m, next), call) == Replay
            && Plan(SurveyOf(m, next), later)
                 == Refuse(ReadProof, if ActorOk(later.actor) then IdentityConflict else Failed)
  {
    var db := Db(map[], {Stray(m)});
    StrayUnseen(m, call);
    var next := Committed(m, db, call, map[]);
    BootstrapPlan(m, db, call);
    BootstrapReplays(m, db, call);
    BootstrapVerifiedLater(m, db, call);
    NotVerifiedRefused(m, next, later);
    WrittenSeen(m, db, call);
    ReplayPlanned(m, next, call);
  }

  lemma StrayUnseen(m: ContinuationManifest, call: Call)
    requires call.stage == 0 && ActorOk(call.actor)
    ensures BootstrapEvidence(m, {Stray(m)}) == {} && Evid(m, {Stray(m)}, 0) == {Stray(m)} && UniqueIds({Stray(m)})
    ensures Plan(SurveyOf(m, Db(map[], {Stray(m)})), call) == Perform(map[])
  {
    assert Stray(m) in Evid(m, {Stray(m)}, 0);
    assert !IdentityCollides(m, Db(map[], {Stray(m)}));
  }

  lemma WrittenSeen(m: ContinuationManifest, db: Db, call: Call)
    requires ManifestOk(m) && call.stage == 0 && |call.ids| == 6 && BootstrapEvidence(m, db.log) == {}
    ensures BootstrapEvidence(m, Committed(m, db, call, map[]).log) != {}
  {
    BootstrapWritten(m, db.log, CommitOf(m, call));
    assert ReceiptAudit(ContextFor(m, db.log, 0, map[]), CommitOf(m, call)) in Committed(m, db, call, map[]).log;
  }

  lemma NotVerifiedRefused(m: ContinuationManifest, db: Db, later: Call)
    requires later.stage > 0 && Verified(m, db.log, 0).None?
    ensures Plan(SurveyOf(m, db), later) == Refuse(ReadProof, if ActorOk(later.actor) then IdentityConflict else Failed)
  {
    SurveyTraces(m, db);
    assert !SurveyOf(m, db).Trace(0).Shows?;
  }

  lemma ReplayPlanned(m: ContinuationManifest, db: Db, call: Call)
    requires call.stage == 0 && BootstrapEvidence(m, db.log) != {}
    ensures Plan(SurveyOf(m, db), call)
              == PlanReplay(ContextFor(m, db.log, 0, map[]), BootstrapEvidence(m, db.log), Current(m, db))
  {
  }
}
