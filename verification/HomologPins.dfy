/**
 * The pins of a continuation manifest: the bound on the history they allow, what they leave alone, and
 * that some manifest pins whatever the first five operations and two formations leave.
 */
module HomologPins {
  import opened Wrappers
  import opened Collections
  import opened HomologEvidence
  import opened HomologAgreement
  import opened HomologProtocol
  import opened HomologRuns
  import opened HomologReadback
  import opened HomologHistory

  // ---------------------------------------------------------------------------------------------
  // The size of a genuine history

  function StageAudits(k: Stage): nat {
    if k == 1 then 5 else 6
  }

  /** Verified evidence has the size of what was written, and belongs to its own operation alone. */
  lemma EvidenceSize(m: ContinuationManifest, log: set<Audit>, k: Stage)
    requires ManifestOk(m) && UniqueIds(log) && Verified(m, log, k).Some?
    ensures |Evid(m, log, k)| == StageAudits(k)
    ensures forall a, j: Stage :: a in Evid(m, log, k) && Mentions(a, OpIds(m)[j]) ==> j == k
    ensures forall a :: a in Evid(m, log, k) ==> a.shape.recordId !in FormationIds(m.formations)
  {
    VerifiedShape(m, log, k);
    if k > 0 { VerifiedShape(m, log, Before(k)); }
    var before := if k == 0 then map[] else Verified(m, log, Before(k)).value;
    var ctx := ContextFor(m, log, k, before);
    StageContext(m, log, k, before);
    var c := CommitBehind(ctx, Evid(m, log, k));
    StageSize(m, log, k, before, c);
    forall a | a in Evid(m, log, k)
      ensures forall j: Stage :: Mentions(a, OpIds(m)[j]) ==> j == k
      ensures a.shape.recordId !in FormationIds(m.formations)
    {
      forall j: Stage ensures Mentions(a, OpIds(m)[j]) <==> j == k { WrittenMentions(m, log, k, before, c, a, j); }
      if a.shape.recordId in FormationIds(m.formations) {
        RecordsOf(m, log, k, before, c, a.shape.recordId);
      }
    }
  }

  lemma CommitBehind(ctx: Context, audits: set<Audit>) returns (c: Commit)
    requires ContextOk(ctx) && UniqueIds(audits) && Check(ctx, audits).Some?
    ensures CommitOk(ctx, c) && audits == Written(ctx, c)
  {
    if ctx.family == Bootstrap {
      c := VerifiedBootstrapIsWritten(ctx, audits);
    } else {
      c := VerifiedIsWritten(ctx, audits);
    }
  }

  /** The evidence of the first n operations. */
  function FirstEvidence(m: ContinuationManifest, log: set<Audit>, n: nat): set<Audit>
    requires n <= 7
  {
    if n == 0 then {} else FirstEvidence(m, log, n - 1) + Evid(m, log, n - 1)
  }

  /** These audits belong to no formation, and to no operation from n on. */
  predicate Early(m: ContinuationManifest, audits: set<Audit>, n: nat) {
    forall a :: a in audits ==>
      a.shape.recordId !in FormationIds(m.formations) && forall j: Stage :: n <= j ==> !Mentions(a, OpIds(m)[j])
  }

  lemma {:induction false} FirstEvidenceEarly(m: ContinuationManifest, log: set<Audit>, n: nat)
    requires ManifestOk(m) && UniqueIds(log) && n <= 7
    requires forall k: Stage :: k < n ==> Verified(m, log, k).Some?
    ensures FirstEvidence(m, log, n) <= log && Early(m, FirstEvidence(m, log, n), n)
  {
    if n > 0 {
      FirstEvidenceEarly(m, log, n - 1);
      EvidenceSize(m, log, n - 1);
    }
  }

  lemma DisjointUnion<T>(a: set<T>, b: set<T>)
    requires a !! b
    ensures |a + b| == |a| + |b|
  {
  }

  lemma EarlyApart(m: ContinuationManifest, log: set<Audit>, audits: set<Audit>, k: Stage)
    requires Early(m, audits, k)
    ensures audits !! Evid(m, log, k)
  {
  }

  lemma {:induction false} FirstEvidenceSize(m: ContinuationManifest, log: set<Audit>, n: nat)
    requires ManifestOk(m) && UniqueIds(log) && n <= 7
    requires forall k: Stage :: k < n ==> Verified(m, log, k).Some?
    ensures |FirstEvidence(m, log, n)| == if n <= 1 then 6 * n else 6 * n - 1
  {
    if n > 0 {
      FirstEvidenceSize(m, log, n - 1);
      FirstEvidenceEarly(m, log, n - 1);
      EvidenceSize(m, log, n - 1);
      EarlyApart(m, log, FirstEvidence(m, log, n - 1), n - 1);
      DisjointUnion(FirstEvidence(m, log, n - 1), Evid(m, log, n - 1));
    }
  }

  /** At least one audit for each of some records. */
  lemma {:induction false} AuditsOfMany(log: set<Audit>, ids: set<Id>)
    requires forall id :: id in ids ==> AuditsOf(log, id) != {}
    ensures |set a | a in log && a.shape.recordId in ids| >= |ids|
  {
    if ids != {} {
      var id :| id in ids;
      AuditsOfMany(log, ids - {id});
      var one := AuditsOf(log, id);
      var rest := set a | a in log && a.shape.recordId in ids - {id};
      var a :| a in one;
      SubsetSize({a}, one);
      assert (set a | a in log && a.shape.recordId in ids) == rest + one && rest !! one;
    }
  }

  /** The row ids of both formations. */
  function FormedRows(formations: seq<Formation>): seq<Id>
    requires |formations| == 2
  {
    var f, g := formations[0], formations[1];
    [f.clientId, f.projectId, f.intakeId, g.clientId, g.projectId, g.intakeId]
  }

  function FormedIds(formations: seq<Formation>): set<Id>
    requires |formations| == 2
  {
    IdSet(FormedRows(formations))
  }

  lemma SixFormed(m: ContinuationManifest)
    requires ManifestOk(m)
    ensures |FormedIds(m.formations)| == 6
    ensures forall id :: id in FormedIds(m.formations) ==> id in FormationIds(m.formations)
  {
    var front, ids := OpIds(m) + RowIds(m.prior) + Subjects(m.prior.identity), FormationIds(m.formations);
    var rows, at := FormedRows(m.formations), [0, 1, 2, 6, 7, 8];
    TwoFormations(m.formations);
    IdSetSize(AllIds(m));
    assert AllIds(m) == front + ids;
    DistinctTail(front, ids);
    assert forall i :: 0 <= i < 6 ==> rows[i] == ids[at[i]];
    DistinctPick(ids, at, rows);
    IdSetSize(rows);
  }

  lemma DistinctTail(front: seq<Id>, ids: seq<Id>)
    requires Distinct(front + ids)
    ensures Distinct(ids)
  {
    assert forall i :: 0 <= i < |ids| ==> (front + ids)[|front| + i] == ids[i];
  }

  lemma DistinctPick(ids: seq<Id>, at: seq<nat>, picked: seq<Id>)
    requires Distinct(ids) && |at| == |picked|
    requires forall i :: 0 <= i < |at| ==> at[i] < |ids| && picked[i] == ids[at[i]]
    requires forall i, j :: 0 <= i < j < |at| ==> at[i] < at[j]
    ensures Distinct(picked) && forall id :: id in picked ==> id in ids
  {
  }

  lemma TwoFormations(formations: seq<Formation>)
    requires |formations| == 2 && forall f :: f in formations ==> |f.audits| == 3
    ensures var ids, rows := FormationIds(formations), FormedRows(formations);
            && |ids| == 12
            && ids[0] == rows[0] && ids[1] == rows[1] && ids[2] == rows[2]
            && ids[6] == rows[3] && ids[7] == rows[4] && ids[8] == rows[5]
  {
    var f, g := formations[0], formations[1];
    var later := formations[1..];
    assert later == [g] && later[1..] == [];
    assert |FormationIds(later)| == 6;
    assert |FormationIds(formations)| == 12;
  }

  /** A formation as its executor left it, with audits among the pinned ones; its digests are not compared. */
  predicate FormationLeft(m: ContinuationManifest, db: Db, f: Formation) {
    var client, project, intake := Key(Clients, f.clientId), Key(Projects, f.projectId), Key(Intakes, f.intakeId);
    && Left(m, db, client, "client.create")
    && Left(m, db, project, "project.create")
    && Left(m, db, intake, "intake.create")
    && FormationColumns(m, f, db.rows[client], db.rows[project], db.rows[intake])
    && forall a :: a in db.log && a.shape.recordId in {f.clientId, f.projectId, f.intakeId} ==>
         exists pin :: pin in f.audits && pin.id == a.id
  }

  lemma FormedAudit(m: ContinuationManifest, db: Db, id: Id)
    requires |m.formations| == 2 && forall f :: f in m.formations ==> FormationLeft(m, db, f)
    requires id in FormedIds(m.formations)
    ensures AuditsOf(db.log, id) != {}
  {
    var f, g := m.formations[0], m.formations[1];
    assert FormationLeft(m, db, f) && FormationLeft(m, db, g);
    assert |AuditsOf(db.log, id)| == 1;
  }

  /** No audit of a formation row is one of the continuation. */
  lemma ContinuationApart(m: ContinuationManifest, db: Db, n: nat)
    requires ManifestOk(m) && Reached(m, db, n) && n >= 5
    ensures forall a, k: Stage :: k >= 5 && a in db.log && a.shape.recordId in FormationIds(m.formations) ==>
              !Mentions(a, OpIds(m)[k])
  {
    forall k: Stage | k >= 5
      ensures forall a :: a in Evid(m, db.log, k) ==> a.shape.recordId !in FormationIds(m.formations)
    {
      if k < n { EvidenceSize(m, db.log, k); }
    }
    forall a, k: Stage | k >= 5 && a in db.log && a.shape.recordId in FormationIds(m.formations)
      ensures !Mentions(a, OpIds(m)[k])
    {
      assert a !in Evid(m, db.log, k);
    }
  }

  function FormedAudits(m: ContinuationManifest, log: set<Audit>): set<Audit>
    requires |m.formations| == 2
  {
    set a | a in log && a.shape.recordId in FormedIds(m.formations)
  }

  lemma FormedCount(m: ContinuationManifest, db: Db)
    requires ManifestOk(m) && forall f :: f in m.formations ==> FormationLeft(m, db, f)
    ensures |FormedAudits(m, db.log)| >= 6
    ensures forall a :: a in FormedAudits(m, db.log) ==> a.shape.recordId in FormationIds(m.formations)
  {
    var ids := FormedIds(m.formations);
    SixFormed(m);
    forall id | id in ids ensures AuditsOf(db.log, id) != {} { FormedAudit(m, db, id); }
    AuditsOfMany(db.log, ids);
    assert FormedAudits(m, db.log) == set a | a in db.log && a.shape.recordId in ids;
  }

  lemma DisjointSizes<T>(a: set<T>, b: set<T>, all: set<T>)
    requires a !! b && a <= all && b <= all
    ensures |a| + |b| <= |all|
  {
    SubsetSize(a + b, all);
  }

  /** The evidence of the first five operations is history of the continuation. */
  lemma FirstFive(m: ContinuationManifest, log: set<Audit>)
    requires ManifestOk(m) && UniqueIds(log) && forall k: Stage :: k < 5 ==> Verified(m, log, k).Some?
    ensures var first := FirstEvidence(m, log, 5);
            && |first| == 29 && first <= History(m, log)
            && forall a :: a in first ==> a.shape.recordId !in FormationIds(m.formations)
  {
    FirstEvidenceSize(m, log, 5);
    FirstEvidenceEarly(m, log, 5);
    assert OpIds(m)[5] == m.reactivationOperationId && OpIds(m)[6] == m.withdrawalOperationId;
  }

  lemma FormedInHistory(m: ContinuationManifest, db: Db, n: nat)
    requires ManifestOk(m) && Reached(m, db, n) && n >= 5
    requires forall a :: a in FormedAudits(m, db.log) ==> a.shape.recordId in FormationIds(m.formations)
    ensures FormedAudits(m, db.log) <= History(m, db.log)
  {
    ContinuationApart(m, db, n);
    assert OpIds(m)[5] == m.reactivationOperationId && OpIds(m)[6] == m.withdrawalOperationId;
  }

  /**
   * The lower bound on the pinned history refuses no genuine history: the first five operations left
   * 29 audits, two formations at least 6, and none of them is an audit of the continuation.
   */
  lemma HistoryEnough(m: ContinuationManifest, db: Db, n: nat)
    requires ManifestOk(m) && Reached(m, db, n) && n >= 5
    requires forall f :: f in m.formations ==> FormationLeft(m, db, f)
    ensures |History(m, db.log)| >= 35
  {
    FirstFive(m, db.log);
    FormedCount(m, db);
    FormedInHistory(m, db, n);
    DisjointSizes(FirstEvidence(m, db.log, 5), FormedAudits(m, db.log), History(m, db.log));
  }

  // ---------------------------------------------------------------------------------------------
  // What does not depend on the pins

  /** Two manifests that differ in their pins alone: digests, history and formation audits. */
  predicate SameBase(m: ContinuationManifest, q: ContinuationManifest) {
    && q.prior == m.prior && q.predecessor == m.predecessor
    && q.reactivationOperationId == m.reactivationOperationId
    && q.withdrawalOperationId == m.withdrawalOperationId
  }

  lemma BaseContext(m: ContinuationManifest, q: ContinuationManifest, log: set<Audit>, k: Stage, before: State)
    requires SameBase(m, q) && k < 5
    ensures ContextFor(q, log, k, before) == ContextFor(m, log, k, before) && Evid(q, log, k) == Evid(m, log, k)
  {
  }

  lemma {:induction false} BaseVerified(m: ContinuationManifest, q: ContinuationManifest, log: set<Audit>, k: Stage)
    requires SameBase(m, q) && k < 5
    ensures Verified(q, log, k) == Verified(m, log, k)
    decreases k
  {
    var before := map[];
    if k > 0 {
      BaseVerified(m, q, log, Before(k));
      before := if Verified(m, log, Before(k)).Some? then Verified(m, log, Before(k)).value else before;
    }
    BaseContext(m, q, log, k, before);
  }

  lemma BaseReads(m: ContinuationManifest, q: ContinuationManifest, db: Db)
    requires SameBase(m, q)
    ensures forall k: Stage :: Evid(q, db.log, k) == Evid(m, db.log, k)
    ensures forall k: Stage :: k < 5 ==> TraceOf(q, db.log, k) == TraceOf(m, db.log, k)
    ensures Current(q, db) == Current(m, db) && History(q, db.log) == History(m, db.log)
  {
    assert OpIds(q) == OpIds(m);
    forall k: Stage | k < 5 ensures Verified(q, db.log, k) == Verified(m, db.log, k) { BaseVerified(m, q, db.log, k); }
  }

  lemma BaseReached(m: ContinuationManifest, q: ContinuationManifest, db: Db, n: nat)
    requires SameBase(m, q) && Reached(m, db, n) && n <= 5
    ensures Reached(q, db, n)
  {
    BaseReads(m, q, db);
    forall k: Stage | k < 5 ensures Verified(q, db.log, k) == Verified(m, db.log, k) { BaseVerified(m, q, db.log, k); }
  }

  lemma BaseSurvey(m: ContinuationManifest, q: ContinuationManifest, db: Db)
    requires SameBase(m, q)
    ensures var s, t := SurveyOf(m, db), SurveyOf(q, db);
            && (forall k: Stage :: k < 5 ==> s.Trace(k) == t.Trace(k))
            && t.(traces := s.traces, pinned := s.pinned, preserved := s.preserved) == s
  {
    BaseReads(m, q, db);
  }

  /** One of the first five operations decides and does the same under both manifests. */
  lemma BaseCall(m: ContinuationManifest, q: ContinuationManifest, db: Db, call: Call)
    requires SameBase(m, q) && call.stage < 5 && |call.ids| == 6
    ensures Plan(SurveyOf(q, db), call) == Plan(SurveyOf(m, db), call)
    ensures After(q, db, call) == After(m, db, call)
  {
    BaseSurvey(m, q, db);
    BasePlan(SurveyOf(m, db), SurveyOf(q, db), call);
    forall before
      ensures ContextFor(q, db.log, call.stage, before) == ContextFor(m, db.log, call.stage, before)
    {
      BaseContext(m, q, db.log, call.stage, before);
    }
    assert CommitOf(q, call) == CommitOf(m, call);
  }

  lemma BasePlan(s: Survey, t: Survey, call: Call)
    requires call.stage < 5 && forall k: Stage :: k < 5 ==> s.Trace(k) == t.Trace(k)
    requires t.(traces := s.traces, pinned := s.pinned, preserved := s.preserved) == s
    ensures Plan(t, call) == Plan(s, call)
  {
  }

  // ---------------------------------------------------------------------------------------------
  // The manifest that pins a database

  /** All that the pins describe: the predecessor cycle, the business rows, and a history within bounds. */
  predicate Pinnable(m: ContinuationManifest, db: Db) {
    && Reached(m, db, 5)
    && HeldExactly(m, db)
    && (forall f :: f in m.formations ==> FormationLeft(m, db, f))
    && |History(m, db.log)| <= 10000
  }

  ghost function AuditHash(log: set<Audit>, id: Id): Hash {
    if a :| a in log && a.id == id then Digest(AuditDoc(a)) else Digest(AuditsDoc({}))
  }

  function RowHash(db: Db, key: Key): Hash {
    if key in db.rows then Digest(RowDoc(db.rows[key])) else Digest(StateDoc(map[]))
  }

  /** The same formation, its digests those of the rows and audits now present. */
  ghost function FormationPins(db: Db, f: Formation): Formation {
    f.(clientHash := RowHash(db, Key(Clients, f.clientId)),
       projectHash := RowHash(db, Key(Projects, f.projectId)),
       intakeHash := RowHash(db, Key(Intakes, f.intakeId)),
       audits := seq(|f.audits|, i requires 0 <= i < |f.audits| =>
                   AuditPin(f.audits[i].id, AuditHash(db.log, f.audits[i].id))))
  }

  /** The manifest q is m with the pins of the two cycle receipts, of the withdrawn rows and of the database. */
  ghost predicate PinnedTo(m: ContinuationManifest, db: Db, q: ContinuationManifest) {
    && SameBase(m, q) && q.predecessorHash == m.predecessorHash
    && Some(q.reactivationReceiptHash) == ReceiptHash(ReceiptAt(m, db.log, 3))
    && Some(q.withdrawalReceiptHash) == ReceiptHash(ReceiptAt(m, db.log, 4))
    && Some(q.withdrawnStateHash) == StateHash(Verified(m, db.log, 4))
    && q.historyCount == |History(m, db.log)|
    && q.historyHash == Digest(AuditsDoc(History(m, db.log)))
    && SamePins(m, db, q)
  }

  ghost predicate SamePins(m: ContinuationManifest, db: Db, q: ContinuationManifest) {
    && |q.formations| == |m.formations|
    && forall i :: 0 <= i < |m.formations| ==> q.formations[i] == FormationPins(db, m.formations[i])
  }

  function ReceiptHash(r: Option<Receipt>): Option<Hash> {
    match r
    case None => None
    case Some(receipt) => Some(Digest(ReceiptDoc(receipt)))
  }

  function StateHash(s: Option<State>): Option<Hash> {
    match s
    case None => None
    case Some(state) => Some(Digest(StateDoc(state)))
  }

  lemma {:induction false} SameFormationIds(fs: seq<Formation>, gs: seq<Formation>)
    requires |fs| == |gs|
    requires forall i :: 0 <= i < |fs| ==> SameIds(fs[i], gs[i])
    ensures FormationIds(fs) == FormationIds(gs)
  {
    if fs != [] {
      SameFormationIds(fs[1..], gs[1..]);
      var f, g := fs[0], gs[0];
      assert seq(|f.audits|, i requires 0 <= i < |f.audits| => f.audits[i].id)
          == seq(|g.audits|, i requires 0 <= i < |g.audits| => g.audits[i].id);
    }
  }

  predicate SameIds(f: Formation, g: Formation) {
    && f.clientId == g.clientId && f.projectId == g.projectId && f.intakeId == g.intakeId
    && |f.audits| == |g.audits|
    && forall i :: 0 <= i < |f.audits| ==> f.audits[i].id == g.audits[i].id
  }

  lemma SameKeys(fs: seq<Formation>, gs: seq<Formation>, table: Table)
    requires |fs| == |gs| && forall i :: 0 <= i < |fs| ==> SameIds(fs[i], gs[i])
    ensures FormedKeys(fs, table) <= FormedKeys(gs, table)
  {
    forall k | k in FormedKeys(fs, table)
      ensures k in FormedKeys(gs, table)
    {
      var f :| f in fs && k == FormedKey(f, table);
      var i :| 0 <= i < |fs| && fs[i] == f;
      assert gs[i] in gs && FormedKey(gs[i], table) == k;
    }
  }

  lemma SameHeld(m: ContinuationManifest, q: ContinuationManifest, db: Db)
    requires SameBase(m, q) && HeldExactly(m, db) && |m.formations| == |q.formations|
    requires forall i :: 0 <= i < |m.formations| ==> SameIds(m.formations[i], q.formations[i])
    ensures HeldExactly(q, db)
  {
    forall table ensures FormedKeys(q.formations, table) == FormedKeys(m.formations, table) {
      SameKeys(m.formations, q.formations, table);
      SameKeys(q.formations, m.formations, table);
    }
    assert forall table :: Held(q, db, table) == Held(m, db, table);
  }

  lemma PinsFound(log: set<Audit>, f: Formation, g: Formation, a: Audit)
    requires UniqueIds(log) && a in log && (exists pin :: pin in f.audits && pin.id == a.id)
    requires g.audits == seq(|f.audits|, i requires 0 <= i < |f.audits| =>
                           AuditPin(f.audits[i].id, AuditHash(log, f.audits[i].id)))
    ensures AuditPin(a.id, Digest(AuditDoc(a))) in g.audits
  {
    var pin :| pin in f.audits && pin.id == a.id;
    var i :| 0 <= i < |f.audits| && f.audits[i] == pin;
    assert g.audits[i] == AuditPin(a.id, Digest(AuditDoc(a)));
  }

  lemma FormationPinned(m: ContinuationManifest, q: ContinuationManifest, db: Db, f: Formation)
    requires SameBase(m, q) && UniqueIds(db.log) && FormationLeft(m, db, f)
    ensures FormationKept(q, db, FormationPins(db, f))
  {
    var g := FormationPins(db, f);
    forall a | a in db.log && a.shape.recordId in {f.clientId, f.projectId, f.intakeId}
      ensures AuditPin(a.id, Digest(AuditDoc(a))) in g.audits
    {
      PinsFound(db.log, f, g, a);
    }
  }

  lemma PinsKeepIds(m: ContinuationManifest, db: Db, q: ContinuationManifest)
    requires SamePins(m, db, q)
    ensures forall i :: 0 <= i < |m.formations| ==> SameIds(m.formations[i], q.formations[i])
  {
  }

  lemma PinnedManifest(m: ContinuationManifest, db: Db, q: ContinuationManifest)
    requires ManifestOk(m) && PinnedTo(m, db, q) && 35 <= |History(m, db.log)| <= 10000
    ensures ManifestOk(q)
  {
    PinsKeepIds(m, db, q);
    SameFormationIds(m.formations, q.formations);
    assert forall g :: g in q.formations ==> |g.audits| == 3;
  }

  lemma BaseReceipt(m: ContinuationManifest, q: ContinuationManifest, log: set<Audit>, k: Stage)
    requires SameBase(m, q) && k < 5
    ensures SingleReceipt(ContextFor(q, log, k, map[]), Evid(q, log, k)) == ReceiptAt(m, log, k)
  {
    BaseContext(m, q, log, k, map[]);
  }

  lemma PinnedReceipts(m: ContinuationManifest, db: Db, q: ContinuationManifest)
    requires PinnedTo(m, db, q)
    ensures PredecessorPinned(q, db.log)
  {
    BaseReceipt(m, q, db.log, 3);
    BaseReceipt(m, q, db.log, 4);
    BaseVerified(m, q, db.log, 4);
  }

  lemma PinnedFormations(m: ContinuationManifest, db: Db, q: ContinuationManifest)
    requires SameBase(m, q) && UniqueIds(db.log) && SamePins(m, db, q)
    requires forall f :: f in m.formations ==> FormationLeft(m, db, f)
    ensures forall g :: g in q.formations ==> FormationKept(q, db, g)
  {
    forall g | g in q.formations
      ensures FormationKept(q, db, g)
    {
      var i :| 0 <= i < |q.formations| && q.formations[i] == g;
      FormationPinned(m, q, db, m.formations[i]);
    }
  }

  lemma PinnedPreserved(m: ContinuationManifest, db: Db, q: ContinuationManifest)
    requires Pinnable(m, db) && PinnedTo(m, db, q)
    ensures Preserved(q, db)
  {
    PinsKeepIds(m, db, q);
    SameHeld(m, q, db);
    PinnedFormations(m, db, q);
    BaseReads(m, q, db);
  }

  lemma PinsFor(m: ContinuationManifest, db: Db) returns (q: ContinuationManifest)
    requires Verified(m, db.log, 3).Some? && Verified(m, db.log, 4).Some?
    ensures PinnedTo(m, db, q)
  {
    ReceiptLinks(m, db.log, 3);
    ReceiptLinks(m, db.log, 4);
    q := m.(reactivationReceiptHash := ReceiptHash(ReceiptAt(m, db.log, 3)).value,
            withdrawalReceiptHash := ReceiptHash(ReceiptAt(m, db.log, 4)).value,
            withdrawnStateHash := StateHash(Verified(m, db.log, 4)).value,
            historyCount := |History(m, db.log)|,
            historyHash := Digest(AuditsDoc(History(m, db.log))),
            formations :=
              seq(|m.formations|, i requires 0 <= i < |m.formations| => FormationPins(db, m.formations[i])));
  }

  /** Whatever the first five operations and two formations left, some manifest pins it. */
  lemma PinsExist(m: ContinuationManifest, db: Db) returns (q: ContinuationManifest)
    requires ManifestOk(m) && Pinnable(m, db)
    ensures ManifestOk(q) && SameBase(m, q)
    ensures Reached(q, db, 5) && PredecessorPinned(q, db.log) && Preserved(q, db)
  {
    q := PinsFor(m, db);
    HistoryEnough(m, db, 5);
    PinnedManifest(m, db, q);
    PinnedReceipts(m, db, q);
    PinnedPreserved(m, db, q);
    BaseReached(m, q, db, 5);
  }
}
