/**
 * All seven operations commit: the first five on a vacant database, and after two formations the
 * continuation, under a manifest that pins what is then there.
 */
module HomologContinuation {
  import opened HomologEvidence
  import opened HomologProtocol
  import opened HomologRuns
  import opened HomologHistory
  import opened HomologPins
  import opened HomologStanding
  import opened Turns

  // ---------------------------------------------------------------------------------------------
  // Calls in turn

  ghost function Turn(): Call -> nat {
    (call: Call) => call.stage
  }

  /** A call by a principal that the database reports, with new audit ids. */
  predicate IsTimely(db: Db, call: Call) {
    ActorOk(call.actor) && NewIds(db.log, call.ids)
  }

  ghost function Timely(): (Db, Call) -> bool {
    (db: Db, call: Call) => IsTimely(db, call)
  }

  ghost function Commits(m: ContinuationManifest): (Db, Call) -> bool {
    (db: Db, call: Call) => Plan(SurveyOf(m, db), call).Perform?
  }

  /** The database after a call; the database gives a call six audit ids. */
  ghost function Next(m: ContinuationManifest): (Db, Call) -> Db {
    (db: Db, call: Call) => if |call.ids| == 6 then After(m, db, call) else db
  }

  ghost function Stands(m: ContinuationManifest): (Db, nat) -> bool {
    (db: Db, n: nat) => Standing(m, db, n)
  }

  lemma StartTurn(m: ContinuationManifest, db: Db, call: Call)
    requires ManifestOk(m) && Turn()(call) < 5
    ensures CarriesOver(Stands(m), Turn(), Timely(), Commits(m), Next(m), db, call)
  {
    if Stands(m)(db, call.stage) && IsTimely(db, call) {
      StandingAfter(m, db, call);
    }
  }

  lemma StartCarries(m: ContinuationManifest)
    requires ManifestOk(m)
    ensures Carries(Stands(m), Turn(), Timely(), Commits(m), Next(m), 0, 5)
  {
    forall db, call: Call | Turn()(call) < 5 { StartTurn(m, db, call); }
  }

  /** From a vacant database the first five calls commit. */
  lemma FirstFiveCommit(m: ContinuationManifest, db: Db, calls: seq<Call>)
    requires ManifestOk(m) && Standing(m, db, 0) && |calls| == 5 && Due(Turn(), Timely(), Next(m), db, calls, 0)
    ensures AllCommit(Commits(m), Next(m), db, calls) && Standing(m, AfterAll(Next(m), db, calls), 5)
  {
    StartCarries(m);
    DueCommit(Stands(m), Turn(), Timely(), Commits(m), Next(m), 0, 5, db, calls, 0);
  }

  lemma CallMeans(m: ContinuationManifest, db: Db, call: Call)
    requires Timely()(db, call)
    ensures ActorOk(call.actor) && NewIds(db.log, call.ids)
    ensures Commits(m)(db, call) == Plan(SurveyOf(m, db), call).Perform?
    ensures Next(m)(db, call) == After(m, db, call)
  {
  }

  /** Under a manifest whose pins hold, both continuation calls commit. */
  lemma ContinuationCommits(m: ContinuationManifest, db: Db, calls: seq<Call>)
    requires ManifestOk(m) && Standing(m, db, 5) && PinsHold(m, db)
    requires |calls| == 2 && Due(Turn(), Timely(), Next(m), db, calls, 5)
    ensures AllCommit(Commits(m), Next(m), db, calls) && Reached(m, AfterAll(Next(m), db, calls), 7)
  {
    TwoCalls(Turn(), Timely(), Commits(m), Next(m), db, calls, 5);
    CallMeans(m, db, calls[0]);
    NextCommits(m, db, calls[0]);
    CallMeans(m, After(m, db, calls[0]), calls[1]);
    NextCommits(m, After(m, db, calls[0]), calls[1]);
  }

  // ---------------------------------------------------------------------------------------------
  // All seven

  lemma BaseTurn(m: ContinuationManifest, q: ContinuationManifest, db: Db, call: Call)
    requires SameBase(m, q) && Turn()(call) < 5
    ensures Alike(Timely(), Commits(m), Next(m), Commits(q), Next(q), db, call)
  {
    if IsTimely(db, call) {
      BaseCall(m, q, db, call);
    }
  }

  /** The first five operations run alike under manifests that differ in their pins alone. */
  lemma BaseCalls(m: ContinuationManifest, q: ContinuationManifest, db: Db, calls: seq<Call>)
    requires SameBase(m, q) && Due(Turn(), Timely(), Next(m), db, calls, 0) && |calls| == 5
    ensures Due(Turn(), Timely(), Next(q), db, calls, 0) && AfterAll(Next(q), db, calls) == AfterAll(Next(m), db, calls)
    ensures AllCommit(Commits(q), Next(q), db, calls) == AllCommit(Commits(m), Next(m), db, calls)
  {
    forall d, call: Call | Turn()(call) < 5 { BaseTurn(m, q, d, call); }
    DueAlike(Turn(), Timely(), Commits(m), Next(m), Commits(q), Next(q), 5, db, calls, 0);
  }

  /** What others do between withdrawal and continuation: two formations, leaving profiles and fixture alone. */
  predicate Forms(m: ContinuationManifest, db: Db, formed: Db) {
    && OutsideOk(m, db, formed)
    && ProfilesExact(m, formed)
    && Rows(formed, FixtureSet(m)) == Rows(db, FixtureSet(m))
    && HeldExactly(m, formed)
    && (forall f :: f in m.formations ==> FormationLeft(m, formed, f))
    && |History(m, formed.log)| <= 10000
  }

  lemma FormedStands(m: ContinuationManifest, db: Db, formed: Db)
    requires ManifestOk(m) && Standing(m, db, 5) && OutsideOk(m, db, formed) && ProfilesExact(m, formed)
    requires Rows(formed, FixtureSet(m)) == Rows(db, FixtureSet(m))
    ensures Standing(m, formed, 5)
  {
    OutsideReaches(m, db, formed, 5);
    VerifiedReads(m, db.log, formed.log, 1);
  }

  lemma FormedPins(m: ContinuationManifest, db: Db, formed: Db) returns (q: ContinuationManifest)
    requires ManifestOk(m) && Standing(m, formed, 5) && Forms(m, db, formed)
    ensures ManifestOk(q) && SameBase(m, q) && PinsHold(q, formed)
  {
    q := PinsExist(m, formed);
  }

  lemma BaseStanding(m: ContinuationManifest, q: ContinuationManifest, db: Db)
    requires SameBase(m, q) && Standing(m, db, 5)
    ensures Standing(q, db, 5)
  {
    BaseReached(m, q, db, 5);
    BaseReads(m, q, db);
  }

  lemma BaseOutside(m: ContinuationManifest, q: ContinuationManifest, db: Db, next: Db)
    requires SameBase(m, q) && OutsideOk(m, db, next)
    ensures OutsideOk(q, db, next)
  {
    BaseReads(m, q, db);
    BaseReads(m, q, next);
  }

  /**
   * From a vacant database the first five operations commit; whatever formations follow, some manifest
   * that differs in its pins alone leaves that as it is and lets both continuation operations commit.
   */
  lemma AllSevenCommit(m: ContinuationManifest, db: Db, calls: seq<Call>, formed: Db)
    returns (q: ContinuationManifest)
    requires ManifestOk(m) && Standing(m, db, 0) && |calls| == 5 && Due(Turn(), Timely(), Next(m), db, calls, 0)
    requires Forms(m, AfterAll(Next(m), db, calls), formed)
    ensures ManifestOk(q) && SameBase(m, q)
    ensures Due(Turn(), Timely(), Next(q), db, calls, 0) && AllCommit(Commits(q), Next(q), db, calls)
    ensures OutsideOk(q, AfterAll(Next(q), db, calls), formed)
    ensures forall last :: |last| == 2 && Due(Turn(), Timely(), Next(q), formed, last, 5) ==>
              AllCommit(Commits(q), Next(q), formed, last) && Reached(q, AfterAll(Next(q), formed, last), 7)
  {
    var left := AfterAll(Next(m), db, calls);
    FirstFiveCommit(m, db, calls);
    FormedStands(m, left, formed);
    q := FormedPins(m, left, formed);
    BaseCalls(m, q, db, calls);
    BaseOutside(m, q, left, formed);
    BaseStanding(m, q, formed);
    forall last | |last| == 2 && Due(Turn(), Timely(), Next(q), formed, last, 5) {
      ContinuationCommits(q, formed, last);
    }
  }
}
