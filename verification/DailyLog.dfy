/**
 * Daily field reports (server/daily-log-db.ts): the rules, one log per project and day, and what
 * overlapping calls can do.
 *
 * A call opens no transaction.  It reads, decides, and then issues one writing statement; other calls
 * may write in between.  So a call is two events here: a read, which yields the write or an error,
 * and the write, which meets the rows as they are by then.
 */
module DailyLog {
  import opened Strings
  import opened Wrappers

  type Id = string

  /** A submitted date: an ISO date as a day number, or text of another shape. */
  datatype LogDate = Day(number: int) | Malformed(text: string)

  datatype Log = Log(
    id: Id,
    project: Id,
    day: int,
    weatherDelay: bool,
    delays: Option<string>,
    safetyIncidents: int,
    safetyDetails: Option<string>,
    safetyResolved: bool,
    crewCount: int,
    photosCount: int,
    laborHours: Option<real>,
    delayHours: Option<real>,
    deleted: bool)

  /** What a caller submits; an absent field is None, a field set to null is Some(None). */
  datatype Payload = Payload(
    date: Option<LogDate>,
    weatherDelay: Option<bool>,
    delays: Option<Option<string>>,
    safetyIncidents: Option<int>,
    safetyDetails: Option<Option<string>>,
    safetyResolved: Option<bool>,
    crewCount: Option<int>,
    photosCount: Option<int>,
    photoUrls: Option<Option<seq<string>>>,
    laborHours: Option<Option<real>>,
    delayHours: Option<Option<real>>)

  datatype Rule = DL001 | DL002 | DL003

  datatype Error =
    | ProjectNotFound
    | LogNotFound
    | RuleBroken(rule: Rule)
    | DuplicateLog
    | UniqueViolation

  datatype Result<+T> = Ok(value: T) | Err(error: Error)

  datatype Store = Store(rows: seq<Log>, projects: set<Id>)

  // ---------------------------------------------------------------------------------------------
  // Rules

  predicate Described(text: Option<string>, least: nat) {
    text.Some? && least <= TrimmedLength(text.value)
  }

  function Or<T>(a: Option<T>, default: T): T {
    match a case Some(v) => v case None => default
  }

  predicate Breaks(p: Payload, rule: Rule) {
    match rule
    case DL001 => p.date.Some? && p.date.value.Malformed?
    case DL002 => Or(p.safetyIncidents, 0) > 0 && !Described(Or(p.safetyDetails, None), 10)
    case DL003 => p.weatherDelay == Some(true) && !Described(Or(p.delays, None), 5)
  }

  /** No rule is broken. */
  predicate Valid(p: Payload) {
    !Breaks(p, DL001) && !Breaks(p, DL002) && !Breaks(p, DL003)
  }

  function Rank(rule: Rule): nat {
    match rule case DL001 => 1 case DL002 => 2 case DL003 => 3
  }

  /** A rule is reported exactly when it is broken, each once and in the order of the rules. */
  method ValidateDailyLog(p: Payload) returns (violations: seq<Rule>)
    ensures forall rule :: rule in violations <==> Breaks(p, rule)
    ensures forall i, j :: 0 <= i < j < |violations| ==> Rank(violations[i]) < Rank(violations[j])
    ensures violations == [] <==> Valid(p)
  {
    violations := [];
    if p.date.Some? && p.date.value.Malformed? {
      violations := violations + [DL001];
    }
    var incidents := Or(p.safetyIncidents, 0);
    if incidents > 0 && !Described(Or(p.safetyDetails, None), 10) {
      violations := violations + [DL002];
    }
    if p.weatherDelay == Some(true) && !Described(Or(p.delays, None), 5) {
      violations := violations + [DL003];
    }
    forall rule
      ensures rule in violations <==> Breaks(p, rule)
    {
      match rule case DL001 => case DL002 => case DL003 =>
    }
    assert violations != [] ==> violations[0] in violations;
  }

  /** The rule that the error names: the first broken one. */
  function FirstBroken(p: Payload): (rule: Rule)
    requires !Valid(p)
    ensures Breaks(p, rule) && forall r :: Breaks(p, r) ==> Rank(rule) <= Rank(r)
  {
    if Breaks(p, DL001) then DL001 else if Breaks(p, DL002) then DL002 else DL003
  }

  /** A stored log that the rules accept. */
  predicate Sound(log: Log) {
    && (log.safetyIncidents > 0 ==> Described(log.safetyDetails, 10))
    && (log.weatherDelay ==> Described(log.delays, 5))
  }

  /** The four columns that the rules read. */
  function RuleColumns(log: Log): (bool, Option<string>, int, Option<string>) {
    (log.weatherDelay, log.delays, log.safetyIncidents, log.safetyDetails)
  }

  // ---------------------------------------------------------------------------------------------
  // Rows

  predicate TakenLive(rows: seq<Log>, project: Id, day: int) {
    exists i :: 0 <= i < |rows| && rows[i].project == project && rows[i].day == day && !rows[i].deleted
  }

  /** The unique index on project and day covers deleted rows too. */
  predicate Taken(rows: seq<Log>, project: Id, day: int) {
    exists i :: 0 <= i < |rows| && rows[i].project == project && rows[i].day == day
  }

  predicate OneLogPerDay(rows: seq<Log>) {
    forall i, j :: 0 <= i < j < |rows| && rows[i].project == rows[j].project ==> rows[i].day != rows[j].day
  }

  predicate AllSound(rows: seq<Log>) {
    forall i :: 0 <= i < |rows| ==> Sound(rows[i])
  }

  function Find(rows: seq<Log>, id: Id): (r: Option<nat>)
    ensures r.Some? ==> r.value < |rows| && rows[r.value].id == id
    ensures r.None? ==> forall i :: 0 <= i < |rows| ==> rows[i].id != id
  {
    if rows == [] then None
    else if rows[|rows| - 1].id == id then Some(|rows| - 1)
    else Find(rows[..|rows| - 1], id)
  }

  function Photos(p: Payload): int {
    match p.photosCount
    case Some(n) => n
    case None => match Or(p.photoUrls, None) case Some(urls) => |urls| case None => 0
  }

  function NewLog(id: Id, project: Id, day: int, p: Payload): Log {
    Log(id, project, day, Or(p.weatherDelay, false), Or(p.delays, None), Or(p.safetyIncidents, 0),
        Or(p.safetyDetails, None), Or(p.safetyResolved, false), Or(p.crewCount, 0), Photos(p),
        Or(p.laborHours, None), Or(p.delayHours, None), false)
  }

  /** The submitted columns replaced; a photo list brings its count along. */
  function Patched(log: Log, p: Payload): Log {
    log.(weatherDelay := Or(p.weatherDelay, log.weatherDelay),
         delays := Or(p.delays, log.delays),
         safetyIncidents := Or(p.safetyIncidents, log.safetyIncidents),
         safetyDetails := Or(p.safetyDetails, log.safetyDetails),
         safetyResolved := Or(p.safetyResolved, log.safetyResolved),
         crewCount := Or(p.crewCount, log.crewCount),
         photosCount := if p.photosCount.None? && p.photoUrls.None? then log.photosCount else Photos(p),
         laborHours := Or(p.laborHours, log.laborHours),
         delayHours := Or(p.delayHours, log.delayHours))
  }

  /** An update is judged on the row it read merged with its patch. */
  function Merged(log: Log, p: Payload): Payload {
    Payload(Some(Day(log.day)), Some(Or(p.weatherDelay, log.weatherDelay)), Some(Or(p.delays, log.delays)),
            Some(Or(p.safetyIncidents, log.safetyIncidents)), Some(Or(p.safetyDetails, log.safetyDetails)),
            None, None, None, None, None, None)
  }

  /** The patched row is sound exactly when the patch merged with that row breaks no rule. */
  lemma PatchedSound(log: Log, p: Payload)
    ensures Sound(Patched(log, p)) <==> Valid(Merged(log, p))
  {
  }

  /** A text says enough when what lies between its outer blanks is long enough. */
  lemma DescribedMeans(text: Option<string>, least: nat)
    ensures Described(text, least) <==>
              text.Some? && exists from: nat, to: nat :: Trims(text.value, from, to) && to - from >= least
  {
    if text.Some? {
      var f, t := TrimmedMeans(text.value);
      forall from: nat, to: nat | Trims(text.value, from, to)
        ensures to - from == TrimmedLength(text.value)
      {
        TrimsLength(text.value, from, to);
      }
    }
  }

  /** The rules, over the columns of a stored log: ten characters on an incident, five on a weather delay. */
  lemma SoundMeans(log: Log)
    ensures Sound(log) <==>
              && (log.safetyIncidents > 0 ==> log.safetyDetails.Some? && TrimmedLength(log.safetyDetails.value) >= 10)
              && (log.weatherDelay ==> log.delays.Some? && TrimmedLength(log.delays.value) >= 5)
  {
  }

  /** A column after a patch: the submitted value, or the old one when none was submitted. */
  predicate Replaces<T(==)>(submitted: Option<T>, before: T, after: T) {
    match submitted case Some(v) => after == v case None => after == before
  }

  /** An update touches the submitted columns alone; a photo list without a count is counted. */
  lemma PatchedColumns(log: Log, p: Payload)
    ensures var next := Patched(log, p);
            && next.id == log.id && next.project == log.project && next.day == log.day && next.deleted == log.deleted
            && Replaces(p.weatherDelay, log.weatherDelay, next.weatherDelay)
            && Replaces(p.delays, log.delays, next.delays)
            && Replaces(p.safetyIncidents, log.safetyIncidents, next.safetyIncidents)
            && Replaces(p.safetyDetails, log.safetyDetails, next.safetyDetails)
            && Replaces(p.safetyResolved, log.safetyResolved, next.safetyResolved)
            && Replaces(p.crewCount, log.crewCount, next.crewCount)
            && Replaces(p.laborHours, log.laborHours, next.laborHours)
            && Replaces(p.delayHours, log.delayHours, next.delayHours)
            && (p.photosCount.Some? ==> next.photosCount == p.photosCount.value)
            && (p.photosCount.None? && p.photoUrls.None? ==> next.photosCount == log.photosCount)
            && (p.photosCount.None? && p.photoUrls == Some(None) ==> next.photosCount == 0)
            && (forall urls :: p.photosCount.None? && p.photoUrls == Some(Some(urls)) ==> next.photosCount == |urls|)
  {
  }

  /** A new log is the patch of an empty one: live, of its project and day, without anything not submitted. */
  lemma NewColumns(id: Id, project: Id, day: int, p: Payload)
    ensures var empty := Log(id, project, day, false, None, 0, None, false, 0, 0, None, None, false);
            NewLog(id, project, day, p) == Patched(empty, p)
  {
  }

  /** Only the four rule columns of the row count for that. */
  lemma SameColumnsSameVerdict(a: Log, b: Log, p: Payload)
    requires RuleColumns(a) == RuleColumns(b) && Valid(Merged(a, p))
    ensures Sound(Patched(b, p))
  {
    PatchedSound(a, p);
  }

  lemma NewSound(id: Id, project: Id, day: int, p: Payload)
    requires Valid(p.(date := Some(Day(day))))
    ensures Sound(NewLog(id, project, day, p))
  {
    assert !Breaks(p.(date := Some(Day(day))), DL002) && !Breaks(p.(date := Some(Day(day))), DL003);
  }

  // ---------------------------------------------------------------------------------------------
  // Writes

  /** The one writing statement of a call. */
  datatype Write = Insert(log: Log) | Patch(id: Id, payload: Payload) | Mark(id: Id)

  /** The rows after a statement; an insert that meets the unique index or its id changes nothing. */
  function WriteTo(rows: seq<Log>, w: Write): seq<Log> {
    match w
    case Insert(log) => if Refused(rows, log) then rows else rows + [log]
    case Patch(id, p) =>
      (match Find(rows, id) case None => rows case Some(i) => rows[i := Patched(rows[i], p)])
    case Mark(id) =>
      match Find(rows, id) case None => rows case Some(i) => rows[i := rows[i].(deleted := true)]
  }

  predicate Refused(rows: seq<Log>, log: Log) {
    Taken(rows, log.project, log.day) || Find(rows, log.id).Some?
  }

  function WriteAll(rows: seq<Log>, ws: seq<Write>): seq<Log> {
    if ws == [] then rows else WriteTo(WriteAll(rows, ws[..|ws| - 1]), ws[|ws| - 1])
  }

  lemma WriteLast(rows: seq<Log>, ws: seq<Write>, w: Write)
    ensures WriteAll(rows, ws + [w]) == WriteTo(WriteAll(rows, ws), w)
  {
    assert (ws + [w])[..|ws|] == ws;
  }

  /** Rows are never lost or moved, and keep id, project and day; a deleted one stays deleted. */
  ghost predicate Extends(before: seq<Log>, after: seq<Log>) {
    && |before| <= |after|
    && (forall i :: 0 <= i < |before| ==>
         && after[i].id == before[i].id && after[i].project == before[i].project && after[i].day == before[i].day
         && (before[i].deleted ==> after[i].deleted))
    && (forall id :: Find(before, id).Some? ==> Find(after, id) == Find(before, id))
  }

  lemma {:induction false} FindReplaced(rows: seq<Log>, i: nat, log: Log, id: Id)
    requires i < |rows| && log.id == rows[i].id
    ensures Find(rows[i := log], id) == Find(rows, id)
  {
    var last := |rows| - 1;
    ReplacedInit(rows, i, log);
    if i < last && rows[last].id != id {
      FindReplaced(rows[..last], i, log, id);
    }
  }

  lemma ReplacedInit(rows: seq<Log>, i: nat, log: Log)
    requires i < |rows|
    ensures var last := |rows| - 1;
            rows[i := log][..last] == if i < last then rows[..last][i := log] else rows[..last]
  {
  }

  lemma WriteExtends(rows: seq<Log>, w: Write)
    ensures Extends(rows, WriteTo(rows, w))
  {
    forall id | Find(rows, id).Some?
      ensures Find(WriteTo(rows, w), id) == Find(rows, id)
    {
      if w.Insert? {
        if !Refused(rows, w.log) { assert (rows + [w.log])[..|rows|] == rows; }
      } else if Find(rows, w.id).Some? {
        var i := Find(rows, w.id).value;
        FindReplaced(rows, i, WriteTo(rows, w)[i], id);
      }
    }
  }

  lemma {:induction false} WritesExtend(rows: seq<Log>, ws: seq<Write>)
    ensures Extends(rows, WriteAll(rows, ws))
  {
    if ws != [] {
      WritesExtend(rows, ws[..|ws| - 1]);
      WriteExtends(WriteAll(rows, ws[..|ws| - 1]), ws[|ws| - 1]);
    }
  }

  /** Whatever is written, in whatever order, the day index keeps one log per project and day. */
  lemma {:induction false} WritesKeepDays(rows: seq<Log>, ws: seq<Write>)
    requires OneLogPerDay(rows)
    ensures OneLogPerDay(WriteAll(rows, ws))
  {
    if ws != [] {
      WritesKeepDays(rows, ws[..|ws| - 1]);
      WriteKeepsDays(WriteAll(rows, ws[..|ws| - 1]), ws[|ws| - 1]);
    }
  }

  lemma WriteKeepsDays(rows: seq<Log>, w: Write)
    requires OneLogPerDay(rows)
    ensures OneLogPerDay(WriteTo(rows, w))
  {
    WriteExtends(rows, w);
  }

  /** A day once taken stays taken. */
  lemma TakenPersists(rows: seq<Log>, ws: seq<Write>, project: Id, day: int)
    requires Taken(rows, project, day)
    ensures Taken(WriteAll(rows, ws), project, day)
  {
    WritesExtend(rows, ws);
    var i :| 0 <= i < |rows| && rows[i].project == project && rows[i].day == day;
    assert WriteAll(rows, ws)[i].day == day;
  }

  /**
   * One statement keeps the store sound exactly when it is no insert of an unsound log and no patch
   * that breaks a rule together with the row as it is at that moment.
   */
  predicate Harmless(rows: seq<Log>, w: Write) {
    match w
    case Insert(log) => Refused(rows, log) || Sound(log)
    case Patch(id, p) => Find(rows, id).None? || Valid(Merged(rows[Find(rows, id).value], p))
    case Mark(_) => true
  }

  lemma SoundAfter(rows: seq<Log>, w: Write)
    requires AllSound(rows)
    ensures AllSound(WriteTo(rows, w)) <==> Harmless(rows, w)
  {
    var next := WriteTo(rows, w);
    match w {
      case Insert(log) =>
        if !Refused(rows, log) { assert next[|rows|] == log; }
      case Patch(id, p) =>
        if Find(rows, id).Some? {
          var i := Find(rows, id).value;
          PatchedSound(rows[i], p);
          assert next[i] == Patched(rows[i], p);
        }
      case Mark(_) =>
    }
  }

  // ---------------------------------------------------------------------------------------------
  // Calls

  datatype Call =
    | Create(id: Id, project: Id, payload: Payload, today: int)
    | Update(id: Id, payload: Payload)
    | Remove(id: Id)

  function DateOf(p: Payload, today: int): LogDate {
    Or(p.date, Day(today))
  }

  /** The reading half of a call: its write, or the error that ends it. */
  function Prepare(s: Store, call: Call): Result<Write> {
    match call
    case Create(id, project, p, today) =>
      var date := DateOf(p, today);
      var dated := p.(date := Some(date));
      if project !in s.projects then Err(ProjectNotFound)
      else if !Valid(dated) then Err(RuleBroken(FirstBroken(dated)))
      else
        assert !Breaks(dated, DL001);
        if TakenLive(s.rows, project, date.number) then Err(DuplicateLog)
        else Ok(Insert(NewLog(id, project, date.number, p)))
    case Update(id, p) =>
      (match Find(s.rows, id)
       case None => Err(LogNotFound)
       case Some(i) =>
         if !Valid(Merged(s.rows[i], p)) then Err(RuleBroken(FirstBroken(Merged(s.rows[i], p)))) else Ok(Patch(id, p)))
    case Remove(id) =>
      if Find(s.rows, id).None? then Err(LogNotFound) else Ok(Mark(id))
  }

  /** When each error ends the reading half of a call; a rule error names the first broken rule. */
  predicate Rejects(s: Store, call: Call, e: Error) {
    match call
    case Create(id, project, p, today) =>
      var date := if p.date.Some? then p.date.value else Day(today);
      (match e
       case ProjectNotFound => project !in s.projects
       case RuleBroken(rule) => project in s.projects && FirstOf(p.(date := Some(date)), rule)
       case DuplicateLog =>
         && project in s.projects && Valid(p.(date := Some(date))) && date.Day?
         && exists i :: 0 <= i < |s.rows| && s.rows[i].project == project && s.rows[i].day == date.number
                        && !s.rows[i].deleted
       case _ => false)
    case Update(id, p) =>
      (match e
       case LogNotFound => Find(s.rows, id).None?
       case RuleBroken(rule) => Find(s.rows, id).Some? && FirstOf(Merged(s.rows[Find(s.rows, id).value], p), rule)
       case _ => false)
    case Remove(id) => e == LogNotFound && Find(s.rows, id).None?
  }

  /** The rule is broken, and no rule before it is. */
  predicate FirstOf(p: Payload, rule: Rule) {
    Breaks(p, rule) && (rule == DL002 ==> !Breaks(p, DL001))
      && (rule == DL003 ==> !Breaks(p, DL001) && !Breaks(p, DL002))
  }

  lemma RejectedExactly(s: Store, call: Call, e: Error)
    ensures Prepare(s, call) == Err(e) <==> Rejects(s, call, e)
  {
  }

  // ---------------------------------------------------------------------------------------------
  // Overlapping calls

  /** A call between its two halves: its write and, for an update, the row it has read. */
  datatype Pending = Pending(write: Write, seen: Option<Log>)

  datatype System = System(store: Store, pending: map<nat, Pending>)

  /** The two events of a call, which carries a handle of its own. */
  datatype Event = Reads(handle: nat, call: Call) | Writes(handle: nat)

  function SeenBy(rows: seq<Log>, w: Write): Option<Log> {
    if w.Patch? && Find(rows, w.id).Some? then Some(rows[Find(rows, w.id).value]) else None
  }

  function Step(s: System, e: Event): System {
    match e
    case Reads(h, call) =>
      (match Prepare(s.store, call)
       case Err(_) => s
       case Ok(w) =>
         if h in s.pending then s else s.(pending := s.pending[h := Pending(w, SeenBy(s.store.rows, w))]))
    case Writes(h) =>
      if h !in s.pending then s
      else System(s.store.(rows := WriteTo(s.store.rows, s.pending[h].write)), s.pending - {h})
  }

  /** Any events in any order: every interleaving of any calls. */
  function Run(s: System, events: seq<Event>): System {
    if events == [] then s else Step(Run(s, events[..|events| - 1]), events[|events| - 1])
  }

  /** The statement that an event issues. */
  function Issued(s: System, e: Event): seq<Write> {
    if e.Writes? && e.handle in s.pending then [s.pending[e.handle].write] else []
  }

  function IssuedAll(s: System, events: seq<Event>): seq<Write> {
    if events == [] then []
    else IssuedAll(s, events[..|events| - 1]) + Issued(Run(s, events[..|events| - 1]), events[|events| - 1])
  }

  /** A run changes the rows only by the statements it issues. */
  lemma {:induction false} RunWrites(s: System, events: seq<Event>)
    ensures Run(s, events).store.rows == WriteAll(s.store.rows, IssuedAll(s, events))
    ensures Run(s, events).store.projects == s.store.projects
  {
    if events != [] {
      var init, last := events[..|events| - 1], events[|events| - 1];
      RunWrites(s, init);
      StepWrites(Run(s, init), last);
      var before, one := IssuedAll(s, init), Issued(Run(s, init), last);
      if one == [] {
        assert before + one == before;
      } else {
        WriteLast(s.store.rows, before, one[0]);
        assert one == [one[0]];
      }
    }
  }

  lemma StepWrites(s: System, e: Event)
    ensures Step(s, e).store.projects == s.store.projects
    ensures Step(s, e).store.rows == if Issued(s, e) == [] then s.store.rows else WriteTo(s.store.rows, Issued(s, e)[0])
    ensures |Issued(s, e)| <= 1
  {
  }

  /** Over every interleaving there is one log per project and day, and no log is lost or moved to another day. */
  lemma InterleavingsKeepDays(s: System, events: seq<Event>)
    requires OneLogPerDay(s.store.rows)
    ensures OneLogPerDay(Run(s, events).store.rows) && Extends(s.store.rows, Run(s, events).store.rows)
  {
    RunWrites(s, events);
    WritesKeepDays(s.store.rows, IssuedAll(s, events));
    WritesExtend(s.store.rows, IssuedAll(s, events));
  }

  /** Pending writes were judged on what their calls had read. */
  predicate Judged(p: Pending) {
    match p.write
    case Insert(log) => Sound(log)
    case Patch(_, payload) => p.seen.Some? && Valid(Merged(p.seen.value, payload))
    case Mark(_) => true
  }

  predicate AllJudged(s: System) {
    forall h :: h in s.pending ==> Judged(s.pending[h])
  }

  /** At the write of an update, the rule columns of its row are still those it read. */
  predicate Undisturbed(s: System, e: Event) {
    e.Writes? && e.handle in s.pending && s.pending[e.handle].write.Patch? && s.pending[e.handle].seen.Some? ==>
      var found := Find(s.store.rows, s.pending[e.handle].write.id);
      found.Some? ==> RuleColumns(s.store.rows[found.value]) == RuleColumns(s.pending[e.handle].seen.value)
  }

  lemma PreparedIsJudged(s: Store, call: Call)
    requires Prepare(s, call).Ok?
    ensures Judged(Pending(Prepare(s, call).value, SeenBy(s.rows, Prepare(s, call).value)))
  {
    if call.Create? {
      var day := DateOf(call.payload, call.today).number;
      NewSound(call.id, call.project, day, call.payload);
    }
  }

  lemma StepKeepsSound(s: System, e: Event)
    requires AllSound(s.store.rows) && AllJudged(s) && Undisturbed(s, e)
    ensures AllSound(Step(s, e).store.rows) && AllJudged(Step(s, e))
  {
    match e {
      case Reads(h, call) =>
        if Prepare(s.store, call).Ok? { PreparedIsJudged(s.store, call); }
      case Writes(h) =>
        if h in s.pending {
          var p := s.pending[h];
          assert Judged(p);
          if p.write.Patch? && Find(s.store.rows, p.write.id).Some? {
            var now := s.store.rows[Find(s.store.rows, p.write.id).value];
            SameColumnsSameVerdict(p.seen.value, now, p.write.payload);
            PatchedSound(now, p.write.payload);
          }
          SoundAfter(s.store.rows, p.write);
        }
    }
  }

  /**
   * Over every interleaving in which no update writes onto other rule columns than it read, all
   * stored logs stay free of violations.
   */
  lemma {:induction false} UndisturbedRunsKeepSound(s: System, events: seq<Event>)
    requires AllSound(s.store.rows) && AllJudged(s)
    requires forall i :: 0 <= i < |events| ==> Undisturbed(Run(s, events[..i]), events[i])
    ensures AllSound(Run(s, events).store.rows) && AllJudged(Run(s, events))
  {
    if events != [] {
      var last := |events| - 1;
      var init := events[..last];
      forall i | 0 <= i < |init|
        ensures Undisturbed(Run(s, init[..i]), init[i])
      {
        assert init[..i] == events[..i];
      }
      UndisturbedRunsKeepSound(s, init);
      StepKeepsSound(Run(s, init), events[last]);
    }
  }

  /** None of the statements is a patch of that log which names one of the four rule columns. */
  predicate Quiet(ws: seq<Write>, id: Id) {
    forall i :: 0 <= i < |ws| && ws[i].Patch? && ws[i].id == id ==> !NamesRuleColumn(ws[i].payload)
  }

  predicate NamesRuleColumn(p: Payload) {
    p.weatherDelay.Some? || p.delays.Some? || p.safetyIncidents.Some? || p.safetyDetails.Some?
  }

  /** What a caller can see to: while the other statements are quiet, the rule columns of the log stay as read. */
  lemma {:induction false} QuietKeepsColumns(rows: seq<Log>, ws: seq<Write>, i: nat)
    requires i < |rows| && Find(rows, rows[i].id) == Some(i) && Quiet(ws, rows[i].id)
    ensures i < |WriteAll(rows, ws)| && RuleColumns(WriteAll(rows, ws)[i]) == RuleColumns(rows[i])
  {
    if ws != [] {
      var init := ws[..|ws| - 1];
      QuietKeepsColumns(rows, init, i);
      WritesExtend(rows, init);
    }
  }

  /** The same when an update's read and write are two events of a run with quiet statements in between. */
  lemma QuietIsUndisturbed(s: System, call: Call, h: nat, events: seq<Event>)
    requires call.Update? && h !in s.pending && Prepare(s.store, call).Ok?
    requires var reading := Step(s, Reads(h, call));
             Quiet(IssuedAll(reading, events), call.id) && h in Run(reading, events).pending
             && Run(reading, events).pending[h] == reading.pending[h]
    ensures Undisturbed(Run(Step(s, Reads(h, call)), events), Writes(h))
  {
    var reading := Step(s, Reads(h, call));
    var i := Find(s.store.rows, call.id).value;
    RunWrites(reading, events);
    WritesExtend(s.store.rows, IssuedAll(reading, events));
    QuietKeepsColumns(s.store.rows, IssuedAll(reading, events), i);
  }

  lemma {:induction false} RunSplits(s: System, a: seq<Event>, b: seq<Event>)
    ensures Run(s, a + b) == Run(Run(s, a), b)
  {
    if b == [] {
      assert a + b == a;
    } else {
      var last := |b| - 1;
      RunSplits(s, a, b[..last]);
      assert (a + b)[..|a + b| - 1] == a + b[..last];
    }
  }

  /** Event i of a run is the read of an update that goes on to write. */
  predicate Opens(s: System, events: seq<Event>, i: nat)
    requires i < |events|
  {
    && events[i].Reads? && events[i].call.Update?
    && events[i].handle !in Run(s, events[..i]).pending
    && Prepare(Run(s, events[..i]).store, events[i].call).Ok?
  }

  /** Event j is the write of the call that event i has read for. */
  predicate Closes(events: seq<Event>, i: nat, j: nat)
    requires i < j < |events| && events[i].Reads?
  {
    events[j] == Writes(events[i].handle) && forall k :: i < k < j ==> events[k] != events[j]
  }

  /** Between the read and the write of every update, the other statements are quiet for its log. */
  ghost predicate QuietRun(s: System, events: seq<Event>) {
    forall i, j :: 0 <= i < j < |events| && Opens(s, events, i) && Closes(events, i, j) ==>
      Quiet(IssuedAll(Run(s, events[..i + 1]), events[i + 1..j]), events[i].call.id)
  }

  /** Event i opened what is pending for the handle after the run, and nothing has closed it since. */
  predicate OpenedAt(s: System, events: seq<Event>, h: nat, i: nat) {
    && i < |events| && Opens(s, events, i) && events[i].handle == h
    && h in Run(s, events[..i + 1]).pending && h in Run(s, events).pending
    && Run(s, events[..i + 1]).pending[h] == Run(s, events).pending[h]
    && forall k :: i < k < |events| ==> events[k] != Writes(h)
  }

  lemma OpenedEarlier(s: System, events: seq<Event>, h: nat, i: nat)
    requires events != [] && OpenedAt(s, events[..|events| - 1], h, i) && events[|events| - 1] != Writes(h)
    requires h in Run(s, events).pending && Run(s, events).pending[h] == Run(s, events[..|events| - 1]).pending[h]
    ensures OpenedAt(s, events, h, i)
  {
    var last := |events| - 1;
    PrefixAgrees(s, events, last, i);
    forall k | i < k < |events|
      ensures events[k] != Writes(h)
    {
      if k < last { assert events[..last][k] == events[k]; }
    }
  }

  lemma OpenedLast(s: System, events: seq<Event>, h: nat)
    requires events != [] && h !in Run(s, events[..|events| - 1]).pending
    requires h in Run(s, events).pending && Run(s, events).pending[h].write.Patch?
    ensures OpenedAt(s, events, h, |events| - 1)
  {
    var last := |events| - 1;
    PendingAfter(Run(s, events[..last]), events[last], h);
    assert events[..last + 1] == events;
  }

  /** Every pending update was opened by a read whose write is still to come. */
  lemma {:induction false} PendingOpened(s: System, events: seq<Event>, h: nat) returns (i: nat)
    requires s.pending == map[] && h in Run(s, events).pending && Run(s, events).pending[h].write.Patch?
    ensures OpenedAt(s, events, h, i)
  {
    var last := |events| - 1;
    var before := Run(s, events[..last]);
    PendingAfter(before, events[last], h);
    if h in before.pending {
      i := PendingOpened(s, events[..last], h);
      OpenedEarlier(s, events, h, i);
    } else {
      i := last;
      OpenedLast(s, events, h);
    }
  }

  /** What is pending after an event was pending before or was just read for. */
  lemma PendingAfter(s: System, e: Event, h: nat)
    requires h in Step(s, e).pending
    ensures h in s.pending ==> Step(s, e).pending[h] == s.pending[h] && e != Writes(h)
    ensures h !in s.pending ==>
              e.Reads? && e.handle == h && Prepare(s.store, e.call).Ok?
              && Step(s, e).pending[h].write == Prepare(s.store, e.call).value
    ensures h !in s.pending && Step(s, e).pending[h].write.Patch? ==> e.call.Update?
  {
  }

  lemma PrefixAgrees(s: System, events: seq<Event>, n: nat, i: nat)
    requires i < n <= |events|
    ensures events[..n][..i] == events[..i] && events[..n][..i + 1] == events[..i + 1] && events[..n][i] == events[i]
    ensures Opens(s, events[..n], i) <==> Opens(s, events, i)
  {
  }

  /** The moments before, at and after event i, seen from a later event j. */
  lemma RunAt(s: System, events: seq<Event>, i: nat, j: nat)
    requires i < j <= |events|
    ensures events[..j][..i] == events[..i] && events[..j][..i + 1] == events[..i + 1]
    ensures Run(s, events[..i + 1]) == Step(Run(s, events[..i]), events[i])
    ensures Run(s, events[..j]) == Run(Run(s, events[..i + 1]), events[i + 1..j])
  {
    assert events[..i + 1][..i] == events[..i];
    assert events[..j] == events[..i + 1] + events[i + 1..j];
    RunSplits(s, events[..i + 1], events[i + 1..j]);
  }

  lemma ClosedAt(events: seq<Event>, i: nat, j: nat)
    requires i < j < |events| && events[i].Reads? && events[j] == Writes(events[i].handle)
    requires forall k :: i < k < |events[..j]| ==> events[..j][k] != events[j]
    ensures Closes(events, i, j)
  {
    forall k | i < k < j ensures events[k] != events[j] { assert events[..j][k] == events[k]; }
  }

  /** A pending update whose run was quiet since its read is undisturbed at its write. */
  lemma QuietWrite(s: System, events: seq<Event>, j: nat)
    requires s.pending == map[] && QuietRun(s, events) && j < |events|
    ensures Undisturbed(Run(s, events[..j]), events[j])
  {
    var here, e := Run(s, events[..j]), events[j];
    if e.Writes? && e.handle in here.pending && here.pending[e.handle].write.Patch? {
      var i := PendingOpened(s, events[..j], e.handle);
      RunAt(s, events, i, j);
      ClosedAt(events, i, j);
      assert Opens(s, events, i);
      QuietIsUndisturbed(Run(s, events[..i]), events[i].call, e.handle, events[i + 1..j]);
    }
  }

  /**
   * Over every interleaving in which nobody else names a rule column of a log between the read and
   * the write of an update of it, all stored logs stay free of violations.
   */
  lemma QuietRunsKeepSound(s: System, events: seq<Event>)
    requires AllSound(s.store.rows) && s.pending == map[] && QuietRun(s, events)
    ensures AllSound(Run(s, events).store.rows)
  {
    forall j | 0 <= j < |events|
      ensures Undisturbed(Run(s, events[..j]), events[j])
    {
      QuietWrite(s, events, j);
    }
    UndisturbedRunsKeepSound(s, events);
  }

  /** The statement of an event, if it issues one, does no harm to the rows as they are then. */
  predicate HarmlessAt(s: System, e: Event) {
    e.Writes? && e.handle in s.pending ==> Harmless(s.store.rows, s.pending[e.handle].write)
  }

  /** Every moment of a run is free of violations exactly when every statement was harmless at its moment. */
  lemma {:induction false} SoundThroughout(s: System, events: seq<Event>)
    requires AllSound(s.store.rows)
    ensures (forall k :: 0 <= k <= |events| ==> AllSound(Run(s, events[..k]).store.rows))
       <==> (forall k :: 0 <= k < |events| ==> HarmlessAt(Run(s, events[..k]), events[k]))
  {
    if forall k :: 0 <= k <= |events| ==> AllSound(Run(s, events[..k]).store.rows) {
      forall k | 0 <= k < |events|
        ensures HarmlessAt(Run(s, events[..k]), events[k])
      {
        SoundStep(s, events, k);
      }
    }
    if forall k :: 0 <= k < |events| ==> HarmlessAt(Run(s, events[..k]), events[k]) {
      forall k | 0 <= k <= |events|
        ensures AllSound(Run(s, events[..k]).store.rows)
      {
        HarmlessPrefix(s, events, k);
      }
    }
  }

  lemma SoundStep(s: System, events: seq<Event>, k: nat)
    requires k < |events| && AllSound(Run(s, events[..k]).store.rows)
    ensures AllSound(Run(s, events[..k + 1]).store.rows) <==> HarmlessAt(Run(s, events[..k]), events[k])
  {
    var here := Run(s, events[..k]);
    assert events[..k + 1][..k] == events[..k] && events[..k + 1][k] == events[k];
    if events[k].Writes? && events[k].handle in here.pending {
      SoundAfter(here.store.rows, here.pending[events[k].handle].write);
    }
  }

  lemma {:induction false} HarmlessPrefix(s: System, events: seq<Event>, k: nat)
    requires k <= |events| && AllSound(s.store.rows)
    requires forall i :: 0 <= i < |events| ==> HarmlessAt(Run(s, events[..i]), events[i])
    ensures AllSound(Run(s, events[..k]).store.rows)
    decreases k
  {
    if k > 0 {
      HarmlessPrefix(s, events, k - 1);
      SoundStep(s, events, k - 1);
    }
  }

  /** Two updates that each pass the check on the same row and together break a rule. */
  lemma OverlapBreaksRules()
    ensures var log := Log("log", "project", 0, false, Some("heavy rain"), 0, None, false, 0, 0, None, None, false);
            var blank := Payload(None, None, None, None, None, None, None, None, None, None, None);
            var a, b := Update("log", blank.(weatherDelay := Some(true))), Update("log", blank.(delays := Some(None)));
            var s := System(Store([log], {"project"}), map[]);
            && Sound(log)
            && Prepare(s.store, a).Ok? && Prepare(s.store, b).Ok?
            && !AllSound(Run(s, [Reads(0, a), Reads(1, b), Writes(0), Writes(1)]).store.rows)
  {
    var log := Log("log", "project", 0, false, Some("heavy rain"), 0, None, false, 0, 0, None, None, false);
    var blank := Payload(None, None, None, None, None, None, None, None, None, None, None);
    var a, b := Update("log", blank.(weatherDelay := Some(true))), Update("log", blank.(delays := Some(None)));
    var s0 := System(Store([log], {"project"}), map[]);
    assert TrimmedLength("heavy rain") == 10;
    assert Find([log], "log") == Some(0);
    assert Prepare(s0.store, a) == Ok(Patch("log", a.payload));
    assert Prepare(s0.store, b) == Ok(Patch("log", b.payload));
    var s1 := Step(s0, Reads(0, a));
    var s2 := Step(s1, Reads(1, b));
    var s3 := Step(s2, Writes(0));
    assert s3.store.rows == [Patched(log, a.payload)];
    assert Find(s3.store.rows, "log") == Some(0);
    var s4 := Step(s3, Writes(1));
    assert s4.store.rows == [Patched(Patched(log, a.payload), b.payload)];
    var events := [Reads(0, a), Reads(1, b), Writes(0), Writes(1)];
    assert events[..3] == [Reads(0, a), Reads(1, b), Writes(0)] && events[..3][..2] == [Reads(0, a), Reads(1, b)];
    assert events[..3][..2][..1] == [Reads(0, a)] && events[..3][..2][..1][..0] == [];
    assert Run(s0, events[..3][..2][..1]) == s1;
    assert Run(s0, events[..3][..2]) == s2;
    assert Run(s0, events[..3]) == s3;
    assert !Sound(s4.store.rows[0]);
  }

  // ---------------------------------------------------------------------------------------------
  // Creating

  /** A create whose project exists, whose payload is valid and whose id is unused. */
  predicate Creatable(s: Store, call: Call, ws: seq<Write>) {
    && call.Create? && call.project in s.projects
    && Valid(call.payload.(date := Some(DateOf(call.payload, call.today))))
    && Find(WriteAll(s.rows, ws), call.id).None?
  }

  /** How a create ends that reads `s` and inserts after the statements `ws` of other calls. */
  function Outcome(s: Store, call: Call, ws: seq<Write>): Option<Error>
    requires call.Create?
  {
    match Prepare(s, call)
    case Err(e) => Some(e)
    case Ok(w) => if Refused(WriteAll(s.rows, ws), w.log) then Some(UniqueViolation) else None
  }

  /**
   * A valid new log is accepted exactly when no row, live or deleted, holds its day at the insert.  A
   * live row at the read gives DUPLICATE_LOG; a row that is deleted, or came in between, gives the
   * error of the index.
   */
  lemma CreateOutcome(s: Store, call: Call, ws: seq<Write>)
    requires Creatable(s, call, ws)
    ensures var day := DateOf(call.payload, call.today);
            && day.Day?
            && (Outcome(s, call, ws) == None <==> !Taken(WriteAll(s.rows, ws), call.project, day.number))
            && (Outcome(s, call, ws) == Some(DuplicateLog) <==> TakenLive(s.rows, call.project, day.number))
            && (Outcome(s, call, ws) == Some(UniqueViolation) <==>
                  Taken(WriteAll(s.rows, ws), call.project, day.number) && !TakenLive(s.rows, call.project, day.number))
  {
    var dated := call.payload.(date := Some(DateOf(call.payload, call.today)));
    assert !Breaks(dated, DL001);
    var day := DateOf(call.payload, call.today).number;
    if TakenLive(s.rows, call.project, day) {
      TakenPersists(s.rows, ws, call.project, day);
    }
  }

  /** A call that nothing overlaps. */
  function Whole(s: Store, call: Call): Store {
    match Prepare(s, call) case Ok(w) => s.(rows := WriteTo(s.rows, w)) case Err(_) => s
  }

  /** Over every run of calls that do not overlap, the stored logs stay free of violations. */
  lemma {:induction false} WholeCallsKeep(s: Store, calls: seq<Call>)
    requires OneLogPerDay(s.rows) && AllSound(s.rows)
    ensures OneLogPerDay(WholeAll(s, calls).rows) && AllSound(WholeAll(s, calls).rows)
  {
    if calls != [] {
      var before, call := WholeAll(s, calls[..|calls| - 1]), calls[|calls| - 1];
      WholeCallsKeep(s, calls[..|calls| - 1]);
      if Prepare(before, call).Ok? {
        PreparedIsJudged(before, call);
        WriteKeepsDays(before.rows, Prepare(before, call).value);
        SoundAfter(before.rows, Prepare(before, call).value);
      }
    }
  }

  function WholeAll(s: Store, calls: seq<Call>): Store {
    if calls == [] then s else Whole(WholeAll(s, calls[..|calls| - 1]), calls[|calls| - 1])
  }

  lemma CreatedRow(s: Store, call: Call) returns (log: Log)
    requires Creatable(s, call, []) && Outcome(s, call, []) == None
    ensures DateOf(call.payload, call.today).Day?
    ensures log.id == call.id && log.project == call.project && log.day == DateOf(call.payload, call.today).number
    ensures Whole(s, call) == s.(rows := s.rows + [log]) && !Taken(s.rows, log.project, log.day)
    ensures Find(Whole(s, call).rows, call.id) == Some(|s.rows|)
  {
    CreateOutcome(s, call, []);
    log := Prepare(s, call).value.log;
    assert (s.rows + [log])[|s.rows|] == log;
  }

  /** With one log per day, removing the log of a day leaves the day taken and no live log on it. */
  lemma RemovedDay(rows: seq<Log>, i: nat)
    requires OneLogPerDay(rows) && i < |rows|
    ensures var next := rows[i := rows[i].(deleted := true)];
            Taken(next, rows[i].project, rows[i].day) && !TakenLive(next, rows[i].project, rows[i].day)
  {
    var next := rows[i := rows[i].(deleted := true)];
    assert next[i].project == rows[i].project && next[i].day == rows[i].day;
  }

  /** A deleted log keeps its day: create, remove, create again on that day, and the index refuses. */
  lemma DeletedDayBlocks(s: Store, first: Call, second: Call)
    requires OneLogPerDay(s.rows)
    requires Creatable(s, first, []) && Outcome(s, first, []) == None
    requires Creatable(Whole(Whole(s, first), Remove(first.id)), second, []) && second.project == first.project
    requires DateOf(second.payload, second.today) == DateOf(first.payload, first.today)
    ensures Outcome(Whole(Whole(s, first), Remove(first.id)), second, []) == Some(UniqueViolation)
  {
    var log := CreatedRow(s, first);
    var one := Whole(s, first);
    WriteKeepsDaysIfAny(s.rows, Insert(log));
    assert OneLogPerDay(one.rows) && one.rows[|s.rows|] == log;
    RemovedDay(one.rows, |s.rows|);
    assert Whole(one, Remove(first.id)).rows == one.rows[|s.rows| := log.(deleted := true)];
    CreateOutcome(Whole(one, Remove(first.id)), second, []);
  }

  /** Two creates for one day that both read before either inserts: the second insert meets the index. */
  lemma OverlappingCreates(s: Store, first: Call, second: Call)
    requires Creatable(s, first, []) && Outcome(s, first, []) == None
    requires Creatable(s, second, [Prepare(s, first).value]) && second.project == first.project
    requires DateOf(second.payload, second.today) == DateOf(first.payload, first.today)
    ensures Outcome(s, second, [Prepare(s, first).value]) == Some(UniqueViolation)
  {
    CreateOutcome(s, first, []);
    var w := Prepare(s, first).value;
    CreateOutcome(s, second, [w]);
    assert [w][..0] == [];
    assert WriteAll(s.rows, [w]) == s.rows + [w.log];
    assert WriteAll(s.rows, [w])[|s.rows|] == w.log;
    assert !TakenLive(s.rows, first.project, DateOf(first.payload, first.today).number);
  }

  // ---------------------------------------------------------------------------------------------
  // The calls as written

  /** The table; `meanwhile` is what other calls write between the read and the write of a call. */
  class LogDb {
    var rows: seq<Log>
    var projects: set<Id>

    function State(): Store
      reads this
    {
      Store(rows, projects)
    }

    method Others(meanwhile: seq<Write>)
      modifies this`rows
      ensures rows == WriteAll(old(rows), meanwhile)
      ensures Extends(old(rows), rows) && (OneLogPerDay(old(rows)) ==> OneLogPerDay(rows))
    {
      WritesExtend(rows, meanwhile);
      if OneLogPerDay(rows) { WritesKeepDays(rows, meanwhile); }
      rows := WriteAll(rows, meanwhile);
    }

    /**
     * One new, sound row at the end of the table, or the error that CreateOutcome describes; no
     * second row for a day in either case.
     */
    method CreateDailyLog(id: Id, project: Id, payload: Payload, today: int, meanwhile: seq<Write>)
      returns (error: Option<Error>)
      modifies this`rows
      ensures error == Outcome(old(State()), Create(id, project, payload, today), meanwhile)
      ensures error == None ==>
                && DateOf(payload, today).Day?
                && var log := NewLog(id, project, DateOf(payload, today).number, payload);
                   rows == WriteAll(old(rows), meanwhile) + [log] && Sound(log)
      ensures error == Some(UniqueViolation) ==> rows == WriteAll(old(rows), meanwhile)
      ensures error != None && error != Some(UniqueViolation) ==> rows == old(rows)
      ensures Extends(old(rows), rows) && (OneLogPerDay(old(rows)) ==> OneLogPerDay(rows))
    {
      if project !in projects {
        return Some(ProjectNotFound);
      }
      var date := if payload.date.Some? then payload.date.value else Day(today);
      var violations := ValidateDailyLog(payload.(date := Some(date)));
      if |violations| > 0 {
        FirstReported(payload.(date := Some(date)), violations);
        return Some(RuleBroken(violations[0]));
      }
      assert !Breaks(payload.(date := Some(date)), DL001);
      if TakenLive(rows, project, date.number) {
        return Some(DuplicateLog);
      }
      Others(meanwhile);
      if Taken(rows, project, date.number) || Find(rows, id).Some? {
        return Some(UniqueViolation);
      }
      var log := NewLog(id, project, date.number, payload);
      NewSound(id, project, date.number, payload);
      WriteKeepsDaysIfAny(rows, Insert(log));
      rows := rows + [log];
      return None;
    }

    /**
     * The submitted columns replace those of the row as it is by then, and no other row or column
     * changes.  The result is sound exactly when the patch fits the row at that moment, and always
     * when nobody else names a rule column of the log in between.
     */
    method UpdateDailyLog(id: Id, payload: Payload, meanwhile: seq<Write>) returns (error: Option<Error>)
      modifies this`rows
      ensures error == match Prepare(old(State()), Update(id, payload)) case Err(e) => Some(e) case Ok(_) => None
      ensures error != None ==> rows == old(rows)
      ensures error == None ==>
                var i, now := Find(old(rows), id).value, WriteAll(old(rows), meanwhile);
                && i < |now| && |rows| == |now| && (forall k :: 0 <= k < |now| && k != i ==> rows[k] == now[k])
                && rows[i] == Patched(now[i], payload)
                && (Sound(rows[i]) <==> Valid(Merged(now[i], payload)))
                && (Quiet(meanwhile, id) ==> Sound(rows[i]))
      ensures Extends(old(rows), rows) && (OneLogPerDay(old(rows)) ==> OneLogPerDay(rows))
    {
      var found := Find(rows, id);
      if found == None {
        return Some(LogNotFound);
      }
      var before := rows[found.value];
      var violations := ValidateDailyLog(Merged(before, payload));
      if |violations| > 0 {
        FirstReported(Merged(before, payload), violations);
        return Some(RuleBroken(violations[0]));
      }
      UpdateLands(rows, meanwhile, found.value, payload);
      Others(meanwhile);
      rows := rows[found.value := Patched(rows[found.value], payload)];
      return None;
    }

    /** The row is marked and nothing else changes; its day is no longer live, and stays taken. */
    method DeleteDailyLog(id: Id, meanwhile: seq<Write>) returns (error: Option<Error>)
      modifies this`rows
      ensures error == None <==> Find(old(rows), id).Some?
      ensures error != None ==> error == Some(LogNotFound) && rows == old(rows)
      ensures error == None ==>
                var i, now := Find(old(rows), id).value, WriteAll(old(rows), meanwhile);
                && i < |now| && rows == now[i := now[i].(deleted := true)]
                && Taken(rows, rows[i].project, rows[i].day)
                && (OneLogPerDay(old(rows)) ==> !TakenLive(rows, rows[i].project, rows[i].day))
      ensures Extends(old(rows), rows) && (OneLogPerDay(old(rows)) ==> OneLogPerDay(rows))
    {
      var found := Find(rows, id);
      if found == None {
        return Some(LogNotFound);
      }
      MarkLands(rows, meanwhile, found.value);
      Others(meanwhile);
      rows := rows[found.value := rows[found.value].(deleted := true)];
      return None;
    }
  }

  /** A statement that follows those of other calls. */
  lemma WriteFollows(rows: seq<Log>, ws: seq<Write>, w: Write)
    ensures Extends(rows, WriteTo(WriteAll(rows, ws), w))
    ensures OneLogPerDay(rows) ==> OneLogPerDay(WriteTo(WriteAll(rows, ws), w))
  {
    WriteLast(rows, ws, w);
    WritesExtend(rows, ws + [w]);
    if OneLogPerDay(rows) { WritesKeepDays(rows, ws + [w]); }
  }

  /** Where the patch of an update lands, and when the row is sound then. */
  lemma UpdateLands(rows: seq<Log>, ws: seq<Write>, i: nat, p: Payload)
    requires i < |rows| && Find(rows, rows[i].id) == Some(i) && Valid(Merged(rows[i], p))
    ensures var now := WriteAll(rows, ws);
            && i < |now|
            && (Sound(Patched(now[i], p)) <==> Valid(Merged(now[i], p)))
            && (Quiet(ws, rows[i].id) ==> Sound(Patched(now[i], p)))
            && Extends(rows, now[i := Patched(now[i], p)])
            && (OneLogPerDay(rows) ==> OneLogPerDay(now[i := Patched(now[i], p)]))
  {
    var id := rows[i].id;
    WritesExtend(rows, ws);
    var now := WriteAll(rows, ws);
    assert Find(now, id) == Some(i);
    WriteFollows(rows, ws, Patch(id, p));
    assert WriteTo(now, Patch(id, p)) == now[i := Patched(now[i], p)];
    PatchedSound(now[i], p);
    if Quiet(ws, id) {
      QuietKeepsColumns(rows, ws, i);
      SameColumnsSameVerdict(rows[i], now[i], p);
    }
  }

  /** Where the mark of a removal lands: the row's day stays taken, by no live log. */
  lemma MarkLands(rows: seq<Log>, ws: seq<Write>, i: nat)
    requires i < |rows| && Find(rows, rows[i].id) == Some(i)
    ensures var now := WriteAll(rows, ws);
            && i < |now|
            && var marked := now[i := now[i].(deleted := true)];
               && Extends(rows, marked) && Taken(marked, marked[i].project, marked[i].day)
               && (OneLogPerDay(rows) ==>
                     OneLogPerDay(marked) && !TakenLive(marked, marked[i].project, marked[i].day))
  {
    var id := rows[i].id;
    WritesExtend(rows, ws);
    var now := WriteAll(rows, ws);
    assert Find(now, id) == Some(i);
    WriteFollows(rows, ws, Mark(id));
    var marked := now[i := now[i].(deleted := true)];
    assert WriteTo(now, Mark(id)) == marked;
    assert marked[i].deleted;
  }

  lemma WriteKeepsDaysIfAny(rows: seq<Log>, w: Write)
    ensures OneLogPerDay(rows) ==> OneLogPerDay(WriteTo(rows, w))
    ensures Extends(rows, WriteTo(rows, w))
  {
    WriteExtends(rows, w);
    if OneLogPerDay(rows) { WriteKeepsDays(rows, w); }
  }

  /** The rule that the error names is the first broken one. */
  lemma FirstReported(p: Payload, violations: seq<Rule>)
    requires violations != [] && !Valid(p)
    requires forall rule :: rule in violations <==> Breaks(p, rule)
    requires forall i, j :: 0 <= i < j < |violations| ==> Rank(violations[i]) < Rank(violations[j])
    ensures violations[0] == FirstBroken(p)
  {
    var first := FirstBroken(p);
    assert first in violations && violations[0] in violations;
    var i :| 0 <= i < |violations| && violations[i] == first;
    match violations[0] case DL001 => case DL002 => case DL003 =>
  }
}
