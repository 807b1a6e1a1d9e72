/**
 * The coverage summary of a project (server/daily-log-db.ts): how many days between its first and
 * last listed log have no log.
 */
module DailySummary {
  import opened Wrappers
  import opened DailyLog

  const LIST_LIMIT: nat := 2000

  predicate Live(log: Log, project: Id) {
    log.project == project && !log.deleted
  }

  function LiveLogs(rows: seq<Log>, project: Id): seq<Log> {
    if rows == [] then []
    else (if Live(rows[0], project) then [rows[0]] else []) + LiveLogs(rows[1..], project)
  }

  function InsertRecent(log: Log, s: seq<Log>): seq<Log> {
    if s == [] || s[0].day <= log.day then [log] + s else [s[0]] + InsertRecent(log, s[1..])
  }

  function MostRecentFirst(s: seq<Log>): seq<Log> {
    if s == [] then [] else InsertRecent(s[0], MostRecentFirst(s[1..]))
  }

  /** The listing: live logs, most recent first, cut at the limit. */
  function ListLogs(rows: seq<Log>, project: Id): seq<Log> {
    var sorted := MostRecentFirst(LiveLogs(rows, project));
    if |sorted| <= LIST_LIMIT then sorted else sorted[..LIST_LIMIT]
  }

  predicate StrictlyRecent(s: seq<Log>) {
    forall i, j :: 0 <= i < j < |s| ==> s[i].day > s[j].day
  }

  predicate HasDay(s: seq<Log>, day: int) {
    exists i :: 0 <= i < |s| && s[i].day == day
  }

  predicate DistinctDays(s: seq<Log>) {
    forall i, j :: 0 <= i < j < |s| ==> s[i].day != s[j].day
  }

  lemma HasDayCons(log: Log, s: seq<Log>, day: int)
    ensures HasDay([log] + s, day) <==> log.day == day || HasDay(s, day)
  {
    var r := [log] + s;
    assert r[0] == log;
    if i :| 0 <= i < |s| && s[i].day == day { assert r[i + 1].day == day; }
    if i :| 0 <= i < |r| && r[i].day == day && i > 0 { assert s[i - 1].day == day; }
  }

  lemma TakenLiveCons(log: Log, rows: seq<Log>, project: Id, day: int)
    ensures TakenLive([log] + rows, project, day) <==>
              (Live(log, project) && log.day == day) || TakenLive(rows, project, day)
  {
    var r := [log] + rows;
    assert r[0] == log;
    if i :| 0 <= i < |rows| && rows[i].project == project && rows[i].day == day && !rows[i].deleted {
      assert r[i + 1] == rows[i];
    }
    if i :| 0 <= i < |r| && r[i].project == project && r[i].day == day && !r[i].deleted && i > 0 {
      assert rows[i - 1] == r[i];
    }
  }

  lemma {:induction false} LiveDays(rows: seq<Log>, project: Id, day: int)
    ensures HasDay(LiveLogs(rows, project), day) <==> TakenLive(rows, project, day)
  {
    if rows != [] {
      var rest := rows[1..];
      LiveDays(rest, project, day);
      assert rows == [rows[0]] + rest;
      TakenLiveCons(rows[0], rest, project, day);
      HasDayCons(rows[0], LiveLogs(rest, project), day);
      assert [] + LiveLogs(rest, project) == LiveLogs(rest, project);
    }
  }

  lemma {:induction false} LiveDistinct(rows: seq<Log>, project: Id)
    requires OneLogPerDay(rows)
    ensures DistinctDays(LiveLogs(rows, project))
  {
    if rows != [] {
      var rest := rows[1..];
      assert forall i :: 0 <= i < |rest| ==> rest[i] == rows[i + 1];
      LiveDistinct(rest, project);
      if Live(rows[0], project) {
        LiveDays(rest, project, rows[0].day);
        assert !TakenLive(rest, project, rows[0].day);
      }
    }
  }

  lemma {:induction false} InsertDays(log: Log, s: seq<Log>, day: int)
    ensures |InsertRecent(log, s)| == |s| + 1
    ensures HasDay(InsertRecent(log, s), day) <==> log.day == day || HasDay(s, day)
  {
    var r := InsertRecent(log, s);
    if s == [] || s[0].day <= log.day {
      assert r[0] == log;
      if i :| 0 <= i < |s| && s[i].day == day { assert r[i + 1].day == day; }
      if i :| 0 <= i < |r| && r[i].day == day && i > 0 { assert s[i - 1].day == day; }
    } else {
      var rest := s[1..];
      var more := InsertRecent(log, rest);
      InsertDays(log, rest, day);
      assert r[0] == s[0];
      if i :| 0 <= i < |s| && s[i].day == day && i > 0 { assert rest[i - 1].day == day; }
      if i :| 0 <= i < |rest| && rest[i].day == day { assert s[i + 1].day == day; }
      if i :| 0 <= i < |more| && more[i].day == day { assert r[i + 1].day == day; }
      if i :| 0 <= i < |r| && r[i].day == day && i > 0 { assert more[i - 1].day == day; }
    }
  }

  lemma {:induction false} InsertStrict(log: Log, s: seq<Log>)
    requires StrictlyRecent(s) && !HasDay(s, log.day)
    ensures StrictlyRecent(InsertRecent(log, s))
  {
    if s != [] && s[0].day > log.day {
      var rest := s[1..];
      assert forall i :: 0 <= i < |rest| ==> rest[i] == s[i + 1];
      InsertStrict(log, rest);
      var more := InsertRecent(log, rest);
      forall i | 0 <= i < |more|
        ensures s[0].day > more[i].day
      {
        InsertDays(log, rest, more[i].day);
        assert HasDay(more, more[i].day);
        if k :| 0 <= k < |rest| && rest[k].day == more[i].day { assert s[k + 1].day == more[i].day; }
      }
    }
  }

  lemma {:induction false} SortStrict(s: seq<Log>)
    requires DistinctDays(s)
    ensures StrictlyRecent(MostRecentFirst(s))
  {
    if s != [] {
      var rest := s[1..];
      assert forall i :: 0 <= i < |rest| ==> rest[i] == s[i + 1];
      SortStrict(rest);
      SortDays(rest, s[0].day);
      InsertStrict(s[0], MostRecentFirst(rest));
    }
  }

  lemma {:induction false} SortDays(s: seq<Log>, day: int)
    ensures |MostRecentFirst(s)| == |s|
    ensures HasDay(MostRecentFirst(s), day) <==> HasDay(s, day)
  {
    if s != [] {
      var rest := s[1..];
      SortDays(rest, day);
      InsertDays(s[0], MostRecentFirst(rest), day);
      if i :| 0 <= i < |s| && s[i].day == day && i > 0 { assert rest[i - 1].day == day; }
      if i :| 0 <= i < |rest| && rest[i].day == day { assert s[i + 1].day == day; }
    }
  }

  /** The calendar days from one to another, both included. */
  function Span(first: int, last: int): (days: set<int>)
    ensures forall d :: d in days <==> first <= d <= last
    decreases last - first
  {
    if first > last then {} else Span(first, last - 1) + {last}
  }

  lemma {:induction false} SpanSize(first: int, last: int)
    requires first <= last + 1
    ensures |Span(first, last)| == last - first + 1
    decreases last - first
  {
    if first <= last {
      SpanSize(first, last - 1);
    }
  }

  function Days(s: seq<Log>): set<int> {
    set i | 0 <= i < |s| :: s[i].day
  }

  lemma {:induction false} DaysSize(s: seq<Log>)
    requires StrictlyRecent(s)
    ensures |Days(s)| == |s|
  {
    if s != [] {
      var init, last := s[..|s| - 1], s[|s| - 1];
      DaysSize(init);
      DaysSplit(s);
      assert last.day !in Days(init);
    }
  }

  lemma DaysSplit(s: seq<Log>)
    requires s != []
    ensures Days(s) == Days(s[..|s| - 1]) + {s[|s| - 1].day}
  {
    forall d | d in Days(s)
      ensures d in Days(s[..|s| - 1]) + {s[|s| - 1].day}
    {
      var i :| 0 <= i < |s| && s[i].day == d;
      if i < |s| - 1 { assert s[..|s| - 1][i].day == d; }
    }
    forall d | d in Days(s[..|s| - 1])
      ensures d in Days(s)
    {
      var i :| 0 <= i < |s| - 1 && s[..|s| - 1][i].day == d;
      assert s[i].day == d;
    }
  }

  /** The days of a span on which the project has no live log. */
  function DaysWithoutLog(rows: seq<Log>, project: Id, first: int, last: int): set<int> {
    set d | d in Span(first, last) && !TakenLive(rows, project, d)
  }

  datatype Summary = Summary(
    logCount: nat,
    firstDay: Option<int>,
    lastDay: Option<int>,
    spanDays: int,
    missingDays: int,
    crewDays: int,
    laborHours: real,
    delayDays: int,
    delayHours: real,
    incidents: int,
    unresolved: int,
    photos: int)

  const NOTHING := Summary(0, None, None, 0, 0, 0, 0.0, 0, 0.0, 0, 0, 0)

  function Total(s: seq<Log>, f: Log -> int): int {
    if s == [] then 0 else Total(s[..|s| - 1], f) + f(s[|s| - 1])
  }

  function Hours(s: seq<Log>, f: Log -> Option<real>): real {
    if s == [] then 0.0 else Hours(s[..|s| - 1], f) + Or(f(s[|s| - 1]), 0.0)
  }

  /** Hours to one decimal place, halves up. */
  function Tenths(hours: real): real {
    (hours * 10.0 + 0.5).Floor as real / 10.0
  }

  function Crew(log: Log): int {
    log.crewCount
  }

  function Delayed(log: Log): int {
    if log.weatherDelay then 1 else 0
  }

  function Incidents(log: Log): int {
    log.safetyIncidents
  }

  function Unresolved(log: Log): int {
    if log.safetyIncidents > 0 && !log.safetyResolved then log.safetyIncidents else 0
  }

  function PhotoCount(log: Log): int {
    log.photosCount
  }

  function Labor(log: Log): Option<real> {
    log.laborHours
  }

  function DelayTime(log: Log): Option<real> {
    log.delayHours
  }

  /** A day inside the listed span has a live log exactly when it is listed, even past the limit. */
  lemma ListedDays(rows: seq<Log>, project: Id, day: int)
    requires OneLogPerDay(rows)
    ensures StrictlyRecent(ListLogs(rows, project))
    ensures var listed := ListLogs(rows, project);
            listed != [] && listed[|listed| - 1].day <= day <= listed[0].day ==>
              (HasDay(listed, day) <==> TakenLive(rows, project, day))
  {
    var live := LiveLogs(rows, project);
    var sorted := MostRecentFirst(live);
    var listed := ListLogs(rows, project);
    LiveDistinct(rows, project);
    SortStrict(live);
    LiveDays(rows, project, day);
    SortDays(live, day);
    if listed != [] && listed[|listed| - 1].day <= day <= listed[0].day {
      if i :| 0 <= i < |sorted| && sorted[i].day == day {
        assert i < |listed| by { assert sorted[|listed| - 1] == listed[|listed| - 1]; }
        assert listed[i].day == day;
      }
      if i :| 0 <= i < |listed| && listed[i].day == day {
        assert sorted[i].day == day;
      }
    }
  }

  lemma {:induction false} LiveMember(rows: seq<Log>, project: Id, log: Log)
    ensures log in LiveLogs(rows, project) <==> log in rows && log.project == project && !log.deleted
  {
    if rows != [] {
      LiveMember(rows[1..], project, log);
      assert rows == [rows[0]] + rows[1..];
    }
  }

  lemma {:induction false} InsertMember(log: Log, s: seq<Log>, x: Log)
    ensures x in InsertRecent(log, s) <==> x == log || x in s
  {
    if s != [] && s[0].day > log.day {
      InsertMember(log, s[1..], x);
      assert s == [s[0]] + s[1..];
    }
  }

  lemma {:induction false} SortMember(s: seq<Log>, x: Log)
    ensures x in MostRecentFirst(s) <==> x in s
  {
    if s != [] {
      SortMember(s[1..], x);
      InsertMember(s[0], MostRecentFirst(s[1..]), x);
      assert s == [s[0]] + s[1..];
    }
  }

  /** The listing holds live logs of the project alone, and leaves one out only behind 2000 more recent ones. */
  lemma ListingExact(rows: seq<Log>, project: Id, log: Log)
    requires OneLogPerDay(rows)
    ensures var listed := ListLogs(rows, project);
            && |listed| <= 2000
            && (log in listed ==> log in rows && log.project == project && !log.deleted)
            && (log in rows && log.project == project && !log.deleted && log !in listed ==>
                |listed| == 2000 && forall x :: x in listed ==> x.day > log.day)
  {
    var live := LiveLogs(rows, project);
    var sorted, listed := MostRecentFirst(live), ListLogs(rows, project);
    LiveMember(rows, project, log);
    SortMember(live, log);
    LiveDistinct(rows, project);
    SortStrict(live);
    if log in sorted && log !in listed {
      var i :| 0 <= i < |sorted| && sorted[i] == log;
      assert forall k :: 0 <= k < |listed| ==> sorted[k] == listed[k] && listed[k] in listed;
    }
  }

  /** Hours are shown as the nearest tenth, the upper of two. */
  lemma TenthsNearest(hours: real) returns (tenths: int)
    ensures Tenths(hours) == tenths as real / 10.0
    ensures tenths as real - 0.5 <= hours * 10.0 < tenths as real + 0.5
  {
    tenths := (hours * 10.0 + 0.5).Floor;
  }

  lemma {:induction false} SameTotal(s: seq<Log>, f: Log -> int, g: Log -> int)
    requires forall log :: f(log) == g(log)
    ensures Total(s, f) == Total(s, g)
  {
    if s != [] { SameTotal(s[..|s| - 1], f, g); }
  }

  lemma {:induction false} SameHours(s: seq<Log>, f: Log -> Option<real>, g: Log -> Option<real>)
    requires forall log :: f(log) == g(log)
    ensures Hours(s, f) == Hours(s, g)
  {
    if s != [] { SameHours(s[..|s| - 1], f, g); }
  }

  /** The totals of a summary, each by the columns it adds up. */
  lemma TotalsByColumn(s: seq<Log>)
    ensures Total(s, Crew) == Total(s, (log: Log) => log.crewCount)
    ensures Total(s, Delayed) == Total(s, (log: Log) => if log.weatherDelay then 1 else 0)
    ensures Total(s, Incidents) == Total(s, (log: Log) => log.safetyIncidents)
    ensures Total(s, Unresolved) == Total(s, (log: Log) =>
              if log.safetyIncidents > 0 && !log.safetyResolved then log.safetyIncidents else 0)
    ensures Total(s, PhotoCount) == Total(s, (log: Log) => log.photosCount)
    ensures Hours(s, Labor) == Hours(s, (log: Log) => log.laborHours)
    ensures Hours(s, DelayTime) == Hours(s, (log: Log) => log.delayHours)
  {
    SameTotal(s, Crew, (log: Log) => log.crewCount);
    SameTotal(s, Delayed, (log: Log) => if log.weatherDelay then 1 else 0);
    SameTotal(s, Incidents, (log: Log) => log.safetyIncidents);
    SameTotal(s, Unresolved, (log: Log) =>
      if log.safetyIncidents > 0 && !log.safetyResolved then log.safetyIncidents else 0);
    SameTotal(s, PhotoCount, (log: Log) => log.photosCount);
    SameHours(s, Labor, (log: Log) => log.laborHours);
    SameHours(s, DelayTime, (log: Log) => log.delayHours);
  }

  /** The gap between span and count is the number of days without a log, so it is never negative. */
  lemma MissingDaysExact(rows: seq<Log>, project: Id)
    requires OneLogPerDay(rows) && ListLogs(rows, project) != []
    ensures var listed := ListLogs(rows, project);
            var (first, last) := (listed[|listed| - 1].day, listed[0].day);
            && first <= last
            && last - first + 1 - |listed| == |DaysWithoutLog(rows, project, first, last)|
  {
    var listed := ListLogs(rows, project);
    var first, last := listed[|listed| - 1].day, listed[0].day;
    ListedDays(rows, project, first);
    SpanSize(first, last);
    DaysSize(listed);
    forall d
      ensures d in Days(listed) <==> d in Span(first, last) && TakenLive(rows, project, d)
    {
      ListedDays(rows, project, d);
      if d in Days(listed) {
        var i :| 0 <= i < |listed| && listed[i].day == d;
        assert first <= listed[i].day <= last;
      }
    }
    assert DaysWithoutLog(rows, project, first, last) == Span(first, last) - Days(listed);
    assert Days(listed) <= Span(first, last);
  }

  /** The running totals after some logs. */
  ghost predicate Counted(
    logs: seq<Log>, crewDays: int, laborHours: real, delayDays: int, delayHours: real,
    incidents: int, unresolved: int, photos: int)
  {
    && crewDays == Total(logs, Crew) && laborHours == Hours(logs, Labor)
    && delayDays == Total(logs, Delayed) && delayHours == Hours(logs, DelayTime)
    && incidents == Total(logs, Incidents) && unresolved == Total(logs, Unresolved) && photos == Total(logs, PhotoCount)
  }

  lemma CountedNext(
    logs: seq<Log>, i: nat, crewDays: int, laborHours: real, delayDays: int, delayHours: real,
    incidents: int, unresolved: int, photos: int)
    requires i < |logs|
    requires Counted(logs[..i], crewDays, laborHours, delayDays, delayHours, incidents, unresolved, photos)
    ensures Counted(logs[..i + 1], crewDays + Crew(logs[i]), laborHours + Or(Labor(logs[i]), 0.0),
                    delayDays + Delayed(logs[i]), delayHours + Or(DelayTime(logs[i]), 0.0),
                    incidents + Incidents(logs[i]), unresolved + Unresolved(logs[i]), photos + PhotoCount(logs[i]))
  {
    assert logs[..i + 1][..i] == logs[..i] && logs[..i + 1][i] == logs[i];
  }

  /**
   * The summary as written.  With one log per project and day, missingDays is the number of days
   * between the first and the last listed log on which the project has no log.
   */
  method GetDailyLogSummary(rows: seq<Log>, project: Id) returns (summary: Summary)
    requires OneLogPerDay(rows)
    ensures ListLogs(rows, project) == [] ==> summary == NOTHING
    ensures ListLogs(rows, project) != [] ==>
              var listed := ListLogs(rows, project);
              && summary.logCount == |listed|
              && summary.firstDay == Some(listed[|listed| - 1].day)
              && summary.lastDay == Some(listed[0].day)
              && summary.spanDays == |Span(summary.firstDay.value, summary.lastDay.value)|
              && summary.missingDays == |DaysWithoutLog(rows, project, summary.firstDay.value, summary.lastDay.value)|
              && summary.missingDays == summary.spanDays - summary.logCount
              && summary.laborHours == Tenths(Hours(listed, Labor))
              && summary.delayHours == Tenths(Hours(listed, DelayTime))
              && summary.crewDays == Total(listed, Crew) && summary.delayDays == Total(listed, Delayed)
              && summary.incidents == Total(listed, Incidents) && summary.unresolved == Total(listed, Unresolved)
              && summary.photos == Total(listed, PhotoCount)
  {
    var logs := ListLogs(rows, project);
    if |logs| == 0 {
      return NOTHING;
    }
    MissingDaysExact(rows, project);
    var first, last := logs[|logs| - 1].day, logs[0].day;
    SpanSize(first, last);
    var spanDays := last - first + 1;
    var crewDays, delayDays, incidents, unresolved, photos := 0, 0, 0, 0, 0;
    var laborHours, delayHours := 0.0, 0.0;
    for i := 0 to |logs|
      invariant Counted(logs[..i], crewDays, laborHours, delayDays, delayHours, incidents, unresolved, photos)
    {
      var log := logs[i];
      CountedNext(logs, i, crewDays, laborHours, delayDays, delayHours, incidents, unresolved, photos);
      crewDays := crewDays + log.crewCount;
      laborHours := laborHours + Or(log.laborHours, 0.0);
      if log.weatherDelay {
        delayDays := delayDays + 1;
      }
      delayHours := delayHours + Or(log.delayHours, 0.0);
      incidents := incidents + log.safetyIncidents;
      if log.safetyIncidents > 0 && !log.safetyResolved {
        unresolved := unresolved + log.safetyIncidents;
      }
      photos := photos + log.photosCount;
    }
    assert logs[..|logs|] == logs;
    var gap := spanDays - |logs|;
    return Summary(|logs|, Some(first), Some(last), spanDays, if gap < 0 then 0 else gap, crewDays, Tenths(laborHours),
                   delayDays, Tenths(delayHours), incidents, unresolved, photos);
  }
}
