/** `get_weekly_stats` and the per-stage bucketing of `get_dashboard_data`:
    hours and session counts summed per program week from the daily
    buckets, and per curriculum stage from the session history. */
module Stats {
  import opened Util
  import opened Schedule
  import opened Records
  import opened Progress

  /** The hours and sessions of a date's bucket, 0 for a date without one. */
  function LogHours(logs: map<Day, DayLog>, d: Day): real
  {
    if d in logs then logs[d].hours else 0.0
  }

  function LogSessions(logs: map<Day, DayLog>, d: Day): int
  {
    if d in logs then logs[d].sessions else 0
  }

  /** Sums of the buckets of the dates `lo .. hi-1`. */
  function RangeHours(logs: map<Day, DayLog>, lo: Day, hi: Day): real
    decreases hi - lo
  {
    if hi <= lo then 0.0 else RangeHours(logs, lo, hi - 1) + LogHours(logs, hi - 1)
  }

  function RangeSessions(logs: map<Day, DayLog>, lo: Day, hi: Day): int
    decreases hi - lo
  {
    if hi <= lo then 0 else RangeSessions(logs, lo, hi - 1) + LogSessions(logs, hi - 1)
  }

  /** One entry of `get_weekly_stats`; `startDay` and `endDay` are the first
      and last dates of the week, both included. */
  datatype WeekStat = WeekStat(week: int, startDay: Day, endDay: Day, hours: real, sessions: int,
                               targetHours: int, percentage: real)

  /** The entry for program week `week`: the buckets of its seven dates. */
  function WeekStatOf(logs: map<Day, DayLog>, week: int): WeekStat
  {
    var first := 7 * (week - 1);
    var hours := RangeHours(logs, first, first + 7);
    WeekStat(week, first, first + 6, hours, RangeSessions(logs, first, first + 7),
             WeeklyTarget, hours / WeeklyTarget as real * 100.0)
  }

  /** `get_weekly_stats` at `now`: one entry per week from 1 to the current
      week.  For each week the inner loop visits the week's seven dates. */
  method WeeklyStats(logs: map<Day, DayLog>, now: Time) returns (stats: seq<WeekStat>)
    ensures |stats| == CurrentWeek(now)
    ensures forall i :: 0 <= i < |stats| ==> stats[i] == WeekStatOf(logs, i + 1)
  {
    stats := [];
    var currentWeek := CurrentWeek(now);
    var week := 1;
    while week <= currentWeek
      invariant 1 <= week <= currentWeek + 1
      invariant |stats| == week - 1
      invariant forall i :: 0 <= i < |stats| ==> stats[i] == WeekStatOf(logs, i + 1)
    {
      var weekStart := 7 * (week - 1);
      var weekEnd := weekStart + 6;
      var weekHours := 0.0;
      var weekSessions := 0;
      var d := weekStart;
      while d <= weekEnd
        invariant weekStart <= d <= weekEnd + 1
        invariant weekHours == RangeHours(logs, weekStart, d)
        invariant weekSessions == RangeSessions(logs, weekStart, d)
      {
        if d in logs {
          weekHours := weekHours + logs[d].hours;
          weekSessions := weekSessions + logs[d].sessions;
        }
        d := d + 1;
      }
      stats := stats + [WeekStat(week, weekStart, weekEnd, weekHours, weekSessions, WeeklyTarget,
                                 weekHours / WeeklyTarget as real * 100.0)];
      week := week + 1;
    }
  }

  /** A week's percentage is its hours as a share of the 36-hour target. */
  lemma WeekPercentage(logs: map<Day, DayLog>, week: int)
    ensures WeekStatOf(logs, week).percentage * 36.0 == WeekStatOf(logs, week).hours * 100.0
    ensures WeekStatOf(logs, week).endDay - WeekStatOf(logs, week).startDay == 6
  {
  }

  /** Splitting a date range splits its sums. */
  lemma {:induction false} RangeSplit(logs: map<Day, DayLog>, lo: Day, mid: Day, hi: Day)
    requires lo <= mid <= hi
    ensures RangeHours(logs, lo, hi) == RangeHours(logs, lo, mid) + RangeHours(logs, mid, hi)
    ensures RangeSessions(logs, lo, hi) == RangeSessions(logs, lo, mid) + RangeSessions(logs, mid, hi)
    decreases hi - mid
  {
    if mid < hi {
      RangeSplit(logs, lo, mid, hi - 1);
    }
  }

  /** Total hours of the first `n` weekly entries. */
  function WeeksHours(logs: map<Day, DayLog>, n: nat): real
  {
    if n == 0 then 0.0 else WeeksHours(logs, n - 1) + WeekStatOf(logs, n).hours
  }

  /** The weeks tile the dates: the first `n` weeks together hold exactly the
      hours of dates 0 .. 7n-1. */
  lemma {:induction false} WeeksTileDates(logs: map<Day, DayLog>, n: nat)
    ensures WeeksHours(logs, n) == RangeHours(logs, 0, 7 * n)
  {
    if n > 0 {
      WeeksTileDates(logs, n - 1);
      RangeSplit(logs, 0, 7 * (n - 1), 7 * n);
    }
  }

  /** Number of sessions of a history logged on dates `lo .. hi-1`. */
  function CountLoggedIn(ss: seq<Session>, lo: Day, hi: Day): nat
  {
    if |ss| == 0 then 0
    else CountLoggedIn(ss[..|ss| - 1], lo, hi) + (if lo <= LogDay(ss[|ss| - 1]) < hi then 1 else 0)
  }

  /** Hours of the sessions of a history logged on dates `lo .. hi-1`. */
  function HoursLoggedIn(ss: seq<Session>, lo: Day, hi: Day): real
  {
    if |ss| == 0 then 0.0
    else HoursLoggedIn(ss[..|ss| - 1], lo, hi) + (if lo <= LogDay(ss[|ss| - 1]) < hi then ss[|ss| - 1].duration else 0.0)
  }

  /** Extending a date range by its next date adds that date's sessions. */
  lemma {:induction false} LoggedInStep(ss: seq<Session>, lo: Day, hi: Day)
    requires lo <= hi
    ensures CountLoggedIn(ss, lo, hi + 1) == CountLoggedIn(ss, lo, hi) + DayCount(ss, hi)
    ensures HoursLoggedIn(ss, lo, hi + 1) == HoursLoggedIn(ss, lo, hi) + DayDuration(ss, hi)
  {
    if |ss| > 0 {
      LoggedInStep(ss[..|ss| - 1], lo, hi);
    }
  }

  /** With buckets that agree with the history, the sums over a date range
      are the hours and count of the sessions logged in it. */
  lemma {:induction false} RangeMatchesHistory(logs: map<Day, DayLog>, ss: seq<Session>, lo: Day, hi: Day)
    requires LogsAgree(logs, ss)
    requires lo <= hi
    ensures RangeSessions(logs, lo, hi) == CountLoggedIn(ss, lo, hi)
    ensures RangeHours(logs, lo, hi) == HoursLoggedIn(ss, lo, hi)
    decreases hi - lo
  {
    if lo == hi {
      EmptyRange(ss, lo);
    } else {
      RangeMatchesHistory(logs, ss, lo, hi - 1);
      LoggedInStep(ss, lo, hi - 1);
      if hi - 1 !in logs {
        NoCountNoHours(ss, hi - 1);
      }
    }
  }

  /** No session is logged in an empty date range. */
  lemma {:induction false} EmptyRange(ss: seq<Session>, lo: Day)
    ensures CountLoggedIn(ss, lo, lo) == 0 && HoursLoggedIn(ss, lo, lo) == 0.0
  {
    if |ss| > 0 {
      EmptyRange(ss[..|ss| - 1], lo);
    }
  }

  /** With buckets that agree with the history, each weekly entry reports
      the hours and number of the sessions logged during that week. */
  lemma WeekMatchesHistory(logs: map<Day, DayLog>, ss: seq<Session>, week: int)
    requires LogsAgree(logs, ss)
    ensures WeekStatOf(logs, week).sessions == CountLoggedIn(ss, 7 * (week - 1), 7 * week)
    ensures WeekStatOf(logs, week).hours == HoursLoggedIn(ss, 7 * (week - 1), 7 * week)
  {
    RangeMatchesHistory(logs, ss, 7 * (week - 1), 7 * week);
  }

  /** The dashboard's week of a session: from its start, NOT clamped, so a
      session before the start date or after week 48 falls in no stage. */
  function SessionWeek(s: Session): int
  {
    WeekOfDay(DayOf(s.startTime))
  }

  /** Hours and number of the sessions whose week is in `lo .. hi-1`. */
  function WeeksSessions(ss: seq<Session>, lo: int, hi: int): nat
  {
    if |ss| == 0 then 0
    else WeeksSessions(ss[..|ss| - 1], lo, hi) + (if lo <= SessionWeek(ss[|ss| - 1]) < hi then 1 else 0)
  }

  function WeeksDuration(ss: seq<Session>, lo: int, hi: int): real
  {
    if |ss| == 0 then 0.0
    else WeeksDuration(ss[..|ss| - 1], lo, hi) + (if lo <= SessionWeek(ss[|ss| - 1]) < hi then ss[|ss| - 1].duration else 0.0)
  }

  /** One entry of the dashboard's `stage_progress`. */
  datatype StageProgress = StageProgress(stageId: int, targetHours: int, actualHours: real, sessions: nat,
                                         progressPercentage: real, status: StageStatus)

  /** The entry for table position `i` in week `currentWeek`. */
  function StageProgressOf(ss: seq<Session>, i: nat, currentWeek: int): StageProgress
    requires i < |Stages|
  {
    var st := Stages[i];
    var hours := WeeksDuration(ss, st.firstWeek, st.endWeek);
    StageProgress(st.id, st.targetHours, hours, WeeksSessions(ss, st.firstWeek, st.endWeek),
                  MinReal(100.0, hours / st.targetHours as real * 100.0), GetStageStatus(i + 1, currentWeek))
  }

  /** The stage loop of `get_dashboard_data`, with `now` fixing the current
      week: for each stage the inner loop sums the sessions whose week lies
      in the stage's weeks. */
  method StageBreakdown(ss: seq<Session>, now: Time) returns (rows: seq<StageProgress>)
    ensures |rows| == |Stages|
    ensures forall i :: 0 <= i < |rows| ==> rows[i] == StageProgressOf(ss, i, CurrentWeek(now))
  {
    var currentWeek := CurrentWeek(now);
    rows := [];
    var i := 0;
    while i < |Stages|
      invariant 0 <= i <= |Stages| && |rows| == i
      invariant forall k :: 0 <= k < i ==> rows[k] == StageProgressOf(ss, k, currentWeek)
    {
      var st := Stages[i];
      var stageHours := 0.0;
      var stageSessions := 0;
      var j := 0;
      while j < |ss|
        invariant 0 <= j <= |ss|
        invariant stageHours == WeeksDuration(ss[..j], st.firstWeek, st.endWeek)
        invariant stageSessions == WeeksSessions(ss[..j], st.firstWeek, st.endWeek)
      {
        assert ss[..j + 1][..j] == ss[..j];
        var week := DayOf(ss[j].startTime) / 7 + 1;
        if st.firstWeek <= week < st.endWeek {
          stageHours := stageHours + ss[j].duration;
          stageSessions := stageSessions + 1;
        }
        j := j + 1;
      }
      assert ss[..|ss|] == ss;
      var percentage := MinReal(100.0, stageHours / st.targetHours as real * 100.0);
      rows := rows + [StageProgress(st.id, st.targetHours, stageHours, stageSessions, percentage,
                                    GetStageStatus(i + 1, currentWeek))];
      i := i + 1;
    }
  }

  /** Splitting a week range splits the sessions counted in it. */
  lemma {:induction false} WeeksSplit(ss: seq<Session>, lo: int, mid: int, hi: int)
    requires lo <= mid <= hi
    ensures WeeksSessions(ss, lo, hi) == WeeksSessions(ss, lo, mid) + WeeksSessions(ss, mid, hi)
    ensures WeeksDuration(ss, lo, hi) == WeeksDuration(ss, lo, mid) + WeeksDuration(ss, mid, hi)
  {
    if |ss| > 0 {
      WeeksSplit(ss[..|ss| - 1], lo, mid, hi);
    }
  }

  /** Total sessions and hours of the first `k` stages. */
  function StagesSessions(ss: seq<Session>, k: nat): nat
    requires k <= |Stages|
  {
    if k == 0 then 0 else StagesSessions(ss, k - 1) + WeeksSessions(ss, Stages[k - 1].firstWeek, Stages[k - 1].endWeek)
  }

  function StagesDuration(ss: seq<Session>, k: nat): real
    requires k <= |Stages|
  {
    if k == 0 then 0.0 else StagesDuration(ss, k - 1) + WeeksDuration(ss, Stages[k - 1].firstWeek, Stages[k - 1].endWeek)
  }

  /** The first `k` stages together count exactly the sessions of weeks
      1 .. up to the end of stage `k`. */
  lemma {:induction false} StagesPrefix(ss: seq<Session>, k: nat)
    requires 0 < k <= |Stages|
    ensures StagesSessions(ss, k) == WeeksSessions(ss, 1, Stages[k - 1].endWeek)
    ensures StagesDuration(ss, k) == WeeksDuration(ss, 1, Stages[k - 1].endWeek)
  {
    StageTable();
    if k == 1 {
      EmptyWeeks(ss, 1);
    } else {
      StagesPrefix(ss, k - 1);
      WeeksSplit(ss, 1, Stages[k - 2].endWeek, Stages[k - 1].endWeek);
    }
  }

  /** No session falls in an empty week range. */
  lemma {:induction false} EmptyWeeks(ss: seq<Session>, lo: int)
    ensures WeeksSessions(ss, lo, lo) == 0 && WeeksDuration(ss, lo, lo) == 0.0
  {
    if |ss| > 0 {
      EmptyWeeks(ss[..|ss| - 1], lo);
    }
  }

  /** The stages partition the program's weeks: every session of weeks
      1..48 is counted in exactly one stage, and no other session is. */
  lemma StagesCoverProgram(ss: seq<Session>)
    ensures StagesSessions(ss, |Stages|) == WeeksSessions(ss, 1, TotalWeeks + 1)
    ensures StagesDuration(ss, |Stages|) == WeeksDuration(ss, 1, TotalWeeks + 1)
  {
    StagesPrefix(ss, |Stages|);
  }

  /** Sessions outside weeks 1..48 (before the start date, or after the
      program's last week) are counted in no stage. */
  lemma {:induction false} OutsideWeeksUncounted(ss: seq<Session>, i: nat)
    requires i < |Stages|
    requires forall k :: 0 <= k < |ss| ==> SessionWeek(ss[k]) < 1 || SessionWeek(ss[k]) > TotalWeeks
    ensures WeeksSessions(ss, Stages[i].firstWeek, Stages[i].endWeek) == 0
  {
    StageTable();
    if |ss| > 0 {
      OutsideWeeksUncounted(ss[..|ss| - 1], i);
    }
  }

  /** A stage's percentage is its hours as a share of its target, capped at
      100. */
  lemma StagePercentage(ss: seq<Session>, i: nat, currentWeek: int)
    requires i < |Stages|
    ensures var r := StageProgressOf(ss, i, currentWeek);
      && r.progressPercentage <= 100.0
      && (r.actualHours * 100.0 <= r.targetHours as real * 100.0 ==>
            r.progressPercentage * r.targetHours as real == r.actualHours * 100.0)
  {
    StageTable();
  }
}
