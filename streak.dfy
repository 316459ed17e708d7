/** `update_streak`: the current streak is the run of consecutive logged
    days that ends today, and the longest streak keeps the maximum ever
    seen. */
module Streak {
  import opened Util
  import opened Schedule
  import opened Records

  /** A date counts towards a streak when it has a bucket with hours > 0. */
  predicate Logged(logs: map<Day, DayLog>, d: Day)
  {
    d in logs && logs[d].hours > 0.0
  }

  /** The logged dates up to and including `d`; it shrinks as the scan
      moves back a day past a logged date. */
  function LoggedUpTo(logs: map<Day, DayLog>, d: Day): set<Day>
  {
    set k | k in logs && k <= d
  }

  /** Length of the run of consecutive logged days ending at `d`. */
  function RunEndingAt(logs: map<Day, DayLog>, d: Day): nat
    decreases LoggedUpTo(logs, d)
  {
    if Logged(logs, d) then
      assert d !in LoggedUpTo(logs, d - 1);
      1 + RunEndingAt(logs, d - 1)
    else 0
  }

  /** `n` is the streak ending on `today`: the `n` days up to today are all
      logged and the day before them is not. */
  ghost predicate IsStreak(logs: map<Day, DayLog>, today: Day, n: nat)
  {
    && (forall d :: today - n < d <= today ==> Logged(logs, d))
    && !Logged(logs, today - n)
  }

  /** `RunEndingAt` satisfies `IsStreak`. */
  lemma {:induction false} RunSatisfiesStreak(logs: map<Day, DayLog>, today: Day)
    ensures IsStreak(logs, today, RunEndingAt(logs, today))
    decreases LoggedUpTo(logs, today)
  {
    if Logged(logs, today) {
      assert today !in LoggedUpTo(logs, today - 1);
      RunSatisfiesStreak(logs, today - 1);
    }
  }

  /** Any length satisfying `IsStreak` is `RunEndingAt`. */
  lemma {:induction false} StreakIsRun(logs: map<Day, DayLog>, today: Day, n: nat)
    requires IsStreak(logs, today, n)
    ensures n == RunEndingAt(logs, today)
    decreases n
  {
    if n > 0 {
      assert Logged(logs, today);
      assert IsStreak(logs, today - 1, n - 1);
      StreakIsRun(logs, today - 1, n - 1);
    }
  }

  /** `RunEndingAt` is exactly the streak: the one length satisfying
      `IsStreak`. */
  lemma RunIsStreak(logs: map<Day, DayLog>, today: Day, n: nat)
    ensures IsStreak(logs, today, n) <==> n == RunEndingAt(logs, today)
  {
    RunSatisfiesStreak(logs, today);
    if IsStreak(logs, today, n) {
      StreakIsRun(logs, today, n);
    }
  }

  /** The while loop of `update_streak`: walk back from today while the date
      has a bucket with hours > 0, counting the dates. */
  method CurrentRun(logs: map<Day, DayLog>, today: Day) returns (streak: nat)
    ensures IsStreak(logs, today, streak)
  {
    streak := 0;
    var checkDate := today;
    while checkDate in logs && logs[checkDate].hours > 0.0
      invariant checkDate == today - streak
      invariant streak + RunEndingAt(logs, checkDate) == RunEndingAt(logs, today)
      decreases LoggedUpTo(logs, checkDate)
    {
      assert checkDate !in LoggedUpTo(logs, checkDate - 1);
      streak := streak + 1;
      checkDate := checkDate - 1;
    }
    RunIsStreak(logs, today, streak);
  }

  datatype StreakState = StreakState(current: nat, longest: nat)

  /** The streak fields after `update_streak` on `today`, branch by branch:
      no buckets at all, or neither today nor yesterday has a bucket, reset
      the current streak and leave the longest alone; otherwise the current
      streak is the run ending today and the longest is raised to it. */
  function UpdatedStreak(st: StreakState, logs: map<Day, DayLog>, today: Day): (r: StreakState)
    ensures r.current == RunEndingAt(logs, today)
    ensures r.longest == Max(st.longest, r.current)
  {
    if |logs| == 0 then StreakState(0, st.longest)
    else if today !in logs && today - 1 !in logs then StreakState(0, st.longest)
    else
      var current := RunEndingAt(logs, today);
      StreakState(current, Max(st.longest, current))
  }

  /** The current streak is 0 whenever today has no logged hours, even if
      yesterday has: the scan always starts at today. */
  lemma UnloggedTodayResets(st: StreakState, logs: map<Day, DayLog>, today: Day)
    requires !Logged(logs, today)
    ensures UpdatedStreak(st, logs, today).current == 0
  {
  }

  /** Only today logged, at 2 hours, gives a current streak of 1. */
  lemma {:induction false} OnlyTodayLogged(st: StreakState, today: Day, log: DayLog)
    requires log.hours == 2.0
    ensures UpdatedStreak(st, map[today := log], today).current == 1
  {
    var logs := map[today := log];
    assert !Logged(logs, today - 1);
    assert RunEndingAt(logs, today) == 1 + RunEndingAt(logs, today - 1);
  }

  /** After an update the current streak never exceeds the longest, and the
      longest never decreases. */
  lemma StreakOrdered(st: StreakState, logs: map<Day, DayLog>, today: Day)
    ensures UpdatedStreak(st, logs, today).current <= UpdatedStreak(st, logs, today).longest
    ensures st.longest <= UpdatedStreak(st, logs, today).longest
  {
  }

  /** Updating twice on the same logs and day is the same as updating once. */
  lemma UpdateIdempotent(st: StreakState, logs: map<Day, DayLog>, today: Day)
    ensures UpdatedStreak(UpdatedStreak(st, logs, today), logs, today) == UpdatedStreak(st, logs, today)
  {
  }

  /** The current streak after an update is the streak ending today. */
  lemma UpdatedIsStreak(st: StreakState, logs: map<Day, DayLog>, today: Day)
    ensures IsStreak(logs, today, UpdatedStreak(st, logs, today).current)
  {
    RunSatisfiesStreak(logs, today);
  }
}
