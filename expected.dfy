/** `calculate_expected_hours`: the hours the plan expects by a given instant,
    4 per weekday and 8 per weekend day from the start date through today
    inclusive, capped at the program's 1600 hours. */
module Expected {
  import opened Util
  import opened Schedule

  /** The plan's target for one day: the weekend target on Saturdays and
      Sundays, the weekday target on every other day. */
  function DailyTarget(d: Day): (h: int)
    ensures h == WeekdayTarget || h == WeekendTarget
    ensures h == WeekendTarget <==> IsWeekend(d)
  {
    TargetOfWeekday(Weekday(d))
  }

  /** Saturday (5) and Sunday (6) get the weekend target. */
  function TargetOfWeekday(w: int): int
  {
    if w >= 5 then WeekendTarget else WeekdayTarget
  }

  /** Sum of the daily targets of days 0 .. n-1. */
  function TargetSum(n: nat): int
  {
    if n == 0 then 0 else TargetSum(n - 1) + DailyTarget(n - 1)
  }

  /** `days_elapsed = max(0, (now - start).days)`. */
  function DaysElapsed(now: Time): nat
  {
    Max(0, DayOf(now))
  }

  /** The value `calculate_expected_hours` returns at `now`: the targets of
      days 0 through the elapsed day count, unless they pass the program's
      total, which then caps them. */
  function ExpectedAt(now: Time): (r: int)
    ensures r <= TotalHours
    ensures r < TotalHours ==> r == TargetSum(DaysElapsed(now) + 1)
    ensures r == TotalHours ==> TargetSum(DaysElapsed(now) + 1) >= TotalHours
  {
    Min(TargetSum(DaysElapsed(now) + 1), TotalHours)
  }

  /** The day loop of `calculate_expected_hours`.  Its guard for a negative
      `days_elapsed` can never fire, since the value was already clamped to 0,
      so it is not a branch here (see `FutureStartExpectsOneDay`). */
  method ExpectedHours(now: Time) returns (r: int)
    ensures r == ExpectedAt(now)
    ensures r <= TotalHours
  {
    var daysElapsed := Max(0, DayOf(now));
    var totalExpected := 0;
    var day := 0;
    while day < daysElapsed + 1
      invariant 0 <= day <= daysElapsed + 1
      invariant totalExpected == TargetSum(day)
    {
      totalExpected := totalExpected + DailyTarget(day);
      day := day + 1;
    }
    r := Min(totalExpected, TotalHours);
  }

  /** Each day contributes between 4 and 8 hours. */
  lemma {:induction false} TargetSumBounds(n: nat)
    ensures WeekdayTarget * n <= TargetSum(n) <= WeekendTarget * n
  {
    if n > 0 {
      TargetSumBounds(n - 1);
    }
  }

  /** Counting more days never lowers the sum. */
  lemma {:induction false} TargetSumMonotone(m: nat, n: nat)
    requires m <= n
    ensures TargetSum(m) <= TargetSum(n)
  {
    if m < n {
      TargetSumMonotone(m, n - 1);
    }
  }

  /** Moving `j` days ahead moves the weekday `j` places round the week. */
  lemma WeekdayShift(d: Day, j: nat)
    ensures Weekday(d + j) == (Weekday(d) + j) % 7
  {
    var q := (StartWeekday + d) / 7;
    assert StartWeekday + d + j == 7 * q + (Weekday(d) + j);
  }

  /** The targets of the seven weekdays following weekday `w` add up to 36. */
  lemma WeekFromWeekday(w: int)
    requires 0 <= w < 7
    ensures TargetOfWeekday(w) + TargetOfWeekday((w + 1) % 7) + TargetOfWeekday((w + 2) % 7)
      + TargetOfWeekday((w + 3) % 7) + TargetOfWeekday((w + 4) % 7) + TargetOfWeekday((w + 5) % 7)
      + TargetOfWeekday((w + 6) % 7) == WeeklyTarget
  {
  }

  /** Seven consecutive days starting anywhere add up to the weekly target
      of 36 hours: five weekdays and two weekend days. */
  lemma WeekOfTargets(d: nat)
    ensures TargetSum(d + 7) == TargetSum(d) + WeeklyTarget
  {
    var w := Weekday(d);
    WeekdayShift(d, 1); WeekdayShift(d, 2); WeekdayShift(d, 3);
    WeekdayShift(d, 4); WeekdayShift(d, 5); WeekdayShift(d, 6);
    WeekFromWeekday(w);
    assert TargetSum(d + 7) == TargetSum(d + 6) + DailyTarget(d + 6);
    assert TargetSum(d + 6) == TargetSum(d + 5) + DailyTarget(d + 5);
    assert TargetSum(d + 5) == TargetSum(d + 4) + DailyTarget(d + 4);
    assert TargetSum(d + 4) == TargetSum(d + 3) + DailyTarget(d + 3);
    assert TargetSum(d + 3) == TargetSum(d + 2) + DailyTarget(d + 2);
    assert TargetSum(d + 2) == TargetSum(d + 1) + DailyTarget(d + 1);
  }

  /** Over whole weeks the fold equals the plan's weekly target times the
      number of weeks. */
  lemma {:induction false} WholeWeeks(k: nat, j: nat)
    ensures TargetSum(7 * k + j) == WeeklyTarget * k + TargetSum(j)
  {
    if k > 0 {
      WholeWeeks(k - 1, j);
      WeekOfTargets(7 * (k - 1) + j);
    }
  }

  /** The expected hours never exceed the program total, and always include
      at least the first day's target. */
  lemma {:induction false} ExpectedBounds(now: Time)
    ensures WeekdayTarget <= ExpectedAt(now) <= TotalHours
  {
    TargetSumBounds(DaysElapsed(now) + 1);
  }

  /** The expected hours never decrease as time passes. */
  lemma {:induction false} ExpectedMonotone(t1: Time, t2: Time)
    requires t1 <= t2
    ensures ExpectedAt(t1) <= ExpectedAt(t2)
  {
    assert DayOf(t1) <= DayOf(t2);
    TargetSumMonotone(DaysElapsed(t1) + 1, DaysElapsed(t2) + 1);
  }

  /** Before the cap is reached the expected hours are exactly 36 per whole
      week elapsed plus the targets of the days of the current week so far. */
  lemma {:induction false} ExpectedByWeeks(now: Time)
    requires DayOf(now) >= 0
    ensures ExpectedAt(now) == Min(WeeklyTarget * (DayOf(now) / 7) + TargetSum(DayOf(now) % 7 + 1), TotalHours)
  {
    var d := DayOf(now);
    assert d + 1 == 7 * (d / 7) + (d % 7 + 1);
    WholeWeeks(d / 7, d % 7 + 1);
  }

  /** Queried on Wednesday 2025-07-16 (day 1) the plan expects 4 + 4 = 8 hours. */
  lemma SecondDayExpectsEight(now: Time)
    requires SecondsPerDay <= now < 2 * SecondsPerDay
    ensures ExpectedAt(now) == 8
  {
  }

  /** Any instant before the end of the start date, including one before the
      start date, yields the first day's target 4, not 0: `days_elapsed` is
      clamped to 0 before the guard meant to return 0 is reached. */
  lemma FutureStartExpectsOneDay(now: Time)
    requires now < SecondsPerDay
    ensures ExpectedAt(now) == WeekdayTarget
  {
  }
}
