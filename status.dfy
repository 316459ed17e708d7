/** `get_progress_status`: compares the logged hours with the plan's
    expected hours at an instant, labels the ratio by fixed thresholds and
    works out the catch-up rate. */
module Status {
  import opened Util
  import opened Schedule
  import opened Expected

  datatype Label = SignificantlyAhead | OnTrack | SlightlyBehind | BehindSchedule | CriticallyBehind

  datatype Urgency = Low | Medium | High | Critical

  /** Labels from best (0) to worst (4). */
  function Rank(l: Label): nat
  {
    match l
    case SignificantlyAhead => 0
    case OnTrack => 1
    case SlightlyBehind => 2
    case BehindSchedule => 3
    case CriticallyBehind => 4
  }

  /** The status chain: the first of the thresholds 1.2, 0.95, 0.8 and 0.6
      that the ratio meets chooses the label and urgency, otherwise
      critical.  Each label is exactly one half-open band of ratios. */
  function Classify(ratio: real): (r: (Label, Urgency))
    ensures r.0 == SignificantlyAhead <==> ratio >= 1.2
    ensures r.0 == OnTrack <==> 0.95 <= ratio < 1.2
    ensures r.0 == SlightlyBehind <==> 0.8 <= ratio < 0.95
    ensures r.0 == BehindSchedule <==> 0.6 <= ratio < 0.8
    ensures r.0 == CriticallyBehind <==> ratio < 0.6
    ensures r.1 == Low <==> ratio >= 0.95
    ensures r.1 == Medium <==> r.0 == SlightlyBehind
    ensures r.1 == High <==> r.0 == BehindSchedule
    ensures r.1 == Critical <==> r.0 == CriticallyBehind
  {
    if ratio >= 1.2 then (SignificantlyAhead, Low)
    else if ratio >= 0.95 then (OnTrack, Low)
    else if ratio >= 0.8 then (SlightlyBehind, Medium)
    else if ratio >= 0.6 then (BehindSchedule, High)
    else (CriticallyBehind, Critical)
  }

  /** A lower ratio never earns a better label. */
  lemma ClassifyMonotone(r1: real, r2: real)
    requires r1 <= r2
    ensures Rank(Classify(r1).0) >= Rank(Classify(r2).0)
  {
  }

  /** Dividing by a positive number and multiplying back is the identity. */
  lemma QuotientTimesDivisor(a: real, b: real)
    requires b > 0.0
    ensures (a / b) * b == a
  {
  }

  /** Spreading a weekly rate over 7 days and multiplying back by the days. */
  lemma PerDayTimesDays(h: real, weeks: real)
    requires weeks > 0.0
    ensures (h / weeks / 7.0) * 7.0 * weeks == h
  {
    QuotientTimesDivisor(h, weeks);
    QuotientTimesDivisor(h / weeks, 7.0);
  }

  /** `progress_ratio`: actual over expected hours, 0 when nothing is
      expected yet. */
  function ProgressRatio(actualHours: real, expectedHours: int): (r: real)
    ensures expectedHours > 0 ==> r * expectedHours as real == actualHours
    ensures expectedHours > 0 ==> r == actualHours / expectedHours as real
    ensures expectedHours <= 0 ==> r == 0.0
  {
    if expectedHours > 0 then
      QuotientTimesDivisor(actualHours, expectedHours as real);
      actualHours / expectedHours as real
    else 0.0
  }

  /** `hours_per_day_needed`: the remaining hours spread evenly over the
      days of the remaining weeks, 0 when no week remains. */
  function HoursPerDayNeeded(remainingHours: real, remainingWeeks: int): (r: real)
    ensures remainingWeeks > 0 ==> r * 7.0 * remainingWeeks as real == remainingHours
    ensures remainingWeeks <= 0 ==> r == 0.0
    ensures remainingWeeks > 0 && remainingHours >= 0.0 ==> r >= 0.0
  {
    var hoursPerWeekNeeded := if remainingWeeks > 0 then remainingHours / remainingWeeks as real else 0.0;
    if remainingWeeks > 0 then PerDayTimesDays(remainingHours, remainingWeeks as real); hoursPerWeekNeeded / 7.0
    else hoursPerWeekNeeded / 7.0
  }

  datatype ProgressStatus = ProgressStatus(
    status: Label,
    urgency: Urgency,
    currentWeek: int,
    currentStage: int,
    expectedHours: int,
    actualHours: real,
    progressRatio: real,
    dailyTarget: int,
    hoursPerDayNeeded: real,
    remainingWeeks: int,
    remainingHours: real,
    isWeekend: bool)

  /** `get_progress_status` at instant `now`, with `actualHours` the
      tracker's `total_hours`.  What the record's fields satisfy is stated by
      the lemmas below. */
  function GetProgressStatus(now: Time, actualHours: real): (s: ProgressStatus)
    ensures s.currentWeek == CurrentWeek(now) && s.expectedHours == ExpectedAt(now)
    ensures s.actualHours == actualHours && s.progressRatio == ProgressRatio(actualHours, s.expectedHours)
    ensures (s.status, s.urgency) == Classify(s.progressRatio)
    ensures (s.remainingWeeks, s.remainingHours, s.hoursPerDayNeeded) == CatchUp(s.currentWeek, actualHours)
  {
    var currentWeek := CurrentWeek(now);
    var currentStage := CurrentStage(currentWeek);
    var expectedHours := ExpectedAt(now);
    var progressRatio := ProgressRatio(actualHours, expectedHours);
    var isWeekend := Weekday(DayOf(now)) >= 5;
    var dailyTarget := if isWeekend then WeekendTarget else WeekdayTarget;
    var (remainingWeeks, remainingHours, hoursPerDayNeeded) := CatchUp(currentWeek, actualHours);
    var (status, urgency) := Classify(progressRatio);
    ProgressStatus(status, urgency, currentWeek, currentStage, expectedHours, actualHours,
                   progressRatio, dailyTarget, hoursPerDayNeeded, remainingWeeks, remainingHours, isWeekend)
  }

  /** The calendar fields: the week is within the program, the stage is the
      one containing it, and today's target is the weekday or weekend one. */
  lemma StatusCalendar(now: Time, actualHours: real)
    ensures var s := GetProgressStatus(now, actualHours);
      && 1 <= s.currentWeek <= TotalWeeks
      && 1 <= s.currentStage <= |Stages| && InStage(Stages[s.currentStage - 1], s.currentWeek)
      && (s.isWeekend <==> IsWeekend(DayOf(now)))
      && s.dailyTarget == DailyTarget(DayOf(now))
  {
  }

  /** The expected hours are never 0, so the source's fallback ratio of 0 is
      never used: the ratio is always actual over expected. */
  lemma {:induction false} RatioIsQuotient(now: Time, actualHours: real)
    ensures var s := GetProgressStatus(now, actualHours);
      && 0 < s.expectedHours <= TotalHours
      && s.progressRatio * s.expectedHours as real == actualHours
      && s.progressRatio == actualHours / s.expectedHours as real
  {
    ExpectedBounds(now);
  }

  /** The catch-up figures of `get_progress_status`: remaining weeks,
      remaining hours and hours needed per day.  Neither remainder is
      negative, no hours remain exactly when the program's total has been
      logged, and nothing is needed per day once no week remains. */
  function CatchUp(currentWeek: int, actualHours: real): (r: (int, real, real))
    ensures r.0 >= 0 && r.1 >= 0.0
    ensures r.1 == 0.0 <==> actualHours >= TotalHours as real
    ensures r.0 == 0 ==> r.2 == 0.0
    ensures r.0 > 0 ==> r.2 * 7.0 * r.0 as real == r.1
  {
    var remainingWeeks := Max(0, TotalWeeks - currentWeek);
    var remainingHours := MaxReal(0.0, TotalHours as real - actualHours);
    (remainingWeeks, remainingHours, HoursPerDayNeeded(remainingHours, remainingWeeks))
  }

  /** What the catch-up figures promise for `actualHours` logged in
      `currentWeek`: remaining weeks and hours are never negative, no hours
      remain exactly when 1600 have been logged, and the hours needed per
      day, spread over every day of the remaining weeks, make up the
      remaining hours; with no week left they are 0. */
  predicate CatchUpSound(currentWeek: int, actualHours: real, weeks: int, hours: real, perDay: real)
  {
    && weeks == TotalWeeks - currentWeek >= 0
    && hours >= 0.0
    && (hours == 0.0 <==> actualHours >= TotalHours as real)
    && perDay >= 0.0
    && (weeks == 0 ==> perDay == 0.0)
    && (weeks > 0 ==> perDay * 7.0 * weeks as real == hours)
  }

  /** The catch-up figures keep those promises in every program week. */
  lemma CatchUpFigures(currentWeek: int, actualHours: real)
    requires 1 <= currentWeek <= TotalWeeks
    ensures var (weeks, hours, perDay) := CatchUp(currentWeek, actualHours);
      CatchUpSound(currentWeek, actualHours, weeks, hours, perDay)
  {
  }

  /** The figures `get_progress_status` reports keep those promises. */
  lemma StatusCatchUp(now: Time, actualHours: real)
    ensures var s := GetProgressStatus(now, actualHours);
      CatchUpSound(s.currentWeek, actualHours, s.remainingWeeks, s.remainingHours, s.hoursPerDayNeeded)
  {
    var s := GetProgressStatus(now, actualHours);
    CatchUpFigures(s.currentWeek, actualHours);
  }

  /** At the same instant, more logged hours never give a worse label. */
  lemma {:induction false} MoreHoursNeverWorse(now: Time, a1: real, a2: real)
    requires a1 <= a2
    ensures Rank(GetProgressStatus(now, a2).status) <= Rank(GetProgressStatus(now, a1).status)
  {
    var n := ExpectedAt(now);
    ExpectedBounds(now);
    var r1, r2 := ProgressRatio(a1, n), ProgressRatio(a2, n);
    QuotientMonotone(a1, a2, n as real);
    ClassifyMonotone(r1, r2);
  }

  /** Dividing by the same positive number keeps the order. */
  lemma QuotientMonotone(a1: real, a2: real, e: real)
    requires a1 <= a2 && e > 0.0
    ensures a1 / e <= a2 / e
  {
  }

  /** The ratio of a positive number of hours to itself is 1. */
  lemma RatioOfSelf(actualHours: real, expectedHours: int)
    requires expectedHours > 0 && actualHours == expectedHours as real
    ensures ProgressRatio(actualHours, expectedHours) == 1.0
  {
    var r := ProgressRatio(actualHours, expectedHours);
    assert (r - 1.0) * actualHours == 0.0;
  }

  /** Having logged exactly the expected hours is on track. */
  lemma {:induction false} ExactlyExpectedIsOnTrack(now: Time, actualHours: real)
    requires actualHours == ExpectedAt(now) as real
    ensures GetProgressStatus(now, actualHours).status == OnTrack
  {
    ExpectedBounds(now);
    RatioOfSelf(actualHours, ExpectedAt(now));
  }
}
