/** The fixed 48-week curriculum (`LEARNING_PLAN` in app.py) and the calendar
    arithmetic the tracker does against it.

    Dates are day numbers counted from the program start date 2025-07-15
    (day 0, a Tuesday); instants are whole seconds counted from midnight of
    that date.  Python's `timedelta.days` and `//` round toward minus
    infinity; for the positive divisors used here Dafny's `/` does the same. */
module Schedule {
  import opened Util

  type Time = int  // seconds since 2025-07-15T00:00:00
  type Day = int   // days since 2025-07-15

  const SecondsPerDay: int := 86400
  const TotalWeeks: int := 48
  const TotalHours: int := 1600
  const WeeklyTarget: int := 36
  const WeekdayTarget: int := 4
  const WeekendTarget: int := 8
  /** `datetime.weekday()` of the start date: Monday is 0, so Tuesday is 1. */
  const StartWeekday: int := 1

  /** One curriculum stage; its weeks are `range(firstWeek, endWeek)`. */
  datatype Stage = Stage(id: int, firstWeek: int, endWeek: int, targetHours: int)

  const Stages: seq<Stage> := [
    Stage(1, 1, 9, 288),
    Stage(2, 9, 17, 288),
    Stage(3, 17, 25, 288),
    Stage(4, 25, 33, 288),
    Stage(5, 33, 37, 144),
    Stage(6, 37, 41, 144),
    Stage(7, 41, 45, 144),
    Stage(8, 45, 49, 144)
  ]

  /** `week in stage_info['weeks']` */
  predicate InStage(st: Stage, week: int)
  {
    st.firstWeek <= week < st.endWeek
  }

  /** The calendar date of an instant: `(t - start_date).days`. */
  function DayOf(t: Time): Day
  {
    t / SecondsPerDay
  }

  /** `date.weekday()` of a day number, Monday being 0. */
  function Weekday(d: Day): (r: int)
    ensures 0 <= r < 7
  {
    (StartWeekday + d) % 7
  }

  predicate IsWeekend(d: Day)
  {
    Weekday(d) >= 5
  }

  /** The unclamped week number of a day, `days // 7 + 1`. */
  function WeekOfDay(d: Day): int
  {
    d / 7 + 1
  }

  /** `get_current_week`: the week of `now`, clamped into 1..48. */
  function CurrentWeek(now: Time): (w: int)
    ensures 1 <= w <= TotalWeeks
    ensures 0 <= DayOf(now) < 7 * TotalWeeks ==> 7 * (w - 1) <= DayOf(now) < 7 * w
    ensures DayOf(now) < 0 ==> w == 1
    ensures DayOf(now) >= 7 * TotalWeeks ==> w == TotalWeeks
  {
    Max(1, Min(TotalWeeks, WeekOfDay(DayOf(now))))
  }

  /** The stage table's shape: ids 1..8 in order, non-empty week ranges that
      start at week 1, follow each other without gap or overlap, and end at
      week 48. */
  lemma StageTable()
    ensures |Stages| == 8
    ensures forall i :: 0 <= i < |Stages| ==> Stages[i].id == i + 1
    ensures forall i :: 0 <= i < |Stages| ==> Stages[i].firstWeek < Stages[i].endWeek
    ensures Stages[0].firstWeek == 1 && Stages[|Stages| - 1].endWeek == TotalWeeks + 1
    ensures forall i :: 0 <= i < |Stages| - 1 ==> Stages[i].endWeek == Stages[i + 1].firstWeek
  {
  }

  /** Closed form of the stage index of a week: four 8-week stages then four
      4-week stages. */
  function StageIndexOf(week: int): int
  {
    if week <= 32 then (week - 1) / 8 else (week - 33) / 4 + 4
  }

  /** Every week 1..48 lies in exactly one stage, the one `StageIndexOf`
      names, and no other week lies in any stage. */
  lemma StagesPartitionWeeks(week: int)
    ensures forall i :: 0 <= i < |Stages| && InStage(Stages[i], week) ==> 1 <= week <= TotalWeeks
    ensures 1 <= week <= TotalWeeks ==>
      0 <= StageIndexOf(week) < |Stages| &&
      forall i :: 0 <= i < |Stages| ==> (InStage(Stages[i], week) <==> i == StageIndexOf(week))
  {
    StageTable();
  }

  /** The loop of `get_current_stage` from table position `i` on: the id of
      the first stage at or after `i` containing `week`, else 8. */
  function FindStage(week: int, i: nat): (r: int)
    requires i <= |Stages|
    ensures 1 <= r <= |Stages|
    ensures (exists j :: i <= j < |Stages| && InStage(Stages[j], week)) ==>
      i <= r - 1 && InStage(Stages[r - 1], week) &&
      forall j :: i <= j < r - 1 ==> !InStage(Stages[j], week)
    ensures (forall j :: i <= j < |Stages| ==> !InStage(Stages[j], week)) ==> r == |Stages|
    decreases |Stages| - i
  {
    StageTable();
    if i == |Stages| then 8
    else if InStage(Stages[i], week) then Stages[i].id
    else FindStage(week, i + 1)
  }

  /** `get_current_stage`: for a week of the program, the unique stage whose
      range contains it; for any other week, the final stage 8. */
  function CurrentStage(week: int): (r: int)
    ensures 1 <= r <= 8
    ensures 1 <= week <= TotalWeeks ==>
      InStage(Stages[r - 1], week) &&
      forall j :: 0 <= j < |Stages| && InStage(Stages[j], week) ==> j == r - 1
    ensures week < 1 || week > TotalWeeks ==> r == 8
  {
    StagesPartitionWeeks(week);
    FindStage(week, 0)
  }

  /** `CurrentStage` agrees with the closed form on every week of the program. */
  lemma CurrentStageClosedForm(week: int)
    requires 1 <= week <= TotalWeeks
    ensures CurrentStage(week) == StageIndexOf(week) + 1
  {
    StagesPartitionWeeks(week);
  }

  datatype StageStatus = Completed | Active | Upcoming

  /** `get_stage_status`: completed once the current week is past the stage's
      last week, active while inside it, upcoming before it. */
  function GetStageStatus(stageNum: int, currentWeek: int): (r: StageStatus)
    requires 1 <= stageNum <= |Stages|
    ensures r == Completed <==> currentWeek >= Stages[stageNum - 1].endWeek
    ensures r == Active <==> InStage(Stages[stageNum - 1], currentWeek)
    ensures r == Upcoming <==> currentWeek < Stages[stageNum - 1].firstWeek
  {
    StageTable();
    var st := Stages[stageNum - 1];
    if currentWeek > st.endWeek - 1 then Completed
    else if InStage(st, currentWeek) then Active
    else Upcoming
  }

  /** For any week of the program exactly one stage is active: the current
      stage; the stages before it are completed and those after it upcoming. */
  lemma {:induction false} OneActiveStage(week: int, stageNum: int)
    requires 1 <= week <= TotalWeeks
    requires 1 <= stageNum <= |Stages|
    ensures GetStageStatus(stageNum, week) == Active <==> stageNum == CurrentStage(week)
    ensures GetStageStatus(stageNum, week) == Completed <==> stageNum < CurrentStage(week)
    ensures GetStageStatus(stageNum, week) == Upcoming <==> stageNum > CurrentStage(week)
  {
    StageTable();
    StagesPartitionWeeks(week);
  }

  /** As the current week advances, a stage's status only moves forward:
      upcoming, then active, then completed. */
  lemma StageStatusAdvances(stageNum: int, w1: int, w2: int)
    requires 1 <= stageNum <= |Stages|
    requires w1 <= w2
    ensures GetStageStatus(stageNum, w1) == Completed ==> GetStageStatus(stageNum, w2) == Completed
    ensures GetStageStatus(stageNum, w2) == Upcoming ==> GetStageStatus(stageNum, w1) == Upcoming
  {
  }
}
