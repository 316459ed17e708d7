/** The records the tracker persists: completed sessions (`sessions_data`)
    and the per-date buckets of `progress_data['daily_logs']`, with the
    sums over the session history that the buckets and totals are meant to
    equal. */
module Records {
  import opened Util
  import opened Schedule

  type SessionId = string

  /** One `daily_logs` bucket. */
  datatype DayLog = DayLog(hours: real, sessions: int, topics: seq<string>, notes: seq<string>)

  /** A completed session as appended to `sessions_data`.  A timed session
      keeps the `paused_time` and any `pause_start` it had when it ended; a
      manual entry has neither (0.0 and None here) and `manual` set. */
  datatype Session = Session(
    id: SessionId,
    startTime: Time,
    endTime: Time,
    duration: real,
    pausedTime: real,
    pauseStart: Option<Time>,
    notes: string,
    topics: seq<string>,
    mood: string,
    difficulty: int,
    manual: bool)

  /** The date whose bucket a completed session was added to: the date it
      ended (for a manual entry, its given date, which is also its end). */
  function LogDay(s: Session): Day
  {
    DayOf(s.endTime)
  }

  /** The bucket a date starts with when it has none yet. */
  const EmptyLog: DayLog := DayLog(0.0, 0, [], [])

  /** The bucket of `day` after one more session of `duration` hours with
      these topics and notes has been added to it (`topics` and `notes` are
      only recorded when non-empty). */
  function AddToLog(logs: map<Day, DayLog>, day: Day, duration: real, topics: seq<string>, notes: string): (b: DayLog)
    ensures var old_ := if day in logs then logs[day] else EmptyLog;
      && b.hours == old_.hours + duration
      && b.sessions == old_.sessions + 1
      && b.topics == old_.topics + topics
      && b.notes == (if notes == "" then old_.notes else old_.notes + [notes])
  {
    var log := if day in logs then logs[day] else EmptyLog;
    DayLog(log.hours + duration, log.sessions + 1,
           if |topics| > 0 then log.topics + topics else log.topics,
           if notes != "" then log.notes + [notes] else log.notes)
  }

  /** Sum of the durations of a session history. */
  function TotalDuration(ss: seq<Session>): real
  {
    if |ss| == 0 then 0.0 else TotalDuration(ss[..|ss| - 1]) + ss[|ss| - 1].duration
  }

  /** Sum of the durations of the sessions logged on `day`. */
  function DayDuration(ss: seq<Session>, day: Day): real
  {
    if |ss| == 0 then 0.0
    else DayDuration(ss[..|ss| - 1], day) + (if LogDay(ss[|ss| - 1]) == day then ss[|ss| - 1].duration else 0.0)
  }

  /** Number of sessions logged on `day`. */
  function DayCount(ss: seq<Session>, day: Day): nat
  {
    if |ss| == 0 then 0
    else DayCount(ss[..|ss| - 1], day) + (if LogDay(ss[|ss| - 1]) == day then 1 else 0)
  }

  /** Appending a session adds its duration to the total, and its duration
      and one count to its own day and to no other. */
  lemma AppendSession(ss: seq<Session>, s: Session, day: Day)
    ensures TotalDuration(ss + [s]) == TotalDuration(ss) + s.duration
    ensures DayDuration(ss + [s], day) == DayDuration(ss, day) + (if LogDay(s) == day then s.duration else 0.0)
    ensures DayCount(ss + [s], day) == DayCount(ss, day) + (if LogDay(s) == day then 1 else 0)
  {
    assert (ss + [s])[..|ss|] == ss;
  }
}
