/** `progress_data` and what folding one finished session into it does, the
    part `end_session` and `add_manual_session` share: grow the totals and
    the session's daily bucket, then `update_streak`, then
    `check_achievements`. */
module Progress {
  import opened Util
  import opened Schedule
  import opened Records
  import opened Streak
  import opened Achievements

  /** The fields of `progress_data` the tracker's logic reads and writes.
      `completedTopics` and `completedProjects` map a stage id to the
      indices ticked off in it. */
  datatype ProgressData = ProgressData(
    totalHours: real,
    totalSessions: int,
    currentStreak: nat,
    longestStreak: nat,
    achievements: seq<Achievement>,
    dailyLogs: map<Day, DayLog>,
    completedTopics: map<int, seq<int>>,
    completedProjects: map<int, seq<int>>)

  /** `get_default_progress`. */
  const DefaultProgress: ProgressData := ProgressData(0.0, 0, 0, 0, [], map[], map[], map[])

  /** The aggregate agrees with the session history `ss`: the totals are the
      sums over it, every bucket holds the hours and count of the sessions
      logged on its date, every date with a session has a bucket, the
      current streak is at most the longest and no achievement is held
      twice. */
  ghost predicate Consistent(p: ProgressData, ss: seq<Session>)
  {
    && p.totalHours == TotalDuration(ss)
    && p.totalSessions == |ss|
    && LogsAgree(p.dailyLogs, ss)
    && p.currentStreak <= p.longestStreak
    && NoDup(p.achievements)
  }

  /** A fresh tracker agrees with an empty history. */
  lemma DefaultConsistent()
    ensures Consistent(DefaultProgress, [])
  {
  }

  /** The buckets after session `s` has been added to the bucket of its date. */
  function LogSession(logs: map<Day, DayLog>, s: Session): (r: map<Day, DayLog>)
    ensures r.Keys == logs.Keys + {LogDay(s)}
    ensures r[LogDay(s)] == AddToLog(logs, LogDay(s), s.duration, s.topics, s.notes)
    ensures forall d :: d in logs && d != LogDay(s) ==> r[d] == logs[d]
  {
    logs[LogDay(s) := AddToLog(logs, LogDay(s), s.duration, s.topics, s.notes)]
  }

  /** The totals and the session's date's bucket after finished session `s`
      has been counted. */
  function AddSession(p: ProgressData, s: Session): ProgressData
  {
    p.(totalHours := p.totalHours + s.duration,
       totalSessions := p.totalSessions + 1,
       dailyLogs := LogSession(p.dailyLogs, s))
  }

  /** The streak fields after `update_streak` on `today`. */
  function RefreshStreak(p: ProgressData, today: Day): ProgressData
  {
    var st := UpdatedStreak(StreakState(p.currentStreak, p.longestStreak), p.dailyLogs, today);
    p.(currentStreak := st.current, longestStreak := st.longest)
  }

  /** The achievements after `check_achievements`. */
  function AwardAchievements(p: ProgressData): ProgressData
  {
    p.(achievements := p.achievements + NewAchievements(p.achievements, p.totalHours, p.currentStreak, p.totalSessions))
  }

  /** `progress_data` after finished session `s` has been folded in, with
      `today` the date the streak is measured from. */
  function Folded(p: ProgressData, s: Session, today: Day): ProgressData
  {
    AwardAchievements(RefreshStreak(AddSession(p, s), today))
  }

  /** Folding a session grows the total hours and the hours of its date's
      bucket by its duration, and the session counts of both by one; every
      other bucket and the completion lists stay as they were. */
  lemma FoldedCounters(p: ProgressData, s: Session, today: Day)
    ensures var q := Folded(p, s, today);
      var old_ := if LogDay(s) in p.dailyLogs then p.dailyLogs[LogDay(s)] else EmptyLog;
      && q.totalHours == p.totalHours + s.duration
      && q.totalSessions == p.totalSessions + 1
      && LogDay(s) in q.dailyLogs
      && q.dailyLogs[LogDay(s)].hours == old_.hours + s.duration
      && q.dailyLogs[LogDay(s)].sessions == old_.sessions + 1
      && q.dailyLogs.Keys == p.dailyLogs.Keys + {LogDay(s)}
      && (forall d :: d in p.dailyLogs && d != LogDay(s) ==> q.dailyLogs[d] == p.dailyLogs[d])
      && q.completedTopics == p.completedTopics && q.completedProjects == p.completedProjects
  {
    var a := AddSession(p, s);
    assert a.dailyLogs == LogSession(p.dailyLogs, s);
    assert Folded(p, s, today).dailyLogs == a.dailyLogs;
  }

  /** After a fold the streak fields are those of `update_streak` on the new
      buckets: the current streak is the run of logged days ending today and
      the longest streak never decreases. */
  lemma FoldedStreak(p: ProgressData, s: Session, today: Day)
    ensures var q := Folded(p, s, today);
      && IsStreak(q.dailyLogs, today, q.currentStreak)
      && q.longestStreak == Max(p.longestStreak, q.currentStreak)
      && p.longestStreak <= q.longestStreak
  {
    var a := AddSession(p, s);
    var q := Folded(p, s, today);
    assert q.dailyLogs == a.dailyLogs;
    assert q.currentStreak == RefreshStreak(a, today).currentStreak;
    assert q.longestStreak == RefreshStreak(a, today).longestStreak;
    UpdatedIsStreak(StreakState(p.currentStreak, p.longestStreak), a.dailyLogs, today);
  }

  /** After a fold the achievements are the old list followed by exactly the
      milestones the new totals and streak reach that were not yet held, in
      award order; nothing is removed. */
  lemma FoldedAchievements(p: ProgressData, s: Session, today: Day)
    ensures var q := Folded(p, s, today);
      var added := q.achievements[|p.achievements|..];
      && q.achievements[..|p.achievements|] == p.achievements
      && InAwardOrder(added)
      && forall a :: a in added <==>
           a !in p.achievements && Reached(a, q.totalHours, q.currentStreak, q.totalSessions)
  {
    var q := Folded(p, s, today);
    var r := RefreshStreak(AddSession(p, s), today);
    assert q == AwardAchievements(r);
    assert r.achievements == p.achievements;
    var added := NewAchievements(p.achievements, q.totalHours, q.currentStreak, q.totalSessions);
    assert q.achievements[|p.achievements|..] == added;
    NewInAwardOrder(p.achievements, q.totalHours, q.currentStreak, q.totalSessions);
    forall a ensures a in added <==> a !in p.achievements && Reached(a, q.totalHours, q.currentStreak, q.totalSessions) {
      NewMembership(p.achievements, q.totalHours, q.currentStreak, q.totalSessions, a);
    }
  }

  /** A date with no session in the history has no hours either. */
  lemma {:induction false} NoCountNoHours(ss: seq<Session>, d: Day)
    requires DayCount(ss, d) == 0
    ensures DayDuration(ss, d) == 0.0
  {
    if |ss| > 0 {
      NoCountNoHours(ss[..|ss| - 1], d);
    }
  }

  /** The buckets agree with a history when each holds the hours and count
      of its date's sessions and every date with a session has one. */
  ghost predicate LogsAgree(logs: map<Day, DayLog>, ss: seq<Session>)
  {
    && (forall d :: d in logs ==> logs[d].hours == DayDuration(ss, d))
    && (forall d :: d in logs ==> logs[d].sessions == DayCount(ss, d))
    && (forall d :: DayCount(ss, d) > 0 ==> d in logs)
  }

  /** Adding a session to its date's bucket keeps the buckets in agreement
      with the history extended by that session. */
  lemma LogSessionAgrees(logs: map<Day, DayLog>, ss: seq<Session>, s: Session)
    requires LogsAgree(logs, ss)
    ensures LogsAgree(LogSession(logs, s), ss + [s])
  {
    var r := LogSession(logs, s);
    var ss' := ss + [s];
    if LogDay(s) !in logs {
      NoCountNoHours(ss, LogDay(s));
    }
    forall d | d in r
      ensures r[d].hours == DayDuration(ss', d) && r[d].sessions == DayCount(ss', d)
    {
      AppendSession(ss, s, d);
    }
    forall d | DayCount(ss', d) > 0 ensures d in r {
      AppendSession(ss, s, d);
    }
  }

  /** Counting a session keeps the aggregate in agreement with the history
      extended by that session. */
  lemma CountPreservesConsistency(p: ProgressData, ss: seq<Session>, s: Session)
    requires Consistent(p, ss)
    ensures Consistent(AddSession(p, s), ss + [s])
  {
    AppendSession(ss, s, 0);
    LogSessionAgrees(p.dailyLogs, ss, s);
  }

  /** Folding a session into an aggregate that agrees with the history gives
      one that agrees with the history extended by that session. */
  lemma FoldPreservesConsistency(p: ProgressData, ss: seq<Session>, s: Session, today: Day)
    requires Consistent(p, ss)
    ensures Consistent(Folded(p, s, today), ss + [s])
  {
    var a := AddSession(p, s);
    var r := RefreshStreak(a, today);
    var q := AwardAchievements(r);
    CountPreservesConsistency(p, ss, s);
    StreakOrdered(StreakState(a.currentStreak, a.longestStreak), a.dailyLogs, today);
    assert Consistent(r, ss + [s]);
    NoDuplicatesAdded(r.achievements, r.totalHours, r.currentStreak, r.totalSessions);
    assert Consistent(q, ss + [s]);
  }
}
