/** The `ProgressTracker` object: `progress_data`, `sessions_data` and the
    map of running sessions, changed in place by its operations.  Session
    ids and the current instant are inputs; saving to disk is not modelled. */
module Tracker {
  import opened Util
  import opened Schedule
  import opened Records
  import opened Streak
  import opened Achievements
  import opened Sessions
  import opened Progress
  import opened Toggle

  /** The reply of `end_session` and `add_manual_session`.  The source
      always returns an empty `new_achievements` list with a success. */
  datatype EndReply = SessionNotFound | Recorded(session: Session, newAchievements: seq<Achievement>)

  /** The reply of a toggle handler; `MissingIndex` is the "index required"
      error for a request without an index. */
  datatype ToggleReply = MissingIndex | Flipped(action: Action, list: seq<int>)

  class ProgressTracker {
    var progressData: ProgressData
    var sessionsData: seq<Session>
    var activeSessions: ActiveMap

    /** The aggregate agrees with the session history (see `Consistent`). */
    ghost predicate Valid()
      reads this
    {
      Consistent(progressData, sessionsData)
    }

    /** A tracker with the default progress, no history and no running
        session. */
    constructor()
      ensures progressData == DefaultProgress && sessionsData == [] && activeSessions == map[]
      ensures Valid()
    {
      progressData := DefaultProgress;
      sessionsData := [];
      activeSessions := map[];
    }

    /** `start_session`: `id` is the fresh id drawn for the session. */
    method StartSession(id: SessionId, now: Time) returns (r: SessionId)
      modifies this
      ensures r == id
      ensures activeSessions == old(activeSessions)[id := Started(now)]
      ensures progressData == old(progressData) && sessionsData == old(sessionsData)
    {
      activeSessions := activeSessions[id := ActiveSession(now, 0.0, None)];
      r := id;
    }

    /** `pause_session`. */
    method PauseSession(id: SessionId, now: Time) returns (reply: Reply)
      modifies this
      ensures (activeSessions, reply) == Pause(old(activeSessions), id, now)
      ensures progressData == old(progressData) && sessionsData == old(sessionsData)
    {
      if id !in activeSessions {
        return Failure("Session not found");
      }
      var session := activeSessions[id];
      if session.pauseStart.None? {
        activeSessions := activeSessions[id := session.(pauseStart := Some(now))];
        reply := Success("Session paused");
      } else {
        reply := Failure("Session already paused");
      }
    }

    /** `resume_session`. */
    method ResumeSession(id: SessionId, now: Time) returns (reply: Reply)
      modifies this
      ensures (activeSessions, reply) == Resume(old(activeSessions), id, now)
      ensures progressData == old(progressData) && sessionsData == old(sessionsData)
    {
      if id !in activeSessions {
        return Failure("Session not found");
      }
      var session := activeSessions[id];
      if session.pauseStart.Some? {
        var pauseDuration := Hours(now - session.pauseStart.value);
        activeSessions := activeSessions[id := session.(pausedTime := session.pausedTime + pauseDuration,
                                                        pauseStart := None)];
        reply := Success("Session resumed");
      } else {
        reply := Failure("Session not paused");
      }
    }

    /** `get_session_status`: reads the state and changes nothing; the reply
      is that of `GetSessionStatus` on the running sessions, duration
      included. */
    function GetStatus(id: SessionId, now: Time): (r: Option<SessionStatus>)
      reads this
      ensures r == GetSessionStatus(activeSessions, id, now)
      ensures r.Some? <==> id in activeSessions
      ensures r.Some? ==>
        && r.value.startTime == activeSessions[id].startTime
        && r.value.pausedTime == activeSessions[id].pausedTime
        && (r.value.paused <==> activeSessions[id].pauseStart.Some?)
    {
      GetSessionStatus(activeSessions, id, now)
    }

    /** `update_streak` with `today` the current date. */
    method UpdateStreak(today: Day)
      modifies this
      ensures progressData == RefreshStreak(old(progressData), today)
      ensures IsStreak(progressData.dailyLogs, today, progressData.currentStreak)
      ensures sessionsData == old(sessionsData) && activeSessions == old(activeSessions)
      ensures old(Valid()) ==> Valid()
    {
      StreakOrdered(StreakState(progressData.currentStreak, progressData.longestStreak), progressData.dailyLogs, today);
      var logs := progressData.dailyLogs;
      if |logs| == 0 || (today !in logs && today - 1 !in logs) {
        progressData := progressData.(currentStreak := 0);
        if |logs| > 0 {
          assert !Logged(logs, today);
        }
        RunSatisfiesStreak(logs, today);
        return;
      }
      var currentStreak := CurrentRun(logs, today);
      RunIsStreak(logs, today, currentStreak);
      progressData := progressData.(currentStreak := currentStreak,
                                    longestStreak := Max(progressData.longestStreak, currentStreak));
    }

    /** `check_achievements`: appends the ids of the newly reached milestones
        to the achievements and returns them. */
    method CheckAchievements() returns (newAchievements: seq<Achievement>)
      modifies this
      ensures newAchievements == NewAchievements(old(progressData).achievements, progressData.totalHours,
                                                 progressData.currentStreak, progressData.totalSessions)
      ensures progressData == AwardAchievements(old(progressData))
      ensures sessionsData == old(sessionsData) && activeSessions == old(activeSessions)
      ensures old(Valid()) ==> Valid()
    {
      if Valid() {
        NoDuplicatesAdded(progressData.achievements, progressData.totalHours, progressData.currentStreak,
                          progressData.totalSessions);
      }
      var current := progressData.achievements;
      var hoursEarned := CollectEarned(HoursKind, HourMilestones, progressData.totalHours, current);
      var streakEarned := CollectEarned(StreakKind, StreakMilestones, progressData.currentStreak as real, current);
      var sessionsEarned := CollectEarned(SessionsKind, SessionMilestones, progressData.totalSessions as real, current);
      newAchievements := hoursEarned + streakEarned + sessionsEarned;
      progressData := progressData.(achievements := current + newAchievements);
    }

    /** The counting steps `end_session` and `add_manual_session` share:
        append the finished session to the history and grow the totals and
        its date's bucket. */
    method CountSession(s: Session)
      modifies this
      ensures sessionsData == old(sessionsData) + [s]
      ensures progressData == AddSession(old(progressData), s)
      ensures activeSessions == old(activeSessions)
      ensures old(Valid()) ==> Valid()
    {
      if Valid() {
        CountPreservesConsistency(progressData, sessionsData, s);
      }
      sessionsData := sessionsData + [s];
      var logs := progressData.dailyLogs;
      var log := if LogDay(s) in logs then logs[LogDay(s)] else EmptyLog;
      log := log.(hours := log.hours + s.duration, sessions := log.sessions + 1);
      if |s.topics| > 0 {
        log := log.(topics := log.topics + s.topics);
      }
      if s.notes != "" {
        log := log.(notes := log.notes + [s.notes]);
      }
      progressData := progressData.(totalHours := progressData.totalHours + s.duration,
                                    totalSessions := progressData.totalSessions + 1,
                                    dailyLogs := logs[LogDay(s) := log]);
    }

    /** Everything `end_session` and `add_manual_session` do with a finished
        session: count it, then update the streak and the achievements. */
    method RecordSession(s: Session, today: Day)
      modifies this
      ensures sessionsData == old(sessionsData) + [s]
      ensures progressData == Folded(old(progressData), s, today)
      ensures activeSessions == old(activeSessions)
      ensures old(Valid()) ==> Valid()
    {
      ghost var before := progressData;
      ghost var history := sessionsData;
      CountSession(s);
      UpdateStreak(today);
      var _ := CheckAchievements();
      if Consistent(before, history) {
        FoldPreservesConsistency(before, history, s, today);
      }
    }

    /** `end_session` at `now`: an unknown id changes nothing; otherwise the
        session, its duration the whole span since its start, is recorded
        on today's bucket and removed from the running sessions. */
    method EndSession(id: SessionId, notes: string, topics: seq<string>, mood: string, difficulty: int, now: Time)
      returns (reply: EndReply)
      modifies this
      ensures id !in old(activeSessions) ==>
        reply == SessionNotFound && progressData == old(progressData)
        && sessionsData == old(sessionsData) && activeSessions == old(activeSessions)
      ensures id in old(activeSessions) ==>
        var s := Finished(id, old(activeSessions)[id], now, notes, topics, mood, difficulty);
        && reply == Recorded(s, [])
        && sessionsData == old(sessionsData) + [s]
        && progressData == Folded(old(progressData), s, DayOf(now))
        && activeSessions == old(activeSessions) - {id}
      ensures old(Valid()) ==> Valid()
    {
      if id !in activeSessions {
        return SessionNotFound;
      }
      var active := activeSessions[id];
      var duration := Hours(now - active.startTime);
      var session := Session(id, active.startTime, now, duration, active.pausedTime, active.pauseStart,
                             notes, topics, mood, difficulty, false);
      RecordSession(session, DayOf(now));
      activeSessions := activeSessions - {id};
      reply := Recorded(session, []);
    }

    /** `add_manual_session`: `id` is the fresh id drawn for the entry and
        `date` the instant it is dated at, `None` meaning now. */
    method AddManualSession(id: SessionId, duration: real, notes: string, topics: seq<string>, mood: string,
                            difficulty: int, date: Option<Time>, now: Time)
      returns (reply: EndReply)
      modifies this
      ensures var when := if date.Some? then date.value else now;
        var s := Manual(id, when, duration, notes, topics, mood, difficulty);
        && reply == Recorded(s, [])
        && sessionsData == old(sessionsData) + [s]
        && progressData == Folded(old(progressData), s, DayOf(now))
        && activeSessions == old(activeSessions)
      ensures old(Valid()) ==> Valid()
    {
      var when := if date.Some? then date.value else now;
      var session := Session(id, when, when, duration, 0.0, None, notes, topics, mood, difficulty, true);
      RecordSession(session, DayOf(now));
      reply := Recorded(session, []);
    }

    /** The topic toggle handler for stage `stageId`. */
    method ToggleTopic(stageId: int, index: Option<int>) returns (reply: ToggleReply)
      modifies this
      ensures index.None? ==> reply == MissingIndex && progressData == old(progressData)
      ensures index.Some? ==>
        var (lists, action) := ToggleIn(old(progressData).completedTopics, stageId, index.value);
        && progressData == old(progressData).(completedTopics := lists)
        && reply == Flipped(action, lists[stageId])
      ensures sessionsData == old(sessionsData) && activeSessions == old(activeSessions)
      ensures old(Valid()) ==> Valid()
    {
      if index.None? {
        return MissingIndex;
      }
      var lists := progressData.completedTopics;
      var list := if stageId in lists then lists[stageId] else [];
      var action;
      if index.value in list {
        list := RemoveFirst(list, index.value);
        action := Unchecked;
      } else {
        list := list + [index.value];
        action := Checked;
      }
      progressData := progressData.(completedTopics := lists[stageId := list]);
      reply := Flipped(action, list);
    }

    /** The project toggle handler for stage `stageId`. */
    method ToggleProject(stageId: int, index: Option<int>) returns (reply: ToggleReply)
      modifies this
      ensures index.None? ==> reply == MissingIndex && progressData == old(progressData)
      ensures index.Some? ==>
        var (lists, action) := ToggleIn(old(progressData).completedProjects, stageId, index.value);
        && progressData == old(progressData).(completedProjects := lists)
        && reply == Flipped(action, lists[stageId])
      ensures sessionsData == old(sessionsData) && activeSessions == old(activeSessions)
      ensures old(Valid()) ==> Valid()
    {
      if index.None? {
        return MissingIndex;
      }
      var lists := progressData.completedProjects;
      var list := if stageId in lists then lists[stageId] else [];
      var action;
      if index.value in list {
        list := RemoveFirst(list, index.value);
        action := Unchecked;
      } else {
        list := list + [index.value];
        action := Checked;
      }
      progressData := progressData.(completedProjects := lists[stageId := list]);
      reply := Flipped(action, list);
    }
  }
}
