/** The active-session state machine: `start_session`, `pause_session`,
    `resume_session` and `get_session_status` over the map from session id
    to the record of a running session, and the completed record
    `end_session` makes of one. */
module Sessions {
  import opened Util
  import opened Schedule
  import opened Records

  /** A running session: its start, the hours spent paused so far and, while
      it is paused, the instant the pause began (`pause_start`). */
  datatype ActiveSession = ActiveSession(startTime: Time, pausedTime: real, pauseStart: Option<Time>)

  type ActiveMap = map<SessionId, ActiveSession>

  /** A span of seconds in hours: `total_seconds() / 3600`. */
  function Hours(seconds: int): real
  {
    seconds as real / 3600.0
  }

  /** The record `start_session` creates at `now`: running, nothing paused. */
  function Started(now: Time): (s: ActiveSession)
    ensures s.startTime == now && s.pausedTime == 0.0 && s.pauseStart.None?
  {
    ActiveSession(now, 0.0, None)
  }

  /** The reply of `pause_session` and `resume_session`. */
  datatype Reply = Success(message: string) | Failure(error: string)

  const NotFound: string := "Session not found"

  /** `pause_session` at `now`: the map afterwards and the reply.  Pausing
      succeeds exactly on a known, running session; it then records the
      pause start and changes nothing else.  Otherwise nothing changes. */
  function Pause(active: ActiveMap, id: SessionId, now: Time): (r: (ActiveMap, Reply))
    ensures var (after, reply) := r;
      && (reply.Success? <==> id in active && active[id].pauseStart.None?)
      && (id !in active ==> reply == Failure("Session not found"))
      && (reply.Failure? ==> after == active)
      && (reply.Success? ==>
            after.Keys == active.Keys
            && after[id] == ActiveSession(active[id].startTime, active[id].pausedTime, Some(now))
            && forall other :: other in active && other != id ==> after[other] == active[other])
  {
    if id !in active then (active, Failure(NotFound))
    else if active[id].pauseStart.None? then
      (active[id := active[id].(pauseStart := Some(now))], Success("Session paused"))
    else (active, Failure("Session already paused"))
  }

  /** `resume_session` at `now`: the map afterwards and the reply.
      Resuming succeeds exactly on a known, paused session; it then adds the
      paused span to `paused_time`, clears the pause start and changes
      nothing else.  Otherwise nothing changes. */
  function Resume(active: ActiveMap, id: SessionId, now: Time): (r: (ActiveMap, Reply))
    ensures var (after, reply) := r;
      && (reply.Success? <==> id in active && active[id].pauseStart.Some?)
      && (id !in active ==> reply == Failure("Session not found"))
      && (reply.Failure? ==> after == active)
      && (reply.Success? ==>
            after.Keys == active.Keys
            && after[id].startTime == active[id].startTime
            && after[id].pausedTime == active[id].pausedTime + Hours(now - active[id].pauseStart.value)
            && after[id].pauseStart.None?
            && forall other :: other in active && other != id ==> after[other] == active[other])
  {
    if id !in active then (active, Failure(NotFound))
    else if active[id].pauseStart.Some? then
      var s := active[id];
      (active[id := s.(pausedTime := s.pausedTime + Hours(now - s.pauseStart.value), pauseStart := None)],
       Success("Session resumed"))
    else (active, Failure("Session not paused"))
  }

  /** Resuming never lowers `paused_time` when the clock has not gone back
      before the pause start. */
  lemma ResumeKeepsPausedTimeMonotone(active: ActiveMap, id: SessionId, now: Time)
    requires id in active && active[id].pauseStart.Some? ==> now >= active[id].pauseStart.value
    ensures id in active ==>
      id in Resume(active, id, now).0 && Resume(active, id, now).0[id].pausedTime >= active[id].pausedTime
  {
  }

  /** Pausing at `t` and resuming at `t2` adds exactly the `t2 - t` seconds,
      in hours, to `paused_time` and leaves the map otherwise as it was. */
  lemma PauseResumeRoundTrip(active: ActiveMap, id: SessionId, t: Time, t2: Time)
    requires id in active && active[id].pauseStart.None?
    ensures Pause(active, id, t).1.Success? && Resume(Pause(active, id, t).0, id, t2).1.Success?
    ensures Resume(Pause(active, id, t).0, id, t2).0
      == active[id := active[id].(pausedTime := active[id].pausedTime + Hours(t2 - t))]
  {
  }

  /** Pausing and resuming at the same instant restores the map. */
  lemma {:induction false} InstantPauseRestores(active: ActiveMap, id: SessionId, t: Time)
    requires id in active && active[id].pauseStart.None?
    ensures Resume(Pause(active, id, t).0, id, t).0 == active
  {
    PauseResumeRoundTrip(active, id, t, t);
    var s := active[id];
    assert s.(pausedTime := s.pausedTime + Hours(t - t)) == s;
    assert active[id := s] == active;
  }

  /** A second pause or a second resume is refused and changes nothing. */
  lemma NoDoubleTransitions(active: ActiveMap, id: SessionId, t: Time, t2: Time)
    ensures id in active && active[id].pauseStart.None? ==>
      Pause(Pause(active, id, t).0, id, t2) == (Pause(active, id, t).0, Failure("Session already paused"))
    ensures id in active && active[id].pauseStart.Some? ==>
      Resume(Resume(active, id, t).0, id, t2) == (Resume(active, id, t).0, Failure("Session not paused"))
  {
  }

  /** What `get_session_status` reports for a known session. */
  datatype SessionStatus = SessionStatus(paused: bool, duration: real, startTime: Time, pausedTime: real)

  /** `get_session_status` at `now`; `None` is the "Session not found" error.
      A running session reports the time since its start less the time spent
      paused; a paused one reports the time up to the pause start PLUS the
      time spent paused.  Start, paused time and the paused flag are the
      session's own. */
  function GetSessionStatus(active: ActiveMap, id: SessionId, now: Time): (r: Option<SessionStatus>)
    ensures r.Some? <==> id in active
    ensures r.Some? ==>
      && r.value.startTime == active[id].startTime
      && r.value.pausedTime == active[id].pausedTime
      && (r.value.paused <==> active[id].pauseStart.Some?)
    ensures r.Some? && !r.value.paused ==>
      r.value.duration + active[id].pausedTime == Hours(now - active[id].startTime)
    ensures r.Some? && r.value.paused ==>
      r.value.duration == Hours(active[id].pauseStart.value - active[id].startTime) + active[id].pausedTime
  {
    if id !in active then None
    else
      var s := active[id];
      if s.pauseStart.Some? then
        Some(SessionStatus(true, Hours(s.pauseStart.value - s.startTime) + s.pausedTime, s.startTime, s.pausedTime))
      else
        Some(SessionStatus(false, Hours(now - s.startTime) - s.pausedTime, s.startTime, s.pausedTime))
  }

  /** While a session is paused its reported duration does not move. */
  lemma PausedDurationFrozen(active: ActiveMap, id: SessionId, t: Time, t2: Time)
    requires id in active && active[id].pauseStart.Some?
    ensures GetSessionStatus(active, id, t) == GetSessionStatus(active, id, t2)
    ensures GetSessionStatus(active, id, t).value.paused
  {
  }

  /** Pausing a running session makes its reported duration jump up by
      twice the time it had spent paused before: the running status
      subtracts `paused_time`, the paused status adds it. */
  lemma PausingAddsTwicePausedTime(active: ActiveMap, id: SessionId, t: Time, later: Time)
    requires id in active && active[id].pauseStart.None?
    ensures GetSessionStatus(Pause(active, id, t).0, id, later).value.duration
      == GetSessionStatus(active, id, t).value.duration + 2.0 * active[id].pausedTime
  {
  }

  /** The record `end_session` appends for active session `s` ended at
      `now`: its duration is the whole span since the start, in hours, and
      `paused_time` (and any `pause_start`) are kept but not subtracted. */
  function Finished(id: SessionId, s: ActiveSession, now: Time, notes: string, topics: seq<string>,
                     mood: string, difficulty: int): (c: Session)
    ensures c.id == id && c.startTime == s.startTime && c.endTime == now && LogDay(c) == DayOf(now)
    ensures c.duration == Hours(now - s.startTime)
    ensures c.pausedTime == s.pausedTime && c.pauseStart == s.pauseStart && !c.manual
    ensures c.notes == notes && c.topics == topics && c.mood == mood && c.difficulty == difficulty
  {
    Session(id, s.startTime, now, Hours(now - s.startTime), s.pausedTime, s.pauseStart,
            notes, topics, mood, difficulty, false)
  }

  /** Ending a running session logs more than its status reports, by the
      time it spent paused. */
  lemma EndCountsPausedTime(active: ActiveMap, id: SessionId, now: Time, notes: string, topics: seq<string>,
                            mood: string, difficulty: int)
    requires id in active && active[id].pauseStart.None?
    ensures Finished(id, active[id], now, notes, topics, mood, difficulty).duration
      == GetSessionStatus(active, id, now).value.duration + active[id].pausedTime
  {
  }

  /** The record `add_manual_session` appends: it starts and ends at its
      date, with the given duration. */
  function Manual(id: SessionId, date: Time, duration: real, notes: string, topics: seq<string>,
                  mood: string, difficulty: int): (c: Session)
    ensures c.id == id && c.startTime == date && c.endTime == date && LogDay(c) == DayOf(date)
    ensures c.duration == duration && c.manual && c.pausedTime == 0.0 && c.pauseStart.None?
    ensures c.notes == notes && c.topics == topics && c.mood == mood && c.difficulty == difficulty
  {
    Session(id, date, date, duration, 0.0, None, notes, topics, mood, difficulty, true)
  }
}
