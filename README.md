# Learning-progress tracker: verified model of `ProgressTracker`

This project models the core of a single-user learning-progress tracker
(a Flask application, `app.py`) and proves properties of it. The tracker
follows a fixed 48-week, 1600-hour curriculum of 8 stages starting on
Tuesday 2025-07-15. The plan expects 4 hours per weekday and 8 per weekend
day, 36 hours a week. The tracker:

- records timed learning sessions, which can be started, paused, resumed
  and ended, and manual entries;
- keeps the totals, a bucket per date (`daily_logs`), the history of
  completed sessions, the day streak and the milestone achievements;
- reports how far ahead of or behind the plan the learner is;
- breaks the logged work down per week and per curriculum stage;
- lets the learner tick topics and projects of a stage on and off.

Modules, one per concern of the source:

| module | file | models |
|---|---|---|
| `Schedule` | schedule.dfy | `LEARNING_PLAN` stage table, `get_current_week`, `get_current_stage`, `get_stage_status` |
| `Expected` | expected.dfy | `calculate_expected_hours` |
| `Status` | status.dfy | `get_progress_status` |
| `Records` | records.dfy | completed-session records and `daily_logs` buckets |
| `Streak` | streak.dfy | `update_streak` |
| `Achievements` | achievements.dfy | `check_achievements` |
| `Sessions` | sessions.dfy | `start_session`, `pause_session`, `resume_session`, `get_session_status`, the record `end_session` and `add_manual_session` build |
| `Progress` | progress.dfy | `progress_data` and folding one finished session into it |
| `Stats` | stats.dfy | `get_weekly_stats` and the per-stage bucketing of `get_dashboard_data` |
| `Toggle` | toggle.dfy | the toggle logic of the topic and project handlers |
| `Tracker` | tracker.dfy | the `ProgressTracker` object: its state and in-place operations |
| `Util` | util.dfy | `Option`, min/max, duplicate-freedom |

Conventions:

- Instants are whole seconds from 2025-07-15T00:00:00 and dates are day
  numbers from 2025-07-15. Day 0 is a Tuesday, so the weekday (Monday = 0)
  is `(1 + d) % 7`.
- Python's `//` and `timedelta.days` round toward minus infinity. For the
  positive divisors used here that is what Dafny's `/` does.
- Hours are `real`.
- The current instant and freshly drawn session ids are parameters.

The shape of the model follows the source:

- `ProgressTracker` is a class. Its fields are `progressData` (a datatype
  holding the `progress_data` fields the logic uses), `sessionsData` (the
  history) and `activeSessions` (the module-level map of running sessions).
- Its methods change those fields in place and are proved against pure
  specification functions: `Pause`, `Resume`, `AddSession`,
  `RefreshStreak`, `AwardAchievements` (their composition is `Folded`) and
  `ToggleIn`.
- The source's loops are methods with loop invariants:
  - the day loop of `calculate_expected_hours` (`Expected.ExpectedHours`);
  - the streak scan (`Streak.CurrentRun`);
  - the milestone loops (`Achievements.CollectEarned`);
  - the weekly and stage loops (`Stats.WeeklyStats`, `Stats.StageBreakdown`).
- The ghost predicate `Tracker.ProgressTracker.Valid` says that the totals
  and the daily buckets agree with the session history. Every state-changing
  method preserves it.

The quirks of the code are modelled as written:

- `end_session` logs the whole time since the start, without subtracting
  the time spent paused.
- A paused session's status adds `paused_time` where a running one
  subtracts it.
- The guard meant to return 0 expected hours before the start date cannot
  fire, because `days_elapsed` is clamped to 0 first.
- The streak scan always starts at today, so the streak is 0 when only
  yesterday is logged.
- The dashboard's session week is not clamped. A session dated before the
  start, or after week 48, is counted in no stage.
- `end_session` and `add_manual_session` always answer with an empty
  `new_achievements` list.
- The catch-up rate is what app.py:315-316 computes: the remaining hours
  divided by the remaining weeks, then by 7, and 0 when no week remains.

## Model

| member | source | states |
|---|---|---|
| Schedule.StageTable | app.py:29-206 | the plan has 8 stages, ids 1..8 in order, each with non-empty weeks; the weeks start at 1, follow on without gap or overlap and end at 48 |
| Schedule.StagesPartitionWeeks | app.py:39-186 | every week 1..48 lies in exactly one stage (four 8-week stages then four 4-week ones) and no other week lies in any stage |
| Schedule.CurrentWeek | app.py:256-261 | the current week is always in 1..48; within the program the instant's date lies in that week; it is 1 before the start and 48 after the end |
| Schedule.FindStage | app.py:263-268 | the stage loop returns the first stage at or after a table position whose weeks contain the week, and 8 when none does |
| Schedule.CurrentStage | app.py:263-268 | for a week in 1..48 the stage is the unique one whose range contains it; any other week gives stage 8 |
| Schedule.CurrentStageClosedForm | app.py:263-268 | the stage of a program week is `(week-1)/8 + 1` up to week 32 and `(week-33)/4 + 5` after |
| Schedule.GetStageStatus | app.py:643-653 | completed exactly when the current week is past the stage's last week, active exactly inside the stage, upcoming exactly before it |
| Schedule.OneActiveStage | app.py:643-653 | for any program week exactly the current stage is active, earlier stages are completed and later ones upcoming |
| Schedule.StageStatusAdvances | app.py:643-653 | as the week advances a stage's status only moves forward (upcoming, active, completed) |
| Expected.DailyTarget | app.py:285-291 | a date's target is the weekend target 8 exactly when it is a Saturday or Sunday, and the weekday target 4 on every other day |
| Expected.ExpectedAt | app.py:270-296 | the value is never above 1600; below 1600 it is the sum of the targets of days 0 through the clamped elapsed day count, and it is 1600 only when that sum reaches 1600 |
| Expected.ExpectedHours | app.py:270-296 | the day loop returns the sum of the daily targets of days 0..elapsed, capped at 1600 |
| Expected.TargetSumBounds | app.py:283-293 | the targets of n days sum to between 4n and 8n |
| Expected.TargetSumMonotone | app.py:283-293 | summing over more days never gives less |
| Expected.WeekOfTargets | app.py:283-293 | any seven consecutive days add up to the weekly target of 36 |
| Expected.WholeWeeks | app.py:283-293 | k whole weeks add exactly 36k hours to the sum |
| Expected.ExpectedBounds | app.py:270-296 | the expected hours are at least 4 and never exceed 1600 |
| Expected.ExpectedMonotone | app.py:270-296 | the expected hours never decrease as time passes |
| Expected.ExpectedByWeeks | app.py:270-296 | from the start date on, the expected hours are 36 per whole week plus the targets of the current week's days so far, capped at 1600 |
| Expected.SecondDayExpectsEight | app.py:270-296 | queried on Wednesday 2025-07-16 the plan expects 8 hours |
| Expected.FutureStartExpectsOneDay | app.py:274-278 | on or before the start date the result is 4, never 0: the future-start guard is unreachable |
| Status.Classify | app.py:318-338 | each label and urgency is exactly one band of ratios: >= 1.2, [0.95, 1.2), [0.8, 0.95), [0.6, 0.8), < 0.6 |
| Status.ClassifyMonotone | app.py:318-338 | a lower ratio never gets a better label |
| Status.ProgressRatio | app.py:305 | the ratio times the expected hours is the actual hours when something is expected, and 0 otherwise |
| Status.CatchUp | app.py:313-316 | remaining weeks and hours are never negative; no hours remain exactly when 1600 have been logged; with no week left nothing is needed per day, otherwise the per-day rate over every day of the remaining weeks is the remaining hours |
| Status.HoursPerDayNeeded | app.py:313-316 | the daily catch-up rate times 7 times the remaining weeks is the remaining hours; 0 when no week remains; never negative when hours remain |
| Status.GetProgressStatus | app.py:298-354 | the report's week, expected hours, actual hours and ratio are those of the plan at that instant, and its label and urgency are the classification of the ratio |
| Status.StatusCalendar | app.py:300-310 | the reported week is in 1..48, the stage contains it, and the daily target is the weekend or weekday one for today |
| Status.RatioIsQuotient | app.py:302-305 | the expected hours are in 1..1600, so the ratio is always actual over expected and the 0 fallback never applies |
| Status.CatchUpFigures | app.py:313-316 | in any program week, remaining weeks and hours are never negative; no hours remain exactly when 1600 are logged; the per-day rate over every day of the remaining weeks makes up the remaining hours, and is 0 with no week left |
| Status.StatusCatchUp | app.py:298-354 | the catch-up figures the report carries keep the promises of `CatchUpFigures` |
| Status.MoreHoursNeverWorse | app.py:305-338 | at the same instant, more logged hours never give a worse label |
| Status.ExactlyExpectedIsOnTrack | app.py:305-328 | having logged exactly the expected hours is on track |
| Records.AddToLog | app.py:405-420 | a date's bucket gains the duration and one session; topics are appended when given and a note when non-empty |
| Records.AppendSession | app.py:396-402 | appending a session adds its duration to the total, and its duration and one count to its own date and no other |
| Streak.RunIsStreak | app.py:514-524 | the run length ending today is the one number n with the n days up to today all logged and the day before not |
| Streak.CurrentRun | app.py:514-524 | the backward scan from today returns the streak ending today |
| Streak.UpdatedStreak | app.py:496-530 | after the update the current streak is the run of logged days ending today and the longest is the larger of the old longest and it |
| Streak.UnloggedTodayResets | app.py:516-524 | the current streak is 0 whenever today is unlogged, even if yesterday is logged |
| Streak.OnlyTodayLogged | app.py:516-524 | with only today logged the current streak is 1 |
| Streak.StreakOrdered | app.py:526-530 | after an update the current streak is at most the longest, and the longest never decreases |
| Streak.UpdateIdempotent | app.py:496-530 | updating twice gives the same streaks as updating once |
| Streak.UpdatedIsStreak | app.py:496-530 | after an update the current streak satisfies the streak definition for today |
| Achievements.CollectEarned | app.py:541-549 | a milestone loop appends, in table order, exactly the reached milestones whose ids are not held |
| Achievements.EarnedMembership | app.py:541-576 | an id is awarded by a loop exactly when it is of the loop's kind, in its table, reached and not held |
| Achievements.NewMembership | app.py:532-583 | the new ids are exactly the reached milestones not already held |
| Achievements.NewInAwardOrder | app.py:532-583 | the new ids come as hours milestones ascending, then streak, then sessions |
| Achievements.NoDuplicatesAdded | app.py:579-581 | appending the new ids keeps a duplicate-free list duplicate-free |
| Achievements.SecondCheckAwardsNothing | app.py:532-583 | a second check with unchanged metrics awards nothing |
| Achievements.MoreProgressAwardsMore | app.py:532-583 | larger metrics award every id that smaller metrics award |
| Sessions.Started | app.py:356-372 | a new session starts now, unpaused, with no time paused |
| Sessions.Pause | app.py:440-451 | pausing succeeds exactly on a known running session and then only sets its pause start; an unknown id gives "Session not found" and a failure changes nothing |
| Sessions.Resume | app.py:453-465 | resuming succeeds exactly on a known paused session, adds the paused span to `paused_time`, clears the pause start and changes nothing else; a failure changes nothing |
| Sessions.ResumeKeepsPausedTimeMonotone | app.py:458-462 | `paused_time` never decreases when the clock is not before the pause start |
| Sessions.PauseResumeRoundTrip | app.py:440-465 | pause then resume adds exactly the span between them to `paused_time` and changes nothing else |
| Sessions.InstantPauseRestores | app.py:440-465 | pausing and resuming at the same instant restores the map |
| Sessions.NoDoubleTransitions | app.py:446-450 | a second pause, or a second resume, is refused and changes nothing |
| Sessions.GetSessionStatus | app.py:467-494 | a status exists exactly for known ids and carries their start, paused time and paused flag; a running session's duration plus its paused time is the time since its start; a paused session's duration is the time up to the pause start plus the paused time |
| Sessions.PausedDurationFrozen | app.py:476-481 | a paused session's reported duration does not depend on the query time |
| Sessions.PausingAddsTwicePausedTime | app.py:476-486 | pausing makes the reported duration jump by twice the time already spent paused |
| Sessions.Finished | app.py:380-393 | the completed record ends now, keeps the start and `paused_time`, and its duration is the whole span since the start |
| Sessions.EndCountsPausedTime | app.py:383 | ending a running session logs its reported duration plus the time it spent paused |
| Sessions.Manual | app.py:696-708 | a manual record starts and ends at its date, with the given duration and no paused time |
| Progress.DefaultConsistent | app.py:239-253 | the default progress agrees with an empty history |
| Progress.FoldedCounters | app.py:400-420 | total hours and the date's bucket grow by the duration, total and bucket sessions by one, and no other bucket or completion list changes |
| Progress.FoldedStreak | app.py:423 | after a fold the current streak is the streak ending today and the longest never decreases |
| Progress.FoldedAchievements | app.py:426 | after a fold the achievements are the old list followed, in award order, by exactly the reached milestones not yet held |
| Progress.LogSessionAgrees | app.py:405-420 | adding a session to its date's bucket keeps the buckets in agreement with the extended history |
| Progress.CountPreservesConsistency | app.py:396-420 | counting a session keeps the totals and buckets equal to the sums over the history extended by it |
| Progress.FoldPreservesConsistency | app.py:396-426 | folding a session keeps the totals and buckets equal to the sums over the extended history, current <= longest streak, and no duplicate achievement |
| Stats.WeeklyStats | app.py:655-683 | one entry per week 1..current week, each holding the hours and sessions of that week's seven dates |
| Stats.WeekPercentage | app.py:673-680 | a week spans seven dates and its percentage is its hours as a share of 36 |
| Stats.WeeksTileDates | app.py:660-671 | the first n weekly entries together hold exactly the hours of dates 0..7n-1 |
| Stats.WeekMatchesHistory | app.py:664-671 | with buckets that agree with the history, a week's entry is the hours and number of sessions logged that week |
| Stats.StageBreakdown | app.py:595-621 | one entry per stage with the hours and count of sessions whose unclamped week lies in its weeks, capped percentage and status |
| Stats.StagesCoverProgram | app.py:597-609 | the stages together count exactly the sessions of weeks 1..48, each once |
| Stats.OutsideWeeksUncounted | app.py:602-609 | sessions before the start or after week 48 are counted in no stage |
| Stats.StagePercentage | app.py:611 | a stage's percentage is at most 100, and is its hours as a share of the target while under it |
| Toggle.RemoveFirst | app.py:885 | removing an index drops its first occurrence and keeps the other elements in order |
| Toggle.Toggled | app.py:884-889 | the action is checked, with the index appended, exactly when it was absent; otherwise unchecked, one element shorter |
| Toggle.ToggleCounts | app.py:884-889 | the index's count moves by one, up when absent and down when present, and no other count changes |
| Toggle.ToggleFlips | app.py:884-889 | on a duplicate-free list a toggle flips the index's membership, keeps all others and stays duplicate-free |
| Toggle.ToggleTwice | app.py:884-889 | toggling twice on a duplicate-free list restores every membership with opposite actions; an absent index restores the list exactly |
| Toggle.ToggleIn | app.py:876-889 | only the stage's list changes, starting from an empty list when the stage has none |
| Tracker.ProgressTracker.constructor | app.py:239-253 | a tracker starts with the default progress, no history and no running session, and is valid |
| Tracker.ProgressTracker.StartSession | app.py:356-372 | the id is mapped to a fresh running session and nothing else changes |
| Tracker.ProgressTracker.PauseSession | app.py:440-451 | the running sessions and the reply are those of `Pause`; progress and history are unchanged |
| Tracker.ProgressTracker.ResumeSession | app.py:453-465 | the running sessions and the reply are those of `Resume`; progress and history are unchanged |
| Tracker.ProgressTracker.GetStatus | app.py:467-494 | the reply, duration included, is `GetSessionStatus` on the running sessions: a status exactly for known ids, carrying their start, paused time and paused flag |
| Tracker.ProgressTracker.UpdateStreak | app.py:496-530 | only the streak fields change, to those of `UpdatedStreak`, and the current streak is the streak ending today; validity is preserved |
| Tracker.ProgressTracker.CheckAchievements | app.py:532-583 | the new ids are returned and appended to the achievements; nothing else changes; validity is preserved |
| Tracker.ProgressTracker.CountSession | app.py:396-420 | the session is appended to the history, the totals and its date's bucket grow as `AddSession` says, and the running sessions are unchanged; validity is preserved |
| Tracker.ProgressTracker.RecordSession | app.py:396-426 | the session is appended to the history, progress becomes the fold of the session, and validity is preserved |
| Tracker.ProgressTracker.EndSession | app.py:374-438 | an unknown id changes nothing; otherwise the finished session is recorded on today's bucket, removed from the running sessions, and validity is preserved |
| Tracker.ProgressTracker.AddManualSession | app.py:685-752 | the manual record, dated at its date or now, is recorded on that date's bucket; running sessions are unchanged and validity is preserved |
| Tracker.ProgressTracker.ToggleTopic | app.py:873-889 | no index is an error that changes nothing; otherwise the stage's topic list is toggled as `ToggleIn` says |
| Tracker.ProgressTracker.ToggleProject | app.py:905-921 | no index is an error that changes nothing; otherwise the stage's project list is toggled as `ToggleIn` says |

## Left out

- Persistence: loading and saving the JSON files. A save changes nothing
  in the model, and a loaded file is not checked against `Valid`.
- Flask routing, requests, JSON replies and templates. Only the toggle
  bodies of two handlers are modelled.
- `datetime.now()`, `uuid.uuid4()` and ISO date strings. The instant,
  the fresh id and a manual entry's date are parameters.
- The parse error path of `add_manual_session`, where a malformed date
  string raises and the error text is returned. Dates are already numbers.
- Floating-point rounding. Hours are exact reals, so sums that are the same
  up to float rounding are equal in the model.
- Colours, emoji in the labels, and achievement titles, descriptions and
  `earned_at` stamps.
- The `updated_at`, `created_at`, `last_session_date`, `user_id` and
  `status` fields of the records, and the stage name, topic and project
  texts of the plan.
- The dashboard's recent-sessions list, its `total_achievements` count and
  `get_recent_achievements`, which only returns an empty list. The empty
  list appears in the replies.
- `Stats.WeeklyStats`: the source scans every bucket and keeps those
  dated inside the week. The model visits the week's seven dates. Buckets
  have distinct dates, so the sums hold the same terms.
- The productivity-statistics and learning-insights endpoints, and the
  browser-side data manager, which have no tracker logic.
