/** `check_achievements`: compares the tracker's hours, current streak and
    session count with three fixed, ascending milestone tables and awards
    every milestone reached that has not been awarded before. */
module Achievements {
  import opened Util

  datatype Kind = HoursKind | StreakKind | SessionsKind

  /** An achievement id: `hours_<m>`, `streak_<m>` or `sessions_<m>`. */
  datatype Achievement = Achievement(kind: Kind, milestone: int)

  const HourMilestones: seq<int> := [10, 25, 50, 100, 200, 500, 1000]
  const StreakMilestones: seq<int> := [3, 7, 14, 30, 60, 100]
  const SessionMilestones: seq<int> := [5, 25, 50, 100, 250, 500]

  function Milestones(kind: Kind): seq<int>
  {
    match kind
    case HoursKind => HourMilestones
    case StreakKind => StreakMilestones
    case SessionsKind => SessionMilestones
  }

  /** The order in which the kinds are checked. */
  function KindRank(kind: Kind): nat
  {
    match kind
    case HoursKind => 0
    case StreakKind => 1
    case SessionsKind => 2
  }

  predicate Increasing(ms: seq<int>)
  {
    forall i, j :: 0 <= i < j < |ms| ==> ms[i] < ms[j]
  }

  /** The metric an achievement of each kind is measured against. */
  function Metric(kind: Kind, hours: real, streak: int, sessions: int): real
  {
    match kind
    case HoursKind => hours
    case StreakKind => streak as real
    case SessionsKind => sessions as real
  }

  /** `a` is a milestone of its table that the metrics reach. */
  predicate Reached(a: Achievement, hours: real, streak: int, sessions: int)
  {
    a.milestone in Milestones(a.kind) && Metric(a.kind, hours, streak, sessions) >= a.milestone as real
  }

  /** The ids one milestone loop appends: in table order, those milestones
      of `ms` that `metric` reaches and whose id is not in `current`. */
  function Earned(kind: Kind, ms: seq<int>, metric: real, current: seq<Achievement>): seq<Achievement>
  {
    if |ms| == 0 then []
    else
      var m := ms[|ms| - 1];
      Earned(kind, ms[..|ms| - 1], metric, current)
        + (if metric >= m as real && Achievement(kind, m) !in current then [Achievement(kind, m)] else [])
  }

  /** One of the three milestone loops of `check_achievements`. */
  method CollectEarned(kind: Kind, ms: seq<int>, metric: real, current: seq<Achievement>)
    returns (found: seq<Achievement>)
    ensures found == Earned(kind, ms, metric, current)
  {
    found := [];
    var i := 0;
    while i < |ms|
      invariant 0 <= i <= |ms|
      invariant found == Earned(kind, ms[..i], metric, current)
    {
      assert ms[..i + 1][..i] == ms[..i];
      var id := Achievement(kind, ms[i]);
      if metric >= ms[i] as real && id !in current {
        found := found + [id];
      }
      i := i + 1;
    }
    assert ms[..|ms|] == ms;
  }

  /** All ids `check_achievements` awards against `current`: hours
      milestones, then streak milestones, then session milestones. */
  function NewAchievements(current: seq<Achievement>, hours: real, streak: int, sessions: int): seq<Achievement>
  {
    Earned(HoursKind, HourMilestones, hours, current)
      + Earned(StreakKind, StreakMilestones, streak as real, current)
      + Earned(SessionsKind, SessionMilestones, sessions as real, current)
  }

  /** An id is awarded by one loop exactly when it is of that loop's kind,
      its milestone is in the table and reached, and it is not yet held. */
  lemma {:induction false} EarnedMembership(kind: Kind, ms: seq<int>, metric: real, current: seq<Achievement>, a: Achievement)
    ensures a in Earned(kind, ms, metric, current) <==>
      a.kind == kind && a.milestone in ms && metric >= a.milestone as real && a !in current
  {
    if |ms| > 0 {
      var init := ms[..|ms| - 1];
      EarnedMembership(kind, init, metric, current, a);
      assert ms == init + [ms[|ms| - 1]];
    }
  }

  /** The new ids are exactly the reached milestones not already held. */
  lemma NewMembership(current: seq<Achievement>, hours: real, streak: int, sessions: int, a: Achievement)
    ensures a in NewAchievements(current, hours, streak, sessions) <==>
      a !in current && Reached(a, hours, streak, sessions)
  {
    EarnedMembership(HoursKind, HourMilestones, hours, current, a);
    EarnedMembership(StreakKind, StreakMilestones, streak as real, current, a);
    EarnedMembership(SessionsKind, SessionMilestones, sessions as real, current, a);
  }

  /** `a` comes before `b` in award order: an earlier kind, or the same kind
      and a smaller milestone. */
  predicate Before(a: Achievement, b: Achievement)
  {
    KindRank(a.kind) < KindRank(b.kind) || (a.kind == b.kind && a.milestone < b.milestone)
  }

  predicate InAwardOrder(s: seq<Achievement>)
  {
    forall i, j :: 0 <= i < j < |s| ==> Before(s[i], s[j])
  }

  /** One loop over an ascending table awards its ids in ascending order. */
  lemma {:induction false} EarnedOrdered(kind: Kind, ms: seq<int>, metric: real, current: seq<Achievement>)
    requires Increasing(ms)
    ensures InAwardOrder(Earned(kind, ms, metric, current))
  {
    if |ms| > 0 {
      var init := ms[..|ms| - 1];
      var m := ms[|ms| - 1];
      EarnedOrdered(kind, init, metric, current);
      var e := Earned(kind, init, metric, current);
      forall i | 0 <= i < |e|
        ensures Before(e[i], Achievement(kind, m))
      {
        EarnedMembership(kind, init, metric, current, e[i]);
        var k :| 0 <= k < |init| && init[k] == e[i].milestone;
      }
    }
  }

  /** Two lists in award order, every element of the first before every
      element of the second, concatenate to a list in award order. */
  lemma ConcatOrdered(s: seq<Achievement>, t: seq<Achievement>)
    requires InAwardOrder(s) && InAwardOrder(t)
    requires forall a, b :: a in s && b in t ==> Before(a, b)
    ensures InAwardOrder(s + t)
  {
    forall i, j | 0 <= i < j < |s + t| ensures Before((s + t)[i], (s + t)[j]) {
      if j < |s| {
      } else if i >= |s| {
        assert (s + t)[i] == t[i - |s|] && (s + t)[j] == t[j - |s|];
      } else {
        assert (s + t)[i] in s && (s + t)[j] in t;
      }
    }
  }

  /** The new ids come in order: hours milestones ascending, then streak,
      then sessions. */
  lemma NewInAwardOrder(current: seq<Achievement>, hours: real, streak: int, sessions: int)
    ensures InAwardOrder(NewAchievements(current, hours, streak, sessions))
  {
    var h := Earned(HoursKind, HourMilestones, hours, current);
    var st := Earned(StreakKind, StreakMilestones, streak as real, current);
    var se := Earned(SessionsKind, SessionMilestones, sessions as real, current);
    EarnedOrdered(HoursKind, HourMilestones, hours, current);
    EarnedOrdered(StreakKind, StreakMilestones, streak as real, current);
    EarnedOrdered(SessionsKind, SessionMilestones, sessions as real, current);
    forall a | a in h ensures a.kind == HoursKind {
      EarnedMembership(HoursKind, HourMilestones, hours, current, a);
    }
    forall a | a in st ensures a.kind == StreakKind {
      EarnedMembership(StreakKind, StreakMilestones, streak as real, current, a);
    }
    forall a | a in se ensures a.kind == SessionsKind {
      EarnedMembership(SessionsKind, SessionMilestones, sessions as real, current, a);
    }
    ConcatOrdered(h, st);
    forall a, b | a in h + st && b in se ensures Before(a, b) {
    }
    ConcatOrdered(h + st, se);
  }

  /** A list in award order has no duplicates. */
  lemma OrderedNoDup(s: seq<Achievement>)
    requires InAwardOrder(s)
    ensures NoDup(s)
  {
  }

  /** Appending the new ids to a duplicate-free list keeps it duplicate-free:
      no id already held is awarded again, and none is awarded twice. */
  lemma NoDuplicatesAdded(current: seq<Achievement>, hours: real, streak: int, sessions: int)
    requires NoDup(current)
    ensures NoDup(current + NewAchievements(current, hours, streak, sessions))
  {
    var n := NewAchievements(current, hours, streak, sessions);
    NewInAwardOrder(current, hours, streak, sessions);
    OrderedNoDup(n);
    forall i, j | 0 <= i < j < |current + n| ensures (current + n)[i] != (current + n)[j] {
      if i < |current| && j >= |current| {
        NewMembership(current, hours, streak, sessions, (current + n)[j]);
        assert (current + n)[j] == n[j - |current|];
      } else if i >= |current| {
        assert (current + n)[i] == n[i - |current|] && (current + n)[j] == n[j - |current|];
      }
    }
  }

  /** A loop awards nothing when every milestone it reaches is already held. */
  lemma {:induction false} NothingLeftToEarn(kind: Kind, ms: seq<int>, metric: real, current: seq<Achievement>)
    requires forall m :: m in ms && metric >= m as real ==> Achievement(kind, m) in current
    ensures Earned(kind, ms, metric, current) == []
  {
    if |ms| > 0 {
      NothingLeftToEarn(kind, ms[..|ms| - 1], metric, current);
    }
  }

  /** Checking again with unchanged metrics awards nothing new. */
  lemma SecondCheckAwardsNothing(current: seq<Achievement>, hours: real, streak: int, sessions: int)
    ensures var after := current + NewAchievements(current, hours, streak, sessions);
      NewAchievements(after, hours, streak, sessions) == []
  {
    var after := current + NewAchievements(current, hours, streak, sessions);
    forall kind, m | m in Milestones(kind) && Metric(kind, hours, streak, sessions) >= m as real
      ensures Achievement(kind, m) in after
    {
      NewMembership(current, hours, streak, sessions, Achievement(kind, m));
    }
    NothingLeftToEarn(HoursKind, HourMilestones, hours, after);
    NothingLeftToEarn(StreakKind, StreakMilestones, streak as real, after);
    NothingLeftToEarn(SessionsKind, SessionMilestones, sessions as real, after);
  }

  /** Larger metrics never award fewer ids: whatever is awarded or held at
      the smaller metrics is awarded or held at the larger ones. */
  lemma MoreProgressAwardsMore(current: seq<Achievement>, h1: real, st1: int, se1: int,
                               h2: real, st2: int, se2: int, a: Achievement)
    requires h1 <= h2 && st1 <= st2 && se1 <= se2
    requires a in NewAchievements(current, h1, st1, se1)
    ensures a in NewAchievements(current, h2, st2, se2)
  {
    NewMembership(current, h1, st1, se1, a);
    NewMembership(current, h2, st2, se2, a);
  }
}
