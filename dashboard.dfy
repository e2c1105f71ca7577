/**
 * The dashboard's derived values: today's total per type, the progress of the
 * first goal of each type, the recent-activities rows and the value suffix.
 *
 * Note the two windows: the daily total counts today's activities only, while a
 * goal's `current` (set by the recompute) counts every activity ever logged.
 */
module Dashboard {
  import opened FitnessTypes
  import opened Filtering
  import opened ActivityLog
  import opened GoalList
  import opened GoalProgress

  /** The activities dated today, in log order. */
  function TodayActivities(acts: seq<Activity>, today: Day): (r: seq<Activity>)
    ensures IsSubsequence(r, acts)
    ensures forall a :: a in r <==> a in acts && a.date == today
    ensures forall a :: multiset(r)[a] == if a.date == today then multiset(acts)[a] else 0
  {
    OnDate(acts, today)
  }

  /** getActivityTotal: the sum of today's values of type `t`. */
  function ActivityTotal(acts: seq<Activity>, today: Day, t: ActivityType): (r: real)
    ensures r == MatchTotal(acts, today, t)
  {
    SumOnDateOfTypeIsMatchTotal(acts, today, t);
    Sum(OfType(TodayActivities(acts, today), t))
  }

  /** With no activity of type `t` today, the daily total is 0; with non-negative values it is never negative. */
  lemma ActivityTotalBounds(acts: seq<Activity>, today: Day, t: ActivityType)
    ensures (forall i :: 0 <= i < |acts| ==> acts[i].date != today || acts[i].kind != t) ==>
            ActivityTotal(acts, today, t) == 0.0
    ensures (forall i :: 0 <= i < |acts| ==> acts[i].value >= 0.0) ==> ActivityTotal(acts, today, t) >= 0.0
  {
    if forall i :: 0 <= i < |acts| ==> acts[i].date != today || acts[i].kind != t {
      MatchTotalNone(acts, today, t);
    }
    var todays := OfType(TodayActivities(acts, today), t);
    if forall i :: 0 <= i < |acts| ==> acts[i].value >= 0.0 {
      forall i | 0 <= i < |todays| ensures todays[i].value >= 0.0 {
        assert todays[i] in acts;
      }
    }
  }

  /** `goals.find(g => g.type === t)`: the first goal of type `t`, if any. */
  function FirstGoalOfType(goals: seq<Goal>, t: ActivityType): (r: Option<Goal>)
    ensures r.None? <==> forall i :: 0 <= i < |goals| ==> goals[i].kind != t
    ensures r.Some? ==> r.value in goals && r.value.kind == t
  {
    if goals == [] then None
    else if goals[0].kind == t then Some(goals[0])
    else
      var r := FirstGoalOfType(goals[1..], t);
      assert forall i :: 1 <= i < |goals| ==> goals[i] == goals[1..][i - 1];
      r
  }

  /** `find` returns the goal at the first position whose type is `t`. */
  lemma {:induction false} FirstGoalIsFirst(goals: seq<Goal>, t: ActivityType, i: nat)
    requires i < |goals| && goals[i].kind == t
    requires forall j :: 0 <= j < i ==> goals[j].kind != t
    ensures FirstGoalOfType(goals, t) == Some(goals[i])
  {
    if i > 0 {
      FirstGoalIsFirst(goals[1..], t, i - 1);
    }
  }

  /** The goal `find` returns is the head of the goals-by-type filter. */
  lemma {:induction false} FirstGoalIsHeadOfFilter(goals: seq<Goal>, t: ActivityType)
    ensures FirstGoalOfType(goals, t) == if OfKind(goals, t) == [] then None else Some(OfKind(goals, t)[0])
  {
    if goals != [] {
      FirstGoalIsHeadOfFilter(goals[1..], t);
      assert OfKind(goals, t) == (if goals[0].kind == t then [goals[0]] else []) + OfKind(goals[1..], t);
    }
  }

  /** getGoalProgress: 0 without a goal of type `t`, else the first such goal's percentage. */
  function GoalProgressFor(goals: seq<Goal>, t: ActivityType): (r: Percentage)
    ensures (forall i :: 0 <= i < |goals| ==> goals[i].kind != t) ==> r == Finite(0.0)
    ensures r.Finite? ==> r.p <= 100.0
    ensures FirstGoalOfType(goals, t).Some? ==> r == Progress(FirstGoalOfType(goals, t).value)
  {
    match FirstGoalOfType(goals, t)
    case None => Finite(0.0)
    case Some(g) => Progress(g)
  }

  /** The recent-activities table: the first five activities in log order (not the newest). */
  function RecentActivities(acts: seq<Activity>): (r: seq<Activity>)
    ensures |r| == if |acts| < 5 then |acts| else 5
    ensures forall i :: 0 <= i < |r| ==> r[i] == acts[i]
  {
    acts[..if |acts| < 5 then |acts| else 5]
  }

  /** With more than five activities and distinct ids, the newest one is not in the table. */
  lemma NewestNotShown(acts: seq<Activity>)
    requires |acts| > 5 && DistinctKeys(acts, ActivityId)
    ensures acts[|acts| - 1] !in RecentActivities(acts)
  {
    var recent := RecentActivities(acts);
    forall i | 0 <= i < |recent| ensures recent[i] != acts[|acts| - 1] {
      assert ActivityId(acts[i]) != ActivityId(acts[|acts| - 1]);
    }
  }

  /** The suffix after a value in the table: `hrs` for sleep, `min` for workout, otherwise nothing. */
  function ValueSuffix(t: ActivityType): (r: string)
    ensures r == Unit(t)
  {
    if t == Sleep then "hrs" else if t == Workout then "min" else ""
  }
}
