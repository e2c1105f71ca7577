/**
 * The fitness state manager: the activity log, the goal list and the user
 * profile, and the operations that replace them.
 *
 * In the application the goal recompute is an effect that runs whenever the
 * activity list is replaced (every activity operation replaces it, even a
 * delete that removes nothing) and once after the initial load; here it is the
 * method RecomputeGoals, called at those points.
 */
module FitnessContext {
  import opened FitnessTypes
  import opened Filtering
  import opened ActivityLog
  import opened GoalList

  class FitnessStore {
    var activities: seq<Activity>
    var goals: seq<Goal>
    var user: User

    /** Identifiers already used by logged activities. */
    function ActivityIds(): set<string>
      reads this
    {
      Keys(activities, ActivityId)
    }

    /** Identifiers already used by goals. */
    function GoalIds(): set<string>
      reads this
    {
      Keys(goals, GoalId)
    }

    /** No two activities and no two goals share an identifier. */
    ghost predicate UniqueIds()
      reads this
    {
      DistinctKeys(activities, ActivityId) && DistinctKeys(goals, GoalId)
    }

    /**
     * Start-up: each collection comes from its stored value when there is one,
     * otherwise an empty list or the default profile; then the recompute runs once.
     */
    constructor Load(savedActivities: Option<seq<Activity>>, savedGoals: Option<seq<Goal>>, savedUser: Option<User>)
      ensures activities == (if savedActivities.Some? then savedActivities.value else [])
      ensures user == (if savedUser.Some? then savedUser.value else DefaultUser)
      ensures var loaded := if savedGoals.Some? then savedGoals.value else [];
              goals == if |activities| > 0 then Recomputed(loaded, activities) else loaded
      ensures savedActivities.None? && savedGoals.None? && savedUser.None? ==>
              activities == [] && goals == [] && user == DefaultUser
    {
      activities := if savedActivities.Some? then savedActivities.value else [];
      goals := if savedGoals.Some? then savedGoals.value else [];
      user := if savedUser.Some? then savedUser.value else DefaultUser;
      new;
      RecomputeGoals();
    }

    /**
     * The recompute effect: with a non-empty log every goal's `current` becomes the
     * all-time total of its type and `completed` whether that reaches the target;
     * with an empty log the goals are left as they are.
     */
    method RecomputeGoals()
      modifies this`goals
      ensures |activities| > 0 ==> goals == Recomputed(old(goals), activities)
      ensures |activities| > 0 ==> forall i :: 0 <= i < |goals| ==>
                SameIdentity(old(goals)[i], goals[i]) && Consistent(goals[i], activities)
      ensures |activities| == 0 ==> goals == old(goals)
    {
      if |activities| > 0 {
        goals := Recomputed(goals, activities);
      }
    }

    /** Appends one activity stamped with `today` and the fresh `id`, then recomputes. */
    method AddActivity(id: string, today: Day, kind: ActivityType, value: real, notes: Option<string>)
      requires id !in ActivityIds()
      modifies this
      ensures activities == old(activities) + [Activity(id, kind, value, today, notes)]
      ensures goals == Recomputed(old(goals), activities)
      ensures forall i :: 0 <= i < |goals| ==> Consistent(goals[i], activities)
      ensures user == old(user)
      ensures old(UniqueIds()) ==> UniqueIds()
    {
      var added := Activity(id, kind, value, today, notes);
      if UniqueIds() {
        AppendFreshKey(activities, added, ActivityId);
      }
      activities := activities + [added];
      RecomputeGoals();
    }

    /**
     * Appends one goal with `current` 0 and `completed` false. No recompute runs, so
     * the new goal ignores activities already logged until the log changes again.
     */
    method AddGoal(id: string, kind: ActivityType, target: real, deadline: Option<Day>)
      requires id !in GoalIds()
      modifies this`goals
      ensures goals == old(goals) + [Goal(id, kind, target, 0.0, deadline, false)]
      ensures old(UniqueIds()) ==> UniqueIds()
    {
      var added := Goal(id, kind, target, 0.0, deadline, false);
      if DistinctKeys(goals, GoalId) {
        AppendFreshKey(goals, added, GoalId);
      }
      goals := goals + [added];
    }

    /** Merges `u` into every goal whose id is `id`; a no-op when there is none. */
    method UpdateGoal(id: string, u: GoalUpdate)
      modifies this`goals
      ensures goals == UpdateMatching(old(goals), id, u)
      ensures id !in old(GoalIds()) ==> goals == old(goals)
    {
      if id !in GoalIds() {
        UpdateAbsentIsNoOp(goals, id, u);
      }
      goals := UpdateMatching(goals, id, u);
    }

    /** Replaces the profile wholesale. */
    method UpdateUser(u: User)
      modifies this`user
      ensures user == u
    {
      user := u;
    }

    /**
     * Drops every activity whose id is `id`, keeping the others in order, then
     * recomputes. When the log becomes empty the goals keep their stale totals.
     */
    method DeleteActivity(id: string)
      modifies this
      ensures activities == RemoveKey(old(activities), ActivityId, id)
      ensures id !in old(ActivityIds()) ==> activities == old(activities)
      ensures old(UniqueIds()) && id in old(ActivityIds()) ==> |activities| == |old(activities)| - 1
      ensures goals == if |activities| > 0 then Recomputed(old(goals), activities) else old(goals)
      ensures user == old(user)
      ensures old(UniqueIds()) ==> UniqueIds()
    {
      RemoveKeyFacts(activities, ActivityId, id);
      activities := RemoveKey(activities, ActivityId, id);
      RecomputeGoals();
    }

    /** Drops every goal whose id is `id`, keeping the others in order. */
    method DeleteGoal(id: string)
      modifies this`goals
      ensures goals == RemoveKey(old(goals), GoalId, id)
      ensures id !in old(GoalIds()) ==> goals == old(goals)
      ensures old(UniqueIds()) && id in old(GoalIds()) ==> |goals| == |old(goals)| - 1
      ensures old(UniqueIds()) ==> UniqueIds()
    {
      RemoveKeyFacts(goals, GoalId, id);
      goals := RemoveKey(goals, GoalId, id);
    }

    /** getActivitiesByType: the activities of type `t`, in log order. */
    function ActivitiesByType(t: ActivityType): (r: seq<Activity>)
      reads this
      ensures IsSubsequence(r, activities)
      ensures forall a :: a in r <==> a in activities && a.kind == t
      ensures forall a :: multiset(r)[a] == if a.kind == t then multiset(activities)[a] else 0
    {
      OfType(activities, t)
    }

    /** getActivitiesByDate: the activities dated `d`, in log order. */
    function ActivitiesByDate(d: Day): (r: seq<Activity>)
      reads this
      ensures IsSubsequence(r, activities)
      ensures forall a :: a in r <==> a in activities && a.date == d
      ensures forall a :: multiset(r)[a] == if a.date == d then multiset(activities)[a] else 0
    {
      OnDate(activities, d)
    }

    /** getGoalsByType: the goals of type `t`, in list order. */
    function GoalsByType(t: ActivityType): (r: seq<Goal>)
      reads this
      ensures IsSubsequence(r, goals)
      ensures forall g :: g in r <==> g in goals && g.kind == t
      ensures forall g :: multiset(r)[g] == if g.kind == t then multiset(goals)[g] else 0
    {
      OfKind(goals, t)
    }
  }

  /**
   * Log 5000 steps, add a 10000-step goal (it shows 0: no recompute on adding a
   * goal), then log 6000 steps: the goal now shows 11000 and is completed.
   */
  method StepsGoalScenario(today: Day) returns (afterGoal: Goal, afterSecondLog: Goal)
    ensures afterGoal.current == 0.0 && !afterGoal.completed
    ensures afterSecondLog.current == 11000.0 && afterSecondLog.completed
  {
    var store := new FitnessStore.Load(None, None, None);
    store.AddActivity("a1", today, Steps, 5000.0, None);
    store.AddGoal("g1", Steps, 10000.0, None);
    afterGoal := store.goals[0];
    store.AddActivity("a2", today, Steps, 6000.0, None);
    afterSecondLog := store.goals[0];
    var log := store.activities;
    assert log == [Activity("a1", Steps, 5000.0, today, None), Activity("a2", Steps, 6000.0, today, None)];
    assert TypeTotal(log[1..], Steps) == 6000.0 by {
      assert log[1..][1..] == [];
    }
  }
}
