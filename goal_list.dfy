/**
 * Pure operations on the goal list: the progress recompute, the partial-record
 * merge behind updateGoal, and the type filter.
 */
module GoalList {
  import opened FitnessTypes
  import opened Filtering
  import opened ActivityLog

  /** A goal's `current` and `completed` agree with the activity log. */
  ghost predicate Consistent(g: Goal, acts: seq<Activity>) {
    g.current == TypeTotal(acts, g.kind) && g.completed == (g.current >= g.target)
  }

  /** `h` keeps everything of `g` that the recompute does not own. */
  ghost predicate SameIdentity(g: Goal, h: Goal) {
    h.id == g.id && h.kind == g.kind && h.target == g.target && h.deadline == g.deadline
  }

  /** One goal after the recompute: all-time total of its type, and whether it reaches the target. */
  function Refresh(g: Goal, acts: seq<Activity>): (r: Goal)
    ensures SameIdentity(g, r) && Consistent(r, acts)
  {
    var current := Sum(OfType(acts, g.kind));
    SumOfTypeIsTypeTotal(acts, g.kind);
    g.(current := current, completed := current >= g.target)
  }

  /** The recompute applied to every goal, in order. */
  function Recomputed(goals: seq<Goal>, acts: seq<Activity>): (r: seq<Goal>)
    ensures |r| == |goals|
    ensures forall i :: 0 <= i < |r| ==> SameIdentity(goals[i], r[i]) && Consistent(r[i], acts)
  {
    seq(|goals|, i requires 0 <= i < |goals| => Refresh(goals[i], acts))
  }

  /** Goals of type `t` (getGoalsByType). */
  function OfKind(goals: seq<Goal>, t: ActivityType): (r: seq<Goal>)
    ensures IsSubsequence(r, goals)
    ensures forall g :: g in r <==> g in goals && g.kind == t
    ensures forall g :: multiset(r)[g] == if g.kind == t then multiset(goals)[g] else 0
  {
    Select(goals, GoalKind, t)
  }

  /**
   * The fields a `Partial<Goal>` may carry. `None` means the key is absent; for the
   * optional deadline, `Some(None)` is a key present with an undefined value.
   */
  datatype GoalUpdate = GoalUpdate(
    id: Option<string>,
    kind: Option<ActivityType>,
    target: Option<real>,
    current: Option<real>,
    deadline: Option<Option<Day>>,
    completed: Option<bool>)

  const NoChange: GoalUpdate := GoalUpdate(None, None, None, None, None, None)

  /** `{...g, ...u}`: each field present in `u` overrides, every other field is kept. */
  function Merge(g: Goal, u: GoalUpdate): (r: Goal)
    ensures r.id == (if u.id.Some? then u.id.value else g.id)
    ensures r.kind == (if u.kind.Some? then u.kind.value else g.kind)
    ensures r.target == (if u.target.Some? then u.target.value else g.target)
    ensures r.current == (if u.current.Some? then u.current.value else g.current)
    ensures r.deadline == (if u.deadline.Some? then u.deadline.value else g.deadline)
    ensures r.completed == (if u.completed.Some? then u.completed.value else g.completed)
  {
    Goal(
      match u.id case Some(v) => v case None => g.id,
      match u.kind case Some(v) => v case None => g.kind,
      match u.target case Some(v) => v case None => g.target,
      match u.current case Some(v) => v case None => g.current,
      match u.deadline case Some(v) => v case None => g.deadline,
      match u.completed case Some(v) => v case None => g.completed)
  }

  /** updateGoal: merge `u` into exactly the goals whose id is `id`. */
  function UpdateMatching(goals: seq<Goal>, id: string, u: GoalUpdate): (r: seq<Goal>)
    ensures |r| == |goals|
    ensures forall i :: 0 <= i < |r| && goals[i].id == id ==> r[i] == Merge(goals[i], u)
    ensures forall i :: 0 <= i < |r| && goals[i].id != id ==> r[i] == goals[i]
  {
    seq(|goals|, i requires 0 <= i < |goals| => if goals[i].id == id then Merge(goals[i], u) else goals[i])
  }

  /** Merging an empty partial record changes nothing. */
  lemma MergeNothing(g: Goal)
    ensures Merge(g, NoChange) == g
  {
  }

  /** Updating an id that no goal carries changes nothing. */
  lemma UpdateAbsentIsNoOp(goals: seq<Goal>, id: string, u: GoalUpdate)
    requires forall i :: 0 <= i < |goals| ==> goals[i].id != id
    ensures UpdateMatching(goals, id, u) == goals
  {
  }

  /** Applying the same update twice is the same as applying it once, even when it renames the goal. */
  lemma UpdateTwice(goals: seq<Goal>, id: string, u: GoalUpdate)
    ensures UpdateMatching(UpdateMatching(goals, id, u), id, u) == UpdateMatching(goals, id, u)
  {
    var once := UpdateMatching(goals, id, u);
    var twice := UpdateMatching(once, id, u);
    forall i | 0 <= i < |goals| ensures twice[i] == once[i] {
      if goals[i].id == id && once[i].id == id {
        assert Merge(Merge(goals[i], u), u) == Merge(goals[i], u);
      }
    }
  }

  /** The recompute is idempotent. */
  lemma RecomputeTwice(goals: seq<Goal>, acts: seq<Activity>)
    ensures Recomputed(Recomputed(goals, acts), acts) == Recomputed(goals, acts)
  {
  }

  /**
   * The recompute overwrites whatever `current`/`completed` an update wrote:
   * an update that touches only those two fields leaves no trace after it.
   */
  lemma RecomputeOverridesProgressUpdate(goals: seq<Goal>, acts: seq<Activity>, id: string, u: GoalUpdate)
    requires u.id.None? && u.kind.None? && u.target.None? && u.deadline.None?
    ensures Recomputed(UpdateMatching(goals, id, u), acts) == Recomputed(goals, acts)
  {
  }

  /**
   * Starting from goals consistent with the log, logging one more activity and
   * recomputing raises each goal of that activity's type by exactly its value
   * and leaves the others' totals alone.
   */
  lemma RecomputeAfterLogging(goals: seq<Goal>, acts: seq<Activity>, x: Activity)
    requires forall i :: 0 <= i < |goals| ==> Consistent(goals[i], acts)
    ensures forall i :: 0 <= i < |goals| ==>
      Recomputed(goals, acts + [x])[i].current == goals[i].current + (if x.kind == goals[i].kind then x.value else 0.0)
  {
    forall i | 0 <= i < |goals|
      ensures Recomputed(goals, acts + [x])[i].current == goals[i].current + (if x.kind == goals[i].kind then x.value else 0.0)
    {
      LogOneMore(acts, x, goals[i].kind);
    }
  }
}
