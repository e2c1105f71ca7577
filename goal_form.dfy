/**
 * The "Set New Goal" form: its input fields and the submit handler that guards
 * against non-positive targets, adds the goal and resets the form.
 *
 * The deadline field holds a day, or `None` when the date input is cleared.
 */
module GoalForm {
  import opened FitnessTypes
  import opened FitnessContext
  import opened GoalProgress

  class SetGoalForm {
    var kind: ActivityType
    var target: real
    var deadline: Option<Day>
    var isSuccess: bool

    /** The form opens on steps, with target 0, a deadline a week from today and no success message. */
    constructor (today: Day)
      ensures kind == Steps && target == 0.0 && deadline == Some(today + 7) && !isSuccess
    {
      kind, target, deadline, isSuccess := Steps, 0.0, Some(today + 7), false;
    }

    /**
     * handleSubmit. A target of 0 or less is rejected and nothing changes. Otherwise
     * the goal is added with exactly the form's type, target and deadline, the
     * target is cleared, the deadline goes back to a week from today (the type is
     * kept) and the success message shows.
     */
    method Submit(store: FitnessStore, id: string, today: Day) returns (accepted: bool)
      requires id !in store.GoalIds()
      modifies this, store
      ensures accepted <==> old(target) > 0.0
      ensures !accepted ==> unchanged(this) && unchanged(store)
      ensures accepted ==>
        && store.goals == old(store.goals) + [Goal(id, old(kind), old(target), 0.0, old(deadline), false)]
        && store.activities == old(store.activities)
        && store.user == old(store.user)
      ensures accepted ==> kind == old(kind) && target == 0.0 && deadline == Some(today + 7) && isSuccess
    {
      if target <= 0.0 {
        return false;
      }
      store.AddGoal(id, kind, target, deadline);
      target := 0.0;
      deadline := Some(today + 7);
      isSuccess := true;
      accepted := true;
    }
  }

  /**
   * A goal submitted with the date input cleared has no deadline, so its card
   * shows no due line.
   */
  method SubmitWithoutDeadline(store: FitnessStore, id: string, today: Day, target: real) returns (added: Goal)
    requires id !in store.GoalIds() && target > 0.0
    modifies store
    ensures |store.goals| > 0 && added == store.goals[|store.goals| - 1]
    ensures added.id == id && added.target == target && DueLine(added).None?
  {
    var form := new SetGoalForm(today);
    form.target := target;
    form.deadline := None;
    var accepted := form.Submit(store, id, today);
    added := store.goals[|store.goals| - 1];
  }

  /** Submitting a freshly opened form is rejected: its target is 0. */
  method SubmitFreshForm(store: FitnessStore, id: string, today: Day) returns (accepted: bool)
    requires id !in store.GoalIds()
    modifies store
    ensures !accepted && unchanged(store)
  {
    var form := new SetGoalForm(today);
    accepted := form.Submit(store, id, today);
  }
}
