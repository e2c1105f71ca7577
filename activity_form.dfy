/**
 * The "Log Activity" form: its input fields and the submit handler that guards
 * against non-positive values, logs the activity and resets the form.
 */
module ActivityForm {
  import opened FitnessTypes
  import opened GoalList
  import opened FitnessContext

  class LogActivityForm {
    var kind: ActivityType
    var value: real
    var notes: string
    var isSuccess: bool

    /** The form opens on steps, with value 0, no notes and no success message. */
    constructor ()
      ensures kind == Steps && value == 0.0 && notes == "" && !isSuccess
    {
      kind, value, notes, isSuccess := Steps, 0.0, "", false;
    }

    /**
     * handleSubmit. A value of 0 or less is rejected and nothing changes. Otherwise
     * the activity is logged with exactly the form's type, value and notes, the
     * value and notes are cleared (the type is kept) and the success message shows.
     */
    method Submit(store: FitnessStore, id: string, today: Day) returns (accepted: bool)
      requires id !in store.ActivityIds()
      modifies this, store
      ensures accepted <==> old(value) > 0.0
      ensures !accepted ==> unchanged(this) && unchanged(store)
      ensures accepted ==>
        && store.activities == old(store.activities) + [Activity(id, old(kind), old(value), today, Some(old(notes)))]
        && store.goals == Recomputed(old(store.goals), store.activities)
        && store.user == old(store.user)
      ensures accepted ==> kind == old(kind) && value == 0.0 && notes == "" && isSuccess
    {
      if value <= 0.0 {
        return false;
      }
      store.AddActivity(id, today, kind, value, Some(notes));
      value := 0.0;
      notes := "";
      isSuccess := true;
      accepted := true;
    }
  }

  /** Submitting a freshly opened form is rejected: its value is 0. */
  method SubmitFreshForm(store: FitnessStore, id: string, today: Day) returns (accepted: bool)
    requires id !in store.ActivityIds()
    modifies store
    ensures !accepted && unchanged(store)
  {
    var form := new LogActivityForm();
    accepted := form.Submit(store, id, today);
  }
}
