/**
 * Record shapes of the fitness tracker: activities, goals and the user profile.
 *
 * Identifiers are strings, numeric fields are exact reals, and calendar days are
 * integers (day d + 1 is the day after day d). The record field called `type` in
 * the application is `kind` here, because `type` is a Dafny keyword.
 */
module FitnessTypes {

  datatype Option<+T> = None | Some(value: T)

  /** A calendar day, numbered consecutively. */
  type Day = int

  /** The four activity types; goals range over the same four. */
  datatype ActivityType = Steps | Workout | Calories | Sleep

  datatype Gender = Male | Female | Other

  /** A logged activity; `notes` is optional. */
  datatype Activity = Activity(id: string, kind: ActivityType, value: real, date: Day, notes: Option<string>)

  /**
   * A goal. `current` and `completed` are two plain fields: nothing in the record
   * ties them to each other or to the activity log.
   */
  datatype Goal = Goal(id: string, kind: ActivityType, target: real, current: real,
                       deadline: Option<Day>, completed: bool)

  datatype User = User(name: string, weight: real, height: real, age: real, gender: Gender)

  /** The profile used when none is stored. */
  const DefaultUser: User := User("User", 70.0, 175.0, 30.0, Other)

  /** The string tag of an activity type, as stored and displayed. */
  function TypeName(t: ActivityType): (r: string)
    ensures |r| > 0
    ensures forall i :: 0 <= i < |r| ==> 'a' <= r[i] <= 'z'
  {
    match t
    case Steps => "steps"
    case Workout => "workout"
    case Calories => "calories"
    case Sleep => "sleep"
  }

  /** Distinct types have distinct tags, so a stored tag names exactly one type. */
  lemma TypeNameInjective(t: ActivityType, u: ActivityType)
    ensures TypeName(t) == TypeName(u) <==> t == u
  {
    if t != u {
      assert TypeName(t)[0] != TypeName(u)[0] || TypeName(t)[1] != TypeName(u)[1];
    }
  }

  // Key selectors, passed to the generic filters.
  function ActivityId(a: Activity): string { a.id }
  function ActivityKind(a: Activity): ActivityType { a.kind }
  function ActivityDate(a: Activity): Day { a.date }
  function GoalId(g: Goal): string { g.id }
  function GoalKind(g: Goal): ActivityType { g.kind }
}
