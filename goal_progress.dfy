/**
 * The goal card: its progress percentage, the unit shown after the numbers, the
 * status badge and the due line.
 */
module GoalProgress {
  import opened FitnessTypes

  /**
   * A JavaScript number produced by the percentage formula. Dividing by a zero
   * target gives Infinity (clamped to 100 below), NaN or -Infinity.
   */
  datatype Percentage = Finite(p: real) | NotANumber | NegativeInfinity

  function Min(a: real, b: real): real {
    if a <= b then a else b
  }

  /** `Math.min(current / target * 100, 100)`, with the JavaScript outcomes of a zero target. */
  function ProgressPercent(current: real, target: real): (r: Percentage)
    ensures r.Finite? ==> r.p <= 100.0
    ensures r.Finite? <==> target != 0.0 || current > 0.0
    ensures target > 0.0 ==> r.Finite? && (r.p == 100.0 <==> current >= target)
    ensures target > 0.0 && current >= 0.0 ==> r.Finite? && r.p >= 0.0
    ensures target > 0.0 && current <= target ==> r == Finite(current / target * 100.0)
    ensures target == 0.0 ==>
              r == (if current > 0.0 then Finite(100.0) else if current == 0.0 then NotANumber else NegativeInfinity)
    ensures target < 0.0 ==> r.Finite? && (r.p == 100.0 <==> current <= target) &&
                             (current >= target ==> r.p == current / target * 100.0)
  {
    if target != 0.0 then
      var ratio := current / target * 100.0;
      RatioReachesHundred(current, target);
      Finite(Min(ratio, 100.0))
    else if current > 0.0 then Finite(100.0)
    else if current == 0.0 then NotANumber
    else NegativeInfinity
  }

  /**
   * With a positive target, the scaled ratio reaches 100 exactly when `current`
   * reaches `target`; with a negative target, exactly when `current` is at or
   * below it.
   */
  lemma RatioReachesHundred(current: real, target: real)
    requires target != 0.0
    ensures target > 0.0 ==> (current / target * 100.0 >= 100.0 <==> current >= target)
    ensures target > 0.0 && current >= 0.0 ==> current / target * 100.0 >= 0.0
    ensures target > 0.0 && current <= target ==> current / target * 100.0 <= 100.0
    ensures target < 0.0 ==> (current / target * 100.0 >= 100.0 <==> current <= target)
    ensures target < 0.0 && current >= target ==> current / target * 100.0 <= 100.0
  {
    var q := current / target;
    assert q * target == current;
    if target > 0.0 {
      if current >= target {
        assert q >= 1.0;
      } else {
        assert q < 1.0;
      }
    } else {
      if current <= target {
        assert q >= 1.0;
      } else {
        assert q < 1.0;
      }
    }
  }

  /** The percentage of a goal. */
  function Progress(g: Goal): (r: Percentage)
    ensures r.Finite? ==> r.p <= 100.0
    ensures g.target > 0.0 ==> r.Finite? && (r.p == 100.0 <==> g.current >= g.target)
  {
    ProgressPercent(g.current, g.target)
  }

  /** getUnit: `min` for workout, `hrs` for sleep, nothing for steps and calories. */
  function Unit(t: ActivityType): (r: string)
    ensures r == "min" <==> t == Workout
    ensures r == "hrs" <==> t == Sleep
    ensures r == "" <==> t == Steps || t == Calories
  {
    match t
    case Steps => ""
    case Workout => "min"
    case Calories => ""
    case Sleep => "hrs"
  }

  /** The status shown on the card. */
  datatype Badge = CompletedBadge | PercentBadge(progress: Percentage)

  /** "Completed" follows the stored flag, not the percentage; otherwise the percentage. */
  function StatusBadge(g: Goal): (r: Badge)
    ensures r.CompletedBadge? <==> g.completed
    ensures !g.completed ==> r.progress == Progress(g)
  {
    if g.completed then CompletedBadge else PercentBadge(Progress(g))
  }

  /** The day shown on the due line, present only when the goal has a deadline. */
  function DueLine(g: Goal): (r: Option<Day>)
    ensures r.Some? <==> g.deadline.Some?
    ensures r.Some? ==> r.value == g.deadline.value
  {
    g.deadline
  }

  /**
   * The stored flag and the percentage can disagree: a goal whose flag was set by
   * hand shows "Completed" at 0%.
   */
  lemma BadgeCanDisagreeWithProgress()
    ensures var g := Goal("g", Steps, 10.0, 0.0, None, true);
            StatusBadge(g) == CompletedBadge && Progress(g) == Finite(0.0)
  {
  }

  /**
   * For a goal whose flag was set by the recompute (`completed == (current >= target)`)
   * and whose target is positive, the badge says "Completed" exactly when the
   * percentage is 100.
   */
  lemma BadgeAgreesWhenConsistent(g: Goal)
    requires g.target > 0.0 && g.completed == (g.current >= g.target)
    ensures StatusBadge(g) == CompletedBadge <==> Progress(g) == Finite(100.0)
  {
  }
}
