/**
 * The seven-day trend chart for one selected activity type: the days, their
 * labels, the aligned series of daily totals, the dataset label and the tooltip.
 */
module ActivityChart {
  import opened FitnessTypes
  import opened Filtering
  import opened ActivityLog
  import Dashboard

  /** The seven days ending today: entry i is today minus (6 - i) days. */
  function Last7Days(today: Day): (r: seq<Day>)
    ensures |r| == 7 && r[6] == today
    ensures forall i :: 0 <= i < 6 ==> r[i + 1] == r[i] + 1
  {
    seq(7, i => today - (6 - i))
  }

  /** The window the chart covers. */
  predicate InWindow(d: Day, today: Day) {
    today - 6 <= d <= today
  }

  /** A day is one of the seven days exactly when it lies in the window, and the days strictly increase. */
  lemma Last7DaysIsWindow(today: Day)
    ensures forall d :: d in Last7Days(today) <==> InWindow(d, today)
    ensures forall i, j :: 0 <= i < j < 7 ==> Last7Days(today)[i] < Last7Days(today)[j]
  {
    var days := Last7Days(today);
    forall d | InWindow(d, today) ensures d in days {
      assert days[d - (today - 6)] == d;
    }
  }

  /** The x-axis labels: one per day, formatted by the caller-supplied date formatter. */
  function Labels(days: seq<Day>, format: Day -> string): (r: seq<string>)
    ensures |r| == |days|
    ensures forall i :: 0 <= i < |r| ==> r[i] == format(days[i])
  {
    seq(|days|, i requires 0 <= i < |days| => format(days[i]))
  }

  /** The activities counted for day `d`: dated `d` and of the selected type. */
  function DayEntries(acts: seq<Activity>, d: Day, t: ActivityType): (r: seq<Activity>)
    ensures IsSubsequence(r, acts)
    ensures forall a :: a in r <==> a in acts && a.date == d && a.kind == t
    ensures forall a :: multiset(r)[a] == if a.date == d && a.kind == t then multiset(acts)[a] else 0
  {
    Filter(acts, (a: Activity) => a.date == d && a.kind == t)
  }

  /** The chart's value for day `d`: the sum of the matching entries. */
  function DayTotal(acts: seq<Activity>, d: Day, t: ActivityType): (r: real)
    ensures r == MatchTotal(acts, d, t)
  {
    DayEntriesSum(acts, d, t);
    Sum(DayEntries(acts, d, t))
  }

  lemma {:induction false} DayEntriesSum(acts: seq<Activity>, d: Day, t: ActivityType)
    ensures Sum(DayEntries(acts, d, t)) == MatchTotal(acts, d, t)
  {
    if acts != [] {
      var x := acts[0];
      DayEntriesSum(acts[1..], d, t);
      assert DayEntries(acts, d, t) == (if x.date == d && x.kind == t then [x] else []) + DayEntries(acts[1..], d, t);
      if x.date == d && x.kind == t {
        SumCons(x, DayEntries(acts[1..], d, t));
      } else {
        assert [] + DayEntries(acts[1..], d, t) == DayEntries(acts[1..], d, t);
      }
    }
  }

  /** The series: one total per day of the window, in chronological order. */
  function Series(acts: seq<Activity>, today: Day, t: ActivityType): (r: seq<real>)
    ensures |r| == |Last7Days(today)| == 7
    ensures forall i :: 0 <= i < 7 ==> r[i] == MatchTotal(acts, Last7Days(today)[i], t)
  {
    var days := Last7Days(today);
    seq(|days|, i requires 0 <= i < |days| => DayTotal(acts, days[i], t))
  }

  /** A day with no matching activity contributes an explicit 0, not a missing point. */
  lemma EmptyDayIsZero(acts: seq<Activity>, today: Day, t: ActivityType, i: nat)
    requires i < 7
    requires forall k :: 0 <= k < |acts| ==> acts[k].date != Last7Days(today)[i] || acts[k].kind != t
    ensures Series(acts, today, t)[i] == 0.0
  {
    MatchTotalNone(acts, Last7Days(today)[i], t);
  }

  /** The last point of the series is the dashboard's daily total for the selected type. */
  lemma LastPointIsTodayTotal(acts: seq<Activity>, today: Day, t: ActivityType)
    ensures Series(acts, today, t)[6] == Dashboard.ActivityTotal(acts, today, t)
  {
  }

  /**
   * Activities of other types, or dated outside the window, do not affect the
   * series, wherever they sit in the log.
   */
  lemma {:induction false} IrrelevantActivitiesIgnored(a: seq<Activity>, b: seq<Activity>, c: seq<Activity>,
                                                       today: Day, t: ActivityType)
    requires forall k :: 0 <= k < |b| ==> b[k].kind != t || !InWindow(b[k].date, today)
    ensures Series(a + b + c, today, t) == Series(a + c, today, t)
  {
    var days := Last7Days(today);
    Last7DaysIsWindow(today);
    forall i | 0 <= i < 7 ensures Series(a + b + c, today, t)[i] == Series(a + c, today, t)[i] {
      var d := days[i];
      assert d in days;
      MatchTotalNone(b, d, t);
      MatchTotalAppend(a + b, c, d, t);
      MatchTotalAppend(a, b, d, t);
      MatchTotalAppend(a, c, d, t);
    }
  }

  /** The dataset label: the type's name with its first character upper-cased. */
  function DatasetLabel(t: ActivityType): (r: string)
    ensures |r| == |TypeName(t)|
    ensures r[0] == UpperCase(TypeName(t)[0]) && r[1..] == TypeName(t)[1..]
  {
    Capitalize(TypeName(t))
  }

  function UpperCase(c: char): char {
    if 'a' <= c <= 'z' then (c as int - 32) as char else c
  }

  /** `s.charAt(0).toUpperCase() + s.slice(1)` for ASCII text. */
  function Capitalize(s: string): (r: string)
    ensures |r| == |s|
    ensures s != [] ==> r[0] == UpperCase(s[0]) && r[1..] == s[1..]
  {
    if s == [] then [] else [UpperCase(s[0])] + s[1..]
  }

  lemma DatasetLabels()
    ensures DatasetLabel(Steps) == "Steps" && DatasetLabel(Workout) == "Workout"
    ensures DatasetLabel(Calories) == "Calories" && DatasetLabel(Sleep) == "Sleep"
  {
  }

  /** The unit the tooltip appends after a value: ` hrs` for sleep, ` min` for workout. */
  function TooltipSuffix(t: ActivityType): (r: string)
    ensures r == " hrs" <==> t == Sleep
    ensures r == " min" <==> t == Workout
    ensures r == "" <==> t == Steps || t == Calories
  {
    assert " hrs"[1] != " min"[1];
    (if t == Sleep then " hrs" else "") + (if t == Workout then " min" else "")
  }

  /**
   * The tooltip line: the dataset label followed by ": " when it is not empty,
   * then, when the point has a value (already rendered as text), that value and
   * the unit.
   */
  function TooltipLabel(datasetLabel: string, y: Option<string>, t: ActivityType): (r: string)
    ensures datasetLabel != [] ==> |r| >= |datasetLabel| + 2 && r[..|datasetLabel| + 2] == datasetLabel + ": "
    ensures y.None? ==> r == (if datasetLabel == [] then "" else datasetLabel + ": ")
    ensures y.Some? ==> |r| >= |y.value + TooltipSuffix(t)| &&
                        r[|r| - |y.value + TooltipSuffix(t)|..] == y.value + TooltipSuffix(t)
    ensures y.Some? ==> |r| == (if datasetLabel == [] then 0 else |datasetLabel| + 2) + |y.value| + |TooltipSuffix(t)|
  {
    var head := if datasetLabel != [] then datasetLabel + ": " else "";
    if y.Some? then
      var tail := y.value + TooltipSuffix(t);
      assert head + y.value + TooltipSuffix(t) == head + tail;
      head + tail
    else head
  }
}
