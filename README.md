# Fitness tracker: state manager and derived views

This project models the logic behind a browser-based personal fitness tracker. Users log activities: steps, workout minutes, calories and sleep hours. They set goals per activity type and see their progress on a dashboard and a seven-day trend chart.

The model covers:

- **The fitness state manager** (`FitnessContext.FitnessStore`). It is a class with three fields: the activity log, the goal list and the user profile. Its methods append, merge, remove and replace, as the application's operations do. `RecomputeGoals` is the effect that rewrites every goal's `current` and `completed` from the activity log. It is called after every activity operation and once after loading.
- **The pure derivations.** These are today's per-type total, the first-goal progress, the recent-activities rows and the value suffix (`Dashboard`). The chart has the seven-day window, the aligned series, the dataset label and the tooltip (`ActivityChart`). The goal card has the clamped percentage, the unit, the status badge and the due line (`GoalProgress`).
- **The two input forms** (`ActivityForm.LogActivityForm`, `GoalForm.SetGoalForm`). Each is a class whose `Submit` rejects a non-positive number. Otherwise it calls the manager with exactly the form's fields, resets the form and raises the success flag.

Conventions:

- Calendar days are integers. Day `d + 1` is the day after `d`, and "today" is a parameter.
- Numbers are exact `real`s.
- Fresh identifiers are arguments, with a precondition that they are unused.
- The record field `type` is called `kind`, because `type` is a Dafny keyword.
- The array filter is modelled once, in `Filtering.Filter`. It is specified as an order-preserving subsequence that keeps every matching element with its multiplicity and nothing else.
- Sums are the application's left fold (`ActivityLog.Sum`). They are proved equal to the independent reference totals `TypeTotal` and `MatchTotal`.

Behaviour of the code that the model keeps as it is:

- Goal progress is not always consistent with the log. A new goal starts at 0 and ignores activities already logged (`AddGoal`). Deleting the last activity leaves the old totals in place (`DeleteActivity`). `updateGoal` can write any `current`/`completed`, and the next recompute overwrites it.
- The recompute also runs once right after loading. React runs the effect after the first render, so stored goals are refreshed against the stored log.
- A delete removes every record with the given id, not just one. With distinct ids that is exactly one record (`Filtering.RemoveDistinctKey`).
- `updateGoal` accepts a partial goal that may include `id`, so it can rename a goal and break id uniqueness. `GoalList.GoalUpdate` keeps that field.
- Only an absent stored key falls back to an empty list or the default profile. A stored value that fails to parse throws (see Left out).

## Model

| member | source | states |
|---|---|---|
| FitnessTypes.Activity | src/types/index.ts:1-7 | an activity record: id, type, value, date and optional notes |
| FitnessTypes.Goal | src/types/index.ts:9-16 | a goal record: id, type, target, current, optional deadline and the completed flag, with nothing tying `current`/`completed` to the log |
| FitnessTypes.User | src/types/index.ts:18-24 | the user profile: name, weight, height, age and one of three genders |
| FitnessTypes.DefaultUser | src/context/FitnessContext.tsx:23-29 | the profile used when none is stored: `User`, 70, 175, 30, other |
| FitnessTypes.TypeName | src/types/index.ts:3-11 | each activity type's string tag is a non-empty word of lower-case ASCII letters |
| FitnessTypes.TypeNameInjective | src/types/index.ts:3 | two types have the same tag iff they are the same type |
| Filtering.Filter | src/context/FitnessContext.tsx:106-124 | the filter result is a subsequence of the input; an element is in it iff it is in the input and satisfies the predicate; each satisfying element keeps its multiplicity |
| Filtering.Select | src/context/FitnessContext.tsx:106-116 | keeping the elements whose key equals `k` gives an order-preserving subsequence holding exactly the matching elements |
| Filtering.RemoveKey | src/context/FitnessContext.tsx:118-124 | dropping key `k` gives an order-preserving subsequence holding exactly the elements with another key |
| Filtering.RemoveAbsentKey | src/context/FitnessContext.tsx:118-124 | deleting an id that no record carries leaves the sequence unchanged |
| Filtering.RemoveKeyTwice | src/context/FitnessContext.tsx:118-124 | deleting twice equals deleting once |
| Filtering.RemoveDistinctKey | src/context/FitnessContext.tsx:118-124 | with distinct ids, deleting a present id removes exactly that record and keeps the rest in order |
| Filtering.SubsequenceKeepsDistinct | src/context/FitnessContext.tsx:118-124 | any subsequence of a list with distinct ids has distinct ids, so deletes keep ids unique |
| Filtering.RemoveKeyFacts | src/context/FitnessContext.tsx:118-124 | a delete is a no-op for an absent id; with distinct ids it shrinks the list by one for a present id; it keeps ids distinct |
| Filtering.AppendFreshKey | src/context/FitnessContext.tsx:77-94 | appending a record with an unused id keeps ids distinct |
| ActivityLog.Sum | src/context/FitnessContext.tsx:64 | the fold of activity values is non-negative when every value is |
| ActivityLog.OfType | src/context/FitnessContext.tsx:106-108 | the activities of one type form an order-preserving subsequence holding exactly the activities of that type |
| ActivityLog.OnDate | src/context/FitnessContext.tsx:110-112 | the activities of one date form an order-preserving subsequence holding exactly the activities of that date |
| ActivityLog.SumAppend | src/context/FitnessContext.tsx:64 | the fold over a concatenation is the sum of the folds |
| ActivityLog.TypeTotalAppend | src/context/FitnessContext.tsx:63-64 | the per-type total of a concatenation is the sum of the per-type totals |
| ActivityLog.MatchTotalAppend | src/components/ActivityChart.tsx:41-42 | the per-day, per-type total of a concatenation is the sum of the parts' totals |
| ActivityLog.SumOfTypeIsTypeTotal | src/context/FitnessContext.tsx:63-64 | filtering by type and folding equals the reference sum of the values of that type |
| ActivityLog.SumOnDateOfTypeIsMatchTotal | src/components/Dashboard.tsx:21-27 | filtering by date, then by type, then folding equals the reference sum over activities of that date and type |
| ActivityLog.TypeTotalNone | src/context/FitnessContext.tsx:63-64 | a log without activities of a type totals 0 for that type |
| ActivityLog.MatchTotalNone | src/components/ActivityChart.tsx:41-42 | a log without matching activities on a day totals 0 for that day |
| ActivityLog.TypeTotalNonNegative | src/context/FitnessContext.tsx:63-64 | with non-negative values, every per-type total is non-negative |
| ActivityLog.LogOneMore | src/context/FitnessContext.tsx:63-64 | logging one activity raises the total of its own type by its value and leaves the other types' totals unchanged |
| GoalList.Refresh | src/context/FitnessContext.tsx:62-70 | a recomputed goal keeps id, type, target and deadline; `current` is the all-time total of its type and `completed == (current >= target)` |
| GoalList.Recomputed | src/context/FitnessContext.tsx:60-75 | the recompute keeps goal count and order, keeps every goal's id, type, target and deadline, and makes every goal consistent with the log |
| GoalList.OfKind | src/context/FitnessContext.tsx:114-116 | the goals of one type form an order-preserving subsequence holding exactly the goals of that type |
| GoalList.Merge | src/context/FitnessContext.tsx:98 | `{...goal, ...updates}`: each field present in the update overrides and every other field is kept |
| GoalList.UpdateMatching | src/context/FitnessContext.tsx:96-100 | updateGoal keeps length and order, merges only into goals with the given id, and leaves all others unchanged |
| GoalList.MergeNothing | src/context/FitnessContext.tsx:98 | merging an empty partial record is the identity |
| GoalList.UpdateAbsentIsNoOp | src/context/FitnessContext.tsx:96-100 | updating an id no goal carries leaves the goals unchanged |
| GoalList.UpdateTwice | src/context/FitnessContext.tsx:96-100 | applying the same update twice equals applying it once, even when the update renames the goal |
| GoalList.RecomputeTwice | src/context/FitnessContext.tsx:60-75 | the recompute is idempotent |
| GoalList.RecomputeOverridesProgressUpdate | src/context/FitnessContext.tsx:66-70 | after a recompute, no trace is left of an update that only set `current`/`completed` |
| GoalList.RecomputeAfterLogging | src/context/FitnessContext.tsx:60-84 | from consistent goals, logging one activity and recomputing raises exactly the goals of its type by its value |
| FitnessContext.FitnessStore.Load | src/context/FitnessContext.tsx:23-45 | each collection is its stored value or, when absent, empty / the default user `{User, 70, 175, 30, other}`; the recompute runs once on the loaded state |
| FitnessContext.FitnessStore.RecomputeGoals | src/context/FitnessContext.tsx:60-75 | with a non-empty log, goals become `Recomputed(old goals, log)` (consistent, same identity and order); with an empty log they are untouched |
| FitnessContext.FitnessStore.AddActivity | src/context/FitnessContext.tsx:77-84 | the log gains exactly one record at the end with the fresh id and today's date, earlier records unchanged; goals are then recomputed and consistent; user unchanged; ids stay unique |
| FitnessContext.FitnessStore.AddGoal | src/context/FitnessContext.tsx:86-94 | exactly one goal is appended with `current = 0`, `completed = false`, without recomputing; the log and the other goals are untouched |
| FitnessContext.FitnessStore.UpdateGoal | src/context/FitnessContext.tsx:96-100 | goals become `UpdateMatching(old goals, id, u)`; an unknown id is a no-op |
| FitnessContext.FitnessStore.UpdateUser | src/context/FitnessContext.tsx:102-104 | the user record is replaced wholesale and nothing else changes |
| FitnessContext.FitnessStore.DeleteActivity | src/context/FitnessContext.tsx:118-120 | removes exactly the records with the id, keeping order; an absent id changes no record; goals are recomputed unless the log is now empty, in which case they keep stale totals |
| FitnessContext.FitnessStore.DeleteGoal | src/context/FitnessContext.tsx:122-124 | removes exactly the goals with the id, keeping order; an absent id is a no-op; with unique ids one goal fewer |
| FitnessContext.FitnessStore.ActivitiesByType | src/context/FitnessContext.tsx:106-108 | returns, without changing state, the order-preserving subsequence of exactly the activities of the type |
| FitnessContext.FitnessStore.ActivitiesByDate | src/context/FitnessContext.tsx:110-112 | returns, without changing state, the order-preserving subsequence of exactly the activities of the date |
| FitnessContext.FitnessStore.GoalsByType | src/context/FitnessContext.tsx:114-116 | returns, without changing state, the order-preserving subsequence of exactly the goals of the type |
| FitnessContext.StepsGoalScenario | src/context/FitnessContext.tsx:60-94 | log 5000 steps, add a 10000-step goal (it reads 0, not completed), log 6000 steps: the goal reads 11000 and is completed |
| GoalProgress.ProgressPercent | src/components/GoalProgress.tsx:10 | the percentage never exceeds 100; with a positive target it is 100 exactly when `current >= target`, non-negative when `current >= 0`, and the exact ratio below the target; a zero target gives 100 for positive `current`, NaN for zero and -Infinity for negative, as JavaScript does; a negative target gives a finite value that is 100 exactly when `current <= target` and the exact ratio when `current >= target` |
| GoalProgress.Progress | src/components/GoalProgress.tsx:10 | a goal's percentage never exceeds 100 and, with a positive target, is 100 exactly when `current >= target` |
| GoalProgress.RatioReachesHundred | src/components/GoalProgress.tsx:10 | with a positive target, `current / target * 100 >= 100` iff `current >= target`; with a negative target, iff `current <= target` |
| GoalProgress.Unit | src/components/GoalProgress.tsx:38-49 | `min` exactly for workout, `hrs` exactly for sleep, empty exactly for steps and calories |
| GoalProgress.StatusBadge | src/components/GoalProgress.tsx:58-59 | the badge reads "Completed" iff the stored flag is set, otherwise it shows the percentage |
| GoalProgress.DueLine | src/components/GoalProgress.tsx:66-68 | the due line appears exactly when the goal has a deadline, and shows that deadline; a cleared date input (the falsy empty string, `None` here) gives none |
| GoalProgress.BadgeCanDisagreeWithProgress | src/components/GoalProgress.tsx:58-59 | a goal whose flag was set by hand shows "Completed" at 0% |
| GoalProgress.BadgeAgreesWhenConsistent | src/components/GoalProgress.tsx:58-59 | for a goal with a positive target whose flag matches `current >= target`, "Completed" shows iff the percentage is 100 |
| Dashboard.TodayActivities | src/components/Dashboard.tsx:21 | today's activities form an order-preserving subsequence holding exactly the activities dated today |
| Dashboard.ActivityTotal | src/components/Dashboard.tsx:23-27 | today's total for a type is the sum of values of activities dated today of that type |
| Dashboard.ActivityTotalBounds | src/components/Dashboard.tsx:23-27 | today's total is 0 when no activity matches, and non-negative when all values are |
| Dashboard.FirstGoalOfType | src/components/Dashboard.tsx:30 | `find` returns nothing iff no goal has the type; otherwise a goal of that type from the list |
| Dashboard.FirstGoalIsFirst | src/components/Dashboard.tsx:30 | `find` returns the goal at the first position whose type matches |
| Dashboard.FirstGoalIsHeadOfFilter | src/components/Dashboard.tsx:30 | `find` agrees with the head of getGoalsByType |
| Dashboard.GoalProgressFor | src/components/Dashboard.tsx:29-33 | 0 when no goal has the type, otherwise the first such goal's clamped percentage; never above 100 |
| Dashboard.RecentActivities | src/components/Dashboard.tsx:137-138 | at most five rows, the first five activities in log order |
| Dashboard.NewestNotShown | src/components/Dashboard.tsx:138 | with more than five activities and distinct ids, the newest activity is not among the rows |
| Dashboard.ValueSuffix | src/components/Dashboard.tsx:150 | the table's suffix equals the goal card's unit: `hrs` for sleep, `min` for workout, otherwise empty |
| ActivityChart.Last7Days | src/components/ActivityChart.tsx:32-35 | seven consecutive days, the last of them today |
| ActivityChart.Last7DaysIsWindow | src/components/ActivityChart.tsx:32-35 | a day is listed iff it lies in the last seven days; the days strictly increase |
| ActivityChart.Labels | src/components/ActivityChart.tsx:37 | one label per day, aligned with the days |
| ActivityChart.DayEntries | src/components/ActivityChart.tsx:41 | the entries for a day form an order-preserving subsequence holding exactly the activities of that date and the selected type |
| ActivityChart.DayTotal | src/components/ActivityChart.tsx:41-42 | a day's point is the sum of values of activities of that date and the selected type |
| ActivityChart.DayEntriesSum | src/components/ActivityChart.tsx:41-42 | filtering by date and type together and folding equals the reference per-day total |
| ActivityChart.Series | src/components/ActivityChart.tsx:40-43 | the series has seven points, aligned with the days, each the per-day total of the selected type |
| ActivityChart.EmptyDayIsZero | src/components/ActivityChart.tsx:40-43 | a day without matching activity gives an explicit 0 |
| ActivityChart.LastPointIsTodayTotal | src/components/ActivityChart.tsx:40-43 | the chart's last point equals the dashboard's daily total for that type |
| ActivityChart.IrrelevantActivitiesIgnored | src/components/ActivityChart.tsx:41 | activities of other types or dated outside the window, wherever they sit in the log, do not change the series |
| ActivityChart.DatasetLabel | src/components/ActivityChart.tsx:49 | the label is the type name with its first character upper-cased and the rest unchanged |
| ActivityChart.Capitalize | src/components/ActivityChart.tsx:49 | same length; first character upper-cased, the rest unchanged |
| ActivityChart.DatasetLabels | src/components/ActivityChart.tsx:49 | the four labels are Steps, Workout, Calories and Sleep |
| ActivityChart.TooltipSuffix | src/components/ActivityChart.tsx:106-107 | ` hrs` exactly for sleep, ` min` exactly for workout, nothing for steps and calories |
| ActivityChart.TooltipLabel | src/components/ActivityChart.tsx:100-109 | a non-empty label is followed by ": "; a point with a value ends with the value and the unit, and the line is exactly that long, so nothing sits between label and value and steps and calories get no unit; a point without one adds nothing |
| ActivityForm.LogActivityForm.constructor | src/components/ActivityForm.tsx:6-9 | the form opens on steps, value 0, empty notes, no success message |
| ActivityForm.LogActivityForm.Submit | src/components/ActivityForm.tsx:11-29 | accepted iff value > 0; a rejected submit changes neither form nor store; an accepted one logs exactly the form's type, value and notes, resets value to 0 and notes to empty, keeps the type and sets the success flag |
| ActivityForm.SubmitFreshForm | src/components/ActivityForm.tsx:6-14 | submitting a freshly opened form is rejected and changes nothing |
| GoalForm.SetGoalForm.constructor | src/components/GoalForm.tsx:7-12 | the form opens on steps, target 0, deadline a week from today, no success message |
| GoalForm.SetGoalForm.Submit | src/components/GoalForm.tsx:14-32 | accepted iff target > 0; a rejected submit changes neither form nor store; an accepted one adds exactly the form's type, target and deadline, resets the target to 0 and the deadline to a week from today, keeps the type and sets the success flag |
| GoalForm.SubmitWithoutDeadline | src/components/GoalProgress.tsx:66-68 | a goal submitted with the date input cleared is stored without a deadline and its card shows no due line |
| GoalForm.SubmitFreshForm | src/components/GoalForm.tsx:7-17 | submitting a freshly opened form is rejected and changes nothing |

## Left out

- Persistence: the writes to browser storage after each change (src/context/FitnessContext.tsx:47-57) and JSON encoding are browser I/O and a foreign serialiser. Loading is modelled as an optional stored value per key. A stored value that fails to parse throws in the application, and this model has no counterpart for that.
- A stored user of `null` (the field's type allows `User | null`) is not modelled: the profile is always a `User`.
- Identifier generation (uuid) and the clock (`new Date()`, date formatting and day arithmetic) are foreign calls. Ids and today's day number are parameters, and the chart's label formatter is a function parameter of `ActivityChart.Labels`.
- Floating-point rounding in sums and divisions is not modelled, since all arithmetic is exact. Neither is the `toFixed(0)` rounding of the displayed percentage.
- The three-second timer that clears the success message is timer behaviour and is not modelled.
- React effect scheduling and render batching are not modelled: the recompute is an explicit call after each activity operation and after loading. Also left out are the effect reading the goals of the render that triggered it, and the error raised when the context is used outside its provider (src/context/FitnessContext.tsx:148-154).
- The forms' change handlers are not modelled as methods: the type buttons, `Number(...)` conversion of the inputs, and the notes and date inputs. The fields are plain class fields that a caller sets directly.
- Rendering is not modelled: icons, colours, Chart.js options and registration, the dashboard greeting and date header, and the `'-'` placeholder for empty notes. The summary cards, sidebar and tab shell (src/components/ActivitySummary.tsx, src/components/Sidebar.tsx, src/App.tsx) hold no state logic. The profile form is not part of this model.
- ActivityChart.Capitalize: upper-cases ASCII letters only, while JavaScript's `toUpperCase` covers all of Unicode. The four type names are ASCII, so the dataset labels are unaffected.
