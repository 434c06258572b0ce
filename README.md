# Taskboard sprint analytics in Dafny

Taskboard is a Sails.js task board. This project models the arithmetic
behind two of its sprint views:

- the **backlog** view (`fetchTaskData`): per-sprint and per-story task
  counters, the rounded progress percentages, and the phase-time
  aggregation;
- the **charts** view (`chartDataTasks` / `parseData`): the phase pie
  charts, the task-type pie chart, the split into initial tasks and tasks
  added after a story started, the ideal and actual burndown lines, the
  done and added columns, and the statistics;

together with the `Sprint` model's date accessors and `durationDays`.

Dates are day numbers counted from 1970-01-01 (a Thursday). Timestamps are
seconds, and `DayOf` maps a timestamp to its day. The clock reading `now`
is an explicit parameter. Records come in as values: the database queries
are left out, and the model starts from what they return. Each loop of the
controller is a Dafny `method` with its loop, proved equal to a
specification function. The properties the views rely on are lemmas about
those functions.

Modules (one per file):

- `Wrappers`: `Option`.
- `Records`: the stored records.
- `Sprints`: `Sprint.js`.
- `Calendar`: `isDateIgnored` and the planned days.
- `Grouping`: `_.groupBy`, `_.sortBy`.
- `Progress` and `Backlog`: `fetchTaskData`.
- `Phases`: the phase aggregation and the phase pies.
- `TaskTypes`: the type pie.
- `Split`: the init/over split.
- `Ideal`: `getIdealData`.
- `Actual`: `getActualData`.
- `Columns`: `getDoneData` and `getAddedData`.
- `Charts`: `parseData` and `chartDataTasks`.

Where the JavaScript throws, the model returns `None`:

- a seedless `reduce` over an empty list;
- `type.title` of a task type that is not found;
- a sprint without dates.

A division by zero, which JavaScript turns into `Infinity` or `NaN`,
becomes `None` as well.

## Model

| member | source | states |
|---|---|---|
| Sprints.IsoWeekday | api/models/Sprint.js:61-63 | the ISO weekday of a day number lies in 1..7 |
| Sprints.Sprint.DateStartObject | api/models/Sprint.js:75-78 | definition: the start date is null exactly when unset or the zero date, else the stored day |
| Sprints.Sprint.DateEndObject | api/models/Sprint.js:79-82 | definition: the end date is null exactly when unset or the zero date, else the stored day |
| Sprints.DurationDays | api/models/Sprint.js:54-74 | the day walk counts the weekdays of [start, end] when weekends are ignored, else returns end - start + 1; the weekday count is never negative |
| Sprints.WorkdayCountIsCardinality | api/models/Sprint.js:57-68 | the walked weekday count equals the number of weekdays in the inclusive range |
| Sprints.WorkdayCountAtMostDays | api/models/Sprint.js:57-71 | skipping weekends never counts more days than the range holds |
| Sprints.DurationWithWeekendsAtMostPlain | api/models/Sprint.js:54-74 | on a non-empty range the duration without weekends lies between 0 and the plain duration |
| Sprints.WeekdayAhead | api/models/Sprint.js:61-67 | the weekday k days later is the weekday advanced by k modulo 7 |
| Sprints.NextWeekday | api/models/Sprint.js:61-67 | the day after a Sunday is a Monday; otherwise the weekday number goes up by one |
| Sprints.FullWeekHasFiveWorkdays | api/models/Sprint.js:57-68 | any seven consecutive days hold exactly five counted days |
| Sprints.MondayToFridayIsFive | api/models/Sprint.js:57-68 | a Monday-to-Friday sprint lasts five days with weekends ignored |
| Records.DayOfMonotone | api/controllers/SprintController.js:764-770 | a later timestamp never falls on an earlier day |
| Calendar.CalendarOf | api/controllers/SprintController.js:745-746 | definition: the calendar starts and ends on the sprint's own start and end days |
| Calendar.FindExcludeDayFacts | api/controllers/SprintController.js:928 | `_.find` on the exclude days returns the first exclude day on the date, and none exactly when no exclude day is on it |
| Calendar.IsDateIgnoredIff | api/controllers/SprintController.js:915-933 | a date is ignored if and only if it is a weekend day of a weekend-free sprint or an exclude day |
| Calendar.PreviousX | api/controllers/SprintController.js:714 | definition: `previousDate ? previousDate : null` is null exactly for day 0 (the falsy timestamp 0), else the day itself |
| Calendar.PlannedDaysMembership | api/controllers/SprintController.js:705-724 | a day is planned if and only if it lies in [start, end) and is not ignored |
| Calendar.PlannedDaysIncreasing | api/controllers/SprintController.js:705-724 | the planned days come in strictly increasing order within the walked range |
| Calendar.PlannedDaysCount | api/controllers/SprintController.js:678-692 | when no exclude day falls on an ignored weekend, the number of planned days is the duration less the exclude days of the range |
| Grouping.AddKeyLookup | api/controllers/SprintController.js:764-770 | adding a key to a grouping raises that key's count by one and no other count |
| Grouping.AddKeyKeys | api/controllers/SprintController.js:764-770 | adding a key keeps every existing group's key in place, and appends a group exactly when the key is new |
| Grouping.AddKeySum | api/controllers/SprintController.js:764-770 | adding a key raises the sum of the counts by one and keeps every count positive |
| Grouping.AddKeyDistinct | api/controllers/SprintController.js:764-770 | adding a key keeps the group keys distinct |
| Grouping.GroupByCounts | api/controllers/SprintController.js:764-770 | `_.groupBy` yields one group per distinct key with the key's number of occurrences; the counts are positive and add up to the input length |
| Grouping.AddKeyAtEnd | api/controllers/SprintController.js:876 | for keys read in ascending order, grouping extends the last group or appends a new one |
| Grouping.AddKeyIncreasing | api/controllers/SprintController.js:876 | adding a key at least as large as the last group's key keeps the group keys increasing |
| Grouping.GroupByIncreasing | api/controllers/SprintController.js:876-883 | grouping keys read in non-decreasing order lists the groups in strictly increasing key order, ending with the last key |
| Grouping.InsertBySorted | api/controllers/SprintController.js:450 | inserting into a sorted list keeps it sorted |
| Grouping.InsertByPermutes | api/controllers/SprintController.js:450 | inserting adds exactly the inserted element to the multiset |
| Grouping.SortByCorrect | api/controllers/SprintController.js:450 | `_.sortBy` returns a permutation of its input in non-decreasing key order |
| Grouping.OccurrencesIsMultiplicity | api/controllers/SprintController.js:764-770 | the number of occurrences of a key is its multiplicity |
| Grouping.LookupOfGroup | api/controllers/SprintController.js:782-783 | with distinct keys, looking up a group's key finds that group's count |
| Progress.RoundRatioNearest | api/controllers/SprintController.js:198 | `Math.round(num / den)` is the nearest integer, with halves rounded up |
| Progress.ProgressPercentBounds | api/controllers/SprintController.js:196-200 | progress lies in 0..100; it is 0 with nothing done; otherwise it is the nearest integer to done/total*100; it is positive iff at least half a percent is done; and it is 100 when everything is done |
| Progress.CountDone | api/controllers/SprintController.js:194 | the `_.reduce` done count (of the stories here, of each story's tasks at line 227) does not exceed the length of the list |
| Progress.CountDoneExtremes | api/controllers/SprintController.js:227 | the done count is 0 iff no element is done, and equals the length iff every element is done |
| Progress.CountDoneAppend | api/controllers/SprintController.js:227 | the done count adds up over concatenated lists |
| Progress.TotalsCountAllTasks | api/controllers/SprintController.js:236-237 | the running sprint totals are the size and the done count of all stories' tasks together, and done never exceeds total |
| Progress.FetchTaskData | api/controllers/SprintController.js:191-260 | the story counts and task counts hold the totals and done counts; not-done counts are the non-negative differences; both progress values are the rounded percentages; each story carries its own tasks, done count and progress |
| Backlog.FetchBacklog | api/controllers/SprintController.js:191-273 | the backlog data fails iff there is no phase or only order-0 phases; otherwise it holds the tallied counters and the aggregated phases |
| Phases.Durations | api/controllers/SprintController.js:483 | definition: each phase's duration is its stored sum, or 0 when the sum is empty |
| Phases.SeedlessSum | api/controllers/SprintController.js:262-263 | a `reduce` without a seed fails exactly on an empty list |
| Phases.ReduceFromIsSum | api/controllers/SprintController.js:262-263 | reducing from a memo adds the sum of the rest to it |
| Phases.SeedlessSumIsSum | api/controllers/SprintController.js:262-263 | on a non-empty list the seedless reduce is the plain sum |
| Phases.NoFirstEmpty | api/controllers/SprintController.js:263 | rejecting the order-0 phases leaves nothing iff every phase has order 0 |
| Phases.DurationWithinTotals | api/controllers/SprintController.js:262-273 | each duration is at most the total, a non-first phase's at most the non-first total, and the non-first total at most the total |
| Phases.TotalsOfCover | api/controllers/SprintController.js:271-272 | a phase with time makes the total that holds it positive, so the percentages never divide by zero |
| Phases.AnnotatedAt | api/controllers/SprintController.js:271-272 | the i-th annotated phase carries the two percentages of its own duration |
| Phases.AnnotatePhases | api/controllers/SprintController.js:500-511 | the phase step yields exactly the reference aggregation of the stored durations, failing where it does |
| Phases.AggregateFails | api/controllers/SprintController.js:500-501 | the aggregation fails iff there is no phase or only order-0 phases |
| Phases.AggregateTotals | api/controllers/SprintController.js:503-506 | `phaseDuration` holds the sum of all durations and the sum of the non-first ones, the latter at most the former |
| Phases.AnnotatedShares | api/controllers/SprintController.js:508-511 | each phase keeps its record and duration; its phase share is positive iff it has time and is not first, and its total share is positive iff it has time; otherwise each share is 0 |
| Phases.AnnotatedTotalShare | api/controllers/SprintController.js:510 | the total share is duration / totalTime * 100 |
| Phases.AnnotatedShare | api/controllers/SprintController.js:509 | first and empty phases get 0; the others get duration / totalTimeNoFirst * 100 with a positive divisor |
| Phases.NoFirstSnoc | api/controllers/SprintController.js:501 | the non-first total grows by a phase's duration exactly when the phase is not first |
| Phases.NoFirstShare | api/controllers/SprintController.js:509 | a phase's share is the percentage of its non-first part |
| Phases.PercentTotalPrefix | api/controllers/SprintController.js:510 | the total shares of the first n phases add up to the share of their summed durations |
| Phases.PercentPrefix | api/controllers/SprintController.js:509 | the phase shares of the first n phases add up to the share of their non-first durations |
| Phases.PercentageWhole | api/controllers/SprintController.js:509-510 | the whole of a positive total is 100 percent |
| Phases.PercentTotalSumsTo100 | api/controllers/SprintController.js:500-511 | when any phase has time, the total shares add up to 100 |
| Phases.PercentSumsTo100 | api/controllers/SprintController.js:500-511 | when any non-first phase has time, the phase shares add up to 100 |
| Phases.PositiveIndicesFacts | api/controllers/SprintController.js:516-534 | the charted phase indices increase and are exactly the phases with a positive share |
| Phases.BuildPhaseCharts | api/controllers/SprintController.js:513-534 | the two pie lists are the slices of the phases with a positive phase share and a positive total share, in phase order |
| Phases.PieChartMembers | api/controllers/SprintController.js:513-534 | each pie has one slice per phase with a positive share, in phase order, carrying that phase's title, share and duration |
| TaskTypes.TypeIds | api/controllers/SprintController.js:550 | definition: the grouping key of each task is its type id |
| TaskTypes.FindTypeFacts | api/controllers/SprintController.js:555 | `_.find` on the types returns a type with the id, and none exactly when no type has it |
| TaskTypes.ChartDataTaskTypes | api/controllers/SprintController.js:549-566 | the type loop yields exactly the reference slices, failing on an unknown type |
| TaskTypes.TypeGroupsNonEmpty | api/controllers/SprintController.js:549-562 | there is a type group only when there is a task, so the share never divides by zero |
| TaskTypes.SlicesOfStep | api/controllers/SprintController.js:554-566 | one more group fails on an unknown type, or else appends its slice when it has tasks |
| TaskTypes.NoneAfter | api/controllers/SprintController.js:555-560 | once a group's type is missing, the whole loop fails |
| TaskTypes.TypeGroupsFacts | api/controllers/SprintController.js:550 | the type groups come in ascending id order (type ids are non-negative database ids, which JavaScript lists as integer keys in ascending order); they hold every used type id and only those, each with its task count; the counts are positive and sum to the task count |
| TaskTypes.SlicesOfFails | api/controllers/SprintController.js:554-566 | the slices fail iff some group's type is not found |
| TaskTypes.SlicesOfContents | api/controllers/SprintController.js:554-566 | each group gives one slice holding its type's title, count, and count / taskCount * 100 |
| TaskTypes.SumSliceCountsIsSum | api/controllers/SprintController.js:556 | the slice counts add up to the group counts |
| TaskTypes.SharesPrefix | api/controllers/SprintController.js:562 | the slice shares add up to the share of the summed counts |
| TaskTypes.TypeSlicesFacts | api/controllers/SprintController.js:549-566 | with every type known, there is one slice per used type in ascending id order with its name and task count, and the shares add up to 100 |
| TaskTypes.TypeSlicesFail | api/controllers/SprintController.js:554-566 | the type pie fails iff some task's type id matches no task type |
| Split.SplitInitOver | api/controllers/SprintController.js:568-591 | the story loop yields the reference initial count and the added-later tasks |
| Split.SplitAtTime | api/controllers/SprintController.js:579-586 | a story's tasks created up to and after the start time are a partition of its tasks |
| Split.StoryPartition | api/controllers/SprintController.js:572-587 | a story's initial count plus its added-later tasks is its task count, splitting at its start time when started |
| Split.CreatedAfterMembers | api/controllers/SprintController.js:584-586 | the added-later tasks belong to the story and were created after the start time |
| Split.TasksOverAreLate | api/controllers/SprintController.js:584-586 | every added-later task is a task of some started story created after that story's start |
| Split.UniqueStory | api/controllers/SprintController.js:569-591 | with distinct ids, a story id that occurs is counted once |
| Split.AbsentStory | api/controllers/SprintController.js:569-591 | a story id that does not occur is counted zero times |
| Split.StoryTaskTotalSnoc | api/controllers/SprintController.js:569-591 | one more task adds the number of stories with its story id |
| Split.StoryTaskTotalCoversAll | api/controllers/SprintController.js:569-591 | with distinct ids and every task's story present, each task is counted once |
| Split.AllEmpty | api/controllers/SprintController.js:569-591 | no tasks count nothing |
| Split.SplitPerStory | api/controllers/SprintController.js:569-591 | the initial count plus the added-later tasks is the per-story task total |
| Split.SplitCoversAllTasks | api/controllers/SprintController.js:569-591 | when stories have distinct ids and every task's story is present, each task is counted exactly once, as initial or as added later |
| Columns.DoneDays | api/controllers/SprintController.js:897 | definition: the done-column key of a task is its end day |
| Columns.AddedDays | api/controllers/SprintController.js:876 | definition: the added-column key of a task is its creation day |
| Columns.GetColumnData | api/controllers/SprintController.js:876-883 | the column loop yields one column per group, in group order |
| Columns.GetDoneData | api/controllers/SprintController.js:893-907 | the done columns are the groups of the done tasks by end day |
| Columns.GetAddedData | api/controllers/SprintController.js:872-886 | the added columns are the groups of the added-later tasks by creation day |
| Columns.ColumnTotalIsSum | api/controllers/SprintController.js:881 | the column heights add up to the group counts |
| Columns.ColumnsFacts | api/controllers/SprintController.js:872-907 | there is one column per distinct day, with that day's positive task count, and the heights add up to the task count |
| Columns.ColumnsAscending | api/controllers/SprintController.js:872-907 | days read in non-decreasing order give columns in strictly increasing day order |
| Columns.DaysOfSortedTasks | api/controllers/SprintController.js:450 | tasks sorted by end or creation time have non-decreasing end or creation days |
| Ideal.TasksPerDayIdeal | api/controllers/SprintController.js:695 | the step is absent iff `days - 1` is 0; otherwise it times `days - 1` is the initial count |
| Ideal.LoweredIsLinear | api/controllers/SprintController.js:720 | after k planned days the ideal value is the initial count less k steps |
| Ideal.IdealPointsLength | api/controllers/SprintController.js:705-724 | the walk draws one point per planned day |
| Ideal.IdealPointAt | api/controllers/SprintController.js:705-724 | the k-th ideal point lies on the k-th planned day, k steps down, pointing back to the previous planned day |
| Ideal.IdealPointsAt | api/controllers/SprintController.js:705-724 | every planned day's point is its reference ideal point |
| Ideal.IdealPointExtend | api/controllers/SprintController.js:705-724 | later planned days do not change an earlier point |
| Ideal.CountSprintDays | api/controllers/SprintController.js:678-692 | the first loop leaves `days` at the duration less the exclude days of [start, end) |
| Ideal.IdealWalk | api/controllers/SprintController.js:701-732 | the second loop and the final push yield exactly the reference ideal line |
| Ideal.IdealPointsStep | api/controllers/SprintController.js:705-724 | one more walked day adds a point exactly when that day is not ignored |
| Ideal.FinalPoint | api/controllers/SprintController.js:705-728 | the walk stops on the end day, or on the start for an empty range, having drawn every planned day |
| Ideal.GetIdealData | api/controllers/SprintController.js:673-735 | `getIdealData` records the sprint days and the step, and returns the reference ideal line, with step 0 where the division is undefined |
| Ideal.IdealLineAt | api/controllers/SprintController.js:704-732 | the line has one point per planned day, then a final zero point on the final day that points back to the last planned day |
| Ideal.IdealLineDays | api/controllers/SprintController.js:704-724 | the line's days before the final point are exactly the non-ignored days of [start, end) |
| Ideal.IdealLineChain | api/controllers/SprintController.js:714-730 | each point points back to the previous point's day, and the days increase strictly |
| Ideal.IdealLineShape | api/controllers/SprintController.js:673-735 | the ideal line starts at the initial count, drops one step per planned day, ends at 0 on the final day, and is chained and increasing |
| Ideal.IdealReachesZero | api/controllers/SprintController.js:695-724 | when no exclude day falls on an ignored weekend and the end day is not a weekend of a weekend-free sprint, lowering once per planned day reaches exactly 0, the value of the final point |
| Ideal.StepsToZero | api/controllers/SprintController.js:695-720 | lowering by initTasks/(days-1) for days-1 steps reaches exactly 0 |
| Ideal.SprintDaysCountsPlannedDays | api/controllers/SprintController.js:678-692 | under the same conditions, the sprint days are the planned days of [start, end) plus one |
| Actual.DoneKeys | api/controllers/SprintController.js:764-766 | definition: the done-grouping key is the end day of a done task and null otherwise |
| Actual.AdmitsBound | api/controllers/SprintController.js:819 | the truncating overrun guard admits every day up to today and none after tomorrow |
| Actual.TasksPerDayActual | api/controllers/SprintController.js:862 | the actual rate is absent iff there are no work days; otherwise the rate times the work days is the done count |
| Actual.ActualPointsSnoc | api/controllers/SprintController.js:794-802 | a drawn day lowers the count by that day's done tasks and raises it by its added tasks, and adds one point |
| Actual.WalkStateSnoc | api/controllers/SprintController.js:792-809 | one drawn day extends the points, the count, the previous date and the work days consistently |
| Actual.ShownDaysStep | api/controllers/SprintController.js:773-813 | one more walked day adds it to the drawn days exactly when it is not after today and is shown |
| Actual.DrawnDay | api/controllers/SprintController.js:776-792 | a day is drawn iff not ignored or it has done or added tasks, and its `notPlannedDay` is then its ignored flag |
| Actual.MainWalk | api/controllers/SprintController.js:772-814 | the main loop draws exactly the shown days of [start, min(end, today)] and stops after the end day |
| Actual.MainWalkStops | api/controllers/SprintController.js:773 | the main loop stops on the day after the end, or on the start for an empty range |
| Actual.OverrunWalk | api/controllers/SprintController.js:817-858 | the overrun loop appends the reference overrun days, with their points, count and work days |
| Actual.GetActualData | api/controllers/SprintController.js:742-865 | `getActualData` returns the reference actual line, counts its drawn days as work days, and records done tasks per work day |
| Actual.DoneKeysCount | api/controllers/SprintController.js:782 | a day's done count is the number of done tasks finished that day |
| Actual.AddedDaysCount | api/controllers/SprintController.js:783 | a day's added count is the number of added-later tasks created that day |
| Actual.ActivityCounts | api/controllers/SprintController.js:782-783 | the looked-up done and added counts are those task counts |
| Actual.RemainingPrepend | api/controllers/SprintController.js:794 | the remaining count after a first day continues from that day's count |
| Actual.RemainingAppend | api/controllers/SprintController.js:794-837 | the overrun loop continues the count the main loop left |
| Actual.ActualPointsAt | api/controllers/SprintController.js:797-802 | the k-th drawn point lies on the k-th drawn day at the count after it, pointing back to the day before |
| Actual.ShownDaysFacts | api/controllers/SprintController.js:773-813 | the drawn days of a range increase strictly and are exactly its shown days |
| Actual.OverrunDaysBounds | api/controllers/SprintController.js:819-856 | overrun days lie between the first walked day and today and are shown |
| Actual.OverrunDaysFacts | api/controllers/SprintController.js:819-856 | the overrun days also increase strictly |
| Actual.OverrunWhileRemaining | api/controllers/SprintController.js:819 | before each overrun day, tasks remain |
| Actual.OverrunReachesToday | api/controllers/SprintController.js:819-856 | if tasks still remain at the end, every shown day from the first walked day through today was drawn |
| Actual.ActualLineShape | api/controllers/SprintController.js:755-858 | the actual line starts at the initial count on the start day; each later point lies on a drawn day, changes by that day's added minus done, and is chained to the previous point |
| Actual.LineShape | api/controllers/SprintController.js:755-858 | the same shape for the line over any list of drawn days |
| Actual.LinePointAt | api/controllers/SprintController.js:797-802 | the k-th line point is the reference point of the k-th drawn day |
| Actual.ActualDaysOrder | api/controllers/SprintController.js:772-858 | drawn days increase strictly, lie between start and today and are shown; within the sprint up to today, a day is drawn iff it is shown |
| Actual.OverrunWhileTasksRemain | api/controllers/SprintController.js:817-858 | a point after the end day is drawn only while tasks remain, and is marked not planned |
| Actual.OverrunDayHasTasksLeft | api/controllers/SprintController.js:817-819 | before any day past the end is drawn, tasks remain |
| Actual.MainDaysWithinSprint | api/controllers/SprintController.js:773 | the main loop draws no day past the end day |
| Actual.OverrunThroughToday | api/controllers/SprintController.js:817-858 | if tasks remain at the last point, every shown day from the end through today was drawn |
| Charts.DoneTasks | api/controllers/SprintController.js:451 | the done tasks are exactly the listed tasks that are done |
| Charts.DoneTasksSorted | api/controllers/SprintController.js:450-451 | filtering the sorted tasks keeps them sorted by end time |
| Charts.ParseData | api/controllers/SprintController.js:545-662 | `parseData` fails iff a type is unknown or the sprint lacks dates. Otherwise (`BurndownOf`) its fields are the type slices, the init count, the added-later tasks sorted by creation time, the start point, and the ideal and actual lines; the last actual day is `pointActual`; it also holds the done and added columns and the statistics |
| Charts.ChartDataTasks | api/controllers/SprintController.js:449-534 | the charts fail iff the phase reduce, the type lookup or the sprint dates fail. Otherwise the tasks are a sorted permutation of the fetched ones and the done tasks their sorted done subset, with the aggregated phases and both phase pies; the burndown data is the whole `parseData` result (`BurndownOf`) over those sorted and done tasks |

## Left out

- Database queries, the ORM, `async` orchestration, HTTP responses, views
  and sessions. The fetched records are parameters.
- The story query filter on `ignoreInBurnDownChart`
  (api/controllers/SprintController.js:427-435). The `tasks` passed to
  `Charts.ChartDataTasks` are the tasks of the charted stories.
- Time zones and `DateService.convertDateObjectToUtc`. Dates are UTC day
  numbers and timestamps are UTC seconds.
- Chart x values are day numbers, not milliseconds. `previousX` is null
  exactly for day 0, as the falsy timestamp 0 makes it in JavaScript.
- JavaScript numbers are modelled as `real` (percentages, steps, rates)
  and `int` (counts). Floating-point rounding is not modelled.
- Chart colours, names and other styling fields.
- Charts.ChartDataTasks: every task has an integer `timeEnd`. The
  JavaScript also sorts undone tasks, whose `timeEnd` may be null, and
  `_.sortBy` puts those first; the model orders them by the integer it is
  given. This order does not affect the counts, the done list or the
  columns. Done tasks are assumed to have an end time: in JavaScript a
  done task with a null or zero `timeEnd` throws when its end day is
  formatted (api/controllers/SprintController.js:765, 897), and the model
  does not capture that failure.
- TaskTypes.TypeGroups: type ids are taken to be non-negative database
  ids. JavaScript would list a negative id as a string key in insertion
  order, not in ascending order.
- Charts.ChartDataTasks: the order of equal keys is not proved stable.
  The model's insertion sort is stable, but only sortedness and
  permutation are stated.
- Ideal.GetIdealData: where `days - 1` is 0, JavaScript gets `Infinity`
  or `NaN` and the ideal values become non-finite. The model records the
  step as `None` and draws the line with step 0.
- Ideal.IdealReachesZero: it states the consistent case only. The first
  loop subtracts exclude days that also fall on ignored weekends, which
  `durationDays` never counted. The ideal line then does not reach 0
  before the final point.
- Actual.GetActualData: with no work days the division is `NaN` when
  no task is done, or `Infinity` when a task is done (a sprint starting
  after today with a task already done draws no day). The model records
  `None` in both cases.
- Sprints.DurationDays: it requires both dates. A missing end date
  throws in both branches, and a missing start date throws in the
  weekend-skipping branch (`clone()` of null). Without weekend skipping a
  missing start date gives `NaN` from `diff` instead. Its one call site
  (api/controllers/SprintController.js:678, in `getIdealData`) is reached
  only with both dates set: `parseData` runs `getActualData` first
  (line 605, before line 623), and that throws on a missing start date
  (`startTime.year()`, line 753) and on a missing end date
  (`endTime.diff`, line 773). So no reachable call is excluded.
- Creation times are compared numerically with the story start time
  (api/controllers/SprintController.js:580-585), like datetime strings of
  one format.
- The progress percentages round to nearest with halves up, as
  `Math.round` does. A tiny fraction (1 of 300) rounds to 0 even though
  something is done; Progress.ProgressPercentBounds states exactly when
  the value is positive.
- `durationDays` ignores exclude days, as its own comment says, and the
  model keeps it that way.
