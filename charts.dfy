/**
 * `chartDataTasks` after its queries: the fetched tasks sorted by end time
 * and filtered to the done ones, the phase aggregation, and `parseData`,
 * which assembles the task-type pie, the init/over split, the ideal and
 * actual lines, the done and added columns and the sprint statistics.
 */
module Charts {
  import opened Wrappers
  import opened Records
  import opened Sprints
  import opened Calendar
  import opened Grouping
  import opened Phases
  import opened Split
  import opened TaskTypes
  import opened Columns
  import opened Ideal
  import opened Actual

  /** The sort key of `data.tasks`. */
  function TimeEndOf(t: Task): int {
    t.timeEnd
  }

  /** The sort key of `data.tasksOver`. */
  function CreatedAtOf(t: Task): int {
    t.createdAt
  }

  /** `_.filter(tasks, function(task) { return task.isDone; })`. */
  function DoneTasks(tasks: seq<Task>): (r: seq<Task>)
    ensures |r| <= |tasks|
    ensures forall t :: t in r <==> t in tasks && t.isDone
  {
    if |tasks| == 0 then []
    else
      var t := tasks[|tasks| - 1];
      assert forall u :: u in tasks <==> u in tasks[..|tasks| - 1] || u == t;
      DoneTasks(tasks[..|tasks| - 1]) + if t.isDone then [t] else []
  }

  /** Filtering keeps the order: the done tasks of a list sorted by end time are sorted by end time. */
  lemma {:induction false} DoneTasksSorted(tasks: seq<Task>)
    requires SortedBy(tasks, TimeEndOf)
    ensures SortedBy(DoneTasks(tasks), TimeEndOf)
  {
    if |tasks| > 0 {
      var front, t := tasks[..|tasks| - 1], tasks[|tasks| - 1];
      DoneTasksSorted(front);
      var r := DoneTasks(front);
      assert forall u :: u in r ==> u in front;
      assert forall u :: u in r ==> TimeEndOf(u) <= TimeEndOf(t) by {
        forall u | u in r
          ensures TimeEndOf(u) <= TimeEndOf(t)
        {
          var i :| 0 <= i < |front| && front[i] == u;
          assert tasks[i] == u;
        }
      }
      if t.isDone {
        var s := r + [t];
        forall i, j | 0 <= i < j < |s|
          ensures TimeEndOf(s[i]) <= TimeEndOf(s[j])
        {
          if j == |s| - 1 {
            assert s[i] == r[i] && r[i] in r;
          }
        }
      }
    }
  }

  /** `data.statistics`. */
  datatype Statistics = Statistics(
    sprintDays: int,
    workDays: nat,
    tasksPerDayIdeal: Option<real>,
    tasksPerDayActual: Option<real>)

  /** What `parseData` adds to `data`; `chartData` holds the ideal, actual, done and added series. */
  datatype Burndown = Burndown(
    chartDataTaskTypes: seq<TypeSlice>,
    initTasks: nat,
    tasksOver: seq<Task>,
    pointStart: int,
    pointActual: int,
    ideal: seq<Point<real>>,
    actual: seq<Point<int>>,
    done: seq<Column>,
    added: seq<Column>,
    statistics: Statistics)

  /**
   * `b` is what `parseData` computes from these records: the task-type pie,
   * the init/over split, the start point, the actual line and its last
   * point, the ideal line, the done and added columns and the statistics.
   */
  predicate BurndownOf(sprint: Sprint, excludeDays: seq<ExcludeDay>, stories: seq<Story>, tasks: seq<Task>,
                       tasksDone: seq<Task>, types: seq<TaskType>, now: int, b: Burndown)
  {
    && sprint.HasDates()
    && var cal := CalendarOf(sprint, excludeDays);
    var over := SortBy(TasksOver(stories, tasks), CreatedAtOf);
    var act := ActivityOf(tasks, over);
    && Some(b.chartDataTaskTypes) == TypeSlices(tasks, types)
    && b.initTasks == InitTasks(stories, tasks)
    && b.tasksOver == over
    && b.pointStart == cal.start
    && b.actual == ActualLine(cal, act, b.initTasks, now)
    && |b.actual| > 0
    && b.pointActual == b.actual[|b.actual| - 1].x
    && b.statistics.sprintDays == SprintDays(cal)
    && b.statistics.tasksPerDayIdeal == TasksPerDayIdeal(b.initTasks, SprintDays(cal))
    && b.ideal == IdealLine(cal, b.initTasks, b.statistics.tasksPerDayIdeal.GetOr(0.0))
    && b.statistics.workDays == |ActualDays(cal, act, b.initTasks, now)|
    && b.statistics.tasksPerDayActual == TasksPerDayActual(|tasksDone|, b.statistics.workDays)
    && b.done == ColumnsOf(GroupBy(DoneDays(tasksDone)))
    && b.added == ColumnsOf(GroupBy(AddedDays(over)))
  }

  /**
   * `parseData` over the sorted tasks and the done tasks. It fails (`None`)
   * when a task's type is not among `types` or when the sprint has no
   * dates, where the JavaScript throws.
   */
  method ParseData(sprint: Sprint, excludeDays: seq<ExcludeDay>, stories: seq<Story>, tasks: seq<Task>,
                   tasksDone: seq<Task>, types: seq<TaskType>, now: int)
    returns (r: Option<Burndown>)
    ensures r.None? <==> TypeSlices(tasks, types).None? || !sprint.HasDates()
    ensures r.Some? ==> BurndownOf(sprint, excludeDays, stories, tasks, tasksDone, types, now, r.value)
  {
    var typeSlices := ChartDataTaskTypes(tasks, types);
    if typeSlices.None? || !sprint.HasDates() {
      return None;
    }
    var initTasks, tasksOver := SplitInitOver(stories, tasks);
    tasksOver := SortBy(tasksOver, CreatedAtOf);
    var actual, workDays, tasksPerDayActual := GetActualData(sprint, excludeDays, tasks, tasksOver, tasksDone,
                                                             initTasks, now);
    ActualLineShape(CalendarOf(sprint, excludeDays), ActivityOf(tasks, tasksOver), initTasks, now);
    var start := sprint.DateStartObject();
    var ideal, sprintDays, tasksPerDayIdeal := GetIdealData(sprint, excludeDays, initTasks);
    var done := GetDoneData(tasksDone);
    var added := GetAddedData(tasksOver);
    r := Some(Burndown(typeSlices.value, initTasks, tasksOver, start.value, actual[|actual| - 1].x, ideal, actual,
                       done, added, Statistics(sprintDays, workDays, tasksPerDayIdeal, tasksPerDayActual)));
  }

  /** The response of `chartDataTasks`, less the records it passes through unchanged. */
  datatype TaskCharts = TaskCharts(
    tasks: seq<Task>,
    tasksDone: seq<Task>,
    phaseDuration: PhaseDuration,
    phases: seq<PhaseStat>,
    chartDataPhases: seq<PieSlice>,
    chartDataPhasesTotal: seq<PieSlice>,
    burndown: Burndown)

  /**
   * `chartDataTasks` from the fetched records: `tasks` are the tasks of the
   * sprint's charted stories and `sums` the per-phase duration sums, in
   * phase order. It fails where the JavaScript throws: on a phase list
   * with no phase (or no phase past the first) to reduce, on a missing
   * task type, and on a sprint without dates.
   */
  method ChartDataTasks(sprint: Sprint, excludeDays: seq<ExcludeDay>, stories: seq<Story>, types: seq<TaskType>,
                        phases: seq<Phase>, sums: seq<Option<nat>>, tasks: seq<Task>, now: int)
    returns (r: Option<TaskCharts>)
    requires |sums| == |phases|
    ensures var sorted := SortBy(tasks, TimeEndOf);
      r.None? <==> Aggregate(phases, Durations(sums)).None? || TypeSlices(sorted, types).None? || !sprint.HasDates()
    ensures r.Some? ==>
      var c := r.value;
      var agg := Aggregate(phases, Durations(sums)).value;
      && c.tasks == SortBy(tasks, TimeEndOf)
      && SortedBy(c.tasks, TimeEndOf) && multiset(c.tasks) == multiset(tasks)
      && c.tasksDone == DoneTasks(c.tasks)
      && SortedBy(c.tasksDone, TimeEndOf)
      && c.phaseDuration == agg.phaseDuration
      && c.phases == agg.phases
      && c.chartDataPhases == PositiveSlices(agg.phases, false, |agg.phases|)
      && c.chartDataPhasesTotal == PositiveSlices(agg.phases, true, |agg.phases|)
      && BurndownOf(sprint, excludeDays, stories, c.tasks, c.tasksDone, types, now, c.burndown)
  {
    var sorted := SortBy(tasks, TimeEndOf);
    SortByCorrect(tasks, TimeEndOf);
    var tasksDone := DoneTasks(sorted);
    DoneTasksSorted(sorted);
    var agg := AnnotatePhases(phases, sums);
    if agg.None? {
      return None;
    }
    var chartDataPhases, chartDataPhasesTotal := BuildPhaseCharts(agg.value.phases);
    var burndown := ParseData(sprint, excludeDays, stories, sorted, tasksDone, types, now);
    if burndown.None? {
      return None;
    }
    r := Some(TaskCharts(sorted, tasksDone, agg.value.phaseDuration, agg.value.phases, chartDataPhases,
                         chartDataPhasesTotal, burndown.value));
  }
}
