/**
 * `getActualData`: the actual burndown line. It starts at the initial task
 * count on the start day, then has one point per shown day up to today,
 * where the value drops by the tasks finished that day and rises by the
 * tasks added to started stories that day. If tasks remain at the end day,
 * the line runs on past it while tasks remain, through today.
 */
module Actual {
  import opened Wrappers
  import opened Records
  import opened Sprints
  import opened Calendar
  import opened Grouping
  import opened Columns

  /** `objectsTasksDone` and `objectsTasksOver`: the tasks grouped by done day and by creation day. */
  datatype Activity = Activity(done: seq<Group<Option<int>>>, over: seq<Group<int>>)

  /** The key of `objectsTasksDone`: the done day of a done task, `null` otherwise. */
  function DoneKey(task: Task): Option<int> {
    if task.isDone then Some(DayOf(task.timeEnd)) else None
  }

  function DoneKeys(tasks: seq<Task>): (keys: seq<Option<int>>)
    ensures |keys| == |tasks|
    ensures forall i :: 0 <= i < |tasks| ==> keys[i] == DoneKey(tasks[i])
  {
    seq(|tasks|, i requires 0 <= i < |tasks| => DoneKey(tasks[i]))
  }

  function ActivityOf(tasks: seq<Task>, tasksOver: seq<Task>): Activity {
    Activity(GroupBy(DoneKeys(tasks)), GroupBy(AddedDays(tasksOver)))
  }

  /** `objectsTasksDone[date] ? _.size(objectsTasksDone[date]) : 0`. */
  function DoneOn(act: Activity, d: int): nat {
    Lookup(act.done, Some(d))
  }

  /** `objectsTasksOver[date] ? _.size(objectsTasksOver[date]) : 0`. */
  function AddedOn(act: Activity, d: int): nat {
    Lookup(act.over, d)
  }

  /** A day is drawn when it is not ignored, or when tasks were finished or added on it. */
  predicate Shown(cal: SprintCalendar, act: Activity, d: int) {
    !IsDateIgnored(cal, d) || DoneOn(act, d) > 0 || AddedOn(act, d) > 0
  }

  /** Today's day number for the clock reading `now` (seconds). */
  function Today(now: int): int {
    DayOf(now)
  }

  /** Integer division truncating toward zero, as moment's `diff` rounds. */
  function TruncDiv(a: int, b: int): int
    requires b > 0
  {
    if a >= 0 then a / b else -((-a) / b)
  }

  /** `moment().diff(currentDate, "days") >= 0` with `currentDate` at midnight of `day`. */
  predicate Admits(now: int, day: int) {
    TruncDiv(now - day * SecondsPerDay, SecondsPerDay) >= 0
  }

  /**
   * The overrun guard admits every day up to today and no day after
   * tomorrow: a tomorrow less than a full day ahead still rounds to 0.
   */
  lemma AdmitsBound(now: int, day: int)
    ensures Admits(now, day) ==> day <= Today(now) + 1
    ensures day <= Today(now) ==> Admits(now, day)
  {
    var q, r := now / SecondsPerDay, now % SecondsPerDay;
    assert now == q * SecondsPerDay + r;
    if day > q + 1 {
      var a := now - day * SecondsPerDay;
      assert a <= -SecondsPerDay;
      assert (-a) / SecondsPerDay >= 1;
    }
    if day <= q {
      assert now - day * SecondsPerDay >= 0;
    }
  }

  /** The shown days of `[lo, hi)`, in calendar order. */
  function ShownDays(cal: SprintCalendar, act: Activity, lo: int, hi: int): seq<int>
    decreases hi - lo
  {
    if hi <= lo then []
    else ShownDays(cal, act, lo, hi - 1) + (if Shown(cal, act, hi - 1) then [hi - 1] else [])
  }

  /** The task count after `days`, from `tasks`: less the finished, plus the added ones of each day. */
  function Remaining(act: Activity, tasks: int, days: seq<int>): int {
    if |days| == 0 then tasks
    else
      var d := days[|days| - 1];
      Remaining(act, tasks, days[..|days| - 1]) - DoneOn(act, d) + AddedOn(act, d)
  }

  /** `notPlannedDay` of a drawn day: ignored days within the sprint, and every day after its end. */
  function Unplanned(cal: SprintCalendar, d: int): bool {
    if d <= cal.end then IsDateIgnored(cal, d) else true
  }

  /** The points drawn for `days` after the first point, day by day. */
  function ActualPoints(cal: SprintCalendar, act: Activity, initTasks: int, days: seq<int>): seq<Point<int>> {
    if |days| == 0 then []
    else
      var before := days[..|days| - 1];
      var d := days[|days| - 1];
      ActualPoints(cal, act, initTasks, before)
        + [Point(d, Remaining(act, initTasks, days), PreviousX(LastOr(cal.start, before)), Unplanned(cal, d))]
  }

  function Min(a: int, b: int): int {
    if a <= b then a else b
  }

  /** The days the main loop draws: the shown days from the start day through the end day, up to today. */
  function MainDays(cal: SprintCalendar, act: Activity, now: int): seq<int> {
    ShownDays(cal, act, cal.start, Min(cal.end, Today(now)) + 1)
  }

  /** Where the main loop's day walk stops. */
  function AfterMain(cal: SprintCalendar): int {
    if cal.start <= cal.end then cal.end + 1 else cal.start
  }

  /**
   * The days the overrun loop draws from day `cur` on with `tasks`
   * remaining: it goes on while the guard admits the day and tasks remain,
   * and draws the shown days up to today.
   */
  function OverrunDays(cal: SprintCalendar, act: Activity, now: int, cur: int, tasks: int): seq<int>
    decreases Today(now) + 2 - cur
  {
    if !(Admits(now, cur) && tasks > 0) then []
    else
      AdmitsBound(now, cur);
      if cur <= Today(now) && Shown(cal, act, cur) then
        [cur] + OverrunDays(cal, act, now, cur + 1, tasks - DoneOn(act, cur) + AddedOn(act, cur))
      else OverrunDays(cal, act, now, cur + 1, tasks)
  }

  /** All days drawn after the first point: the main days, then the overrun days if tasks remain. */
  function ActualDays(cal: SprintCalendar, act: Activity, initTasks: int, now: int): seq<int> {
    var main := MainDays(cal, act, now);
    var left := Remaining(act, initTasks, main);
    main + if left > 0 then OverrunDays(cal, act, now, AfterMain(cal), left) else []
  }

  /** The first point: the start day at the initial task count, pointing back to itself. */
  function FirstPoint(cal: SprintCalendar, initTasks: int): Point<int> {
    Point(cal.start, initTasks, Some(cal.start), IsDateIgnored(cal, cal.start))
  }

  /** The line drawn for `days`: the first point, then one point per day. */
  function LineOf(cal: SprintCalendar, act: Activity, initTasks: int, days: seq<int>): seq<Point<int>> {
    [FirstPoint(cal, initTasks)] + ActualPoints(cal, act, initTasks, days)
  }

  /** The actual line. */
  function ActualLine(cal: SprintCalendar, act: Activity, initTasks: int, now: int): seq<Point<int>> {
    LineOf(cal, act, initTasks, ActualDays(cal, act, initTasks, now))
  }

  /** `data.tasksDone.length / workDays`; `None` where the source divides by zero. */
  function TasksPerDayActual(doneCount: nat, workDays: nat): (r: Option<real>)
    ensures r.None? <==> workDays == 0
    ensures r.Some? ==> r.value * workDays as real == doneCount as real
  {
    if workDays == 0 then None else Some(doneCount as real / workDays as real)
  }

  lemma ActualPointsSnoc(cal: SprintCalendar, act: Activity, initTasks: int, days: seq<int>, d: int)
    ensures Remaining(act, initTasks, days + [d]) == Remaining(act, initTasks, days) - DoneOn(act, d) + AddedOn(act, d)
    ensures ActualPoints(cal, act, initTasks, days + [d])
         == ActualPoints(cal, act, initTasks, days)
            + [Point(d, Remaining(act, initTasks, days + [d]), PreviousX(LastOr(cal.start, days)), Unplanned(cal, d))]
  {
    assert (days + [d])[..|days|] == days;
  }

  /** The walk's loop state after drawing `days`. */
  predicate WalkState(cal: SprintCalendar, act: Activity, initTasks: int, days: seq<int>,
                      points: seq<Point<int>>, tasks: int, previousDate: int, workDays: nat)
  {
    && points == ActualPoints(cal, act, initTasks, days)
    && tasks == Remaining(act, initTasks, days)
    && previousDate == LastOr(cal.start, days)
    && workDays == |days|
  }

  /** Drawing day `d` as the loops do keeps the loop state in step with the days drawn. */
  lemma WalkStateSnoc(cal: SprintCalendar, act: Activity, initTasks: int, days: seq<int>,
                      points: seq<Point<int>>, tasks: int, previousDate: int, workDays: nat, d: int)
    requires WalkState(cal, act, initTasks, days, points, tasks, previousDate, workDays)
    ensures var left := tasks - DoneOn(act, d) + AddedOn(act, d);
      WalkState(cal, act, initTasks, days + [d],
                points + [Point(d, left, PreviousX(previousDate), Unplanned(cal, d))], left, d, workDays + 1)
  {
    ActualPointsSnoc(cal, act, initTasks, days, d);
  }

  /** One more day of the main walk: a day up to today adds itself when shown; a later day adds nothing. */
  lemma ShownDaysStep(cal: SprintCalendar, act: Activity, cur: int, today: int)
    requires cal.start <= cur
    ensures ShownDays(cal, act, cal.start, Min(cur + 1, today + 1))
         == ShownDays(cal, act, cal.start, Min(cur, today + 1))
            + if cur <= today && Shown(cal, act, cur) then [cur] else []
  {
  }

  /** The main loop draws a day exactly when it is shown, and marks it as the calendar says. */
  lemma DrawnDay(cal: SprintCalendar, act: Activity, d: int, ignore: bool, notPlannedDay: bool, done: nat, added: nat)
    requires d <= cal.end && done == DoneOn(act, d) && added == AddedOn(act, d)
    requires ignore == (IsDateIgnored(cal, d) && !(done > 0 || added > 0))
    requires notPlannedDay == (IsDateIgnored(cal, d) && (done > 0 || added > 0))
    ensures !ignore <==> Shown(cal, act, d)
    ensures !ignore ==> notPlannedDay == Unplanned(cal, d)
  {
  }

  /**
   * The main loop of `getActualData`: walks the start day through the
   * end day and, for each day up to today that is shown, updates the task
   * count and draws a point. A day is shown when it is not ignored or has
   * finished or added tasks; one drawn only for those tasks is marked as
   * unplanned.
   */
  method MainWalk(cal: SprintCalendar, act: Activity, initTasks: int, now: int)
    returns (points: seq<Point<int>>, tasks: int, previousDate: int, workDays: nat, currentDate: int)
    ensures WalkState(cal, act, initTasks, MainDays(cal, act, now), points, tasks, previousDate, workDays)
    ensures currentDate == AfterMain(cal)
  {
    var today := Today(now);
    points, tasks, previousDate, workDays := [], initTasks, cal.start, 0;
    currentDate := cal.start;
    ghost var days: seq<int> := [];
    assert Min(currentDate, today + 1) <= cal.start;
    while cal.end - currentDate >= 0
      invariant cal.start <= currentDate && (currentDate <= cal.end + 1 || currentDate == cal.start)
      invariant days == ShownDays(cal, act, cal.start, Min(currentDate, today + 1))
      invariant WalkState(cal, act, initTasks, days, points, tasks, previousDate, workDays)
      decreases cal.end - currentDate
    {
      ShownDaysStep(cal, act, currentDate, today);
      if currentDate < today + 1 {
        var ignore := IsDateIgnored(cal, currentDate);
        var notPlannedDay := false;
        var tasksDone := DoneOn(act, currentDate);
        var tasksOver := AddedOn(act, currentDate);
        if tasksDone > 0 || tasksOver > 0 {
          notPlannedDay := ignore;
          ignore := false;
        }
        DrawnDay(cal, act, currentDate, ignore, notPlannedDay, tasksDone, tasksOver);
        if !ignore {
          WalkStateSnoc(cal, act, initTasks, days, points, tasks, previousDate, workDays, currentDate);
          tasks := tasks - tasksDone + tasksOver;
          points := points + [Point(currentDate, tasks, PreviousX(previousDate), notPlannedDay)];
          workDays := workDays + 1;
          previousDate := currentDate;
          days := days + [currentDate];
        }
      }
      currentDate := currentDate + 1;
    }
    MainWalkStops(cal, act, now, currentDate);
  }

  lemma MainWalkStops(cal: SprintCalendar, act: Activity, now: int, cur: int)
    requires cal.start <= cur && (cur <= cal.end + 1 || cur == cal.start) && cal.end - cur < 0
    ensures cur == AfterMain(cal)
    ensures ShownDays(cal, act, cal.start, Min(cur, Today(now) + 1)) == MainDays(cal, act, now)
  {
    var today := Today(now);
    if cal.start > cal.end {
      assert cur == cal.start;
      assert Min(cur, today + 1) <= cal.start && Min(cal.end, today) + 1 <= cal.start;
      assert ShownDays(cal, act, cal.start, Min(cur, today + 1)) == [];
      assert MainDays(cal, act, now) == [];
    } else {
      assert cur == cal.end + 1;
      assert Min(cur, today + 1) == Min(cal.end, today) + 1;
    }
  }

  /**
   * The overrun loop of `getActualData`: from `currentDate` on, while the
   * clock guard admits the day and tasks remain, draws each shown day up
   * to today as an unplanned point.
   */
  method OverrunWalk(cal: SprintCalendar, act: Activity, initTasks: int, now: int,
                     ghost main: seq<int>, points0: seq<Point<int>>, tasks0: int, previous0: int,
                     workDays0: nat, start: int)
    returns (points: seq<Point<int>>, tasks: int, workDays: nat)
    requires start > cal.end
    requires WalkState(cal, act, initTasks, main, points0, tasks0, previous0, workDays0)
    ensures var days := main + OverrunDays(cal, act, now, start, tasks0);
      && points == ActualPoints(cal, act, initTasks, days)
      && tasks == Remaining(act, initTasks, days)
      && workDays == |days|
  {
    var today := Today(now);
    points, tasks, workDays := points0, tasks0, workDays0;
    var previousDate := previous0;
    var currentDate := start;
    ghost var days := main;
    while Admits(now, currentDate) && tasks > 0
      invariant currentDate >= start
      invariant main + OverrunDays(cal, act, now, start, tasks0)
             == days + OverrunDays(cal, act, now, currentDate, tasks)
      invariant WalkState(cal, act, initTasks, days, points, tasks, previousDate, workDays)
      decreases today + 2 - currentDate
    {
      AdmitsBound(now, currentDate);
      if currentDate < today + 1 {
        var ignore := IsDateIgnored(cal, currentDate);
        var tasksDone := DoneOn(act, currentDate);
        var tasksOver := AddedOn(act, currentDate);
        if tasksDone > 0 || tasksOver > 0 {
          ignore := false;
        }
        if !ignore {
          assert Unplanned(cal, currentDate);
          WalkStateSnoc(cal, act, initTasks, days, points, tasks, previousDate, workDays, currentDate);
          tasks := tasks - tasksDone + tasksOver;
          points := points + [Point(currentDate, tasks, PreviousX(previousDate), true)];
          workDays := workDays + 1;
          previousDate := currentDate;
          days := days + [currentDate];
        }
      }
      currentDate := currentDate + 1;
    }
    assert days + OverrunDays(cal, act, now, currentDate, tasks) == days;
  }

  /**
   * `getActualData`: the actual line for the sprint, with `workDays` (the
   * number of points after the first) and `tasksPerDayActual`.
   */
  method GetActualData(sprint: Sprint, excludeDays: seq<ExcludeDay>, tasks: seq<Task>, tasksOver: seq<Task>,
                       tasksDone: seq<Task>, initTasks: nat, now: int)
    returns (output: seq<Point<int>>, workDays: nat, tasksPerDayActual: Option<real>)
    requires sprint.HasDates()
    ensures var cal := CalendarOf(sprint, excludeDays);
      var act := ActivityOf(tasks, tasksOver);
      && output == ActualLine(cal, act, initTasks, now)
      && workDays == |ActualDays(cal, act, initTasks, now)|
      && tasksPerDayActual == TasksPerDayActual(|tasksDone|, workDays)
  {
    var cal := CalendarOf(sprint, excludeDays);
    var act := ActivityOf(tasks, tasksOver);
    var first := FirstPoint(cal, initTasks);
    var points, remaining, previousDate, days, currentDate := MainWalk(cal, act, initTasks, now);
    ghost var main := MainDays(cal, act, now);
    if remaining > 0 {
      points, remaining, days := OverrunWalk(cal, act, initTasks, now, main, points, remaining, previousDate,
                                             days, currentDate);
    } else {
      assert ActualDays(cal, act, initTasks, now) == main;
    }
    output := [first] + points;
    workDays := days;
    tasksPerDayActual := TasksPerDayActual(|tasksDone|, workDays);
  }

  // ----- What the grouped activity counts -----

  /** The number of done tasks finished on day `d`. */
  function CountDoneOn(tasks: seq<Task>, d: int): nat {
    if |tasks| == 0 then 0
    else
      var t := tasks[|tasks| - 1];
      CountDoneOn(tasks[..|tasks| - 1], d) + if t.isDone && DayOf(t.timeEnd) == d then 1 else 0
  }

  /** The number of tasks created on day `d`. */
  function CountCreatedOn(tasks: seq<Task>, d: int): nat {
    if |tasks| == 0 then 0
    else
      var t := tasks[|tasks| - 1];
      CountCreatedOn(tasks[..|tasks| - 1], d) + if DayOf(t.createdAt) == d then 1 else 0
  }

  lemma {:induction false} DoneKeysCount(tasks: seq<Task>, d: int)
    ensures Occurrences(DoneKeys(tasks), Some(d)) == CountDoneOn(tasks, d)
  {
    if |tasks| > 0 {
      DoneKeysCount(tasks[..|tasks| - 1], d);
      assert DoneKeys(tasks)[..|tasks| - 1] == DoneKeys(tasks[..|tasks| - 1]);
    }
  }

  lemma {:induction false} AddedDaysCount(tasks: seq<Task>, d: int)
    ensures Occurrences(AddedDays(tasks), d) == CountCreatedOn(tasks, d)
  {
    if |tasks| > 0 {
      AddedDaysCount(tasks[..|tasks| - 1], d);
      assert AddedDays(tasks)[..|tasks| - 1] == AddedDays(tasks[..|tasks| - 1]);
    }
  }

  /** A day's done count is the number of done tasks finished that day; its added count, the late tasks created that day. */
  lemma ActivityCounts(tasks: seq<Task>, tasksOver: seq<Task>, d: int)
    ensures DoneOn(ActivityOf(tasks, tasksOver), d) == CountDoneOn(tasks, d)
    ensures AddedOn(ActivityOf(tasks, tasksOver), d) == CountCreatedOn(tasksOver, d)
  {
    GroupByCounts(DoneKeys(tasks));
    GroupByCounts(AddedDays(tasksOver));
    DoneKeysCount(tasks, d);
    AddedDaysCount(tasksOver, d);
  }

  // ----- The running task count -----

  lemma {:induction false} RemainingPrepend(act: Activity, tasks: int, d: int, days: seq<int>)
    ensures Remaining(act, tasks, [d] + days) == Remaining(act, tasks - DoneOn(act, d) + AddedOn(act, d), days)
  {
    if |days| > 0 {
      var n := |days|;
      RemainingPrepend(act, tasks, d, days[..n - 1]);
      assert ([d] + days)[..n] == [d] + days[..n - 1];
    }
  }

  lemma {:induction false} RemainingAppend(act: Activity, tasks: int, a: seq<int>, b: seq<int>)
    ensures Remaining(act, tasks, a + b) == Remaining(act, Remaining(act, tasks, a), b)
  {
    if |b| > 0 {
      var n := |b|;
      RemainingAppend(act, tasks, a, b[..n - 1]);
      assert (a + b)[..|a| + n - 1] == a + b[..n - 1];
    } else {
      assert a + b == a;
    }
  }

  /** The `k`-th drawn point lies on the `k`-th day at the count after the first `k + 1` days. */
  lemma {:induction false} ActualPointsAt(cal: SprintCalendar, act: Activity, initTasks: int, days: seq<int>)
    ensures |ActualPoints(cal, act, initTasks, days)| == |days|
    ensures forall k :: 0 <= k < |days| ==>
      ActualPoints(cal, act, initTasks, days)[k]
      == Point(days[k], Remaining(act, initTasks, days[..k + 1]),
               PreviousX(LastOr(cal.start, days[..k])), Unplanned(cal, days[k]))
  {
    if |days| > 0 {
      var n := |days| - 1;
      ActualPointsAt(cal, act, initTasks, days[..n]);
      var points := ActualPoints(cal, act, initTasks, days);
      forall k | 0 <= k < |days|
        ensures points[k] == Point(days[k], Remaining(act, initTasks, days[..k + 1]),
                                   PreviousX(LastOr(cal.start, days[..k])), Unplanned(cal, days[k]))
      {
        if k < n {
          assert days[..n][..k + 1] == days[..k + 1];
          assert days[..n][..k] == days[..k];
        } else {
          assert days[..k + 1] == days;
        }
      }
    }
  }

  // ----- Which days are drawn -----

  lemma {:induction false} ShownDaysFacts(cal: SprintCalendar, act: Activity, lo: int, hi: int)
    ensures Increasing(ShownDays(cal, act, lo, hi))
    ensures forall i :: 0 <= i < |ShownDays(cal, act, lo, hi)| ==> lo <= ShownDays(cal, act, lo, hi)[i] < hi
    ensures forall d :: d in ShownDays(cal, act, lo, hi) <==> lo <= d < hi && Shown(cal, act, d)
    decreases hi - lo
  {
    if hi > lo {
      ShownDaysFacts(cal, act, lo, hi - 1);
    }
  }

  /** The overrun days lie between `cur` and today, increase strictly and are all shown. */
  lemma {:induction false} OverrunDaysBounds(cal: SprintCalendar, act: Activity, now: int, cur: int, tasks: int)
    ensures forall d :: d in OverrunDays(cal, act, now, cur, tasks) ==> cur <= d <= Today(now) && Shown(cal, act, d)
    decreases Today(now) + 2 - cur
  {
    if Admits(now, cur) && tasks > 0 {
      AdmitsBound(now, cur);
      if cur <= Today(now) && Shown(cal, act, cur) {
        OverrunDaysBounds(cal, act, now, cur + 1, tasks - DoneOn(act, cur) + AddedOn(act, cur));
      } else {
        OverrunDaysBounds(cal, act, now, cur + 1, tasks);
      }
    }
  }

  lemma {:induction false} OverrunDaysFacts(cal: SprintCalendar, act: Activity, now: int, cur: int, tasks: int)
    ensures Increasing(OverrunDays(cal, act, now, cur, tasks))
    ensures forall d :: d in OverrunDays(cal, act, now, cur, tasks) ==> cur <= d <= Today(now) && Shown(cal, act, d)
    decreases Today(now) + 2 - cur
  {
    OverrunDaysBounds(cal, act, now, cur, tasks);
    if Admits(now, cur) && tasks > 0 {
      AdmitsBound(now, cur);
      if cur <= Today(now) && Shown(cal, act, cur) {
        var next := tasks - DoneOn(act, cur) + AddedOn(act, cur);
        OverrunDaysFacts(cal, act, now, cur + 1, next);
        IncreasingCons(cur, OverrunDays(cal, act, now, cur + 1, next));
      } else {
        OverrunDaysFacts(cal, act, now, cur + 1, tasks);
      }
    }
  }

  /** Before each overrun day is drawn, tasks still remain. */
  lemma {:induction false} OverrunWhileRemaining(cal: SprintCalendar, act: Activity, now: int, cur: int, tasks: int)
    ensures forall j :: 0 <= j < |OverrunDays(cal, act, now, cur, tasks)| ==>
      Remaining(act, tasks, OverrunDays(cal, act, now, cur, tasks)[..j]) > 0
    decreases Today(now) + 2 - cur
  {
    var od := OverrunDays(cal, act, now, cur, tasks);
    if Admits(now, cur) && tasks > 0 {
      AdmitsBound(now, cur);
      if cur <= Today(now) && Shown(cal, act, cur) {
        var next := tasks - DoneOn(act, cur) + AddedOn(act, cur);
        var rest := OverrunDays(cal, act, now, cur + 1, next);
        OverrunWhileRemaining(cal, act, now, cur + 1, next);
        assert od == [cur] + rest;
        forall j | 0 <= j < |od| ensures Remaining(act, tasks, od[..j]) > 0 {
          if j == 0 {
            assert od[..j] == [];
          } else {
            assert od[..j] == [cur] + rest[..j - 1];
            RemainingPrepend(act, tasks, cur, rest[..j - 1]);
            assert Remaining(act, next, rest[..j - 1]) > 0;
          }
        }
      } else {
        var rest := OverrunDays(cal, act, now, cur + 1, tasks);
        OverrunWhileRemaining(cal, act, now, cur + 1, tasks);
        assert od == rest;
        forall j | 0 <= j < |od| ensures Remaining(act, tasks, od[..j]) > 0 {
          assert Remaining(act, tasks, rest[..j]) > 0;
        }
      }
    }
  }

  /** If tasks still remain after the overrun, it drew every shown day from `cur` through today. */
  lemma {:induction false} OverrunReachesToday(cal: SprintCalendar, act: Activity, now: int, cur: int, tasks: int)
    requires Remaining(act, tasks, OverrunDays(cal, act, now, cur, tasks)) > 0
    ensures forall d :: cur <= d <= Today(now) && Shown(cal, act, d) ==> d in OverrunDays(cal, act, now, cur, tasks)
    decreases Today(now) + 2 - cur
  {
    AdmitsBound(now, cur);
    if Admits(now, cur) && tasks > 0 {
      if cur <= Today(now) && Shown(cal, act, cur) {
        var next := tasks - DoneOn(act, cur) + AddedOn(act, cur);
        RemainingPrepend(act, tasks, cur, OverrunDays(cal, act, now, cur + 1, next));
        OverrunReachesToday(cal, act, now, cur + 1, next);
      } else {
        OverrunReachesToday(cal, act, now, cur + 1, tasks);
      }
    }
  }

  // ----- The actual line -----

  /**
   * The line has the first point and one point per drawn day, in order.
   * Each point's value is the initial count, less the tasks finished and
   * plus the tasks added on the drawn days up to and including its own,
   * so it differs from the point before by that day's activity. The first
   * drawn point points back to the start day, each later one to the day
   * before it, and a drawn day is marked unplanned when the calendar
   * ignores it or it lies after the end day.
   */
  lemma ActualLineShape(cal: SprintCalendar, act: Activity, initTasks: int, now: int)
    ensures var days := ActualDays(cal, act, initTasks, now);
      var line := ActualLine(cal, act, initTasks, now);
      && |line| == |days| + 1
      && line[0] == FirstPoint(cal, initTasks)
      && (forall k :: 0 <= k < |line| ==> line[k].y == Remaining(act, initTasks, days[..k]))
      && (forall k :: 0 < k < |line| ==>
            && line[k].x == days[k - 1]
            && line[k].y == line[k - 1].y - DoneOn(act, line[k].x) + AddedOn(act, line[k].x)
            && line[k].notPlannedDay == Unplanned(cal, line[k].x))
      && (|line| > 1 ==> line[1].previousX == PreviousX(cal.start))
      && (forall k :: 1 < k < |line| ==> line[k].previousX == PreviousX(line[k - 1].x))
  {
    LineShape(cal, act, initTasks, ActualDays(cal, act, initTasks, now));
  }

  lemma LineShape(cal: SprintCalendar, act: Activity, initTasks: int, days: seq<int>)
    ensures var line := LineOf(cal, act, initTasks, days);
      && |line| == |days| + 1
      && line[0] == FirstPoint(cal, initTasks)
      && (forall k :: 0 <= k < |line| ==> line[k].y == Remaining(act, initTasks, days[..k]))
      && (forall k :: 0 < k < |line| ==>
            && line[k].x == days[k - 1]
            && line[k].y == line[k - 1].y - DoneOn(act, line[k].x) + AddedOn(act, line[k].x)
            && line[k].notPlannedDay == Unplanned(cal, line[k].x))
      && (|line| > 1 ==> line[1].previousX == PreviousX(cal.start))
      && (forall k :: 1 < k < |line| ==> line[k].previousX == PreviousX(line[k - 1].x))
  {
    var line := LineOf(cal, act, initTasks, days);
    LinePointAt(cal, act, initTasks, days, 0);
    forall k | 0 < k < |line|
      ensures line[k].y == Remaining(act, initTasks, days[..k])
      ensures line[k].x == days[k - 1] && line[k].notPlannedDay == Unplanned(cal, line[k].x)
      ensures line[k].y == line[k - 1].y - DoneOn(act, line[k].x) + AddedOn(act, line[k].x)
      ensures k == 1 ==> line[k].previousX == PreviousX(cal.start)
      ensures k > 1 ==> line[k].previousX == PreviousX(line[k - 1].x)
    {
      LinePointAt(cal, act, initTasks, days, k);
      LinePointAt(cal, act, initTasks, days, k - 1);
      assert days[..k][..k - 1] == days[..k - 1];
      assert days[..k][k - 1] == days[k - 1];
    }
  }

  /** The `k`-th point of the line drawn for `days`. */
  lemma LinePointAt(cal: SprintCalendar, act: Activity, initTasks: int, days: seq<int>, k: nat)
    requires k <= |days|
    ensures |LineOf(cal, act, initTasks, days)| == |days| + 1
    ensures LineOf(cal, act, initTasks, days)[k].y == Remaining(act, initTasks, days[..k])
    ensures k > 0 ==>
      LineOf(cal, act, initTasks, days)[k]
      == Point(days[k - 1], Remaining(act, initTasks, days[..k]),
               PreviousX(LastOr(cal.start, days[..k - 1])), Unplanned(cal, days[k - 1]))
  {
    ActualPointsAt(cal, act, initTasks, days);
    if k == 0 {
      assert days[..0] == [];
    }
  }

  /**
   * The drawn days increase strictly, lie between the start day and
   * today, and are all shown; within the sprint, up to today, a day is
   * drawn exactly when it is shown, so every day with finished or added
   * tasks is drawn.
   */
  lemma ActualDaysOrder(cal: SprintCalendar, act: Activity, initTasks: int, now: int)
    ensures var days := ActualDays(cal, act, initTasks, now);
      && Increasing(days)
      && (forall d :: d in days ==> cal.start <= d <= Today(now) && Shown(cal, act, d))
      && (forall d :: cal.start <= d <= cal.end && d <= Today(now) ==> (d in days <==> Shown(cal, act, d)))
  {
    var main := MainDays(cal, act, now);
    var left := Remaining(act, initTasks, main);
    var over := if left > 0 then OverrunDays(cal, act, now, AfterMain(cal), left) else [];
    var days := ActualDays(cal, act, initTasks, now);
    assert days == main + over;
    ShownDaysFacts(cal, act, cal.start, Min(cal.end, Today(now)) + 1);
    OverrunDaysFacts(cal, act, now, AfterMain(cal), left);
    assert forall d :: d in over ==> AfterMain(cal) <= d <= Today(now) && Shown(cal, act, d);
    forall i, j | 0 <= i < j < |days| ensures days[i] < days[j] {
      if j < |main| {
      } else if i >= |main| {
        assert days[i] == over[i - |main|] && days[j] == over[j - |main|];
      } else {
        assert days[i] == main[i] && main[i] in main;
        assert days[j] == over[j - |main|] && over[j - |main|] in over;
      }
    }
  }

  /** After the end day, a day is only drawn while tasks remain, and it is marked unplanned. */
  lemma OverrunWhileTasksRemain(cal: SprintCalendar, act: Activity, initTasks: int, now: int)
    ensures var days := ActualDays(cal, act, initTasks, now);
      var line := ActualLine(cal, act, initTasks, now);
      && |line| == |days| + 1
      && forall k :: 0 <= k < |days| && days[k] > cal.end ==> line[k].y > 0 && line[k + 1].notPlannedDay
  {
    var days := ActualDays(cal, act, initTasks, now);
    var line := LineOf(cal, act, initTasks, days);
    LinePointAt(cal, act, initTasks, days, 0);
    forall k | 0 <= k < |days| && days[k] > cal.end
      ensures line[k].y > 0 && line[k + 1].notPlannedDay
    {
      OverrunDayHasTasksLeft(cal, act, initTasks, now, k);
      LinePointAt(cal, act, initTasks, days, k);
      LinePointAt(cal, act, initTasks, days, k + 1);
    }
  }

  lemma OverrunDayHasTasksLeft(cal: SprintCalendar, act: Activity, initTasks: int, now: int, k: nat)
    requires k < |ActualDays(cal, act, initTasks, now)| && ActualDays(cal, act, initTasks, now)[k] > cal.end
    ensures Remaining(act, initTasks, ActualDays(cal, act, initTasks, now)[..k]) > 0
  {
    var main := MainDays(cal, act, now);
    var left := Remaining(act, initTasks, main);
    var days := ActualDays(cal, act, initTasks, now);
    MainDaysWithinSprint(cal, act, now);
    assert k >= |main|;
    var over := OverrunDays(cal, act, now, AfterMain(cal), left);
    assert left > 0 && days == main + over;
    var j := k - |main|;
    assert days[..k] == main + over[..j];
    RemainingAppend(act, initTasks, main, over[..j]);
    OverrunWhileRemaining(cal, act, now, AfterMain(cal), left);
  }

  /** The main walk draws no day past the sprint's end. */
  lemma MainDaysWithinSprint(cal: SprintCalendar, act: Activity, now: int)
    ensures forall i :: 0 <= i < |MainDays(cal, act, now)| ==> MainDays(cal, act, now)[i] <= cal.end
  {
    ShownDaysFacts(cal, act, cal.start, Min(cal.end, Today(now)) + 1);
  }

  /**
   * If tasks still remain at the last point, every shown day after the
   * main walk, through today, was drawn: the overrun stops only at today.
   */
  lemma OverrunThroughToday(cal: SprintCalendar, act: Activity, initTasks: int, now: int)
    requires Remaining(act, initTasks, ActualDays(cal, act, initTasks, now)) > 0
    ensures forall d :: AfterMain(cal) <= d <= Today(now) && Shown(cal, act, d) ==> d in ActualDays(cal, act, initTasks, now)
  {
    var main := MainDays(cal, act, now);
    var left := Remaining(act, initTasks, main);
    var over := OverrunDays(cal, act, now, AfterMain(cal), left);
    RemainingAppend(act, initTasks, main, over);
    OverrunReachesToday(cal, act, now, AfterMain(cal), left);
  }
}
