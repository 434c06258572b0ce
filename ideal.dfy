/**
 * `getIdealData`: the ideal burndown line, which starts at the sprint's
 * initial task count and loses the same amount on every planned day, and
 * the two statistics it records (`sprintDays`, `tasksPerDayIdeal`).
 */
module Ideal {
  import opened Wrappers
  import opened Records
  import opened Sprints
  import opened Calendar

  /** `days` after the first loop: `durationDays` less the exclude days of `[start, end)`. */
  function SprintDays(cal: SprintCalendar): int {
    PlannedDuration(cal.ignoreWeekends, cal.start, cal.end) - ExcludedCount(cal.excludeDays, cal.start, cal.end)
  }

  /**
   * `initTasks / (days - 1)`; `None` where the source divides by zero
   * (JavaScript then yields an infinite or NaN value).
   */
  function TasksPerDayIdeal(initTasks: nat, sprintDays: int): (r: Option<real>)
    ensures r.None? <==> sprintDays == 1
    ensures r.Some? ==> r.value * (sprintDays - 1) as real == initTasks as real
  {
    if sprintDays - 1 == 0 then None else Some(initTasks as real / (sprintDays - 1) as real)
  }

  /** The day of the final point: where the day walk stops, the end day or, for an empty range, the start. */
  function FinalDay(cal: SprintCalendar): int {
    if cal.start < cal.end then cal.end else cal.start
  }

  /** `initTasks` lowered `k` times by `step`. */
  function Lowered(initTasks: nat, step: real, k: nat): real {
    if k == 0 then initTasks as real else Lowered(initTasks, step, k - 1) - step
  }

  /** Lowering `k` times by `step` takes `k * step` off. */
  lemma {:induction false} LoweredIsLinear(initTasks: nat, step: real, k: nat)
    ensures Lowered(initTasks, step, k) == initTasks as real - k as real * step
  {
    if k > 0 {
      LoweredIsLinear(initTasks, step, k - 1);
      assert k as real * step == (k - 1) as real * step + step;
    }
  }

  /** The point the ideal line has on the `k`-th planned day of `days`. */
  function IdealPoint(cal: SprintCalendar, initTasks: nat, step: real, days: seq<int>, k: nat): Point<real>
    requires k < |days|
  {
    Point(days[k], Lowered(initTasks, step, k),
          PreviousX(if k == 0 then cal.start else days[k - 1]), false)
  }

  /** The ideal points of the planned days of `[start, hi)`, day by day. */
  function IdealPoints(cal: SprintCalendar, initTasks: nat, step: real, hi: int): seq<Point<real>>
    decreases hi - cal.start
  {
    if hi <= cal.start then []
    else
      var before := PlannedDays(cal, cal.start, hi - 1);
      IdealPoints(cal, initTasks, step, hi - 1)
      + if IsDateIgnored(cal, hi - 1) then []
        else [Point(hi - 1, Lowered(initTasks, step, |before|), PreviousX(LastOr(cal.start, before)), false)]
  }

  lemma {:induction false} IdealPointsLength(cal: SprintCalendar, initTasks: nat, step: real, hi: int)
    ensures |IdealPoints(cal, initTasks, step, hi)| == |PlannedDays(cal, cal.start, hi)|
    decreases hi - cal.start
  {
    if hi > cal.start {
      IdealPointsLength(cal, initTasks, step, hi - 1);
      IdealPointsStep(cal, initTasks, step, hi - 1);
    }
  }

  lemma {:induction false} IdealPointAt(cal: SprintCalendar, initTasks: nat, step: real, hi: int, k: nat)
    requires k < |PlannedDays(cal, cal.start, hi)|
    ensures |IdealPoints(cal, initTasks, step, hi)| == |PlannedDays(cal, cal.start, hi)|
    ensures IdealPoints(cal, initTasks, step, hi)[k] == IdealPoint(cal, initTasks, step, PlannedDays(cal, cal.start, hi), k)
    decreases hi - cal.start
  {
    assert hi > cal.start;
    IdealPointsLength(cal, initTasks, step, hi);
    IdealPointsLength(cal, initTasks, step, hi - 1);
    IdealPointsStep(cal, initTasks, step, hi - 1);
    var before := PlannedDays(cal, cal.start, hi - 1);
    var prev := IdealPoints(cal, initTasks, step, hi - 1);
    if IsDateIgnored(cal, hi - 1) {
      IdealPointAt(cal, initTasks, step, hi - 1, k);
    } else if k < |before| {
      IdealPointAt(cal, initTasks, step, hi - 1, k);
      assert IdealPoints(cal, initTasks, step, hi)[k] == prev[k];
      IdealPointExtend(cal, initTasks, step, before, hi - 1, k);
    } else {
      var days := before + [hi - 1];
      assert k == |before| && days[k] == hi - 1;
      assert k > 0 ==> days[k - 1] == LastOr(cal.start, before);
    }
  }

  /** The `k`-th ideal point lies on the `k`-th planned day and is `k` steps below `initTasks`. */
  lemma IdealPointsAt(cal: SprintCalendar, initTasks: nat, step: real, hi: int)
    ensures |IdealPoints(cal, initTasks, step, hi)| == |PlannedDays(cal, cal.start, hi)|
    ensures forall k :: 0 <= k < |PlannedDays(cal, cal.start, hi)| ==>
      IdealPoints(cal, initTasks, step, hi)[k] == IdealPoint(cal, initTasks, step, PlannedDays(cal, cal.start, hi), k)
  {
    IdealPointsLength(cal, initTasks, step, hi);
    forall k | 0 <= k < |PlannedDays(cal, cal.start, hi)|
      ensures IdealPoints(cal, initTasks, step, hi)[k] == IdealPoint(cal, initTasks, step, PlannedDays(cal, cal.start, hi), k)
    {
      IdealPointAt(cal, initTasks, step, hi, k);
    }
  }

  /** Appending a day leaves the earlier ideal points as they were. */
  lemma IdealPointExtend(cal: SprintCalendar, initTasks: nat, step: real, days: seq<int>, d: int, k: nat)
    requires k < |days|
    ensures IdealPoint(cal, initTasks, step, days + [d], k) == IdealPoint(cal, initTasks, step, days, k)
  {
    assert (days + [d])[k] == days[k];
    if k > 0 {
      assert (days + [d])[k - 1] == days[k - 1];
    }
  }

  /**
   * The ideal line: one point per planned day of `[start, end)`, falling by
   * `step` from `initTasks`, then a final point at 0 on the day the walk
   * stopped.
   */
  function IdealLine(cal: SprintCalendar, initTasks: nat, step: real): seq<Point<real>> {
    var days := PlannedDays(cal, cal.start, cal.end);
    IdealPoints(cal, initTasks, step, cal.end)
      + [Point(FinalDay(cal), 0.0, PreviousX(LastOr(cal.start, days)), false)]
  }

  /**
   * The first loop of `getIdealData`: `durationDays`, less one for every
   * day of `[start, end)` that is an exclude day.
   */
  method CountSprintDays(sprint: Sprint, excludeDays: seq<ExcludeDay>) returns (days: int)
    requires sprint.HasDates()
    ensures days == SprintDays(CalendarOf(sprint, excludeDays))
  {
    var cal := CalendarOf(sprint, excludeDays);
    var startTime, endTime := cal.start, cal.end;
    days := DurationDays(sprint);
    var currentDate := startTime;
    while endTime - currentDate > 0
      invariant startTime <= currentDate && (currentDate <= endTime || currentDate == startTime)
      invariant days == PlannedDuration(cal.ignoreWeekends, startTime, endTime)
                        - ExcludedCount(excludeDays, startTime, currentDate)
      decreases endTime - currentDate
    {
      if FindExcludeDay(excludeDays, currentDate).Some? {
        days := days - 1;
      }
      currentDate := currentDate + 1;
    }
    assert ExcludedCount(excludeDays, startTime, currentDate) == ExcludedCount(excludeDays, startTime, endTime);
  }

  /**
   * The second loop of `getIdealData`: walks `[start, end)`, emits a point
   * for every day that is not ignored, lowering the value by `step` after
   * each, and ends with the zero point on the day the walk stopped.
   */
  method IdealWalk(cal: SprintCalendar, initTasks: nat, step: real) returns (output: seq<Point<real>>)
    ensures output == IdealLine(cal, initTasks, step)
  {
    var startTime, endTime := cal.start, cal.end;
    var tasks: real := initTasks as real;
    var previousDate := startTime;
    output := [];
    var currentDate := startTime;
    ghost var planned: seq<int> := [];
    while endTime - currentDate > 0
      invariant startTime <= currentDate && (currentDate <= endTime || currentDate == startTime)
      invariant planned == PlannedDays(cal, startTime, currentDate)
      invariant output == IdealPoints(cal, initTasks, step, currentDate)
      invariant tasks == Lowered(initTasks, step, |planned|)
      invariant previousDate == LastOr(startTime, planned)
      decreases endTime - currentDate
    {
      IdealPointsStep(cal, initTasks, step, currentDate);
      var ignore := IsDateIgnored(cal, currentDate);
      if !ignore {
        output := output + [Point(currentDate, tasks, PreviousX(previousDate), false)];
        previousDate := currentDate;
        tasks := tasks - step;
        planned := planned + [currentDate];
      }
      currentDate := currentDate + 1;
    }
    FinalPoint(cal, initTasks, step, currentDate);
    output := output + [Point(currentDate, 0.0, PreviousX(previousDate), false)];
  }

  /** One more day of the walk: the planned days and the points grow by that day when it is not ignored. */
  lemma IdealPointsStep(cal: SprintCalendar, initTasks: nat, step: real, hi: int)
    requires cal.start <= hi
    ensures var before := PlannedDays(cal, cal.start, hi);
      && PlannedDays(cal, cal.start, hi + 1) == before + (if IsDateIgnored(cal, hi) then [] else [hi])
      && IdealPoints(cal, initTasks, step, hi + 1) == IdealPoints(cal, initTasks, step, hi)
           + if IsDateIgnored(cal, hi) then []
             else [Point(hi, Lowered(initTasks, step, |before|), PreviousX(LastOr(cal.start, before)), false)]
  {
  }

  lemma FinalPoint(cal: SprintCalendar, initTasks: nat, step: real, stop: int)
    requires cal.start <= stop && (stop <= cal.end || stop == cal.start) && cal.end - stop <= 0
    ensures stop == FinalDay(cal)
    ensures PlannedDays(cal, cal.start, stop) == PlannedDays(cal, cal.start, cal.end)
    ensures IdealPoints(cal, initTasks, step, stop) == IdealPoints(cal, initTasks, step, cal.end)
  {
    if stop != cal.end {
      assert PlannedDays(cal, cal.start, cal.end) == [];
      assert PlannedDays(cal, cal.start, stop) == [];
    }
  }

  /** `getIdealData`: the ideal line together with `sprintDays` and `tasksPerDayIdeal`. */
  method GetIdealData(sprint: Sprint, excludeDays: seq<ExcludeDay>, initTasks: nat)
    returns (output: seq<Point<real>>, sprintDays: int, tasksPerDayIdeal: Option<real>)
    requires sprint.HasDates()
    ensures var cal := CalendarOf(sprint, excludeDays);
      && sprintDays == SprintDays(cal)
      && tasksPerDayIdeal == TasksPerDayIdeal(initTasks, sprintDays)
      && output == IdealLine(cal, initTasks, tasksPerDayIdeal.GetOr(0.0))
  {
    sprintDays := CountSprintDays(sprint, excludeDays);
    tasksPerDayIdeal := TasksPerDayIdeal(initTasks, sprintDays);
    output := IdealWalk(CalendarOf(sprint, excludeDays), initTasks, tasksPerDayIdeal.GetOr(0.0));
  }

  /** The ideal line point by point: the planned-day points, then the final point. */
  lemma IdealLineAt(cal: SprintCalendar, initTasks: nat, step: real)
    ensures var days := PlannedDays(cal, cal.start, cal.end);
      var line := IdealLine(cal, initTasks, step);
      && |line| == |days| + 1
      && line[..|days|] == IdealPoints(cal, initTasks, step, cal.end)
      && line[|days|] == Point(FinalDay(cal), 0.0, PreviousX(LastOr(cal.start, days)), false)
      && (forall k :: 0 <= k < |days| ==> line[k] == IdealPoint(cal, initTasks, step, days, k))
  {
    IdealPointsAt(cal, initTasks, step, cal.end);
    var days := PlannedDays(cal, cal.start, cal.end);
    var line := IdealLine(cal, initTasks, step);
    assert line[..|days|] == IdealPoints(cal, initTasks, step, cal.end);
  }

  /** The x values of the ideal line before its final point are exactly the planned days of `[start, end)`. */
  lemma IdealLineDays(cal: SprintCalendar, initTasks: nat, step: real)
    ensures var days := PlannedDays(cal, cal.start, cal.end);
      var line := IdealLine(cal, initTasks, step);
      && |line| == |days| + 1
      && Xs(line[..|days|]) == days
      && (forall d :: d in Xs(line[..|days|]) <==> cal.start <= d < cal.end && !IsDateIgnored(cal, d))
  {
    IdealLineAt(cal, initTasks, step);
    var days := PlannedDays(cal, cal.start, cal.end);
    var line := IdealLine(cal, initTasks, step);
    assert Xs(line[..|days|]) == days;
    forall d ensures d in days <==> cal.start <= d < cal.end && !IsDateIgnored(cal, d) {
      PlannedDaysMembership(cal, cal.start, cal.end, d);
    }
  }

  /** Each point of the ideal line points back to the one before it, and the days strictly increase. */
  lemma IdealLineChain(cal: SprintCalendar, initTasks: nat, step: real)
    ensures var line := IdealLine(cal, initTasks, step);
      && (forall k :: 0 < k < |line| ==> line[k].previousX == PreviousX(line[k - 1].x))
      && Increasing(Xs(line))
  {
    IdealLineAt(cal, initTasks, step);
    PlannedDaysIncreasing(cal, cal.start, cal.end);
    var days := PlannedDays(cal, cal.start, cal.end);
    var line := IdealLine(cal, initTasks, step);
    assert Xs(line) == days + [FinalDay(cal)];
    forall k | 0 < k < |line|
      ensures line[k].previousX == PreviousX(line[k - 1].x)
    {
      assert line[k - 1].x == days[k - 1];
      if k < |days| {
        assert line[k] == IdealPoint(cal, initTasks, step, days, k);
      }
    }
    if |days| > 0 {
      assert FinalDay(cal) == cal.end;
      IncreasingSnoc(days, cal.end);
    }
  }

  lemma IncreasingSnoc(days: seq<int>, x: int)
    requires Increasing(days)
    requires forall i :: 0 <= i < |days| ==> days[i] < x
    ensures Increasing(days + [x])
  {
  }

  /**
   * The ideal line has one point per planned day of `[start, end)` (a day
   * that is neither an ignored weekend day nor an exclude day), in
   * strictly increasing day order, the `k`-th one `k` steps below
   * `initTasks`, each pointing back to the day before it (the start day
   * for the first), and a final point at 0 on the end day, or the start
   * day for an empty range. No point is marked as unplanned.
   */
  lemma IdealLineShape(cal: SprintCalendar, initTasks: nat, step: real)
    ensures var days := PlannedDays(cal, cal.start, cal.end);
      var line := IdealLine(cal, initTasks, step);
      && |line| == |days| + 1
      && line[|days|] == Point(FinalDay(cal), 0.0, PreviousX(LastOr(cal.start, days)), false)
      && (forall k :: 0 <= k < |days| ==>
            line[k].x == days[k] && line[k].y == initTasks as real - k as real * step && !line[k].notPlannedDay)
      && (forall d :: d in Xs(line[..|days|]) <==> cal.start <= d < cal.end && !IsDateIgnored(cal, d))
      && (|days| > 0 ==> line[0].previousX == PreviousX(cal.start) && line[0].y == initTasks as real)
      && (forall k :: 0 < k < |line| ==> line[k].previousX == PreviousX(line[k - 1].x))
      && Increasing(Xs(line))
  {
    var days := PlannedDays(cal, cal.start, cal.end);
    var line := IdealLine(cal, initTasks, step);
    IdealLineAt(cal, initTasks, step);
    IdealLineDays(cal, initTasks, step);
    IdealLineChain(cal, initTasks, step);
    forall k | 0 <= k < |days|
      ensures line[k].x == days[k] && line[k].y == initTasks as real - k as real * step && !line[k].notPlannedDay
    {
      assert line[k] == IdealPoint(cal, initTasks, step, days, k);
      LoweredIsLinear(initTasks, step, k);
    }
  }

  /**
   * When the end day is itself a planned working day and no exclude day
   * falls on an ignored weekend, `sprintDays - 1` is the number of planned
   * days before the end, so the line, lowered once more after its last
   * planned day, lands exactly on the final point's 0.
   */
  lemma IdealReachesZero(cal: SprintCalendar, initTasks: nat)
    requires cal.start <= cal.end
    requires cal.ignoreWeekends ==> !IsWeekend(cal.end) && NoWeekendExcludeDays(cal, cal.start, cal.end)
    requires SprintDays(cal) != 1
    ensures SprintDays(cal) - 1 == |PlannedDays(cal, cal.start, cal.end)|
    ensures var step := TasksPerDayIdeal(initTasks, SprintDays(cal)).value;
      Lowered(initTasks, step, |PlannedDays(cal, cal.start, cal.end)|) == 0.0
  {
    SprintDaysCountsPlannedDays(cal);
    StepsToZero(initTasks, SprintDays(cal), |PlannedDays(cal, cal.start, cal.end)|);
  }

  /** `sprintDays - 1` steps of `tasksPerDayIdeal` take `initTasks` to 0. */
  lemma StepsToZero(initTasks: nat, sprintDays: int, n: nat)
    requires sprintDays != 1 && sprintDays - 1 == n
    ensures Lowered(initTasks, TasksPerDayIdeal(initTasks, sprintDays).value, n) == 0.0
  {
    var step := TasksPerDayIdeal(initTasks, sprintDays).value;
    assert step * n as real == initTasks as real;
    LoweredIsLinear(initTasks, step, n);
  }

  lemma SprintDaysCountsPlannedDays(cal: SprintCalendar)
    requires cal.start <= cal.end
    requires cal.ignoreWeekends ==> !IsWeekend(cal.end) && NoWeekendExcludeDays(cal, cal.start, cal.end)
    ensures SprintDays(cal) - 1 == |PlannedDays(cal, cal.start, cal.end)|
  {
    PlannedDaysCount(cal, cal.start, cal.end);
    if cal.ignoreWeekends {
      assert WorkdayCount(cal.start, cal.end) == WorkdayCount(cal.start, cal.end - 1) + 1;
    }
  }
}
