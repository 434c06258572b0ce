/**
 * The burndown calendar of the sprint controller: which days are ignored
 * (weekends when the sprint skips them, and the sprint's exclude days), the
 * planned days of a range, and how many exclude days a range holds.
 */
module Calendar {
  import opened Wrappers
  import opened Records
  import opened Sprints

  /** A sprint's resolved calendar: start and end day, the weekend rule and its exclude days. */
  datatype SprintCalendar = SprintCalendar(
    start: int,
    end: int,
    ignoreWeekends: bool,
    excludeDays: seq<ExcludeDay>)

  /** The calendar of a sprint whose dates are set. */
  function CalendarOf(sprint: Sprint, excludeDays: seq<ExcludeDay>): (cal: SprintCalendar)
    requires sprint.HasDates()
    ensures cal.start == sprint.DateStartObject().value && cal.end == sprint.DateEndObject().value
  {
    SprintCalendar(sprint.DateStartObject().value, sprint.DateEndObject().value,
                   sprint.ignoreWeekends, excludeDays)
  }

  /** lodash's `_.find` over the exclude days: the index of the first one on day `d`. */
  function FindExcludeDay(excludeDays: seq<ExcludeDay>, d: int): Option<nat> {
    if |excludeDays| == 0 then None
    else if excludeDays[0].day == d then Some(0)
    else match FindExcludeDay(excludeDays[1..], d)
      case None => None
      case Some(k) => Some(k + 1)
  }

  /** `_.find` yields the first exclude day on `d`, and nothing exactly when no exclude day is on `d`. */
  lemma {:induction false} FindExcludeDayFacts(excludeDays: seq<ExcludeDay>, d: int)
    ensures var r := FindExcludeDay(excludeDays, d);
      && (r.Some? ==> r.value < |excludeDays| && excludeDays[r.value].day == d)
      && (r.Some? ==> forall j :: 0 <= j < r.value ==> excludeDays[j].day != d)
      && (r.None? <==> forall j :: 0 <= j < |excludeDays| ==> excludeDays[j].day != d)
  {
    if |excludeDays| > 0 && excludeDays[0].day != d {
      FindExcludeDayFacts(excludeDays[1..], d);
      assert forall j :: 0 < j < |excludeDays| ==> excludeDays[j] == excludeDays[1..][j - 1];
    }
  }

  /** `d` is one of the sprint's exclude days. */
  predicate IsExcludeDay(excludeDays: seq<ExcludeDay>, d: int) {
    FindExcludeDay(excludeDays, d).Some?
  }

  /** `isDateIgnored`: a weekend day of a sprint that ignores weekends, or an exclude day. */
  function IsDateIgnored(cal: SprintCalendar, d: int): bool {
    var weekendIgnored := if cal.ignoreWeekends then
      var weekDay := IsoWeekday(d); weekDay == 6 || weekDay == 7
    else false;
    weekendIgnored || IsExcludeDay(cal.excludeDays, d)
  }

  /** A day is ignored exactly when it is a weekend day of a sprint that ignores weekends, or an exclude day. */
  lemma IsDateIgnoredIff(cal: SprintCalendar, d: int)
    ensures IsDateIgnored(cal, d) <==> (cal.ignoreWeekends && IsWeekend(d))
                                       || (exists e :: e in cal.excludeDays && e.day == d)
  {
    FindExcludeDayFacts(cal.excludeDays, d);
    if IsExcludeDay(cal.excludeDays, d) {
      assert cal.excludeDays[FindExcludeDay(cal.excludeDays, d).value] in cal.excludeDays;
    }
  }

  /** Number of days in `[lo, hi)` that are exclude days (a day listed twice counts once). */
  function ExcludedCount(excludeDays: seq<ExcludeDay>, lo: int, hi: int): nat
    decreases hi - lo
  {
    if hi <= lo then 0
    else ExcludedCount(excludeDays, lo, hi - 1) + (if IsExcludeDay(excludeDays, hi - 1) then 1 else 0)
  }

  /** The planned (not ignored) days of `[lo, hi)`, in calendar order. */
  function PlannedDays(cal: SprintCalendar, lo: int, hi: int): seq<int>
    decreases hi - lo
  {
    if hi <= lo then []
    else PlannedDays(cal, lo, hi - 1) + (if IsDateIgnored(cal, hi - 1) then [] else [hi - 1])
  }

  /**
   * A point of a burndown line: its day (`Date.UTC` of the day, as a day
   * number), its value, the day of the point before it, and whether the
   * day lies outside the sprint's plan.
   */
  datatype Point<Y> = Point(x: int, y: Y, previousX: Option<int>, notPlannedDay: bool)

  /** `previousDate ? previousDate : null`: the epoch day is `Date.UTC` 0, which is falsy. */
  function PreviousX(day: int): (r: Option<int>)
    ensures r.None? <==> day == 0
    ensures r.Some? ==> r.value == day
  {
    if day == 0 then None else Some(day)
  }

  /** The days of a line's points. */
  function Xs<Y>(points: seq<Point<Y>>): seq<int> {
    seq(|points|, i requires 0 <= i < |points| => points[i].x)
  }

  /** The last element of `days`, or `first` when there is none. */
  function LastOr(first: int, days: seq<int>): int {
    if |days| == 0 then first else days[|days| - 1]
  }

  /** Strictly increasing day numbers. */
  predicate Increasing(days: seq<int>) {
    forall i, j :: 0 <= i < j < |days| ==> days[i] < days[j]
  }

  lemma IncreasingCons(d: int, days: seq<int>)
    requires Increasing(days)
    requires forall e :: e in days ==> d < e
    ensures Increasing([d] + days)
  {
    var s := [d] + days;
    forall i, j | 0 <= i < j < |s| ensures s[i] < s[j] {
      assert s[j] == days[j - 1] && days[j - 1] in days;
    }
  }

  /** A day is planned in `[lo, hi)` exactly when it lies in the range and is not ignored. */
  lemma {:induction false} PlannedDaysMembership(cal: SprintCalendar, lo: int, hi: int, d: int)
    ensures d in PlannedDays(cal, lo, hi) <==> lo <= d < hi && !IsDateIgnored(cal, d)
    decreases hi - lo
  {
    if hi > lo {
      PlannedDaysMembership(cal, lo, hi - 1, d);
    }
  }

  /** The planned days are listed in strictly increasing order and lie in `[lo, hi)`. */
  lemma {:induction false} PlannedDaysIncreasing(cal: SprintCalendar, lo: int, hi: int)
    ensures Increasing(PlannedDays(cal, lo, hi))
    ensures forall i :: 0 <= i < |PlannedDays(cal, lo, hi)| ==> lo <= PlannedDays(cal, lo, hi)[i] < hi
    decreases hi - lo
  {
    if hi > lo {
      PlannedDaysIncreasing(cal, lo, hi - 1);
    }
  }

  /** No exclude day of `[lo, hi)` falls on a weekend. */
  predicate NoWeekendExcludeDays(cal: SprintCalendar, lo: int, hi: int) {
    forall d :: lo <= d < hi && IsExcludeDay(cal.excludeDays, d) ==> !IsWeekend(d)
  }

  /**
   * How many planned days `[lo, hi)` holds: the days of the range minus
   * its exclude days, and, when weekends are ignored (and no exclude day
   * is a weekend day), its weekdays minus its exclude days.
   */
  lemma {:induction false} PlannedDaysCount(cal: SprintCalendar, lo: int, hi: int)
    requires lo <= hi
    requires cal.ignoreWeekends ==> NoWeekendExcludeDays(cal, lo, hi)
    ensures |PlannedDays(cal, lo, hi)|
         == PlannedDuration(cal.ignoreWeekends, lo, hi - 1) - ExcludedCount(cal.excludeDays, lo, hi)
    decreases hi - lo
  {
    if hi > lo {
      PlannedDaysCount(cal, lo, hi - 1);
    } else {
      assert WorkdayCount(lo, hi - 1) == 0;
    }
  }
}
