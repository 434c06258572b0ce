/**
 * The sprint record and its calendar rules (the Sprint model): the
 * sentinel-guarded date accessors and the sprint's duration in days.
 *
 * Dates are day numbers: day 0 is 1970-01-01, a Thursday.
 */
module Sprints {
  import opened Wrappers
  import opened Records

  /** moment's `isoWeekday()`: Monday is 1, ..., Sunday is 7. */
  function IsoWeekday(d: int): (w: int)
    ensures 1 <= w <= 7
  {
    (d + 3) % 7 + 1
  }

  /** ISO weekday 6 or 7. */
  predicate IsWeekend(d: int) {
    IsoWeekday(d) == 6 || IsoWeekday(d) == 7
  }

  datatype Sprint = Sprint(
    id: int,
    projectId: int,
    title: string,
    dateStart: Stamp,
    dateEnd: Stamp,
    ignoreWeekends: bool)
  {
    /** The start day, or `None` (JavaScript `null`) when unset or the zero date. */
    function DateStartObject(): (r: Option<int>)
      ensures r.Some? <==> IsSet(dateStart, ZeroDate)
      ensures r.Some? ==> r.value == dateStart.value
    {
      if dateStart.Stored? && dateStart.text != "" && dateStart.text != ZeroDate
      then Some(dateStart.value) else None
    }

    /** The end day, or `None` (JavaScript `null`) when unset or the zero date. */
    function DateEndObject(): (r: Option<int>)
      ensures r.Some? <==> IsSet(dateEnd, ZeroDate)
      ensures r.Some? ==> r.value == dateEnd.value
    {
      if dateEnd.Stored? && dateEnd.text != "" && dateEnd.text != ZeroDate
      then Some(dateEnd.value) else None
    }

    /** Both dates are usable, as every calendar computation on the sprint needs. */
    predicate HasDates() {
      DateStartObject().Some? && DateEndObject().Some?
    }
  }

  /** Number of days in `[lo, hi]` that are not Saturday or Sunday. */
  function WorkdayCount(lo: int, hi: int): nat
    decreases hi - lo + 1
  {
    if hi < lo then 0
    else WorkdayCount(lo, hi - 1) + (if IsWeekend(hi) then 0 else 1)
  }

  /** The weekdays in `[lo, hi]`, as a set: the reference definition of WorkdayCount. */
  ghost function WorkdaySet(lo: int, hi: int): set<int> {
    set d | lo <= d <= hi && !IsWeekend(d)
  }

  /**
   * What `durationDays` returns for the given calendar: the inclusive day
   * count, or, when weekends are ignored, the number of weekdays in the range.
   */
  function PlannedDuration(ignoreWeekends: bool, start: int, end: int): int {
    if ignoreWeekends then WorkdayCount(start, end) else end - start + 1
  }

  /**
   * `durationDays`: walks a copy of the start date up to the end date and
   * counts the days that are not ISO weekday 6 or 7; without weekend
   * exclusion it is the inclusive difference. Exclude days play no part:
   * the sprint record does not reference them.
   */
  method DurationDays(sprint: Sprint) returns (output: int)
    requires sprint.HasDates()
    ensures output == PlannedDuration(sprint.ignoreWeekends,
                                      sprint.DateStartObject().value, sprint.DateEndObject().value)
    ensures sprint.ignoreWeekends ==> output >= 0
  {
    output := 0;
    var start := sprint.DateStartObject().value;
    var end := sprint.DateEndObject().value;
    if sprint.ignoreWeekends {
      var current := start;
      while end - current >= 0
        invariant start <= current
        invariant current <= end + 1 || current == start
        invariant output == WorkdayCount(start, current - 1)
        decreases end - current
      {
        var weekDay := IsoWeekday(current);
        if weekDay != 6 && weekDay != 7 {
          output := output + 1;
        }
        current := current + 1;
      }
    } else {
      output := end - start + 1;
    }
  }

  /** WorkdayCount counts exactly the members of WorkdaySet. */
  lemma {:induction false} WorkdayCountIsCardinality(lo: int, hi: int)
    ensures WorkdayCount(lo, hi) == |WorkdaySet(lo, hi)|
    decreases hi - lo + 1
  {
    if hi < lo {
      assert WorkdaySet(lo, hi) == {};
    } else {
      WorkdayCountIsCardinality(lo, hi - 1);
      if IsWeekend(hi) {
        assert WorkdaySet(lo, hi) == WorkdaySet(lo, hi - 1);
      } else {
        assert WorkdaySet(lo, hi) == WorkdaySet(lo, hi - 1) + {hi};
        assert hi !in WorkdaySet(lo, hi - 1);
      }
    }
  }

  /** Skipping weekends never yields more days than the inclusive day count. */
  lemma {:induction false} WorkdayCountAtMostDays(lo: int, hi: int)
    ensures WorkdayCount(lo, hi) <= if hi < lo then 0 else hi - lo + 1
    decreases hi - lo + 1
  {
    if hi >= lo {
      WorkdayCountAtMostDays(lo, hi - 1);
    }
  }

  /** Skipping weekends gives a non-negative duration no longer than the plain inclusive day count. */
  lemma DurationWithWeekendsAtMostPlain(start: int, end: int)
    requires start <= end + 1
    ensures 0 <= PlannedDuration(true, start, end) <= PlannedDuration(false, start, end)
  {
    WorkdayCountAtMostDays(start, end);
  }

  /** The weekday `k` days after `d`. */
  lemma WeekdayAhead(d: int, k: nat)
    ensures IsoWeekday(d + k) == (IsoWeekday(d) - 1 + k) % 7 + 1
  {
    var q, r := (d + 3) / 7, (d + 3) % 7;
    assert d + 3 + k == 7 * q + (r + k);
    assert (d + 3 + k) % 7 == (r + k) % 7;
  }

  /** Any seven consecutive days hold exactly five weekdays. */
  lemma FullWeekHasFiveWorkdays(d: int)
    ensures WorkdayCount(d, d + 6) == 5
  {
    NextWeekday(d); NextWeekday(d + 1); NextWeekday(d + 2);
    NextWeekday(d + 3); NextWeekday(d + 4); NextWeekday(d + 5);
    assert WorkdayCount(d, d - 1) == 0;
    assert WorkdayCount(d, d) == WorkdayCount(d, d - 1) + (if IsWeekend(d) then 0 else 1);
    assert WorkdayCount(d, d + 1) == WorkdayCount(d, d) + (if IsWeekend(d + 1) then 0 else 1);
    assert WorkdayCount(d, d + 2) == WorkdayCount(d, d + 1) + (if IsWeekend(d + 2) then 0 else 1);
    assert WorkdayCount(d, d + 3) == WorkdayCount(d, d + 2) + (if IsWeekend(d + 3) then 0 else 1);
    assert WorkdayCount(d, d + 4) == WorkdayCount(d, d + 3) + (if IsWeekend(d + 4) then 0 else 1);
    assert WorkdayCount(d, d + 5) == WorkdayCount(d, d + 4) + (if IsWeekend(d + 5) then 0 else 1);
  }

  /** The ISO weekday after Sunday is Monday; after any other day, the next number. */
  lemma NextWeekday(d: int)
    ensures IsoWeekday(d + 1) == if IsoWeekday(d) == 7 then 1 else IsoWeekday(d) + 1
  {
    WeekdayAhead(d, 1);
  }

  /** A sprint from a Monday to the following Friday lasts five days when weekends are ignored. */
  lemma MondayToFridayIsFive(start: int)
    requires IsoWeekday(start) == 1
    ensures PlannedDuration(true, start, start + 4) == 5
  {
    WeekdayAhead(start, 1); WeekdayAhead(start, 2); WeekdayAhead(start, 3); WeekdayAhead(start, 4);
    assert WorkdayCount(start, start - 1) == 0;
    assert WorkdayCount(start, start) == 1;
    assert WorkdayCount(start, start + 1) == 2;
    assert WorkdayCount(start, start + 2) == 3;
    assert WorkdayCount(start, start + 3) == 4;
  }
}
