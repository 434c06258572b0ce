/**
 * `getDoneData` and `getAddedData`: the column series of the burndown
 * chart, one column per day on which tasks were finished (or added to a
 * started story), holding the number of those tasks. The groups are keyed
 * by a date string, which JavaScript lists in insertion order.
 */
module Columns {
  import opened Records
  import opened Calendar
  import opened Grouping

  /** `[Date.UTC(day), count]`, with the day as a day number. */
  datatype Column = Column(x: int, count: nat)

  /** The day each done task was finished on. */
  function DoneDays(tasksDone: seq<Task>): (days: seq<int>)
    ensures |days| == |tasksDone|
    ensures forall i :: 0 <= i < |tasksDone| ==> days[i] == DayOf(tasksDone[i].timeEnd)
  {
    seq(|tasksDone|, i requires 0 <= i < |tasksDone| => DayOf(tasksDone[i].timeEnd))
  }

  /** The day each late task was created on. */
  function AddedDays(tasksOver: seq<Task>): (days: seq<int>)
    ensures |days| == |tasksOver|
    ensures forall i :: 0 <= i < |tasksOver| ==> days[i] == DayOf(tasksOver[i].createdAt)
  {
    seq(|tasksOver|, i requires 0 <= i < |tasksOver| => DayOf(tasksOver[i].createdAt))
  }

  /** One column per group: its day and its size. */
  function ColumnsOf(groups: seq<Group<int>>): seq<Column> {
    seq(|groups|, i requires 0 <= i < |groups| => Column(groups[i].key, groups[i].count))
  }

  /** Groups the days and pushes one column per group, in group order. */
  method GetColumnData(days: seq<int>) returns (output: seq<Column>)
    ensures output == ColumnsOf(GroupBy(days))
  {
    var groups := GroupBy(days);
    output := [];
    for i := 0 to |groups|
      invariant output == ColumnsOf(groups[..i])
    {
      output := output + [Column(groups[i].key, groups[i].count)];
    }
    assert groups[..|groups|] == groups;
  }

  /** `getDoneData`: the done tasks per day they were finished on. */
  method GetDoneData(tasksDone: seq<Task>) returns (output: seq<Column>)
    ensures output == ColumnsOf(GroupBy(DoneDays(tasksDone)))
  {
    output := GetColumnData(DoneDays(tasksDone));
  }

  /** `getAddedData`: the late tasks per day they were created on. */
  method GetAddedData(tasksOver: seq<Task>) returns (output: seq<Column>)
    ensures output == ColumnsOf(GroupBy(AddedDays(tasksOver)))
  {
    output := GetColumnData(AddedDays(tasksOver));
  }

  function ColumnDays(columns: seq<Column>): seq<int> {
    seq(|columns|, i requires 0 <= i < |columns| => columns[i].x)
  }

  function ColumnTotal(columns: seq<Column>): nat {
    if |columns| == 0 then 0 else columns[0].count + ColumnTotal(columns[1..])
  }

  lemma {:induction false} ColumnTotalIsSum(groups: seq<Group<int>>)
    ensures ColumnTotal(ColumnsOf(groups)) == SumCounts(groups)
  {
    if |groups| > 0 {
      ColumnTotalIsSum(groups[1..]);
      assert ColumnsOf(groups)[1..] == ColumnsOf(groups[1..]);
    }
  }

  /**
   * There is one column per distinct day, in first-occurrence order; each
   * holds the number of entries on its day, none is empty, and together
   * they hold every entry.
   */
  lemma ColumnsFacts(days: seq<int>)
    ensures var c := ColumnsOf(GroupBy(days));
      && (forall d :: d in ColumnDays(c) <==> d in days)
      && (forall i, j :: 0 <= i < j < |c| ==> c[i].x != c[j].x)
      && (forall i :: 0 <= i < |c| ==> c[i].count == Occurrences(days, c[i].x) > 0)
      && ColumnTotal(c) == |days|
  {
    var groups := GroupBy(days);
    var c := ColumnsOf(groups);
    GroupByCounts(days);
    ColumnTotalIsSum(groups);
    assert ColumnDays(c) == Keys(groups);
    forall i | 0 <= i < |c| ensures c[i].count == Occurrences(days, c[i].x) {
      LookupOfGroup(groups, i);
    }
  }

  /** When the days come in non-decreasing order, so do the columns, strictly. */
  lemma ColumnsAscending(days: seq<int>)
    requires forall i, j :: 0 <= i < j < |days| ==> days[i] <= days[j]
    ensures Increasing(ColumnDays(ColumnsOf(GroupBy(days))))
  {
    GroupByIncreasing(days);
    assert ColumnDays(ColumnsOf(GroupBy(days))) == Keys(GroupBy(days));
  }

  /** Tasks in order of their timestamps fall on non-decreasing days. */
  lemma DaysOfSortedTasks(tasks: seq<Task>, byEnd: bool)
    requires forall i, j :: 0 <= i < j < |tasks| ==>
      if byEnd then tasks[i].timeEnd <= tasks[j].timeEnd else tasks[i].createdAt <= tasks[j].createdAt
    ensures byEnd ==> forall i, j :: 0 <= i < j < |tasks| ==> DoneDays(tasks)[i] <= DoneDays(tasks)[j]
    ensures !byEnd ==> forall i, j :: 0 <= i < j < |tasks| ==> AddedDays(tasks)[i] <= AddedDays(tasks)[j]
  {
    forall i, j | 0 <= i < j < |tasks|
      ensures byEnd ==> DoneDays(tasks)[i] <= DoneDays(tasks)[j]
      ensures !byEnd ==> AddedDays(tasks)[i] <= AddedDays(tasks)[j]
    {
      if byEnd {
        DayOfMonotone(tasks[i].timeEnd, tasks[j].timeEnd);
      } else {
        DayOfMonotone(tasks[i].createdAt, tasks[j].createdAt);
      }
    }
  }

}
