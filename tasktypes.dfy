/**
 * `chartDataTaskTypes`: one pie-chart slice per task type in use, with
 * the share of the sprint's tasks it holds. lodash groups the tasks into
 * an object keyed by type id, and JavaScript lists integer-like keys in
 * ascending order, so the slices come in ascending type-id order. Type
 * ids are non-negative database ids; a negative id would be an ordinary
 * string key, listed in insertion order.
 */
module TaskTypes {
  import opened Wrappers
  import opened Records
  import opened Calendar
  import opened Grouping
  import opened Phases

  /** A slice of the task-type pie chart (`name`, `y`, `count`). */
  datatype TypeSlice = TypeSlice(name: string, y: real, count: nat)

  function TypeIds(tasks: seq<Task>): (ids: seq<int>)
    ensures |ids| == |tasks|
    ensures forall i :: 0 <= i < |tasks| ==> ids[i] == tasks[i].typeId
  {
    seq(|tasks|, i requires 0 <= i < |tasks| => tasks[i].typeId)
  }

  function Identity(x: int): int { x }

  /** The groups of `_.groupBy(tasks, typeId)` in the order the object lists them. */
  function TypeGroups(tasks: seq<Task>): seq<Group<int>> {
    GroupBy(SortBy(TypeIds(tasks), Identity))
  }

  /** `_.find(data.types, type.id == typeId)`. */
  function FindType(types: seq<TaskType>, id: int): Option<TaskType> {
    if |types| == 0 then None
    else if types[0].id == id then Some(types[0])
    else FindType(types[1..], id)
  }

  /** `_.find` yields a type with the id when there is one, and no result only when there is none. */
  lemma {:induction false} FindTypeFacts(types: seq<TaskType>, id: int)
    ensures FindType(types, id).Some? ==> FindType(types, id).value in types && FindType(types, id).value.id == id
    ensures FindType(types, id).None? <==> forall t :: t in types ==> t.id != id
  {
    if |types| > 0 && types[0].id != id {
      FindTypeFacts(types[1..], id);
      assert forall t :: t in types ==> t == types[0] || t in types[1..];
    }
  }

  /**
   * The slices for the groups in order, or `None` when a group's type is
   * not among the task types (the source then reads `title` of `undefined`).
   */
  function SlicesOf(groups: seq<Group<int>>, types: seq<TaskType>, taskCount: nat): Option<seq<TypeSlice>>
    requires |groups| > 0 ==> taskCount > 0
  {
    if |groups| == 0 then Some([])
    else
      var g := groups[|groups| - 1];
      match SlicesOf(groups[..|groups| - 1], types, taskCount)
      case None => None
      case Some(front) =>
        match FindType(types, g.key)
        case None => None
        case Some(t) =>
          Some(front + if g.count > 0 then [TypeSlice(t.title, Percentage(g.count, taskCount), g.count)] else [])
  }

  /** `chartDataTaskTypes` of the sprint's tasks, or `None` when a type is missing. */
  function TypeSlices(tasks: seq<Task>, types: seq<TaskType>): Option<seq<TypeSlice>> {
    TypeGroupsFacts(tasks);
    SlicesOf(TypeGroups(tasks), types, |tasks|)
  }

  /**
   * The task-type loop of `parseData`: groups the tasks by type and pushes
   * one slice per group with its count and its percentage of all tasks.
   */
  method ChartDataTaskTypes(tasks: seq<Task>, types: seq<TaskType>) returns (r: Option<seq<TypeSlice>>)
    ensures r == TypeSlices(tasks, types)
  {
    var taskCount := |tasks|;
    var taskTypes := TypeGroups(tasks);
    TypeGroupsNonEmpty(tasks);
    var slices: seq<TypeSlice> := [];
    for i := 0 to |taskTypes|
      invariant SlicesOf(taskTypes[..i], types, taskCount) == Some(slices)
    {
      SlicesOfStep(taskTypes, types, taskCount, i);
      var t := FindType(types, taskTypes[i].key);
      if t.None? {
        NoneAfter(taskTypes, types, taskCount, i + 1);
        assert taskTypes[..|taskTypes|] == taskTypes;
        return None;
      }
      var count := taskTypes[i].count;
      if count > 0 {
        slices := slices + [TypeSlice(t.value.title, Percentage(count, taskCount), count)];
      } else {
        assert slices + [] == slices;
      }
    }
    assert taskTypes[..|taskTypes|] == taskTypes;
    r := Some(slices);
  }

  /** One more group either fails on its type or appends its slice when it has tasks. */
  lemma SlicesOfStep(groups: seq<Group<int>>, types: seq<TaskType>, taskCount: nat, i: nat)
    requires i < |groups| && taskCount > 0
    ensures SlicesOf(groups[..i + 1], types, taskCount)
         == match SlicesOf(groups[..i], types, taskCount)
            case None => None
            case Some(front) =>
              match FindType(types, groups[i].key)
              case None => None
              case Some(t) =>
                Some(front + if groups[i].count > 0
                             then [TypeSlice(t.title, Percentage(groups[i].count, taskCount), groups[i].count)]
                             else [])
  {
    assert groups[..i + 1][..i] == groups[..i];
  }

  /** There is a type group only when there is a task. */
  lemma TypeGroupsNonEmpty(tasks: seq<Task>)
    ensures |TypeGroups(tasks)| > 0 ==> |tasks| > 0
  {
    TypeGroupsFacts(tasks);
  }

  lemma {:induction false} NoneAfter(groups: seq<Group<int>>, types: seq<TaskType>, taskCount: nat, n: nat)
    requires 0 < n <= |groups| && taskCount > 0
    requires SlicesOf(groups[..n], types, taskCount).None?
    ensures SlicesOf(groups, types, taskCount).None?
    decreases |groups| - n
  {
    if n < |groups| {
      assert groups[..n + 1][..n] == groups[..n];
      NoneAfter(groups, types, taskCount, n + 1);
    } else {
      assert groups[..n] == groups;
    }
  }

  /**
   * The type groups are in strictly ascending type-id order, hold every
   * type id in use and only those, each with the number of tasks of that
   * type, and their counts add up to the number of tasks.
   */
  lemma TypeGroupsFacts(tasks: seq<Task>)
    ensures Increasing(Keys(TypeGroups(tasks)))
    ensures forall id :: id in Keys(TypeGroups(tasks)) <==> exists t :: t in tasks && t.typeId == id
    ensures forall id :: Lookup(TypeGroups(tasks), id) == Occurrences(TypeIds(tasks), id)
    ensures PositiveCounts(TypeGroups(tasks)) && DistinctKeys(TypeGroups(tasks))
    ensures SumCounts(TypeGroups(tasks)) == |tasks|
    ensures |TypeGroups(tasks)| > 0 ==> |tasks| > 0
  {
    var ids := TypeIds(tasks);
    var sorted := SortBy(ids, Identity);
    SortByCorrect(ids, Identity);
    GroupByIncreasing(sorted);
    GroupByCounts(sorted);
    forall id ensures Lookup(TypeGroups(tasks), id) == Occurrences(ids, id) {
      OccurrencesIsMultiplicity(sorted, id);
      OccurrencesIsMultiplicity(ids, id);
    }
    forall id ensures id in sorted <==> exists t :: t in tasks && t.typeId == id {
      assert id in sorted <==> id in multiset(sorted);
      assert id in ids <==> id in multiset(ids);
      if id in ids {
        var i :| 0 <= i < |ids| && ids[i] == id;
        assert tasks[i] in tasks;
      }
    }
  }

  /** The slices fail exactly when some task's type is not among the task types. */
  lemma {:induction false} SlicesOfFails(groups: seq<Group<int>>, types: seq<TaskType>, taskCount: nat)
    requires |groups| > 0 ==> taskCount > 0
    ensures SlicesOf(groups, types, taskCount).None?
        <==> exists i :: 0 <= i < |groups| && FindType(types, groups[i].key).None?
  {
    if |groups| > 0 {
      var n := |groups| - 1;
      SlicesOfFails(groups[..n], types, taskCount);
      if FindType(types, groups[n].key).None? {
      } else {
        assert forall i :: 0 <= i < n ==> groups[..n][i] == groups[i];
      }
    }
  }

  /** With positive counts, each group gives one slice: its type's title, its count and its share. */
  lemma {:induction false} SlicesOfContents(groups: seq<Group<int>>, types: seq<TaskType>, taskCount: nat)
    requires taskCount > 0 && PositiveCounts(groups)
    requires SlicesOf(groups, types, taskCount).Some?
    ensures var r := SlicesOf(groups, types, taskCount).value;
      && |r| == |groups|
      && forall i :: 0 <= i < |groups| ==>
           && FindType(types, groups[i].key).Some?
           && r[i] == TypeSlice(FindType(types, groups[i].key).value.title,
                                Percentage(groups[i].count, taskCount), groups[i].count)
  {
    if |groups| > 0 {
      var n := |groups| - 1;
      assert forall i :: 0 <= i < n ==> groups[..n][i] == groups[i];
      SlicesOfContents(groups[..n], types, taskCount);
    }
  }

  function SumShares(slices: seq<TypeSlice>): real {
    if |slices| == 0 then 0.0 else SumShares(slices[..|slices| - 1]) + slices[|slices| - 1].y
  }

  function SumSliceCounts(groups: seq<Group<int>>): nat {
    if |groups| == 0 then 0 else SumSliceCounts(groups[..|groups| - 1]) + groups[|groups| - 1].count
  }

  lemma {:induction false} SumSliceCountsIsSum(groups: seq<Group<int>>)
    ensures SumSliceCounts(groups) == SumCounts(groups)
  {
    if |groups| > 0 {
      var n := |groups| - 1;
      SumSliceCountsIsSum(groups[1..]);
      if n > 0 {
        SumSliceCountsIsSum(groups[..n]);
        SumSliceCountsIsSum(groups[1..][..n - 1]);
        assert groups[1..][..n - 1] == groups[..n][1..];
        SumCountsSnoc(groups[..n]);
      }
    }
  }

  lemma SumCountsSnoc(groups: seq<Group<int>>)
    requires |groups| > 0
    ensures SumSliceCounts(groups[1..]) + groups[0].count == SumSliceCounts(groups)
    decreases |groups|
  {
    var n := |groups| - 1;
    if n > 0 {
      assert groups[1..][..n - 1] == groups[..n][1..];
      SumCountsSnoc(groups[..n]);
    }
  }

  lemma {:induction false} SharesPrefix(groups: seq<Group<int>>, types: seq<TaskType>, taskCount: nat)
    requires taskCount > 0 && PositiveCounts(groups)
    requires SlicesOf(groups, types, taskCount).Some?
    ensures SumShares(SlicesOf(groups, types, taskCount).value) == Percentage(SumSliceCounts(groups), taskCount)
  {
    if |groups| > 0 {
      var n := |groups| - 1;
      assert forall i :: 0 <= i < n ==> groups[..n][i] == groups[i];
      SharesPrefix(groups[..n], types, taskCount);
      var front := SlicesOf(groups[..n], types, taskCount).value;
      var r := SlicesOf(groups, types, taskCount).value;
      assert r[..|r| - 1] == front;
      PercentageAdd(SumSliceCounts(groups[..n]), groups[n].count, taskCount);
    } else {
      assert Percentage(0, taskCount) == 0.0;
    }
  }

  /**
   * When every type in use is known, there is one slice per type in use,
   * in ascending type-id order, each with the number of tasks of its type;
   * the counts add up to the number of tasks and the shares to 100.
   */
  lemma TypeSlicesFacts(tasks: seq<Task>, types: seq<TaskType>)
    requires TypeSlices(tasks, types).Some?
    requires |tasks| > 0
    ensures var r := TypeSlices(tasks, types).value;
      var groups := TypeGroups(tasks);
      && |r| == |groups|
      && Increasing(Keys(groups))
      && (forall id :: id in Keys(groups) <==> exists t :: t in tasks && t.typeId == id)
      && (forall i :: 0 <= i < |r| ==>
            && r[i].count == Occurrences(TypeIds(tasks), groups[i].key)
            && FindType(types, groups[i].key).Some?
            && r[i].name == FindType(types, groups[i].key).value.title)
      && SumShares(r) == 100.0
  {
    var groups := TypeGroups(tasks);
    TypeGroupsFacts(tasks);
    SlicesOfContents(groups, types, |tasks|);
    var r := TypeSlices(tasks, types).value;
    forall i | 0 <= i < |r|
      ensures r[i].count == Occurrences(TypeIds(tasks), groups[i].key)
    {
      LookupOfGroup(groups, i);
    }
    SharesPrefix(groups, types, |tasks|);
    SumSliceCountsIsSum(groups);
    PercentageWhole(|tasks|);
  }

  /** The slices fail exactly when some task's type is not among the task types. */
  lemma TypeSlicesFail(tasks: seq<Task>, types: seq<TaskType>)
    ensures TypeSlices(tasks, types).None?
        <==> exists t :: t in tasks && forall ty :: ty in types ==> ty.id != t.typeId
  {
    var groups := TypeGroups(tasks);
    TypeGroupsFacts(tasks);
    SlicesOfFails(groups, types, |tasks|);
    if TypeSlices(tasks, types).None? {
      var i :| 0 <= i < |groups| && FindType(types, groups[i].key).None?;
      assert Keys(groups)[i] == groups[i].key;
      assert groups[i].key in Keys(groups);
      var t :| t in tasks && t.typeId == groups[i].key;
      FindTypeFacts(types, t.typeId);
    } else {
      forall t | t in tasks ensures FindType(types, t.typeId).Some? {
        assert t.typeId in Keys(groups);
        var i :| 0 <= i < |groups| && Keys(groups)[i] == t.typeId;
      }
      forall t | t in tasks ensures !forall ty :: ty in types ==> ty.id != t.typeId {
        FindTypeFacts(types, t.typeId);
      }
    }
  }

}
