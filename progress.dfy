/**
 * Progress statistics of the sprint backlog: how many stories and tasks are
 * done, and the rounded completion percentages of the sprint and each story.
 */
module Progress {
  import opened Records

  /**
   * JavaScript's `Math.round(num / den)` for a non-negative ratio, taken
   * exactly: the integer nearest to `num / den`, halves rounded up.
   */
  function RoundRatio(num: nat, den: int): int
    requires den > 0
  {
    (2 * num + den) / (2 * den)
  }

  /** `RoundRatio` is the nearest integer, halves rounded up, and never negative. */
  lemma RoundRatioNearest(num: nat, den: int)
    requires den > 0
    ensures var r := RoundRatio(num, den);
      2 * den * r - den <= 2 * num < 2 * den * r + den && r >= 0
  {
    var q := (2 * num + den) / (2 * den);
    assert 2 * num + den == 2 * den * q + (2 * num + den) % (2 * den);
  }

  lemma MulMonotone(a: nat, b: int, c: int)
    requires b <= c
    ensures a * b <= a * c
  {
  }

  /** A rounded percentage of a non-empty share lies in 0..100, and is 0 only below half a percent. */
  lemma PercentBounds(done: nat, total: nat, r: int)
    requires 0 < done <= total
    requires 2 * total * r - total <= 200 * done < 2 * total * r + total
    ensures 0 <= r <= 100
    ensures r > 0 <==> 200 * done >= total
    ensures done == total ==> r == 100
  {
    if r > 100 {
      MulMonotone(total, 101, r);
      assert false;
    }
    if r < 0 {
      MulMonotone(total, r, -1);
      assert false;
    }
    if r >= 1 {
      MulMonotone(total, 1, r);
    }
    if done == total && r < 100 {
      MulMonotone(total, r, 99);
    }
  }

  /** `done > 0 ? Math.round(done / total * 100) : 0`: the completion percentage. */
  function ProgressPercent(done: nat, total: nat): int
    requires done <= total
  {
    if done > 0 then RoundRatio(100 * done, total) else 0
  }

  /**
   * The completion percentage lies in 0..100; it is 0 when nothing is
   * done, otherwise the nearest integer to `done / total * 100`, so it is
   * positive exactly from half a percent on, and 100 when all is done.
   */
  lemma ProgressPercentBounds(done: nat, total: nat)
    requires done <= total
    ensures var r := ProgressPercent(done, total);
      && 0 <= r <= 100
      && (done == 0 ==> r == 0)
      && (done > 0 ==> 2 * total * r - total <= 200 * done < 2 * total * r + total)
      && (r > 0 <==> done > 0 && 200 * done >= total)
      && (0 < done == total ==> r == 100)
  {
    if done > 0 {
      RoundRatioNearest(100 * done, total);
      PercentBounds(done, total, RoundRatio(100 * done, total));
    }
  }

  function StoryDone(story: Story): bool {
    story.isDone
  }

  function TaskDone(task: Task): bool {
    task.isDone
  }

  /** `_.reduce` counting the done stories or the done tasks. */
  function CountDone<T>(s: seq<T>, done: T -> bool): (n: nat)
    ensures n <= |s|
  {
    if |s| == 0 then 0
    else CountDone(s[..|s| - 1], done) + (if done(s[|s| - 1]) then 1 else 0)
  }

  /** None is counted done exactly when none is done; all are exactly when every one is. */
  lemma {:induction false} CountDoneExtremes<T>(s: seq<T>, done: T -> bool)
    ensures CountDone(s, done) == 0 <==> forall i :: 0 <= i < |s| ==> !done(s[i])
    ensures CountDone(s, done) == |s| <==> forall i :: 0 <= i < |s| ==> done(s[i])
  {
    if |s| > 0 {
      var front := s[..|s| - 1];
      CountDoneExtremes(front, done);
      assert forall i :: 0 <= i < |front| ==> front[i] == s[i];
    }
  }

  /** The number of done elements of two lists taken together. */
  lemma {:induction false} CountDoneAppend<T>(a: seq<T>, b: seq<T>, done: T -> bool)
    ensures CountDone(a + b, done) == CountDone(a, done) + CountDone(b, done)
    decreases |b|
  {
    if |b| > 0 {
      CountDoneAppend(a, b[..|b| - 1], done);
      assert (a + b)[..|a + b| - 1] == a + b[..|b| - 1];
    } else {
      assert a + b == a;
    }
  }

  /** All stories' tasks, one list after the other. */
  function Flatten(storyTasks: seq<seq<Task>>): seq<Task> {
    if |storyTasks| == 0 then [] else Flatten(storyTasks[..|storyTasks| - 1]) + storyTasks[|storyTasks| - 1]
  }

  /** Sum of the stories' task counts. */
  function TotalTasks(storyTasks: seq<seq<Task>>): nat {
    if |storyTasks| == 0 then 0
    else TotalTasks(storyTasks[..|storyTasks| - 1]) + |storyTasks[|storyTasks| - 1]|
  }

  /** Sum of the stories' done-task counts. */
  function TotalDone(storyTasks: seq<seq<Task>>): nat {
    if |storyTasks| == 0 then 0
    else TotalDone(storyTasks[..|storyTasks| - 1]) + CountDone(storyTasks[|storyTasks| - 1], TaskDone)
  }

  /** The sprint's task totals are the counts over all of its stories' tasks taken together. */
  lemma {:induction false} TotalsCountAllTasks(storyTasks: seq<seq<Task>>)
    ensures TotalTasks(storyTasks) == |Flatten(storyTasks)|
    ensures TotalDone(storyTasks) == CountDone(Flatten(storyTasks), TaskDone)
    ensures TotalDone(storyTasks) <= TotalTasks(storyTasks)
  {
    if |storyTasks| > 0 {
      var front := storyTasks[..|storyTasks| - 1];
      TotalsCountAllTasks(front);
      CountDoneAppend(Flatten(front), storyTasks[|storyTasks| - 1], TaskDone);
    }
  }

  /** The backlog's sprint statistics (the `data.sprint` counters). */
  datatype SprintProgress = SprintProgress(
    cntStoryTotal: nat,
    cntStoryDone: nat,
    cntStoryNotDone: int,
    progressStory: int,
    cntTaskTotal: nat,
    cntTaskDone: nat,
    cntTaskNotDone: int,
    progressTask: int)

  /** A story annotated with its tasks, done-task count and progress. */
  datatype StoryProgress = StoryProgress(story: Story, tasks: seq<Task>, doneTasks: nat, progress: int)

  /** The story as `fetchTaskData` annotates it. */
  function StoryProgressOf(story: Story, tasks: seq<Task>): StoryProgress {
    StoryProgress(story, tasks, CountDone(tasks, TaskDone), ProgressPercent(CountDone(tasks, TaskDone), |tasks|))
  }

  /**
   * The counters of `fetchTaskData`: the stories and those done, the tasks
   * over all stories and those done, the not-done counts as the
   * differences (never negative), the two rounded percentages, and each
   * story annotated with its own tasks.
   */
  predicate Tallied(stories: seq<Story>, storyTasks: seq<seq<Task>>, sprint: SprintProgress,
                    storyData: seq<StoryProgress>)
    requires |storyTasks| == |stories|
  {
    && sprint.cntStoryTotal == |stories| && sprint.cntStoryDone == CountDone(stories, StoryDone)
    && 0 <= sprint.cntStoryNotDone && sprint.cntStoryDone + sprint.cntStoryNotDone == sprint.cntStoryTotal
    && sprint.progressStory == ProgressPercent(sprint.cntStoryDone, sprint.cntStoryTotal)
    && sprint.cntTaskTotal == TotalTasks(storyTasks) && sprint.cntTaskDone == TotalDone(storyTasks)
    && 0 <= sprint.cntTaskNotDone && sprint.cntTaskDone + sprint.cntTaskNotDone == sprint.cntTaskTotal
    && sprint.progressTask == ProgressPercent(sprint.cntTaskDone, sprint.cntTaskTotal)
    && |storyData| == |stories|
    && forall i :: 0 <= i < |stories| ==> storyData[i] == StoryProgressOf(stories[i], storyTasks[i])
  }

  /**
   * `fetchTaskData`: counts the done stories, then, story by story (with
   * `storyTasks[i]` the tasks fetched for `stories[i]`), annotates the
   * story and adds its task counts to the sprint's counters.
   */
  method FetchTaskData(stories: seq<Story>, storyTasks: seq<seq<Task>>)
    returns (sprint: SprintProgress, storyData: seq<StoryProgress>)
    requires |storyTasks| == |stories|
    ensures Tallied(stories, storyTasks, sprint, storyData)
  {
    var cntStoryTotal := |stories|;
    var cntStoryDone := CountDone(stories, StoryDone);
    var cntStoryNotDone := cntStoryTotal - cntStoryDone;
    var progressStory := 0;
    if cntStoryDone > 0 {
      progressStory := RoundRatio(100 * cntStoryDone, cntStoryTotal);
    }

    var cntTaskTotal: nat, cntTaskDone: nat := 0, 0;
    storyData := [];
    var i := 0;
    while i < |stories|
      invariant 0 <= i <= |stories|
      invariant cntTaskTotal == TotalTasks(storyTasks[..i])
      invariant cntTaskDone == TotalDone(storyTasks[..i])
      invariant cntTaskDone <= cntTaskTotal
      invariant |storyData| == i
      invariant forall j :: 0 <= j < i ==> storyData[j] == StoryProgressOf(stories[j], storyTasks[j])
    {
      var tasks := storyTasks[i];
      var doneTasks := CountDone(tasks, TaskDone);
      var progress := 0;
      if doneTasks > 0 {
        progress := RoundRatio(100 * doneTasks, |tasks|);
      }
      storyData := storyData + [StoryProgress(stories[i], tasks, doneTasks, progress)];
      cntTaskTotal := cntTaskTotal + |tasks|;
      cntTaskDone := cntTaskDone + doneTasks;
      assert storyTasks[..i + 1][..i] == storyTasks[..i];
      i := i + 1;
    }
    assert storyTasks[..|stories|] == storyTasks;

    var cntTaskNotDone := cntTaskTotal - cntTaskDone;
    var progressTask := 0;
    if cntTaskDone > 0 {
      progressTask := RoundRatio(100 * cntTaskDone, cntTaskTotal);
    }
    sprint := SprintProgress(cntStoryTotal, cntStoryDone, cntStoryNotDone, progressStory,
                             cntTaskTotal, cntTaskDone, cntTaskNotDone, progressTask);
  }
}
