/**
 * The first half of `parseData`: which tasks form the sprint's initial
 * scope and which were added to a story after it started.
 */
module Split {
  import opened Records

  /** `story.timeStart && story.timeStart != '0000-00-00 00:00:00'`: the story has started. */
  predicate Started(story: Story) {
    IsSet(story.timeStart, ZeroDateTime)
  }

  /** The tasks of story `storyId`, in list order. */
  function TasksOf(tasks: seq<Task>, storyId: int): seq<Task> {
    if |tasks| == 0 then []
    else TasksOf(tasks[..|tasks| - 1], storyId)
         + (if tasks[|tasks| - 1].storyId == storyId then [tasks[|tasks| - 1]] else [])
  }

  /** The tasks of story `storyId` created at or before `t`. */
  function CreatedUntil(tasks: seq<Task>, storyId: int, t: int): seq<Task> {
    if |tasks| == 0 then []
    else CreatedUntil(tasks[..|tasks| - 1], storyId, t)
         + (var x := tasks[|tasks| - 1]; if x.storyId == storyId && x.createdAt <= t then [x] else [])
  }

  /** The tasks of story `storyId` created after `t`. */
  function CreatedAfter(tasks: seq<Task>, storyId: int, t: int): seq<Task> {
    if |tasks| == 0 then []
    else CreatedAfter(tasks[..|tasks| - 1], storyId, t)
         + (var x := tasks[|tasks| - 1]; if x.storyId == storyId && x.createdAt > t then [x] else [])
  }

  /** `storyTasks` for one story: all its tasks before it starts, else those created by its start. */
  function InitCountOf(story: Story, tasks: seq<Task>): nat {
    if !Started(story) then |TasksOf(tasks, story.id)|
    else |CreatedUntil(tasks, story.id, story.timeStart.value)|
  }

  /** The tasks a story contributes to `tasksOver`: those created after the story started. */
  function OverOf(story: Story, tasks: seq<Task>): seq<Task> {
    if !Started(story) then [] else CreatedAfter(tasks, story.id, story.timeStart.value)
  }

  /** `initTasks` over the first stories. */
  function InitTasks(stories: seq<Story>, tasks: seq<Task>): nat {
    if |stories| == 0 then 0
    else InitTasks(stories[..|stories| - 1], tasks) + InitCountOf(stories[|stories| - 1], tasks)
  }

  /** `tasksOver` before sorting: the late tasks of each story, story by story. */
  function TasksOver(stories: seq<Story>, tasks: seq<Task>): seq<Task> {
    if |stories| == 0 then []
    else TasksOver(stories[..|stories| - 1], tasks) + OverOf(stories[|stories| - 1], tasks)
  }

  /**
   * The story loop of `parseData`: adds each story's initial task count to
   * `initTasks` and appends its late tasks to `tasksOver`.
   */
  method SplitInitOver(stories: seq<Story>, tasks: seq<Task>) returns (initTasks: nat, tasksOver: seq<Task>)
    ensures initTasks == InitTasks(stories, tasks)
    ensures tasksOver == TasksOver(stories, tasks)
  {
    initTasks, tasksOver := 0, [];
    for i := 0 to |stories|
      invariant initTasks == InitTasks(stories[..i], tasks)
      invariant tasksOver == TasksOver(stories[..i], tasks)
    {
      var story := stories[i];
      var storyTasks := 0;
      if !Started(story) {
        storyTasks := |TasksOf(tasks, story.id)|;
      } else {
        storyTasks := |CreatedUntil(tasks, story.id, story.timeStart.value)|;
        tasksOver := tasksOver + CreatedAfter(tasks, story.id, story.timeStart.value);
      }
      initTasks := initTasks + storyTasks;
      assert stories[..i + 1][..i] == stories[..i];
    }
    assert stories[..|stories|] == stories;
  }

  /** Splitting at a story's start time divides its tasks without loss or duplication. */
  lemma {:induction false} SplitAtTime(tasks: seq<Task>, storyId: int, t: int)
    ensures multiset(CreatedUntil(tasks, storyId, t)) + multiset(CreatedAfter(tasks, storyId, t))
         == multiset(TasksOf(tasks, storyId))
    ensures |CreatedUntil(tasks, storyId, t)| + |CreatedAfter(tasks, storyId, t)| == |TasksOf(tasks, storyId)|
  {
    if |tasks| > 0 {
      SplitAtTime(tasks[..|tasks| - 1], storyId, t);
    }
    assert |multiset(CreatedUntil(tasks, storyId, t)) + multiset(CreatedAfter(tasks, storyId, t))|
        == |multiset(TasksOf(tasks, storyId))|;
  }

  /** Every task of a story is counted as initial or listed as late, exactly once. */
  lemma StoryPartition(story: Story, tasks: seq<Task>)
    ensures InitCountOf(story, tasks) + |OverOf(story, tasks)| == |TasksOf(tasks, story.id)|
    ensures Started(story) ==>
      multiset(CreatedUntil(tasks, story.id, story.timeStart.value)) + multiset(OverOf(story, tasks))
      == multiset(TasksOf(tasks, story.id))
  {
    if Started(story) {
      SplitAtTime(tasks, story.id, story.timeStart.value);
    }
  }

  lemma {:induction false} CreatedAfterMembers(tasks: seq<Task>, storyId: int, t: int)
    ensures forall x :: x in CreatedAfter(tasks, storyId, t) ==> x in tasks && x.storyId == storyId && x.createdAt > t
  {
    if |tasks| > 0 {
      CreatedAfterMembers(tasks[..|tasks| - 1], storyId, t);
    }
  }

  /** A late task is a task of a started story that was created after the story's start. */
  lemma {:induction false} TasksOverAreLate(stories: seq<Story>, tasks: seq<Task>, x: Task)
    requires x in TasksOver(stories, tasks)
    ensures x in tasks
    ensures exists s :: s in stories && Started(s) && x.storyId == s.id && x.createdAt > s.timeStart.value
  {
    var n := |stories|;
    var last := stories[n - 1];
    assert stories == stories[..n - 1] + [last];
    if x in OverOf(last, tasks) {
      CreatedAfterMembers(tasks, last.id, last.timeStart.value);
    } else {
      TasksOverAreLate(stories[..n - 1], tasks, x);
    }
  }

  /** The number of stories with id `id`. */
  function StoriesWithId(stories: seq<Story>, id: int): nat {
    if |stories| == 0 then 0
    else StoriesWithId(stories[..|stories| - 1], id) + (if stories[|stories| - 1].id == id then 1 else 0)
  }

  predicate DistinctIds(stories: seq<Story>) {
    forall i, j :: 0 <= i < j < |stories| ==> stories[i].id != stories[j].id
  }

  lemma {:induction false} UniqueStory(stories: seq<Story>, id: int)
    requires DistinctIds(stories)
    requires exists s :: s in stories && s.id == id
    ensures StoriesWithId(stories, id) == 1
  {
    var n := |stories|;
    var pre := stories[..n - 1];
    if stories[n - 1].id == id {
      AbsentStory(pre, id);
    } else {
      var s :| s in stories && s.id == id;
      assert s in pre by { assert stories == pre + [stories[n - 1]]; }
      UniqueStory(pre, id);
    }
  }

  lemma {:induction false} AbsentStory(stories: seq<Story>, id: int)
    requires forall s :: s in stories ==> s.id != id
    ensures StoriesWithId(stories, id) == 0
  {
    if |stories| > 0 {
      AbsentStory(stories[..|stories| - 1], id);
    }
  }

  /** The sum over the stories of their task counts. */
  function StoryTaskTotal(stories: seq<Story>, tasks: seq<Task>): nat {
    if |stories| == 0 then 0
    else StoryTaskTotal(stories[..|stories| - 1], tasks) + |TasksOf(tasks, stories[|stories| - 1].id)|
  }

  lemma {:induction false} StoryTaskTotalSnoc(stories: seq<Story>, tasks: seq<Task>, x: Task)
    ensures StoryTaskTotal(stories, tasks + [x]) == StoryTaskTotal(stories, tasks) + StoriesWithId(stories, x.storyId)
  {
    if |stories| > 0 {
      StoryTaskTotalSnoc(stories[..|stories| - 1], tasks, x);
      assert (tasks + [x])[..|tasks|] == tasks;
    }
  }

  lemma {:induction false} StoryTaskTotalCoversAll(stories: seq<Story>, tasks: seq<Task>)
    requires DistinctIds(stories)
    requires forall x :: x in tasks ==> exists s :: s in stories && s.id == x.storyId
    ensures StoryTaskTotal(stories, tasks) == |tasks|
  {
    if |tasks| == 0 {
      AllEmpty(stories, tasks);
    } else {
      var n := |tasks|;
      assert tasks == tasks[..n - 1] + [tasks[n - 1]];
      assert forall x :: x in tasks[..n - 1] ==> x in tasks;
      StoryTaskTotalCoversAll(stories, tasks[..n - 1]);
      StoryTaskTotalSnoc(stories, tasks[..n - 1], tasks[n - 1]);
      UniqueStory(stories, tasks[n - 1].storyId);
    }
  }

  lemma {:induction false} AllEmpty(stories: seq<Story>, tasks: seq<Task>)
    requires |tasks| == 0
    ensures StoryTaskTotal(stories, tasks) == 0
  {
    if |stories| > 0 {
      AllEmpty(stories[..|stories| - 1], tasks);
    }
  }

  lemma {:induction false} SplitPerStory(stories: seq<Story>, tasks: seq<Task>)
    ensures InitTasks(stories, tasks) + |TasksOver(stories, tasks)| == StoryTaskTotal(stories, tasks)
  {
    if |stories| > 0 {
      SplitPerStory(stories[..|stories| - 1], tasks);
      StoryPartition(stories[|stories| - 1], tasks);
    }
  }

  /**
   * When the story ids are distinct and every task belongs to one of the
   * stories, each task is counted in `initTasks` or listed in `tasksOver`,
   * exactly once.
   */
  lemma SplitCoversAllTasks(stories: seq<Story>, tasks: seq<Task>)
    requires DistinctIds(stories)
    requires forall x :: x in tasks ==> exists s :: s in stories && s.id == x.storyId
    ensures InitTasks(stories, tasks) + |TasksOver(stories, tasks)| == |tasks|
  {
    SplitPerStory(stories, tasks);
    StoryTaskTotalCoversAll(stories, tasks);
  }
}
