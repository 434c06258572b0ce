/**
 * The backlog view's data (`fetchTaskData` after its queries): the story
 * and task statistics of the sprint, then the phase aggregation over the
 * per-phase duration sums.
 */
module Backlog {
  import opened Wrappers
  import opened Records
  import opened Progress
  import opened Phases

  /** What `fetchTaskData` adds to `data` before rendering the view. */
  datatype BacklogData = BacklogData(
    sprint: SprintProgress,
    stories: seq<StoryProgress>,
    phaseDuration: PhaseDuration,
    phases: seq<PhaseStat>)

  /**
   * `fetchTaskData` from the fetched records: `storyTasks[i]` are the tasks
   * of `stories[i]` and `sums[i]` the duration sum of `phases[i]`. It fails
   * where the JavaScript throws: when a seedless reduce meets an empty list
   * of durations.
   */
  method FetchBacklog(stories: seq<Story>, storyTasks: seq<seq<Task>>, phases: seq<Phase>, sums: seq<Option<nat>>)
    returns (r: Option<BacklogData>)
    requires |storyTasks| == |stories|
    requires |sums| == |phases|
    ensures r.None? <==> Aggregate(phases, Durations(sums)).None?
    ensures r.None? <==> |phases| == 0 || forall i :: 0 <= i < |phases| ==> phases[i].order == 0
    ensures r.Some? ==>
      && Tallied(stories, storyTasks, r.value.sprint, r.value.stories)
      && r.value.phaseDuration == Aggregate(phases, Durations(sums)).value.phaseDuration
      && r.value.phases == Aggregate(phases, Durations(sums)).value.phases
  {
    var sprint, storyData := FetchTaskData(stories, storyTasks);
    var agg := AnnotatePhases(phases, sums);
    AggregateFails(phases, Durations(sums));
    if agg.None? {
      return None;
    }
    r := Some(BacklogData(sprint, storyData, agg.value.phaseDuration, agg.value.phases));
  }
}
