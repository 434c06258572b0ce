/**
 * Phase-duration aggregation: the time the sprint's tasks spent in each
 * workflow phase, the sprint totals, each phase's share in percent, and
 * the two pie-chart lists built from the phases with a positive share.
 */
module Phases {
  import opened Wrappers
  import opened Records
  import opened Calendar

  /** `result[0].duration ? result[0].duration : 0`: a missing sum counts as 0. */
  function PhaseDurationOf(sum: Option<nat>): nat {
    match sum
    case None => 0
    case Some(v) => v
  }

  function Durations(sums: seq<Option<nat>>): (ds: seq<nat>)
    ensures |ds| == |sums|
    ensures forall i :: 0 <= i < |sums| ==> ds[i] == PhaseDurationOf(sums[i])
  {
    seq(|sums|, i requires 0 <= i < |sums| => PhaseDurationOf(sums[i]))
  }

  /** The sum of `xs`. */
  function Sum(xs: seq<nat>): nat {
    if |xs| == 0 then 0 else Sum(xs[..|xs| - 1]) + xs[|xs| - 1]
  }

  /** `reduce(function(memo, i) { return memo + i })` continued from the accumulator `memo`. */
  function ReduceFrom(memo: nat, rest: seq<nat>): nat
    decreases |rest|
  {
    if |rest| == 0 then memo else ReduceFrom(memo + rest[0], rest[1..])
  }

  /** The seedless `reduce` of the source: `None` where JavaScript throws on an empty array. */
  function SeedlessSum(xs: seq<nat>): (r: Option<nat>)
    ensures r.None? <==> |xs| == 0
  {
    if |xs| == 0 then None else Some(ReduceFrom(xs[0], xs[1..]))
  }

  lemma SumSnoc(xs: seq<nat>, y: nat)
    ensures Sum(xs + [y]) == Sum(xs) + y
  {
    assert (xs + [y])[..|xs|] == xs;
  }

  lemma {:induction false} SumPrepend(x: nat, xs: seq<nat>)
    ensures Sum([x] + xs) == x + Sum(xs)
    decreases |xs|
  {
    if |xs| > 0 {
      SumPrepend(x, xs[..|xs| - 1]);
      assert ([x] + xs)[..|xs|] == [x] + xs[..|xs| - 1];
    } else {
      assert Sum([x]) == Sum([]) + x;
    }
  }

  lemma {:induction false} ReduceFromIsSum(memo: nat, rest: seq<nat>)
    ensures ReduceFrom(memo, rest) == memo + Sum(rest)
    decreases |rest|
  {
    if |rest| > 0 {
      ReduceFromIsSum(memo + rest[0], rest[1..]);
      SumPrepend(rest[0], rest[1..]);
      assert rest == [rest[0]] + rest[1..];
    }
  }

  /** The seedless reduce adds up a non-empty list. */
  lemma SeedlessSumIsSum(xs: seq<nat>)
    requires |xs| > 0
    ensures SeedlessSum(xs) == Some(Sum(xs))
  {
    ReduceFromIsSum(xs[0], xs[1..]);
    SumPrepend(xs[0], xs[1..]);
    assert xs == [xs[0]] + xs[1..];
  }

  /** The durations of the phases whose order is not 0 (`_.pluck(_.reject(...), "duration")`). */
  function NoFirst(phases: seq<Phase>, ds: seq<nat>): seq<nat>
    requires |ds| == |phases|
  {
    if |phases| == 0 then []
    else NoFirst(phases[..|phases| - 1], ds[..|ds| - 1])
         + (if phases[|phases| - 1].order != 0 then [ds[|ds| - 1]] else [])
  }

  lemma {:induction false} NoFirstEmpty(phases: seq<Phase>, ds: seq<nat>)
    requires |ds| == |phases|
    ensures |NoFirst(phases, ds)| == 0 <==> forall i :: 0 <= i < |phases| ==> phases[i].order == 0
  {
    if |phases| > 0 {
      NoFirstEmpty(phases[..|phases| - 1], ds[..|ds| - 1]);
    }
  }

  /** One phase's duration is part of both totals that include it. */
  lemma {:induction false} DurationWithinTotals(phases: seq<Phase>, ds: seq<nat>, i: nat)
    requires |ds| == |phases| && i < |phases|
    ensures ds[i] <= Sum(ds)
    ensures phases[i].order != 0 ==> ds[i] <= Sum(NoFirst(phases, ds))
    ensures Sum(NoFirst(phases, ds)) <= Sum(ds)
    decreases |phases|
  {
    var n := |phases| - 1;
    var pre := NoFirst(phases[..n], ds[..n]);
    if i < n {
      DurationWithinTotals(phases[..n], ds[..n], i);
    } else if n > 0 {
      DurationWithinTotals(phases[..n], ds[..n], 0);
    }
    if n == 0 {
      assert pre == [];
    }
    assert Sum(ds) == Sum(ds[..n]) + ds[n];
    if phases[n].order != 0 {
      SumSnoc(pre, ds[n]);
    } else {
      assert NoFirst(phases, ds) == pre;
    }
  }

  /** A phase annotated with its summed duration and its two percentages. */
  datatype PhaseStat = PhaseStat(
    phase: Phase,
    duration: nat,
    durationPercentage: real,
    durationPercentageTotal: real)

  /** `data.phaseDuration`. */
  datatype PhaseDuration = PhaseDuration(totalTime: nat, totalTimeNoFirst: nat)

  datatype PhaseAggregate = PhaseAggregate(phaseDuration: PhaseDuration, phases: seq<PhaseStat>)

  /** `duration / total * 100`. */
  function Percentage(duration: nat, total: nat): real
    requires total > 0
  {
    duration as real / total as real * 100.0
  }

  /** The percentages the source assigns to one phase. */
  function StatOf(phase: Phase, duration: nat, totals: PhaseDuration): PhaseStat
    requires duration > 0 ==> totals.totalTime > 0
    requires duration > 0 && phase.order != 0 ==> totals.totalTimeNoFirst > 0
  {
    PhaseStat(phase, duration,
              if duration > 0 && phase.order != 0 then Percentage(duration, totals.totalTimeNoFirst) else 0.0,
              if duration > 0 then Percentage(duration, totals.totalTime) else 0.0)
  }

  /** The totals `phaseDuration` holds: all durations, and those of the non-first phases. */
  function TotalsOf(phases: seq<Phase>, ds: seq<nat>): PhaseDuration
    requires |ds| == |phases|
  {
    PhaseDuration(Sum(ds), Sum(NoFirst(phases, ds)))
  }

  /** A phase with recorded time makes the totals that include it positive. */
  predicate TotalsCover(phases: seq<Phase>, ds: seq<nat>, totals: PhaseDuration)
    requires |ds| == |phases|
  {
    forall i :: 0 <= i < |phases| && ds[i] > 0 ==>
      totals.totalTime > 0 && (phases[i].order != 0 ==> totals.totalTimeNoFirst > 0)
  }

  lemma TotalsOfCover(phases: seq<Phase>, ds: seq<nat>)
    requires |ds| == |phases|
    ensures TotalsCover(phases, ds, TotalsOf(phases, ds))
  {
    forall i | 0 <= i < |phases| && ds[i] > 0
      ensures TotalsOf(phases, ds).totalTime > 0
      ensures phases[i].order != 0 ==> TotalsOf(phases, ds).totalTimeNoFirst > 0
    {
      DurationWithinTotals(phases, ds, i);
    }
  }

  /** Every phase annotated with its percentages of the totals. */
  function Annotated(phases: seq<Phase>, ds: seq<nat>): seq<PhaseStat>
    requires |ds| == |phases|
  {
    var totals := TotalsOf(phases, ds);
    TotalsOfCover(phases, ds);
    seq(|phases|, i requires 0 <= i < |phases| => StatOf(phases[i], ds[i], totals))
  }

  /** The `i`-th annotated phase carries the percentages of its own duration. */
  lemma AnnotatedAt(phases: seq<Phase>, ds: seq<nat>, i: nat)
    requires |ds| == |phases| && i < |phases|
    ensures TotalsCover(phases, ds, TotalsOf(phases, ds))
    ensures Annotated(phases, ds)[i] == StatOf(phases[i], ds[i], TotalsOf(phases, ds))
  {
    TotalsOfCover(phases, ds);
  }

  /**
   * What the aggregation yields for the phases and their durations: `None`
   * when a seedless reduce meets an empty list (no phases, or only
   * order-0 phases), else the totals and the annotated phases.
   */
  function Aggregate(phases: seq<Phase>, ds: seq<nat>): Option<PhaseAggregate>
    requires |ds| == |phases|
  {
    var total := SeedlessSum(ds);
    var noFirst := SeedlessSum(NoFirst(phases, ds));
    if total.None? || noFirst.None? then None
    else Some(PhaseAggregate(PhaseDuration(total.value, noFirst.value), Annotated(phases, ds)))
  }

  /**
   * The phase step of `fetchTaskDuration`: stores each phase's summed
   * duration, forms the two totals with seedless reduces, then assigns
   * each phase its percentages.
   */
  method AnnotatePhases(phases: seq<Phase>, sums: seq<Option<nat>>) returns (r: Option<PhaseAggregate>)
    requires |sums| == |phases|
    ensures r == Aggregate(phases, Durations(sums))
  {
    var ds: seq<nat> := [];
    for i := 0 to |phases|
      invariant ds == Durations(sums)[..i]
    {
      ds := ds + [PhaseDurationOf(sums[i])];
    }
    assert ds == Durations(sums);

    var totalTime := SeedlessSum(ds);
    var totalTimeNoFirst := SeedlessSum(NoFirst(phases, ds));
    if totalTime.None? || totalTimeNoFirst.None? {
      return None;
    }
    SeedlessSumIsSum(ds);
    SeedlessSumIsSum(NoFirst(phases, ds));
    var totals := PhaseDuration(totalTime.value, totalTimeNoFirst.value);
    assert totals == TotalsOf(phases, ds);

    var stats: seq<PhaseStat> := [];
    for i := 0 to |phases|
      invariant stats == Annotated(phases, ds)[..i]
    {
      DurationWithinTotals(phases, ds, i);
      var d := ds[i];
      var durationPercentage := if d > 0 && phases[i].order != 0 then Percentage(d, totals.totalTimeNoFirst) else 0.0;
      var durationPercentageTotal := if d > 0 then Percentage(d, totals.totalTime) else 0.0;
      AnnotatedAt(phases, ds, i);
      stats := stats + [PhaseStat(phases[i], d, durationPercentage, durationPercentageTotal)];
    }
    assert stats == Annotated(phases, ds);
    r := Some(PhaseAggregate(totals, stats));
  }

  /** The aggregation fails exactly when there is no phase, or no phase that is not the first. */
  lemma AggregateFails(phases: seq<Phase>, ds: seq<nat>)
    requires |ds| == |phases|
    ensures Aggregate(phases, ds).None?
        <==> |phases| == 0 || forall i :: 0 <= i < |phases| ==> phases[i].order == 0
  {
    NoFirstEmpty(phases, ds);
  }

  lemma PercentagePositive(d: nat, t: nat)
    requires d > 0 && t > 0
    ensures Percentage(d, t) > 0.0
  {
    assert d as real / t as real > 0.0;
  }

  lemma PercentageZero(t: nat)
    requires t > 0
    ensures Percentage(0, t) == 0.0
  {
  }

  lemma PercentageAdd(a: nat, b: nat, t: nat)
    requires t > 0
    ensures Percentage(a, t) + Percentage(b, t) == Percentage(a + b, t)
  {
    var u := 1.0 / t as real;
    assert a as real / t as real == a as real * u;
    assert b as real / t as real == b as real * u;
    assert (a + b) as real / t as real == (a + b) as real * u;
  }

  /**
   * The totals add up all durations and those of the non-first phases, so
   * the second never exceeds the first.
   */
  lemma AggregateTotals(phases: seq<Phase>, ds: seq<nat>)
    requires |ds| == |phases|
    requires Aggregate(phases, ds).Some?
    ensures Aggregate(phases, ds).value.phaseDuration == PhaseDuration(Sum(ds), Sum(NoFirst(phases, ds)))
    ensures Sum(NoFirst(phases, ds)) <= Sum(ds)
    ensures Aggregate(phases, ds).value.phases == Annotated(phases, ds)
  {
    SeedlessSumIsSum(ds);
    SeedlessSumIsSum(NoFirst(phases, ds));
    DurationWithinTotals(phases, ds, 0);
  }

  /**
   * Each annotated phase keeps its phase and duration; its share of the
   * non-first total is 0 exactly for a zero-duration or an order-0 phase,
   * its share of the total time exactly for a zero-duration phase, and
   * both shares are positive otherwise.
   */
  lemma {:induction false} AnnotatedShares(phases: seq<Phase>, ds: seq<nat>, i: nat)
    requires |ds| == |phases| && i < |phases|
    ensures var s := Annotated(phases, ds)[i];
      && s.phase == phases[i] && s.duration == ds[i]
      && (s.durationPercentage > 0.0 <==> ds[i] > 0 && phases[i].order != 0)
      && (s.durationPercentage <= 0.0 ==> s.durationPercentage == 0.0)
      && (s.durationPercentageTotal > 0.0 <==> ds[i] > 0)
      && (s.durationPercentageTotal <= 0.0 ==> s.durationPercentageTotal == 0.0)
  {
    DurationWithinTotals(phases, ds, i);
    var totals := TotalsOf(phases, ds);
    if ds[i] > 0 {
      PercentagePositive(ds[i], totals.totalTime);
      if phases[i].order != 0 {
        PercentagePositive(ds[i], totals.totalTimeNoFirst);
      }
    }
  }

  /** The sum of the `durationPercentageTotal` fields. */
  function SumPercentTotal(stats: seq<PhaseStat>): real {
    if |stats| == 0 then 0.0
    else SumPercentTotal(stats[..|stats| - 1]) + stats[|stats| - 1].durationPercentageTotal
  }

  lemma AnnotatedTotalShare(phases: seq<Phase>, ds: seq<nat>, i: nat)
    requires |ds| == |phases| && i < |phases|
    requires Sum(ds) > 0
    ensures Annotated(phases, ds)[i].durationPercentageTotal == Percentage(ds[i], Sum(ds))
  {
    if ds[i] == 0 {
      PercentageZero(Sum(ds));
    }
  }

  lemma SumPercentTotalSnoc(stats: seq<PhaseStat>, n: nat)
    requires 0 < n <= |stats|
    ensures SumPercentTotal(stats[..n]) == SumPercentTotal(stats[..n - 1]) + stats[n - 1].durationPercentageTotal
  {
    assert stats[..n][..n - 1] == stats[..n - 1];
  }

  lemma {:induction false} PercentTotalPrefix(phases: seq<Phase>, ds: seq<nat>, n: nat)
    requires |ds| == |phases| && n <= |phases|
    requires Sum(ds) > 0
    ensures SumPercentTotal(Annotated(phases, ds)[..n]) == Percentage(Sum(ds[..n]), Sum(ds))
  {
    var stats := Annotated(phases, ds);
    var t := Sum(ds);
    if n > 0 {
      PercentTotalPrefix(phases, ds, n - 1);
      SumPercentTotalSnoc(stats, n);
      assert ds[..n] == ds[..n - 1] + [ds[n - 1]];
      SumSnoc(ds[..n - 1], ds[n - 1]);
      AnnotatedTotalShare(phases, ds, n - 1);
      PercentageAdd(Sum(ds[..n - 1]), ds[n - 1], t);
    } else {
      assert Sum(ds[..0]) == 0;
    }
  }

  lemma PercentageWhole(t: nat)
    requires t > 0
    ensures Percentage(t, t) == 100.0
  {
    assert t as real / t as real == 1.0;
  }

  /** With some recorded time, the total-time shares of all phases add up to exactly 100. */
  lemma PercentTotalSumsTo100(phases: seq<Phase>, ds: seq<nat>)
    requires |ds| == |phases|
    requires Aggregate(phases, ds).Some?
    requires Sum(ds) > 0
    ensures SumPercentTotal(Aggregate(phases, ds).value.phases) == 100.0
  {
    var stats := Annotated(phases, ds);
    PercentTotalPrefix(phases, ds, |phases|);
    AggregateTotals(phases, ds);
    assert stats[..|phases|] == stats;
    assert ds[..|phases|] == ds;
    PercentageWhole(Sum(ds));
  }

  /** The sum of the `durationPercentage` fields. */
  function SumPercent(stats: seq<PhaseStat>): real {
    if |stats| == 0 then 0.0
    else SumPercent(stats[..|stats| - 1]) + stats[|stats| - 1].durationPercentage
  }

  lemma AnnotatedShare(phases: seq<Phase>, ds: seq<nat>, i: nat)
    requires |ds| == |phases| && i < |phases|
    ensures phases[i].order == 0 || ds[i] == 0 ==> Annotated(phases, ds)[i].durationPercentage == 0.0
    ensures phases[i].order != 0 && ds[i] > 0 ==>
      && Sum(NoFirst(phases, ds)) > 0
      && Annotated(phases, ds)[i].durationPercentage == Percentage(ds[i], Sum(NoFirst(phases, ds)))
  {
    TotalsOfCover(phases, ds);
  }

  lemma SumPercentSnoc(stats: seq<PhaseStat>, n: nat)
    requires 0 < n <= |stats|
    ensures SumPercent(stats[..n]) == SumPercent(stats[..n - 1]) + stats[n - 1].durationPercentage
  {
    assert stats[..n][..n - 1] == stats[..n - 1];
  }

  /** What a phase adds to the non-first total: its duration, or nothing for an order-0 phase. */
  function NoFirstPart(phase: Phase, d: nat): nat {
    if phase.order != 0 then d else 0
  }

  lemma NoFirstSnoc(phases: seq<Phase>, ds: seq<nat>, n: nat)
    requires |ds| == |phases| && 0 < n <= |phases|
    ensures Sum(NoFirst(phases[..n], ds[..n]))
         == Sum(NoFirst(phases[..n - 1], ds[..n - 1])) + NoFirstPart(phases[n - 1], ds[n - 1])
  {
    assert phases[..n][..n - 1] == phases[..n - 1];
    assert ds[..n][..n - 1] == ds[..n - 1];
    var before := NoFirst(phases[..n - 1], ds[..n - 1]);
    if phases[n - 1].order != 0 {
      assert NoFirst(phases[..n], ds[..n]) == before + [ds[n - 1]];
      SumSnoc(before, ds[n - 1]);
    } else {
      assert NoFirst(phases[..n], ds[..n]) == before;
    }
  }

  lemma NoFirstShare(phases: seq<Phase>, ds: seq<nat>, i: nat)
    requires |ds| == |phases| && i < |phases|
    requires Sum(NoFirst(phases, ds)) > 0
    ensures Annotated(phases, ds)[i].durationPercentage
         == Percentage(NoFirstPart(phases[i], ds[i]), Sum(NoFirst(phases, ds)))
  {
    AnnotatedShare(phases, ds, i);
    if phases[i].order == 0 || ds[i] == 0 {
      PercentageZero(Sum(NoFirst(phases, ds)));
    }
  }

  /** Stats whose shares are their phases' parts of `t` sum, up to `n`, to the part of the first `n` phases. */
  lemma {:induction false} PercentPrefix(stats: seq<PhaseStat>, phases: seq<Phase>, ds: seq<nat>, t: nat, n: nat)
    requires |stats| == |ds| == |phases| && n <= |phases| && t > 0
    requires forall i :: 0 <= i < |stats| ==>
      stats[i].durationPercentage == Percentage(NoFirstPart(phases[i], ds[i]), t)
    ensures SumPercent(stats[..n]) == Percentage(Sum(NoFirst(phases[..n], ds[..n])), t)
  {
    if n > 0 {
      PercentPrefix(stats, phases, ds, t, n - 1);
      SumPercentSnoc(stats, n);
      NoFirstSnoc(phases, ds, n);
      PercentageAdd(Sum(NoFirst(phases[..n - 1], ds[..n - 1])), NoFirstPart(phases[n - 1], ds[n - 1]), t);
    } else {
      assert NoFirst(phases[..0], ds[..0]) == [];
      PercentageZero(t);
    }
  }

  /** When the non-first phases have recorded time, their shares add up to exactly 100. */
  lemma PercentSumsTo100(phases: seq<Phase>, ds: seq<nat>)
    requires |ds| == |phases|
    requires Aggregate(phases, ds).Some?
    requires Sum(NoFirst(phases, ds)) > 0
    ensures SumPercent(Aggregate(phases, ds).value.phases) == 100.0
  {
    var stats := Annotated(phases, ds);
    var t := Sum(NoFirst(phases, ds));
    forall i | 0 <= i < |stats|
      ensures stats[i].durationPercentage == Percentage(NoFirstPart(phases[i], ds[i]), t)
    {
      NoFirstShare(phases, ds, i);
    }
    PercentPrefix(stats, phases, ds, t, |phases|);
    AggregateTotals(phases, ds);
    assert stats[..|phases|] == stats;
    assert ds[..|phases|] == ds;
    assert phases[..|phases|] == phases;
    PercentageWhole(t);
  }

  /** A pie-chart slice (`name`, `y`, `duration`). */
  datatype PieSlice = PieSlice(name: string, y: real, duration: nat)

  /** The share a pie chart shows: without the first phase, or of the total time. */
  function Share(s: PhaseStat, ofTotal: bool): real {
    if ofTotal then s.durationPercentageTotal else s.durationPercentage
  }

  function SliceOf(s: PhaseStat, ofTotal: bool): PieSlice {
    PieSlice(s.phase.title, Share(s, ofTotal), s.duration)
  }

  /** The indices below `n` of the phases whose share is positive, in phase order. */
  function PositiveIndices(stats: seq<PhaseStat>, ofTotal: bool, n: nat): seq<int>
    requires n <= |stats|
  {
    if n == 0 then []
    else PositiveIndices(stats, ofTotal, n - 1) + (if Share(stats[n - 1], ofTotal) > 0.0 then [n - 1] else [])
  }

  lemma {:induction false} PositiveIndicesFacts(stats: seq<PhaseStat>, ofTotal: bool, n: nat)
    requires n <= |stats|
    ensures Increasing(PositiveIndices(stats, ofTotal, n))
    ensures forall k :: 0 <= k < |PositiveIndices(stats, ofTotal, n)| ==> 0 <= PositiveIndices(stats, ofTotal, n)[k] < n
    ensures forall i :: i in PositiveIndices(stats, ofTotal, n) <==> 0 <= i < n && Share(stats[i], ofTotal) > 0.0
  {
    if n > 0 {
      PositiveIndicesFacts(stats, ofTotal, n - 1);
    }
  }

  /** The pie-chart list: the slices of the phases with a positive share, in phase order. */
  function PositiveSlices(stats: seq<PhaseStat>, ofTotal: bool, n: nat): (r: seq<PieSlice>)
    requires n <= |stats|
  {
    var idx := PositiveIndices(stats, ofTotal, n);
    PositiveIndicesFacts(stats, ofTotal, n);
    seq(|idx|, k requires 0 <= k < |idx| => SliceOf(stats[idx[k]], ofTotal))
  }

  /**
   * The chart part of `fetchTaskDuration`: one pass over the phases that
   * pushes a slice to `chartDataPhases` when the share without the first
   * phase is positive, and to `chartDataPhasesTotal` when the share of the
   * total time is.
   */
  method BuildPhaseCharts(stats: seq<PhaseStat>) returns (chartDataPhases: seq<PieSlice>, chartDataPhasesTotal: seq<PieSlice>)
    ensures chartDataPhases == PositiveSlices(stats, false, |stats|)
    ensures chartDataPhasesTotal == PositiveSlices(stats, true, |stats|)
  {
    chartDataPhases, chartDataPhasesTotal := [], [];
    for i := 0 to |stats|
      invariant chartDataPhases == PositiveSlices(stats, false, i)
      invariant chartDataPhasesTotal == PositiveSlices(stats, true, i)
    {
      var phase := stats[i];
      if phase.durationPercentage > 0.0 {
        chartDataPhases := chartDataPhases + [PieSlice(phase.phase.title, phase.durationPercentage, phase.duration)];
      }
      if phase.durationPercentageTotal > 0.0 {
        chartDataPhasesTotal := chartDataPhasesTotal + [PieSlice(phase.phase.title, phase.durationPercentageTotal, phase.duration)];
      }
    }
  }

  /** A phase is in a pie chart exactly when its share is positive, at the place of its phase order. */
  lemma PieChartMembers(stats: seq<PhaseStat>, ofTotal: bool)
    ensures var idx := PositiveIndices(stats, ofTotal, |stats|);
      && |PositiveSlices(stats, ofTotal, |stats|)| == |idx|
      && Increasing(idx)
      && (forall i :: i in idx <==> 0 <= i < |stats| && Share(stats[i], ofTotal) > 0.0)
      && (forall k :: 0 <= k < |idx| ==>
            0 <= idx[k] < |stats| && PositiveSlices(stats, ofTotal, |stats|)[k] == SliceOf(stats[idx[k]], ofTotal))
  {
    PositiveIndicesFacts(stats, ofTotal, |stats|);
  }
}
