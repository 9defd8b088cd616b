/** The post-run analyzers over the flash logs and the order-parameter series:
    `calculate_cycle_regularity`, `calculate_spatial_coherence` and
    `calculate_phase_transitions`. */
module Analysis {
  import opened MathModel
  import opened Visibility
  import opened Dynamics
  import opened MultiScale
  import opened Sequences

  function Abs(x: real): real { if x < 0.0 then -x else x }

  // ---------------------------------------------------------------------------------------
  // Cycle regularity
  // ---------------------------------------------------------------------------------------

  /** A log is measured when it has more than five flashes and its intervals have a
      positive mean; `len(intervals) > 0` follows from the first condition. */
  predicate Measured(log: seq<real>) {
    |log| > 5 && Mean(Diff(log)) > 0.0
  }

  /** `1.0 - cv`, where `cv` is the coefficient of variation of the intervals. */
  function Regularity(m: Math, log: seq<real>): (r: real)
    requires Measured(log)
    ensures Lawful(m) ==> r <= 1.0
  {
    var intervals := Diff(log);
    1.0 - Std(m, intervals) / Mean(intervals)
  }

  /** `cycle_times` after the first k logs: one regularity per measured log, in log order;
      none is above 1, since the spread of the intervals is never negative. */
  function Regularities(m: Math, logs: seq<seq<real>>, k: nat): (r: seq<real>)
    requires k <= |logs|
    ensures |r| <= k
    ensures Lawful(m) ==> AllAtMost(r, 1.0)
  {
    if k == 0 then []
    else Regularities(m, logs, k - 1) + (if Measured(logs[k - 1]) then [Regularity(m, logs[k - 1])] else [])
  }

  /** Nothing is collected exactly when none of the first k logs is measured. */
  lemma {:induction false} RegularitiesEmpty(m: Math, logs: seq<seq<real>>, k: nat)
    requires k <= |logs|
    ensures Regularities(m, logs, k) == [] <==> forall i :: 0 <= i < k ==> !Measured(logs[i])
  {
    if k > 0 {
      RegularitiesEmpty(m, logs, k - 1);
    }
  }

  /** The regularity is the 0.0 default exactly when no log is measured, and never above 1. */
  lemma RegularityDefault(m: Math, logs: seq<seq<real>>)
    ensures Regularities(m, logs, |logs|) == [] <==> forall i :: 0 <= i < |logs| ==> !Measured(logs[i])
    ensures Lawful(m) ==> MeanOrZero(Regularities(m, logs, |logs|)) <= 1.0
  {
    var r := Regularities(m, logs, |logs|);
    RegularitiesEmpty(m, logs, |logs|);
    if Lawful(m) && r != [] {
      MeanAtMost(r, 1.0);
    }
  }

  /** A strictly increasing log, such as every flash log the simulation writes, is measured
      as soon as it has more than five entries: its mean interval is positive. */
  lemma IncreasingMeasured(log: seq<real>)
    requires StrictlyIncreasing(log) && |log| > 5
    ensures Measured(log)
  {
    var intervals := Diff(log);
    SumDiffTelescopes(log);
    assert log[0] < log[|log| - 1];
    assert Sum(intervals) > 0.0;
    assert (|intervals| as real) > 0.0;
  }

  /** `calculate_cycle_regularity(flash_times)`. */
  method CycleRegularity(m: Math, logs: seq<seq<real>>) returns (r: real)
    ensures r == MeanOrZero(Regularities(m, logs, |logs|))
  {
    var cycleTimes: seq<real> := [];
    for i := 0 to |logs|
      invariant cycleTimes == Regularities(m, logs, i)
    {
      var log := logs[i];
      if |log| > 5 {
        var intervals := Diff(log);
        if |intervals| > 0 && Mean(intervals) > 0.0 {
          var cv := Std(m, intervals) / Mean(intervals);
          cycleTimes := cycleTimes + [1.0 - cv];
        }
      }
    }
    if cycleTimes == [] {
      return 0.0;
    }
    r := Mean(cycleTimes);
  }

  // ---------------------------------------------------------------------------------------
  // Spatial coherence
  // ---------------------------------------------------------------------------------------

  /** `min(log, key=lambda t: abs(t - x))` as an index: the first entry closest to x. */
  function Nearest(log: seq<real>, x: real): (r: nat)
    requires log != []
    ensures r < |log|
    ensures forall k :: 0 <= k < |log| ==> Abs(log[r] - x) <= Abs(log[k] - x)
    ensures forall k :: 0 <= k < r ==> Abs(log[k] - x) > Abs(log[r] - x)
  {
    if |log| == 1 then 0
    else
      var p := Nearest(log[..|log| - 1], x);
      if Abs(log[|log| - 1] - x) < Abs(log[p] - x) then |log| - 1 else p
  }

  /** For every flash of `own`, how far the closest flash of `other` is from it. */
  function NeighbourDiffs(own: seq<real>, other: seq<real>): (r: seq<real>)
    requires other != []
    ensures |r| == |own|
    ensures forall k :: 0 <= k < |own| ==> r[k] == Abs(own[k] - other[Nearest(other, own[k])])
  {
    seq(|own|, k requires 0 <= k < |own| => Abs(own[k] - other[Nearest(other, own[k])]))
  }

  /** `neighbor_diffs` for agent i over the listed neighbours: neighbours with fewer than
      three flashes are skipped. */
  function Diffs(logs: seq<seq<real>>, i: nat, nearby: seq<nat>): (r: seq<real>)
    requires i < |logs| && forall k :: 0 <= k < |nearby| ==> nearby[k] < |logs|
    ensures AllNonNegative(r)
  {
    if nearby == [] then []
    else
      var j := nearby[|nearby| - 1];
      Diffs(logs, i, nearby[..|nearby| - 1]) + (if |logs[j]| < 3 then [] else NeighbourDiffs(logs[i], logs[j]))
  }

  /** An agent with a non-empty log collects differences exactly when one of the listed
      neighbours has at least three flashes. */
  lemma {:induction false} DiffsEmpty(logs: seq<seq<real>>, i: nat, nearby: seq<nat>)
    requires i < |logs| && logs[i] != [] && forall k :: 0 <= k < |nearby| ==> nearby[k] < |logs|
    ensures Diffs(logs, i, nearby) == [] <==> forall k :: 0 <= k < |nearby| ==> |logs[nearby[k]]| < 3
  {
    if nearby != [] {
      var init := nearby[..|nearby| - 1];
      DiffsEmpty(logs, i, init);
      assert forall k :: 0 <= k < |init| ==> init[k] == nearby[k];
    }
  }

  /** The agents j != i closer than the threshold, in increasing order. */
  function Nearby(dist: seq<real>, i: nat): (r: seq<nat>)
    ensures forall k :: 0 <= k < |r| ==> r[k] < |dist|
  {
    Where(Adjacency(dist, i))
  }

  /** Agent i's `neighbor_diffs`, empty when it has fewer than three flashes. */
  function AgentDiffs(logs: seq<seq<real>>, dist: Matrix, i: nat): (r: seq<real>)
    requires Square(dist, |logs|) && i < |logs|
    ensures AllNonNegative(r)
  {
    if |logs[i]| < 3 then [] else Diffs(logs, i, Nearby(dist[i], i))
  }

  /** Agent i contributes exactly when it has at least three flashes and some other agent
      closer than the threshold also has at least three. */
  lemma Contributes(logs: seq<seq<real>>, dist: Matrix, i: nat)
    requires Square(dist, |logs|) && i < |logs|
    ensures AgentDiffs(logs, dist, i) != [] <==>
      |logs[i]| >= 3 && exists j :: 0 <= j < |logs| && j != i && dist[i][j] < ThresholdDistance && |logs[j]| >= 3
  {
    if |logs[i]| >= 3 {
      var nearby := Nearby(dist[i], i);
      DiffsEmpty(logs, i, nearby);
      if j :| 0 <= j < |logs| && j != i && dist[i][j] < ThresholdDistance && |logs[j]| >= 3 {
        WhereComplete(Adjacency(dist[i], i), j);
        var k :| 0 <= k < |nearby| && nearby[k] == j;
      }
      if AgentDiffs(logs, dist, i) != [] {
        var k :| 0 <= k < |nearby| && |logs[nearby[k]]| >= 3;
        assert Adjacency(dist[i], i)[nearby[k]];
      }
    }
  }

  /** Every agent's `neighbor_diffs`, in agent order. */
  function PerAgent(logs: seq<seq<real>>, dist: Matrix): (r: seq<seq<real>>)
    requires Square(dist, |logs|)
    ensures |r| == |logs| && forall i :: 0 <= i < |logs| ==> r[i] == AgentDiffs(logs, dist, i)
    ensures forall i :: 0 <= i < |logs| ==> AllNonNegative(r[i])
  {
    seq(|logs|, i requires 0 <= i < |logs| => AgentDiffs(logs, dist, i))
  }

  /** The non-empty lists among the first k, in order: the agents that contribute. */
  function NonEmpty(lists: seq<seq<real>>, k: nat): (r: seq<seq<real>>)
    requires k <= |lists|
    ensures |r| <= k
  {
    if k == 0 then []
    else NonEmpty(lists, k - 1) + (if |lists[k - 1]| == 0 then [] else [lists[k - 1]])
  }

  /** Nothing is kept exactly when all of the first k lists are empty. */
  lemma {:induction false} NonEmptyNone(lists: seq<seq<real>>, k: nat)
    requires k <= |lists|
    ensures |NonEmpty(lists, k)| == 0 <==> forall i :: 0 <= i < k ==> |lists[i]| == 0
  {
    if k > 0 {
      NonEmptyNone(lists, k - 1);
    }
  }

  /** Lists of differences a coherence can be computed from: non-empty and non-negative. */
  predicate Measurable(lists: seq<seq<real>>) {
    forall c :: 0 <= c < |lists| ==> |lists[c]| > 0 && AllNonNegative(lists[c])
  }

  /** The kept lists are non-empty, and non-negative when all lists are. */
  lemma {:induction false} NonEmptyMeasurable(lists: seq<seq<real>>, k: nat)
    requires k <= |lists| && forall i :: 0 <= i < |lists| ==> AllNonNegative(lists[i])
    ensures Measurable(NonEmpty(lists, k))
  {
    if k > 0 {
      NonEmptyMeasurable(lists, k - 1);
    }
  }

  /** `1.0 / (1.0 + np.mean(neighbor_diffs))`. */
  function Coherence(diffs: seq<real>): (r: real)
    requires |diffs| > 0 && AllNonNegative(diffs)
    ensures 0.0 < r <= 1.0
  {
    MeanNonNegative(diffs);
    1.0 / (1.0 + Mean(diffs))
  }

  /** `spatial_coherence`: one coherence per contribution, each in (0, 1]. */
  function Coherences(lists: seq<seq<real>>): (r: seq<real>)
    requires Measurable(lists)
    ensures |r| == |lists| && forall c :: 0 <= c < |lists| ==> r[c] == Coherence(lists[c])
    ensures AllAtMost(r, 1.0) && forall c :: 0 <= c < |r| ==> r[c] > 0.0
  {
    seq(|lists|, c requires 0 <= c < |lists| => Coherence(lists[c]))
  }

  /** A new contribution adds its coherence at the end. */
  lemma CoherencesAppend(lists: seq<seq<real>>, diffs: seq<real>)
    requires Measurable(lists)
    requires |diffs| > 0 && AllNonNegative(diffs)
    ensures Coherences(lists + [diffs]) == Coherences(lists) + [Coherence(diffs)]
  {
    var l := lists + [diffs];
    assert forall c :: 0 <= c < |lists| ==> l[c] == lists[c];
  }

  /** The measure over every agent's differences: the mean coherence of the contributing
      agents, or 0.0 when none contributes. */
  function SpatialOf(lists: seq<seq<real>>): real
    requires forall i :: 0 <= i < |lists| ==> AllNonNegative(lists[i])
  {
    NonEmptyMeasurable(lists, |lists|);
    MeanOrZero(Coherences(NonEmpty(lists, |lists|)))
  }

  /** The spatial coherence is the 0.0 default when no agent collects a difference, and
      otherwise a mean of values in (0, 1], so itself in (0, 1]. */
  lemma SpatialDefault(lists: seq<seq<real>>)
    requires forall i :: 0 <= i < |lists| ==> AllNonNegative(lists[i])
    ensures (forall i :: 0 <= i < |lists| ==> |lists[i]| == 0) ==> SpatialOf(lists) == 0.0
    ensures (exists i :: 0 <= i < |lists| && |lists[i]| > 0) ==> 0.0 < SpatialOf(lists) <= 1.0
  {
    NonEmptyNone(lists, |lists|);
    NonEmptyMeasurable(lists, |lists|);
    var r := Coherences(NonEmpty(lists, |lists|));
    if r != [] {
      MeanAtMost(r, 1.0);
      SumPositive(r, 0);
    }
  }

  /** The innermost loop: the distance from each of `own`'s flashes to the closest flash of `other`. */
  method CompareFlashes(own: seq<real>, other: seq<real>) returns (diffs: seq<real>)
    requires other != []
    ensures diffs == NeighbourDiffs(own, other)
  {
    diffs := [];
    for a := 0 to |own|
      invariant diffs == NeighbourDiffs(own, other)[..a]
    {
      var nearest := other[Nearest(other, own[a])];
      diffs := diffs + [Abs(own[a] - nearest)];
    }
  }

  /** One agent's `neighbor_diffs`, collected over its neighbours. */
  method CollectDiffs(logs: seq<seq<real>>, i: nat, nearby: seq<nat>) returns (diffs: seq<real>)
    requires i < |logs| && forall k :: 0 <= k < |nearby| ==> nearby[k] < |logs|
    ensures diffs == Diffs(logs, i, nearby)
  {
    diffs := [];
    for k := 0 to |nearby|
      invariant diffs == Diffs(logs, i, nearby[..k])
    {
      TakeStep(nearby, k);
      var j := nearby[k];
      if |logs[j]| >= 3 {
        var more := CompareFlashes(logs[i], logs[j]);
        diffs := diffs + more;
      }
    }
    TakeAll(nearby);
  }

  /** One agent's turn of the loop: a non-empty list adds its coherence, an empty one nothing. */
  lemma SpatialStep(all: seq<seq<real>>, i: nat, lists: seq<seq<real>>, coherences: seq<real>)
    requires i < |all| && forall k :: 0 <= k < |all| ==> AllNonNegative(all[k])
    requires lists == NonEmpty(all, i) && Measurable(lists) && coherences == Coherences(lists)
    ensures |all[i]| == 0 ==> NonEmpty(all, i + 1) == lists
    ensures |all[i]| > 0 ==>
      NonEmpty(all, i + 1) == lists + [all[i]] && Measurable(lists + [all[i]])
      && Coherences(lists + [all[i]]) == coherences + [Coherence(all[i])]
  {
    if |all[i]| > 0 {
      CoherencesAppend(lists, all[i]);
    }
  }

  /** An agent without three flashes or without neighbours collects nothing. */
  lemma AgentDiffsCases(logs: seq<seq<real>>, dist: Matrix, i: nat)
    requires Square(dist, |logs|) && i < |logs|
    ensures |logs[i]| < 3 || Nearby(dist[i], i) == [] ==> AgentDiffs(logs, dist, i) == []
    ensures |logs[i]| >= 3 ==> AgentDiffs(logs, dist, i) == Diffs(logs, i, Nearby(dist[i], i))
  {
  }

  /** Agent i's turn of `calculate_spatial_coherence` up to its `neighbor_diffs`: agents with
      fewer than three flashes or without neighbours collect nothing. */
  method AgentNeighbourDiffs(logs: seq<seq<real>>, dist: Matrix, i: nat) returns (diffs: seq<real>)
    requires Square(dist, |logs|) && i < |logs|
    ensures diffs == AgentDiffs(logs, dist, i)
  {
    AgentDiffsCases(logs, dist, i);
    diffs := [];
    if |logs[i]| >= 3 {
      var nearby := Nearby(dist[i], i);
      if nearby != [] {
        diffs := CollectDiffs(logs, i, nearby);
      }
    }
  }

  /** The loop of `calculate_spatial_coherence`: `spatial_coherence`, one coherence per
      contributing agent, in agent order. */
  method CollectCoherences(logs: seq<seq<real>>, dist: Matrix) returns (coherences: seq<real>)
    requires Square(dist, |logs|)
    ensures Measurable(NonEmpty(PerAgent(logs, dist), |logs|))
    ensures coherences == Coherences(NonEmpty(PerAgent(logs, dist), |logs|))
  {
    coherences := [];
    ghost var lists: seq<seq<real>> := [];
    ghost var all := PerAgent(logs, dist);
    for i := 0 to |logs|
      invariant lists == NonEmpty(all, i) && Measurable(lists) && coherences == Coherences(lists)
    {
      var diffs := AgentNeighbourDiffs(logs, dist, i);
      SpatialStep(all, i, lists, coherences);
      if diffs != [] {
        coherences := coherences + [Coherence(diffs)];
        lists := lists + [diffs];
      }
    }
  }

  /** `calculate_spatial_coherence(flash_times)` with the run's distance matrix. */
  method SpatialCoherence(logs: seq<seq<real>>, dist: Matrix) returns (r: real)
    requires Square(dist, |logs|)
    ensures r == SpatialOf(PerAgent(logs, dist))
  {
    var coherences := CollectCoherences(logs, dist);
    if coherences == [] {
      return 0.0;
    }
    r := Mean(coherences);
  }

  // ---------------------------------------------------------------------------------------
  // Phase transitions
  // ---------------------------------------------------------------------------------------

  /** The order parameter must rise by more than this in one step. */
  const StepThreshold: real := 0.01
  /** ... and by more than this over the two steps around the point. */
  const SpanThreshold: real := 0.05

  /** `d_order > threshold`. */
  function Rising(d: seq<real>): (mask: seq<bool>)
    ensures |mask| == |d| && forall p :: 0 <= p < |d| ==> mask[p] == (d[p] > StepThreshold)
  {
    seq(|d|, p requires 0 <= p < |d| => d[p] > StepThreshold)
  }

  /** The filter applied to each rising point. */
  predicate Confirmed(order: seq<real>, p: nat) {
    p > 0 && p + 1 < |order| && order[p + 1] - order[p - 1] > SpanThreshold
  }

  /** The listed points that pass the filter, in their listed order. */
  function Filter(order: seq<real>, points: seq<nat>): (r: seq<nat>)
    ensures |r| <= |points|
    ensures forall k :: 0 <= k < |r| ==> Confirmed(order, r[k])
  {
    if points == [] then []
    else
      var p := points[|points| - 1];
      Filter(order, points[..|points| - 1]) + (if Confirmed(order, p) then [p] else [])
  }

  /** Only listed points are kept. */
  lemma {:induction false} FilterSound(order: seq<real>, points: seq<nat>)
    ensures forall k :: 0 <= k < |Filter(order, points)| ==> Filter(order, points)[k] in points
  {
    if points != [] {
      var init := points[..|points| - 1];
      FilterSound(order, init);
      var r, R := Filter(order, init), Filter(order, points);
      forall k | 0 <= k < |R|
        ensures R[k] in points
      {
        if k < |r| {
          var a :| 0 <= a < |init| && init[a] == r[k];
          assert points[a] == init[a];
        }
      }
    }
  }

  /** Every listed point that passes the filter is kept. */
  lemma {:induction false} FilterComplete(order: seq<real>, points: seq<nat>, p: nat)
    requires p in points && Confirmed(order, p)
    ensures p in Filter(order, points)
  {
    var init := points[..|points| - 1];
    if p != points[|points| - 1] {
      var a :| 0 <= a < |points| && points[a] == p;
      assert init[a] == p;
      FilterComplete(order, init, p);
      var k :| 0 <= k < |Filter(order, init)| && Filter(order, init)[k] == p;
      assert Filter(order, points)[k] == p;
    } else {
      assert Filter(order, points)[|Filter(order, points)| - 1] == p;
    }
  }

  predicate Increasing(s: seq<nat>) {
    forall a, b :: 0 <= a < b < |s| ==> s[a] < s[b]
  }

  /** Filtering an increasing list keeps it increasing. */
  lemma {:induction false} FilterIncreasing(order: seq<real>, points: seq<nat>)
    requires Increasing(points)
    ensures Increasing(Filter(order, points))
  {
    if points != [] {
      var init, last := points[..|points| - 1], points[|points| - 1];
      FilterIncreasing(order, init);
      FilterSound(order, init);
      var r, R := Filter(order, init), Filter(order, points);
      forall k | 0 <= k < |r|
        ensures r[k] < last
      {
        var a :| 0 <= a < |init| && init[a] == r[k];
        assert points[a] == init[a];
      }
      assert R == r + (if Confirmed(order, last) then [last] else []);
      forall a, b | 0 <= a < b < |R|
        ensures R[a] < R[b]
      {
        if b < |r| {
          assert R[a] == r[a] && R[b] == r[b];
        } else {
          assert R[a] == r[a] && R[b] == last;
        }
      }
    }
  }

  /** The points of a significant transition: the one-step rise exceeds the step threshold,
      the point is interior and the two-step rise exceeds the span threshold. */
  predicate Significant(order: seq<real>, p: nat) {
    p + 1 < |order| && order[p + 1] - order[p] > StepThreshold && Confirmed(order, p)
  }

  /** `significant_k` (or `significant_i`) for an order-parameter series. */
  function Transitions(order: seq<real>): seq<nat> {
    Filter(order, Where(Rising(Diff(order))))
  }

  /** Only significant points are returned. */
  lemma TransitionsSound(order: seq<real>, p: nat)
    requires p in Transitions(order)
    ensures Significant(order, p)
  {
    var d := Diff(order);
    var points := Where(Rising(d));
    FilterSound(order, points);
    var k :| 0 <= k < |points| && points[k] == p;
    assert Rising(d)[p];
  }

  /** Every significant point is returned. */
  lemma TransitionsComplete(order: seq<real>, p: nat)
    requires Significant(order, p)
    ensures p in Transitions(order)
  {
    var d := Diff(order);
    assert d[p] == order[p + 1] - order[p];
    WhereComplete(Rising(d), p);
    FilterComplete(order, Where(Rising(d)), p);
  }

  /** Exactly the significant points are returned, in increasing order. */
  lemma TransitionsExact(order: seq<real>)
    ensures Increasing(Transitions(order))
    ensures forall p: nat :: p in Transitions(order) <==> Significant(order, p)
  {
    FilterIncreasing(order, Where(Rising(Diff(order))));
    forall p: nat
      ensures p in Transitions(order) <==> Significant(order, p)
    {
      if p in Transitions(order) {
        TransitionsSound(order, p);
      }
      if Significant(order, p) {
        TransitionsComplete(order, p);
      }
    }
  }

  /** The filtering loop of `calculate_phase_transitions` for one series. */
  method SignificantPoints(order: seq<real>) returns (significant: seq<nat>)
    ensures significant == Transitions(order)
  {
    var points := Where(Rising(Diff(order)));
    significant := [];
    for k := 0 to |points|
      invariant significant == Filter(order, points[..k])
    {
      TakeStep(points, k);
      var p := points[k];
      if p > 0 && p + 1 < |order| && order[p + 1] - order[p - 1] > SpanThreshold {
        significant := significant + [p];
      }
    }
    TakeAll(points);
  }

  /** `calculate_phase_transitions()`: the times of the significant transitions of both
      series, `[times[p] for p in points]` written as `Gather(times, points)`. */
  method PhaseTransitions(orderK: seq<real>, orderI: seq<real>, times: seq<real>)
    returns (kuramoto: seq<real>, ire: seq<real>)
    requires |orderK| == |times| && |orderI| == |times|
    ensures kuramoto == Gather(times, Transitions(orderK))
    ensures ire == Gather(times, Transitions(orderI))
  {
    var pk := SignificantPoints(orderK);
    var pi := SignificantPoints(orderI);
    kuramoto := Gather(times, pk);
    ire := Gather(times, pi);
  }
}
