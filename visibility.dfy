/** The two interaction graphs of `update_visibility`: one row per agent,
    computed from that agent's distances and bearings. */
module Visibility {
  import opened MathModel

  type Matrix = seq<seq<real>>

  predicate Square(a: Matrix, n: nat) {
    |a| == n && forall i :: 0 <= i < n ==> |a[i]| == n
  }

  function ZeroRow(n: nat): (r: seq<real>)
    ensures |r| == n && forall j :: 0 <= j < n ==> r[j] == 0.0
  {
    seq(n, _ => 0.0)
  }

  /** `np.zeros((n, n))`. */
  function ZeroMatrix(n: nat): (a: Matrix)
    ensures Square(a, n) && forall i :: 0 <= i < n ==> a[i] == ZeroRow(n)
  {
    seq(n, _ => ZeroRow(n))
  }

  /** A row of a visibility graph: no negative weight, and the weights sum to one or are all zero. */
  predicate Stochastic(r: seq<real>) {
    AllNonNegative(r) && (Sum(r) == 1.0 || forall j :: 0 <= j < |r| ==> r[j] == 0.0)
  }

  /** Pairwise distances, d[i][j] = |p_i - p_j|, from the position columns. */
  function Distances(m: Math, xs: seq<real>, ys: seq<real>): (d: Matrix)
    requires |xs| == |ys|
    ensures Square(d, |xs|)
    ensures forall i, j :: 0 <= i < |xs| && 0 <= j < |xs| ==> d[i][j] == d[j][i]
    ensures Lawful(m) ==> forall i :: 0 <= i < |xs| ==> d[i][i] == 0.0
    ensures Lawful(m) ==> forall i, j :: 0 <= i < |xs| && 0 <= j < |xs| ==> d[i][j] >= 0.0
  {
    seq(|xs|, i requires 0 <= i < |xs| =>
      seq(|xs|, j requires 0 <= j < |xs| => m.sqrt(Sq(xs[i] - xs[j]) + Sq(ys[i] - ys[j]))))
  }

  /** The angles as the source computes them: of p_i - p_j, which points from j towards i. */
  function AnglesAsWritten(m: Math, xs: seq<real>, ys: seq<real>): (a: Matrix)
    requires |xs| == |ys|
    ensures Square(a, |xs|)
    ensures forall i, j :: 0 <= i < |xs| && 0 <= j < |xs| ==> a[i][j] == m.atan2(ys[i] - ys[j], xs[i] - xs[j])
  {
    seq(|xs|, i requires 0 <= i < |xs| =>
      seq(|xs|, j requires 0 <= j < |xs| => m.atan2(ys[i] - ys[j], xs[i] - xs[j])))
  }

  /** The bearing from agent i towards agent j: the angle of p_j - p_i. */
  function Bearings(m: Math, xs: seq<real>, ys: seq<real>): (a: Matrix)
    requires |xs| == |ys|
    ensures Square(a, |xs|)
    ensures forall i, j :: 0 <= i < |xs| && 0 <= j < |xs| ==> a[i][j] == m.atan2(ys[j] - ys[i], xs[j] - xs[i])
  {
    seq(|xs|, i requires 0 <= i < |xs| =>
      seq(|xs|, j requires 0 <= j < |xs| => m.atan2(ys[j] - ys[i], xs[j] - xs[i])))
  }

  function CountTrue(mask: seq<bool>): (c: nat)
    ensures c <= |mask|
  {
    if mask == [] then 0 else CountTrue(mask[..|mask| - 1]) + (if mask[|mask| - 1] then 1 else 0)
  }

  /** A boolean array used as numbers: 1.0 where true, 0.0 where false. */
  function Indicator(mask: seq<bool>): (r: seq<real>)
    ensures |r| == |mask|
    ensures forall j :: 0 <= j < |mask| ==> r[j] == if mask[j] then 1.0 else 0.0
  {
    seq(|mask|, j requires 0 <= j < |mask| => if mask[j] then 1.0 else 0.0)
  }

  /** Element-wise division of a row by a scalar. */
  function DivideBy(w: seq<real>, s: real): (r: seq<real>)
    requires s != 0.0
    ensures |r| == |w|
    ensures forall j :: 0 <= j < |w| ==> r[j] == w[j] / s
  {
    seq(|w|, j requires 0 <= j < |w| => w[j] / s)
  }

  /** The agents at non-zero distance: every agent but i itself and agents sharing its position. */
  function Others(dist: seq<real>): (mask: seq<bool>)
    ensures |mask| == |dist|
    ensures forall j :: 0 <= j < |dist| ==> mask[j] == (dist[j] > 0.0)
  {
    seq(|dist|, j requires 0 <= j < |dist| => dist[j] > 0.0)
  }

  /** Global coupling: uniform weight over the agents at non-zero distance. */
  function BaselineRow(dist: seq<real>): (r: seq<real>)
    ensures |r| == |dist|
  {
    var visible := Others(dist);
    var count := CountTrue(visible);
    if count > 0 then DivideBy(Indicator(visible), count as real) else ZeroRow(|dist|)
  }

  /** The view-cone test on a relative angle in degrees. */
  predicate InView(deg: real, visionAngle: real) {
    deg <= visionAngle / 2.0 || deg >= 360.0 - visionAngle / 2.0
  }

  /** The relative angle from an agent's orientation to an angle, in degrees in [0, 360). */
  function RelativeDegrees(angle: real, orientation: real): (deg: real)
    ensures 0.0 <= deg < 360.0
  {
    Degrees(Mod2Pi(angle - orientation))
  }

  /** Agents that are in the view cone, within vision range and at non-zero distance. */
  function EnhancedMask(dist: seq<real>, angles: seq<real>, orientation: real, visionRange: real, visionAngle: real): (mask: seq<bool>)
    requires |angles| == |dist|
    ensures |mask| == |dist|
    ensures forall j :: 0 <= j < |dist| ==>
      mask[j] == (InView(RelativeDegrees(angles[j], orientation), visionAngle) && dist[j] <= visionRange && dist[j] > 0.0)
  {
    seq(|dist|, j requires 0 <= j < |dist| =>
      InView(RelativeDegrees(angles[j], orientation), visionAngle) && dist[j] <= visionRange && dist[j] > 0.0)
  }

  /** `np.exp(-distances[i]/10.0) * visible`. */
  function DecayWeights(m: Math, dist: seq<real>, mask: seq<bool>): (w: seq<real>)
    requires |mask| == |dist|
    ensures |w| == |dist|
    ensures forall j :: 0 <= j < |dist| ==> w[j] == m.exp(-dist[j] / 10.0) * (if mask[j] then 1.0 else 0.0)
  {
    seq(|dist|, j requires 0 <= j < |dist| => m.exp(-dist[j] / 10.0) * (if mask[j] then 1.0 else 0.0))
  }

  /** Bounded coupling: exponential distance decay over the visible agents, row-normalised. */
  function EnhancedRow(m: Math, dist: seq<real>, angles: seq<real>, orientation: real, visionRange: real, visionAngle: real): (r: seq<real>)
    requires |angles| == |dist|
    ensures |r| == |dist|
  {
    var visible := EnhancedMask(dist, angles, orientation, visionRange, visionAngle);
    if CountTrue(visible) > 0 then
      var weights := DecayWeights(m, dist, visible);
      var total := Sum(weights);
      if total > 0.0 then DivideBy(weights, total) else ZeroRow(|dist|)
    else
      ZeroRow(|dist|)
  }

  lemma {:induction false} SumIndicator(mask: seq<bool>)
    ensures Sum(Indicator(mask)) == CountTrue(mask) as real
  {
    if mask != [] {
      var init := mask[..|mask| - 1];
      SumIndicator(init);
      assert Indicator(mask)[..|mask| - 1] == Indicator(init);
    }
  }

  lemma {:induction false} SumDivideBy(w: seq<real>, s: real)
    requires s != 0.0
    ensures Sum(DivideBy(w, s)) == Sum(w) / s
  {
    if w != [] {
      var init, d := w[..|w| - 1], DivideBy(w, s);
      SumDivideBy(init, s);
      assert d[..|d| - 1] == DivideBy(init, s);
      assert Sum(d) == Sum(init) / s + w[|w| - 1] / s;
      DivideSum(Sum(init), w[|w| - 1], s);
    }
  }

  lemma DivideSum(a: real, b: real, s: real)
    requires s != 0.0
    ensures a / s + b / s == (a + b) / s
  {
  }

  lemma DivideByPositive(w: real, t: real)
    requires t > 0.0 && w >= 0.0
    ensures w / t >= 0.0 && (w / t > 0.0 <==> w > 0.0) && (w / t == 0.0 <==> w == 0.0)
  {
  }

  lemma DivideSelf(x: real)
    requires x != 0.0
    ensures x / x == 1.0
  {
  }

  lemma {:induction false} CountTruePositive(mask: seq<bool>, k: nat)
    requires k < |mask| && mask[k]
    ensures CountTrue(mask) > 0
  {
    if k < |mask| - 1 {
      CountTruePositive(mask[..|mask| - 1], k);
    }
  }

  lemma {:induction false} CountTrueZero(mask: seq<bool>)
    requires CountTrue(mask) == 0
    ensures forall j :: 0 <= j < |mask| ==> !mask[j]
  {
    forall j | 0 <= j < |mask| ensures !mask[j] {
      if mask[j] { CountTruePositive(mask, j); }
    }
  }

  /** The baseline row: weight 1/count to every agent at non-zero distance, none elsewhere,
      so it sums to one, or is all zero when no other agent is at non-zero distance. */
  lemma BaselineRowStochastic(dist: seq<real>)
    ensures var r := BaselineRow(dist);
      && (forall j :: 0 <= j < |dist| && dist[j] > 0.0 ==>
            CountTrue(Others(dist)) > 0 && r[j] == 1.0 / (CountTrue(Others(dist)) as real))
      && (forall j :: 0 <= j < |dist| && dist[j] <= 0.0 ==> r[j] == 0.0)
      && Stochastic(r)
      && ((exists j :: 0 <= j < |dist| && dist[j] > 0.0) <==> Sum(r) == 1.0)
  {
    var r := BaselineRow(dist);
    var visible := Others(dist);
    var count := CountTrue(visible);
    if count > 0 {
      var k :| 0 <= k < |dist| && visible[k] by {
        if forall j :: 0 <= j < |dist| ==> !visible[j] {
          CountTrueNone(visible);
        }
      }
      BaselineRowWeights(dist);
      BaselineRowSum(dist);
    } else {
      CountTrueZero(visible);
      assert r == ZeroRow(|dist|);
      SumZero(r);
      assert forall j :: 0 <= j < |dist| ==> !(dist[j] > 0.0);
    }
  }

  /** With some agent at non-zero distance, those agents get weight 1/count and the rest none. */
  lemma BaselineRowWeights(dist: seq<real>)
    requires CountTrue(Others(dist)) > 0
    ensures var r, c := BaselineRow(dist), CountTrue(Others(dist)) as real;
      forall j :: 0 <= j < |dist| ==> r[j] == if dist[j] > 0.0 then 1.0 / c else 0.0
  {
    var visible := Others(dist);
    var c := CountTrue(visible) as real;
    var r := BaselineRow(dist);
    assert r == DivideBy(Indicator(visible), c);
    forall j | 0 <= j < |dist|
      ensures r[j] == if dist[j] > 0.0 then 1.0 / c else 0.0
    {
      assert r[j] == Indicator(visible)[j] / c;
    }
  }

  /** With some agent at non-zero distance, the baseline row sums to one. */
  lemma BaselineRowSum(dist: seq<real>)
    requires CountTrue(Others(dist)) > 0
    ensures Sum(BaselineRow(dist)) == 1.0
  {
    var visible := Others(dist);
    var c := CountTrue(visible) as real;
    assert BaselineRow(dist) == DivideBy(Indicator(visible), c);
    SumDivideBy(Indicator(visible), c);
    SumIndicator(visible);
    DivideSelf(c);
  }

  lemma {:induction false} SumZero(r: seq<real>)
    requires forall j :: 0 <= j < |r| ==> r[j] == 0.0
    ensures Sum(r) == 0.0
  {
    if r != [] {
      SumZero(r[..|r| - 1]);
    }
  }

  /** The enhanced row: positive exactly on the visible agents and zero elsewhere, so never on
      the diagonal, never beyond the vision range and never outside the view cone; its weights
      sum to one, or it is all zero when no agent is visible. */
  lemma EnhancedRowStochastic(m: Math, dist: seq<real>, angles: seq<real>, orientation: real, visionRange: real, visionAngle: real)
    requires Lawful(m) && |angles| == |dist|
    ensures var r := EnhancedRow(m, dist, angles, orientation, visionRange, visionAngle);
      var visible := EnhancedMask(dist, angles, orientation, visionRange, visionAngle);
      && (forall j :: 0 <= j < |dist| ==> (r[j] > 0.0 <==> visible[j]))
      && (forall j :: 0 <= j < |dist| ==> (r[j] == 0.0 <==> !visible[j]))
      && Stochastic(r)
      && ((exists j :: 0 <= j < |dist| && visible[j]) <==> Sum(r) == 1.0)
  {
    var r := EnhancedRow(m, dist, angles, orientation, visionRange, visionAngle);
    var visible := EnhancedMask(dist, angles, orientation, visionRange, visionAngle);
    if CountTrue(visible) > 0 {
      var weights := DecayWeights(m, dist, visible);
      DecayWeightsPositive(m, dist, visible);
      var k :| 0 <= k < |dist| && visible[k] by {
        if forall j :: 0 <= j < |dist| ==> !visible[j] {
          CountTrueNone(visible);
        }
      }
      SumPositive(weights, k);
      var total := Sum(weights);
      assert r == DivideBy(weights, total);
      SumDivideBy(weights, total);
      DivideSelf(total);
      assert Sum(r) == 1.0;
      forall j | 0 <= j < |dist|
        ensures r[j] >= 0.0 && (r[j] > 0.0 <==> visible[j]) && (r[j] == 0.0 <==> !visible[j])
      {
        assert r[j] == weights[j] / total;
        DivideByPositive(weights[j], total);
      }
    } else {
      CountTrueZero(visible);
      assert r == ZeroRow(|dist|);
      SumZero(r);
    }
  }

  lemma DecayWeightsPositive(m: Math, dist: seq<real>, mask: seq<bool>)
    requires Lawful(m) && |mask| == |dist|
    ensures var w := DecayWeights(m, dist, mask);
      AllNonNegative(w) && forall j :: 0 <= j < |dist| ==> (w[j] > 0.0 <==> mask[j]) && (w[j] == 0.0 <==> !mask[j])
  {
    var w := DecayWeights(m, dist, mask);
    forall j | 0 <= j < |dist| ensures w[j] >= 0.0 && (w[j] > 0.0 <==> mask[j]) && (w[j] == 0.0 <==> !mask[j]) {
      assert m.exp(-dist[j] / 10.0) > 0.0;
    }
  }

  lemma {:induction false} CountTrueNone(mask: seq<bool>)
    requires forall j :: 0 <= j < |mask| ==> !mask[j]
    ensures CountTrue(mask) == 0
  {
    if mask != [] {
      CountTrueNone(mask[..|mask| - 1]);
    }
  }

  /** The baseline graph: row i is agent i's baseline row. */
  function BaselineGraph(dist: Matrix): (g: Matrix)
    ensures |g| == |dist| && forall i {:trigger g[i]} :: 0 <= i < |dist| ==> g[i] == BaselineRow(dist[i])
  {
    seq(|dist|, i requires 0 <= i < |dist| => BaselineRow(dist[i]))
  }

  /** The enhanced graph: row i is agent i's enhanced row for its own distances, bearings and orientation. */
  function EnhancedGraph(m: Math, dist: Matrix, angles: Matrix, orientation: seq<real>, visionRange: real, visionAngle: real): (g: Matrix)
    requires Square(dist, |orientation|) && Square(angles, |orientation|)
    ensures |g| == |dist| && forall i {:trigger g[i]} :: 0 <= i < |dist| ==>
      g[i] == EnhancedRow(m, dist[i], angles[i], orientation[i], visionRange, visionAngle)
  {
    seq(|dist|, i requires 0 <= i < |dist| => EnhancedRow(m, dist[i], angles[i], orientation[i], visionRange, visionAngle))
  }

  /** The `for i` loop of `update_visibility`: both graphs start as zero matrices and
      row i of each is replaced by agent i's baseline and enhanced row. */
  method BuildGraphs(m: Math, dist: Matrix, angles: Matrix, orientation: seq<real>, visionRange: real, visionAngle: real)
    returns (baseline: Matrix, enhanced: Matrix)
    requires Square(dist, |orientation|) && Square(angles, |orientation|)
    ensures Square(baseline, |orientation|) && Square(enhanced, |orientation|)
    ensures baseline == BaselineGraph(dist)
    ensures enhanced == EnhancedGraph(m, dist, angles, orientation, visionRange, visionAngle)
  {
    var n := |orientation|;
    baseline, enhanced := ZeroMatrix(n), ZeroMatrix(n);
    for i := 0 to n
      invariant Square(baseline, n) && Square(enhanced, n)
      invariant forall k :: 0 <= k < i ==> baseline[k] == BaselineRow(dist[k])
      invariant forall k :: 0 <= k < i ==>
        enhanced[k] == EnhancedRow(m, dist[k], angles[k], orientation[k], visionRange, visionAngle)
    {
      baseline := baseline[i := BaselineRow(dist[i])];
      enhanced := enhanced[i := EnhancedRow(m, dist[i], angles[i], orientation[i], visionRange, visionAngle)];
    }
    assert baseline == BaselineGraph(dist);
    assert enhanced == EnhancedGraph(m, dist, angles, orientation, visionRange, visionAngle);
  }

  // Finding: the view cone is measured on the wrong displacement.

  /** As written, an agent straight ahead of agent 0, at distance one, gets no enhanced weight:
      atan2(0, -1) is pi, i.e. 180 degrees, outside the 270-degree cone. */
  lemma AheadHiddenAsWritten(m: Math)
    requires Lawful(m)
    ensures var xs, ys := [0.0, 1.0], [0.0, 0.0];
      var d := Distances(m, xs, ys);
      && d[0][1] == 1.0
      && !EnhancedMask(d[0], AnglesAsWritten(m, xs, ys)[0], 0.0, 15.0, 270.0)[1]
      && EnhancedRow(m, d[0], AnglesAsWritten(m, xs, ys)[0], 0.0, 15.0, 270.0)[1] == 0.0
  {
    var xs, ys := [0.0, 1.0], [0.0, 0.0];
    var d := Distances(m, xs, ys);
    var a := AnglesAsWritten(m, xs, ys);
    assert Sq(xs[0] - xs[1]) + Sq(ys[0] - ys[1]) == 1.0;
    assert a[0][1] == m.atan2(0.0, -1.0) == Pi;
    Mod2PiOf(Pi - 0.0, 0, Pi);
    assert RelativeDegrees(a[0][1], 0.0) == 180.0;
    EnhancedRowStochastic(m, d[0], a[0], 0.0, 15.0, 270.0);
  }

  /** With the bearing from i towards j, an agent within range that lies exactly in the
      direction agent i is facing is always visible and gets a positive weight. */
  lemma AheadVisible(m: Math, xs: seq<real>, ys: seq<real>, orientation: real, visionRange: real, visionAngle: real, i: nat, j: nat)
    requires Lawful(m) && |xs| == |ys| && i < |xs| && j < |xs| && visionAngle >= 0.0
    requires Bearings(m, xs, ys)[i][j] == orientation
    requires 0.0 < Distances(m, xs, ys)[i][j] <= visionRange
    ensures EnhancedMask(Distances(m, xs, ys)[i], Bearings(m, xs, ys)[i], orientation, visionRange, visionAngle)[j]
    ensures EnhancedRow(m, Distances(m, xs, ys)[i], Bearings(m, xs, ys)[i], orientation, visionRange, visionAngle)[j] > 0.0
  {
    var d, b := Distances(m, xs, ys), Bearings(m, xs, ys);
    Mod2PiOf(0.0, 0, 0.0);
    assert RelativeDegrees(b[i][j], orientation) == 0.0;
    EnhancedRowStochastic(m, d[i], b[i], orientation, visionRange, visionAngle);
  }

  /** With the bearing, the same agent straight ahead of agent 0 takes all of agent 0's weight. */
  lemma AheadVisibleExample(m: Math)
    requires Lawful(m)
    ensures var xs, ys := [0.0, 1.0], [0.0, 0.0];
      var d := Distances(m, xs, ys);
      EnhancedRow(m, d[0], Bearings(m, xs, ys)[0], 0.0, 15.0, 270.0) == [0.0, 1.0]
  {
    var xs, ys := [0.0, 1.0], [0.0, 0.0];
    var d := Distances(m, xs, ys);
    var b := Bearings(m, xs, ys);
    assert Sq(xs[1] - xs[0]) + Sq(ys[1] - ys[0]) == 1.0;
    assert b[0][1] == m.atan2(0.0, 1.0) == 0.0;
    AheadVisible(m, xs, ys, 0.0, 15.0, 270.0, 0, 1);
    var r := EnhancedRow(m, d[0], b[0], 0.0, 15.0, 270.0);
    EnhancedRowStochastic(m, d[0], b[0], 0.0, 15.0, 270.0);
    assert r[0] == 0.0;
    assert Sum(r) == 1.0;
    assert r[..1] == [r[0]];
    assert Sum(r[..1]) == r[0];
    assert r == [0.0, 1.0];
  }
}
