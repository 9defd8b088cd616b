/** The local part of `calculate_multi_scale_sync`: the mean order parameter of the
    neighbourhoods of the agents that have more than two close neighbours. */
module MultiScale {
  import opened MathModel
  import opened Visibility
  import opened Dynamics

  /** Agents closer than this are neighbours. */
  const ThresholdDistance: real := 10.0

  /** `np.where(mask)[0]`: the indices where the mask holds, in increasing order. */
  function Where(mask: seq<bool>): (idx: seq<nat>)
    ensures |idx| == CountTrue(mask)
    ensures forall k :: 0 <= k < |idx| ==> idx[k] < |mask| && mask[idx[k]]
    ensures forall a, b :: 0 <= a < b < |idx| ==> idx[a] < idx[b]
  {
    if mask == [] then []
    else Where(mask[..|mask| - 1]) + (if mask[|mask| - 1] then [|mask| - 1] else [])
  }

  /** Every index where the mask holds is listed. */
  lemma {:induction false} WhereComplete(mask: seq<bool>, j: nat)
    requires j < |mask| && mask[j]
    ensures j in Where(mask)
  {
    var init := mask[..|mask| - 1];
    if j < |mask| - 1 {
      WhereComplete(init, j);
      var k :| 0 <= k < |Where(init)| && Where(init)[k] == j;
      assert Where(mask)[k] == j;
    } else {
      assert Where(mask)[|Where(mask)| - 1] == j;
    }
  }

  /** Row i of the adjacency matrix `distances < 10` with its diagonal cleared. */
  function Adjacency(dist: seq<real>, i: nat): (mask: seq<bool>)
    ensures |mask| == |dist|
    ensures forall j :: 0 <= j < |dist| ==> mask[j] == (j != i && dist[j] < ThresholdDistance)
  {
    seq(|dist|, j requires 0 <= j < |dist| => j != i && dist[j] < ThresholdDistance)
  }

  /** An agent's neighbourhood is measured only when it has at least three neighbours. */
  predicate Qualifies(dist: seq<real>, i: nat) {
    CountTrue(Adjacency(dist, i)) > 2
  }

  /** The entries of `xs` at the listed indices, in list order: `xs[idx]` with an index
      array, such as `phases[np.append(neighbors, i)]`. */
  function Gather(xs: seq<real>, idx: seq<nat>): (r: seq<real>)
    requires forall k :: 0 <= k < |idx| ==> idx[k] < |xs|
    ensures |r| == |idx| && forall k :: 0 <= k < |idx| ==> r[k] == xs[idx[k]]
  {
    seq(|idx|, k requires 0 <= k < |idx| => xs[idx[k]])
  }

  /** The phases of agent i's neighbours followed by agent i's own phase. */
  function Group(phases: seq<real>, dist: seq<real>, i: nat): (g: seq<real>)
    requires |dist| == |phases| && i < |phases|
    ensures |g| == |Where(Adjacency(dist, i))| + 1 && g[|g| - 1] == phases[i]
  {
    Gather(phases, Where(Adjacency(dist, i)) + [i])
  }

  /** The local order parameters collected for agents 0 .. k-1, in agent order. */
  function LocalOrders(m: Math, dist: Matrix, phases: seq<real>, k: nat): (r: seq<real>)
    requires Square(dist, |phases|) && k <= |phases|
    ensures |r| <= k
    ensures Lawful(m) ==> AllNonNegative(r)
  {
    if k == 0 then []
    else
      LocalOrders(m, dist, phases, k - 1)
        + (if Qualifies(dist[k - 1], k - 1) then [OrderParameter(m, Group(phases, dist[k - 1], k - 1))] else [])
  }

  /** `np.mean(xs) if xs else 0`. */
  function MeanOrZero(s: seq<real>): real {
    if s == [] then 0.0 else Mean(s)
  }

  /** Whether each of the agents 0 .. k-1 qualifies. */
  function QualifyingMask(dist: Matrix, k: nat): (mask: seq<bool>)
    requires |dist| >= k
    ensures |mask| == k && forall i :: 0 <= i < k ==> mask[i] == Qualifies(dist[i], i)
  {
    seq(k, i requires 0 <= i < k => Qualifies(dist[i], i))
  }

  /** One local order parameter is collected per qualifying agent. */
  lemma {:induction false} LocalOrdersCount(m: Math, dist: Matrix, phases: seq<real>, k: nat)
    requires Square(dist, |phases|) && k <= |phases|
    ensures |LocalOrders(m, dist, phases, k)| == CountTrue(QualifyingMask(dist, k))
  {
    if k > 0 {
      LocalOrdersCount(m, dist, phases, k - 1);
      var mask := QualifyingMask(dist, k);
      assert mask[..k - 1] == QualifyingMask(dist, k - 1);
      assert CountTrue(mask) == CountTrue(mask[..k - 1]) + (if mask[k - 1] then 1 else 0);
    }
  }

  /** The local synchrony is the 0 default exactly when no agent qualifies, and it is never negative. */
  lemma LocalSyncDefault(m: Math, dist: Matrix, phases: seq<real>)
    requires Square(dist, |phases|)
    ensures LocalOrders(m, dist, phases, |phases|) == [] <==> forall i :: 0 <= i < |phases| ==> !Qualifies(dist[i], i)
    ensures Lawful(m) ==> MeanOrZero(LocalOrders(m, dist, phases, |phases|)) >= 0.0
  {
    var n := |phases|;
    var mask := QualifyingMask(dist, n);
    LocalOrdersCount(m, dist, phases, n);
    if forall i :: 0 <= i < n ==> !Qualifies(dist[i], i) {
      CountTrueNone(mask);
    } else {
      var i :| 0 <= i < n && Qualifies(dist[i], i);
      CountTruePositive(mask, i);
    }
    var r := LocalOrders(m, dist, phases, n);
    if Lawful(m) && r != [] {
      MeanNonNegative(r);
    }
  }

  /** The loop of `calculate_multi_scale_sync` over both models' phases. */
  method LocalSync(m: Math, dist: Matrix, phasesK: seq<real>, phasesI: seq<real>) returns (localK: real, localI: real)
    requires |phasesI| == |phasesK| && Square(dist, |phasesK|)
    ensures localK == MeanOrZero(LocalOrders(m, dist, phasesK, |phasesK|))
    ensures localI == MeanOrZero(LocalOrders(m, dist, phasesI, |phasesI|))
  {
    var syncK: seq<real> := [];
    var syncI: seq<real> := [];
    for i := 0 to |phasesK|
      invariant syncK == LocalOrders(m, dist, phasesK, i)
      invariant syncI == LocalOrders(m, dist, phasesI, i)
    {
      var neighbours := Where(Adjacency(dist[i], i));
      if |neighbours| > 2 {
        syncK := syncK + [OrderParameter(m, Gather(phasesK, neighbours + [i]))];
        syncI := syncI + [OrderParameter(m, Gather(phasesI, neighbours + [i]))];
      }
    }
    localK := if syncK != [] then Mean(syncK) else 0.0;
    localI := if syncI != [] then Mean(syncI) else 0.0;
  }
}
