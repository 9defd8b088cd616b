/** `calculate_flash_synchrony`: every agent's flashes in one list, sorted, cut into cycles
    wherever two consecutive flashes are a third of the typical period apart, and the mean
    spread of the well-attended cycles of the later half of the run. */
module Synchrony {
  import opened MathModel
  import opened Sequences

  /** An entry of `all_flashes`: a timestamp paired with its position in its agent's log
      (not with the agent). */
  datatype Flash = Flash(time: real, index: nat)

  /** The synchrony measure; `Infinite` is the `float('inf')` sentinel. */
  datatype Timing = Infinite | Finite(value: real)

  /** Two consecutive flashes less than this apart belong to one cycle: a third of the
      typical period of two seconds. */
  const Gap: real := 2.0 / 3.0

  /** Python's order on `(t, i)` tuples. */
  predicate Before(a: Flash, b: Flash) {
    a.time < b.time || (a.time == b.time && a.index <= b.index)
  }

  predicate SortedFlashes(s: seq<Flash>) {
    forall a, b :: 0 <= a < b < |s| ==> Before(s[a], s[b])
  }

  /** `[(t, i) for i, t in enumerate(log)]`. */
  function Enumerate(log: seq<real>): (r: seq<Flash>)
    ensures |r| == |log| && forall k :: 0 <= k < |log| ==> r[k] == Flash(log[k], k)
  {
    seq(|log|, k requires 0 <= k < |log| => Flash(log[k], k))
  }

  /** `all_flashes` before sorting: the logs enumerated one after the other. */
  function AllFlashes(logs: seq<seq<real>>): seq<Flash> {
    if logs == [] then [] else AllFlashes(logs[..|logs| - 1]) + Enumerate(logs[|logs| - 1])
  }

  /** The number of flashes in all logs together. */
  function TotalFlashes(logs: seq<seq<real>>): nat {
    if logs == [] then 0 else TotalFlashes(logs[..|logs| - 1]) + |logs[|logs| - 1]|
  }

  /** `all_flashes` holds one entry per logged flash. */
  lemma {:induction false} AllFlashesCount(logs: seq<seq<real>>)
    ensures |AllFlashes(logs)| == TotalFlashes(logs)
  {
    if logs != [] {
      AllFlashesCount(logs[..|logs| - 1]);
    }
  }

  /** The loop that extends `all_flashes` by each agent's enumerated log. */
  method CollectFlashes(logs: seq<seq<real>>) returns (all: seq<Flash>)
    ensures all == AllFlashes(logs)
  {
    all := [];
    for a := 0 to |logs|
      invariant all == AllFlashes(logs[..a])
    {
      assert logs[..a + 1][..a] == logs[..a];
      all := all + Enumerate(logs[a]);
    }
    assert logs[..|logs|] == logs;
  }

  /** The step of insertion sort: `x` goes before the first element it precedes. */
  function Insert(x: Flash, s: seq<Flash>): (r: seq<Flash>)
    ensures |r| == |s| + 1
  {
    if s == [] then [x]
    else if Before(x, s[0]) then [x] + s
    else [s[0]] + Insert(x, s[1..])
  }

  /** Inserting into a sorted list keeps it sorted and adds exactly `x`. */
  lemma {:induction false} InsertSorted(x: Flash, s: seq<Flash>)
    requires SortedFlashes(s)
    ensures SortedFlashes(Insert(x, s)) && multiset(Insert(x, s)) == multiset(s) + multiset{x}
  {
    if s != [] && !Before(x, s[0]) {
      var rest := Insert(x, s[1..]);
      InsertSorted(x, s[1..]);
      assert s == [s[0]] + s[1..];
      forall k | 0 <= k < |rest|
        ensures Before(s[0], rest[k])
      {
        assert rest[k] in multiset(s[1..]) + multiset{x};
        if rest[k] != x {
          assert rest[k] in s[1..];
        }
      }
    }
  }

  /** `list.sort()` on the flash tuples, as insertion sort. */
  function Sort(s: seq<Flash>): (r: seq<Flash>)
    ensures |r| == |s|
  {
    if s == [] then [] else Insert(s[|s| - 1], Sort(s[..|s| - 1]))
  }

  /** The result of `Sort` is sorted and a permutation of its input. */
  lemma {:induction false} SortSorted(s: seq<Flash>)
    ensures SortedFlashes(Sort(s)) && multiset(Sort(s)) == multiset(s)
  {
    if s != [] {
      SortSorted(s[..|s| - 1]);
      InsertSorted(s[|s| - 1], Sort(s[..|s| - 1]));
      assert s == s[..|s| - 1] + [s[|s| - 1]];
    }
  }

  /** The tuple order is total and antisymmetric, so the sorted permutation is unique:
      any sorted rearrangement of the flashes is the list `Sort` returns. */
  lemma SortUnique(s: seq<Flash>, r: seq<Flash>)
    requires SortedFlashes(r) && multiset(r) == multiset(s)
    ensures r == Sort(s)
  {
    SortSorted(s);
    SortedSame(r, Sort(s));
  }

  /** The first element of a sorted list precedes every element of it. */
  lemma FirstBefore(a: seq<Flash>, y: Flash)
    requires SortedFlashes(a) && y in a
    ensures Before(a[0], y)
  {
    var j :| 0 <= j < |a| && a[j] == y;
  }

  /** Two non-empty sorted lists with the same elements start alike. */
  lemma SortedHeads(a: seq<Flash>, b: seq<Flash>)
    requires a != [] && b != [] && SortedFlashes(a) && SortedFlashes(b) && multiset(a) == multiset(b)
    ensures a[0] == b[0]
  {
    assert a[0] in multiset(b) && b[0] in multiset(a);
    FirstBefore(a, b[0]);
    FirstBefore(b, a[0]);
    assert a[0] == Flash(a[0].time, a[0].index) == Flash(b[0].time, b[0].index) == b[0];
  }

  /** Dropping the same first element leaves the same elements. */
  lemma TailsAlike(a: seq<Flash>, b: seq<Flash>)
    requires a != [] && b != [] && a[0] == b[0] && multiset(a) == multiset(b)
    ensures multiset(a[1..]) == multiset(b[1..])
  {
    assert a == [a[0]] + a[1..] && b == [b[0]] + b[1..];
    assert multiset(a[1..]) == multiset(a) - multiset{a[0]};
    assert multiset(b[1..]) == multiset(b) - multiset{b[0]};
  }

  /** Two sorted lists with the same elements are equal. */
  lemma {:induction false} SortedSame(a: seq<Flash>, b: seq<Flash>)
    requires SortedFlashes(a) && SortedFlashes(b) && multiset(a) == multiset(b)
    ensures a == b
    decreases |a|
  {
    assert |a| == |multiset(a)| == |multiset(b)| == |b|;
    if a != [] {
      SortedHeads(a, b);
      TailsAlike(a, b);
      SortedSame(a[1..], b[1..]);
      assert a == [a[0]] + a[1..] && b == [b[0]] + b[1..];
    }
  }

  /** All clusters joined in order. */
  function Flatten(g: seq<seq<Flash>>): seq<Flash> {
    if g == [] then [] else Flatten(g[..|g| - 1]) + g[|g| - 1]
  }

  /** `g` cuts `s` into non-empty clusters, in order, where consecutive members of a cluster
      are less than `gap` apart and consecutive clusters at least `gap` apart. */
  ghost predicate ClustersOf(g: seq<seq<Flash>>, s: seq<Flash>, gap: real) {
    && Flatten(g) == s
    && (forall c :: 0 <= c < |g| ==> g[c] != [])
    && (forall c, j :: 0 <= c < |g| && 0 <= j < |g[c]| - 1 ==> g[c][j + 1].time - g[c][j].time < gap)
    && (forall c :: 0 <= c < |g| - 1 ==> g[c + 1][0].time - g[c][|g[c]| - 1].time >= gap)
  }

  /** The clusters of the first k sorted flashes as the scan finds them: the next flash
      joins the current cluster when it comes less than `gap` after the previous one and
      opens a new cluster otherwise. */
  function Scan(s: seq<Flash>, k: nat, gap: real): (g: seq<seq<Flash>>)
    requires 1 <= k <= |s|
    ensures g != [] && g[|g| - 1] != []
    decreases k
  {
    if k == 1 then [[s[0]]]
    else
      var prev := Scan(s, k - 1, gap);
      if s[k - 1].time - s[k - 2].time < gap then prev[..|prev| - 1] + [prev[|prev| - 1] + [s[k - 1]]]
      else prev + [[s[k - 1]]]
  }

  /** One scan step: flash k - 1 joins the last cluster or opens a new one. */
  lemma ScanStep(s: seq<Flash>, k: nat, gap: real)
    requires 2 <= k <= |s|
    ensures var prev := Scan(s, k - 1, gap);
      Scan(s, k, gap) == if s[k - 1].time - s[k - 2].time < gap
        then prev[..|prev| - 1] + [prev[|prev| - 1] + [s[k - 1]]]
        else prev + [[s[k - 1]]]
  {
  }

  /** A non-empty last cluster ends the flattened list. */
  lemma FlattenLast(g: seq<seq<Flash>>)
    requires g != [] && g[|g| - 1] != []
    ensures Flatten(g) != [] && Flatten(g)[|Flatten(g)| - 1] == g[|g| - 1][|g[|g| - 1]| - 1]
  {
  }

  /** A flash less than `gap` after the last one joins the last cluster. */
  lemma JoinCluster(g: seq<seq<Flash>>, t: seq<Flash>, x: Flash, gap: real)
    requires g != [] && ClustersOf(g, t, gap)
    requires x.time - t[|t| - 1].time < gap
    ensures ClustersOf(g[..|g| - 1] + [g[|g| - 1] + [x]], t + [x], gap)
  {
    FlattenLast(g);
    var L := |g| - 1;
    var h := g[..L] + [g[L] + [x]];
    assert h[..|h| - 1] == g[..L];
    assert g == g[..L] + [g[L]];
    assert Flatten(g) == Flatten(g[..L]) + g[L];
    assert Flatten(h) == Flatten(g[..L]) + (g[L] + [x]);
    forall c, j | 0 <= c < |h| && 0 <= j < |h[c]| - 1
      ensures h[c][j + 1].time - h[c][j].time < gap
    {
      if c < L {
        assert h[c] == g[c];
      } else if j < |g[L]| - 1 {
        assert h[c][j] == g[L][j] && h[c][j + 1] == g[L][j + 1];
      } else {
        assert h[c][j] == g[L][|g[L]| - 1];
      }
    }
    forall c | 0 <= c < |h| - 1
      ensures h[c + 1][0].time - h[c][|h[c]| - 1].time >= gap
    {
      assert h[c] == g[c];
      assert h[c + 1][0] == g[c + 1][0];
    }
  }

  /** A flash at least `gap` after the last one opens a new cluster. */
  lemma OpenCluster(g: seq<seq<Flash>>, t: seq<Flash>, x: Flash, gap: real)
    requires g != [] && ClustersOf(g, t, gap)
    requires x.time - t[|t| - 1].time >= gap
    ensures ClustersOf(g + [[x]], t + [x], gap)
  {
    FlattenLast(g);
    var L := |g| - 1;
    var h := g + [[x]];
    assert h[..|h| - 1] == g;
    forall c, j | 0 <= c < |h| && 0 <= j < |h[c]| - 1
      ensures h[c][j + 1].time - h[c][j].time < gap
    {
      assert h[c] == g[c];
    }
    forall c | 0 <= c < |h| - 1
      ensures h[c + 1][0].time - h[c][|h[c]| - 1].time >= gap
    {
      if c == L {
        assert h[c] == g[L] && h[c + 1] == [x];
      } else {
        assert h[c] == g[c] && h[c + 1] == g[c + 1];
      }
    }
  }

  /** Before filtering, the scan partitions the sorted flashes into clusters in order, with
      gaps below `gap` inside a cluster and of at least `gap` between clusters. */
  lemma {:induction false} ScanClusters(s: seq<Flash>, k: nat, gap: real)
    requires 1 <= k <= |s|
    ensures ClustersOf(Scan(s, k, gap), s[..k], gap)
  {
    if k == 1 {
      assert Flatten([[s[0]]]) == Flatten([]) + [s[0]];
      assert s[..1] == [s[0]];
    } else {
      var prev, t, x := Scan(s, k - 1, gap), s[..k - 1], s[k - 1];
      TakeStep(s, k - 1);
      assert t[|t| - 1] == s[k - 2];
      ScanStep(s, k, gap);
      ScanClusters(s, k - 1, gap);
      if x.time - s[k - 2].time < gap {
        JoinCluster(prev, t, x, gap);
      } else {
        OpenCluster(prev, t, x, gap);
      }
    }
  }

  /** The clusters with at least `min` members, in order: `cycles`. */
  function Keep(g: seq<seq<Flash>>, min: nat): (r: seq<seq<Flash>>)
    ensures |r| <= |g|
    ensures forall c :: 0 <= c < |r| ==> |r[c]| >= min && r[c] in g
  {
    if g == [] then []
    else Keep(g[..|g| - 1], min) + (if |g[|g| - 1]| >= min then [g[|g| - 1]] else [])
  }

  /** Every cluster with at least `min` members is kept. */
  lemma {:induction false} KeepComplete(g: seq<seq<Flash>>, min: nat, c: nat)
    requires c < |g| && |g[c]| >= min
    ensures g[c] in Keep(g, min)
  {
    if c < |g| - 1 {
      KeepComplete(g[..|g| - 1], min, c);
    } else {
      assert Keep(g, min)[|Keep(g, min)| - 1] == g[c];
    }
  }

  /** `cycles[len(cycles)//2:]` when more than four cycles were kept. */
  function Later(kept: seq<seq<Flash>>): (r: seq<seq<Flash>>)
    ensures |r| == if |kept| > 4 then |kept| - |kept| / 2 else |kept|
    ensures r == kept[|kept| - |r|..]
  {
    if |kept| > 4 then kept[|kept| / 2..] else kept
  }

  /** The cycles whose spread is measured. */
  function Cycles(logs: seq<seq<real>>, n: nat): seq<seq<Flash>> {
    var s := Sort(AllFlashes(logs));
    if s == [] then [] else Later(Keep(Scan(s, |s|, Gap), n / 5))
  }

  function Times(cycle: seq<Flash>): (r: seq<real>)
    ensures |r| == |cycle| && forall k :: 0 <= k < |cycle| ==> r[k] == cycle[k].time
  {
    seq(|cycle|, k requires 0 <= k < |cycle| => cycle[k].time)
  }

  /** `np.std` of each cycle's flash times. */
  function Spreads(m: Math, cycles: seq<seq<Flash>>): (r: seq<real>)
    requires forall c :: 0 <= c < |cycles| ==> cycles[c] != []
    ensures |r| == |cycles| && forall c :: 0 <= c < |cycles| ==> r[c] == Std(m, Times(cycles[c]))
  {
    seq(|cycles|, c requires 0 <= c < |cycles| => Std(m, Times(cycles[c])))
  }

  /** Every measured cycle is a non-empty cluster with at least n//5 members, among the
      clusters the scan found. */
  lemma CyclesAttended(logs: seq<seq<real>>, n: nat)
    ensures var s := Sort(AllFlashes(logs));
      forall c :: 0 <= c < |Cycles(logs, n)| ==>
        |Cycles(logs, n)[c]| >= n / 5 && Cycles(logs, n)[c] != [] && Cycles(logs, n)[c] in Scan(s, |s|, Gap)
  {
    var s := Sort(AllFlashes(logs));
    if s != [] {
      var g := Scan(s, |s|, Gap);
      ScanClusters(s, |s|, Gap);
      var kept := Keep(g, n / 5);
      var cs := Later(kept);
      forall c | 0 <= c < |cs|
        ensures |cs[c]| >= n / 5 && cs[c] != [] && cs[c] in g
      {
        assert cs[c] == kept[|kept| - |cs| + c];
        var d :| 0 <= d < |g| && g[d] == cs[c];
      }
    }
  }

  /** The measure as `calculate_flash_synchrony` computes it. */
  function SynchronyOf(m: Math, logs: seq<seq<real>>, n: nat): Timing {
    if |AllFlashes(logs)| < n / 2 then Infinite
    else
      var cycles := Cycles(logs, n);
      CyclesAttended(logs, n);
      if cycles == [] then Infinite else Finite(Mean(Spreads(m, cycles)))
  }

  /** The measure is the infinite sentinel exactly when fewer than n//2 flashes were logged
      or no cycle is measured; otherwise it is a mean of standard deviations, never negative. */
  lemma SynchronySentinel(m: Math, logs: seq<seq<real>>, n: nat)
    ensures SynchronyOf(m, logs, n) == Infinite <==> TotalFlashes(logs) < n / 2 || Cycles(logs, n) == []
    ensures Lawful(m) && SynchronyOf(m, logs, n).Finite? ==> SynchronyOf(m, logs, n).value >= 0.0
  {
    AllFlashesCount(logs);
    var cycles := Cycles(logs, n);
    CyclesAttended(logs, n);
    if Lawful(m) && SynchronyOf(m, logs, n).Finite? {
      MeanNonNegative(Spreads(m, cycles));
    }
  }

  /** What the scan's loop keeps: the open cluster is the last cluster found so far and
      `cycles` holds the large enough ones among the finished clusters. */
  ghost predicate Scanned(s: seq<Flash>, i: nat, min: nat, current: seq<Flash>, cycles: seq<seq<Flash>>)
    requires 1 <= i <= |s|
  {
    var g := Scan(s, i, Gap);
    current == g[|g| - 1] && cycles == Keep(g[..|g| - 1], min)
  }

  /** One step of the scan's loop keeps `Scanned`. */
  lemma ScannedStep(s: seq<Flash>, i: nat, min: nat, current: seq<Flash>, cycles: seq<seq<Flash>>)
    requires 1 <= i < |s| && Scanned(s, i, min, current, cycles)
    ensures s[i].time - s[i - 1].time < Gap ==> Scanned(s, i + 1, min, current + [s[i]], cycles)
    ensures s[i].time - s[i - 1].time >= Gap ==>
      Scanned(s, i + 1, min, [s[i]], cycles + if |current| >= min then [current] else [])
  {
    var g := Scan(s, i, Gap);
    ScanStep(s, i + 1, Gap);
    if s[i].time - s[i - 1].time < Gap {
      DropLast(g[..|g| - 1], g[|g| - 1] + [s[i]]);
    } else {
      DropLast(g, [s[i]]);
    }
  }

  /** The scan of `calculate_flash_synchrony` over the sorted flashes: `current_cycle` grows
      while the gaps stay below a third of the period, and a finished cluster is appended to
      `cycles` when it has at least `min` members. */
  method GreedyCycles(s: seq<Flash>, min: nat) returns (cycles: seq<seq<Flash>>)
    ensures cycles == if s == [] then [] else Keep(Scan(s, |s|, Gap), min)
  {
    cycles := [];
    if s != [] {
      var current := [s[0]];
      for i := 1 to |s|
        invariant Scanned(s, i, min, current, cycles)
      {
        ScannedStep(s, i, min, current, cycles);
        if s[i].time - s[i - 1].time < Gap {
          current := current + [s[i]];
        } else {
          if |current| >= min {
            cycles := cycles + [current];
          }
          current := [s[i]];
        }
      }
      if |current| >= min {
        cycles := cycles + [current];
      }
    }
  }

  /** `calculate_flash_synchrony(flash_times)` for n agents. */
  method FlashSynchrony(m: Math, logs: seq<seq<real>>, n: nat) returns (r: Timing)
    ensures r == SynchronyOf(m, logs, n)
  {
    var all := CollectFlashes(logs);
    var sorted := Sort(all);
    if |sorted| < n / 2 {
      return Infinite;
    }
    var cycles := GreedyCycles(sorted, n / 5);
    if |cycles| > 4 {
      cycles := cycles[|cycles| / 2..];
    }
    assert cycles == Cycles(logs, n);
    if cycles == [] {
      return Infinite;
    }
    CyclesAttended(logs, n);
    var stdevs := Spreads(m, cycles);
    r := Finite(Mean(stdevs));
  }
}
