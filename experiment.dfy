/** `WhitePaperFireflyExperiment`: the per-agent state arrays, the interaction graphs,
    the per-step series and flash logs, and the steps of `update_models` that change them. */
module Experiment {
  import opened MathModel
  import opened Visibility
  import opened Dynamics
  import opened MultiScale

  /** The random draws the constructor makes, one entry per agent. */
  datatype InitialDraws = InitialDraws(
    phases: seq<real>,          // uniform on [0, 2*pi)
    frequencyDraws: seq<real>,  // normal(0.5, 0.05)
    radiusDraws: seq<real>,     // uniform on [0, 1)
    thetas: seq<real>,          // uniform on [0, 2*pi)
    velocityDraws: seq<Vec>,    // normal(0, 1) per axis
    orientations: seq<real>)    // uniform on [0, 2*pi)

  predicate InitialWellFormed(d: InitialDraws, n: nat) {
    && |d.phases| == n && |d.frequencyDraws| == n && |d.radiusDraws| == n
    && |d.thetas| == n && |d.velocityDraws| == n && |d.orientations| == n
  }

  /** The random draws one call of `update_models` makes. */
  datatype StepDraws = StepDraws(
    jitter: seq<Vec>,           // normal(0, 1) per agent and axis
    spontaneous: seq<real>,     // uniform on [0, 1) per agent
    disturb: seq<nat>,          // `np.random.choice(n, int(0.2*n), replace=False)`
    freshPhases: seq<real>)     // uniform on [0, 2*pi) per disturbed agent

  predicate StepWellFormed(d: StepDraws, n: nat) {
    && |d.jitter| == n && |d.spontaneous| == n
    && |d.disturb| == DisturbCount(n) && DistinctIndices(d.disturb, n)
    && |d.freshPhases| == |d.disturb|
  }

  function SeqMin(s: seq<real>): (r: real)
    requires s != []
    ensures forall k :: 0 <= k < |s| ==> r <= s[k]
  {
    if |s| == 1 then s[0] else var rest := SeqMin(s[..|s| - 1]); if s[|s| - 1] < rest then s[|s| - 1] else rest
  }

  function SeqMax(s: seq<real>): (r: real)
    requires s != []
    ensures forall k :: 0 <= k < |s| ==> s[k] <= r
  {
    if |s| == 1 then s[0] else var rest := SeqMax(s[..|s| - 1]); if s[|s| - 1] > rest then s[|s| - 1] else rest
  }

  /** The temperature gradient: 1 + 0.1 * x_norm, x_norm the x coordinate rescaled by
      (x - min) / (max - min + 1e-10). */
  function TempFactors(xs: seq<real>): (r: seq<real>)
    requires xs != []
    ensures |r| == |xs|
  {
    Gradient(xs, SeqMin(xs), SeqMax(xs))
  }

  function Gradient(xs: seq<real>, lo: real, hi: real): (r: seq<real>)
    requires lo <= hi
    ensures |r| == |xs|
  {
    if xs == [] then []
    else Gradient(xs[..|xs| - 1], lo, hi) + [1.0 + 0.1 * ((xs[|xs| - 1] - lo) / (hi - lo + 0.0000000001))]
  }

  /** Every temperature factor lies in [1, 1.1): at most 10% variation across space. */
  lemma TempFactorsRange(xs: seq<real>)
    requires xs != []
    ensures forall i :: 0 <= i < |xs| ==> 1.0 <= TempFactors(xs)[i] < 1.1
  {
    GradientRange(xs, SeqMin(xs), SeqMax(xs));
  }

  lemma {:induction false} GradientRange(xs: seq<real>, lo: real, hi: real)
    requires lo <= hi
    requires forall k :: 0 <= k < |xs| ==> lo <= xs[k] <= hi
    ensures forall i :: 0 <= i < |xs| ==> 1.0 <= Gradient(xs, lo, hi)[i] < 1.1
  {
    if xs != [] {
      var init := xs[..|xs| - 1];
      GradientRange(init, lo, hi);
      NormalisedBelowOne(xs[|xs| - 1] - lo, hi - lo + 0.0000000001);
      var r := Gradient(xs, lo, hi);
      assert r == Gradient(init, lo, hi) + [r[|xs| - 1]];
    }
  }

  lemma NormalisedBelowOne(num: real, den: real)
    requires 0.0 <= num < den
    ensures 0.0 <= num / den < 1.0
  {
  }

  /** `15.0 * sqrt(u)` at angle theta, in Cartesian coordinates. */
  function InitialPosition(m: Math, u: real, theta: real): Vec {
    var r := 15.0 * m.sqrt(u);
    Vec(r * m.cos(theta), r * m.sin(theta))
  }

  /** The start positions: agent i at radius 15 * sqrt(u_i) and angle theta_i. */
  function StartPositions(m: Math, init: InitialDraws, n: nat): (start: seq<Vec>)
    requires InitialWellFormed(init, n)
    ensures |start| == n && forall i :: 0 <= i < n ==> start[i] == InitialPosition(m, init.radiusDraws[i], init.thetas[i])
  {
    seq(n, i requires 0 <= i < n => InitialPosition(m, init.radiusDraws[i], init.thetas[i]))
  }

  /** The start velocities, `0.2 * normal(0, 1)` per axis. */
  function StartVelocities(init: InitialDraws, n: nat): (v: seq<Vec>)
    requires InitialWellFormed(init, n)
    ensures |v| == n && forall i :: 0 <= i < n ==> v[i] == Vec(0.2 * init.velocityDraws[i].x, 0.2 * init.velocityDraws[i].y)
  {
    seq(n, i requires 0 <= i < n => Vec(0.2 * init.velocityDraws[i].x, 0.2 * init.velocityDraws[i].y))
  }

  /** `2*pi * normal(0.5, 0.05)`: the natural angular frequencies from the draws. */
  function NaturalFrequencies(draws: seq<real>): (f: seq<real>)
    ensures |f| == |draws| && forall i :: 0 <= i < |draws| ==> f[i] == TwoPi * draws[i]
  {
    seq(|draws|, i requires 0 <= i < |draws| => TwoPi * draws[i])
  }

  function Xs(p: seq<Vec>): (xs: seq<real>)
    ensures |xs| == |p| && forall i :: 0 <= i < |p| ==> xs[i] == p[i].x
  {
    seq(|p|, i requires 0 <= i < |p| => p[i].x)
  }

  function Ys(p: seq<Vec>): (ys: seq<real>)
    ensures |ys| == |p| && forall i :: 0 <= i < |p| ==> ys[i] == p[i].y
  {
    seq(|p|, i requires 0 <= i < |p| => p[i].y)
  }

  /** The fixed parameters of the experiment. */
  const MaxSpeed: real := 0.5
  const Boundary: real := 40.0
  const VisionRange: real := 15.0
  const VisionAngle: real := 270.0
  const KuramotoCoupling: real := 0.3
  const IreCoupling: real := 0.8
  const IreDamping: real := 0.06

  /** One model's flash record: `flashing_*`, a row of flags per step, and
      `flash_times_*`, each agent's list of flash timestamps. */
  datatype Flashes = Flashes(flashing: seq<seq<bool>>, times: seq<seq<real>>)

  /** The record before the first step: no flags set and empty logs. */
  function NoFlashes(steps: nat, n: nat): (f: Flashes)
    ensures |f.flashing| == steps && RowsOf(f.flashing, n) && |f.times| == n
    ensures forall t, i :: 0 <= t < steps && 0 <= i < n ==> !f.flashing[t][i]
    ensures forall i :: 0 <= i < n ==> f.times[i] == []
  {
    Flashes(seq(steps, _ => seq(n, _ => false)), seq(n, _ => []))
  }

  /** Before the first step the record is empty: no step has been recorded. */
  lemma NoFlashesState(steps: nat, n: nat, dt: real)
    ensures FlashState(NoFlashes(steps, n), steps, n, 0, dt)
  {
    var f := NoFlashes(steps, n);
    assert forall i :: 0 <= i < n ==> FlashStamps(f.flashing[..0], i, dt) == [];
  }

  /** One model's flash record after `c` recorded steps of `steps`: a row of n flags per
      step, and agent i's log holds the timestamps of the recorded steps whose row marks
      agent i. */
  ghost predicate FlashState(f: Flashes, steps: nat, n: nat, c: nat, dt: real) {
    && |f.flashing| == steps && c <= steps && RowsOf(f.flashing, n) && |f.times| == n
    && forall i :: 0 <= i < n ==> f.times[i] == FlashStamps(f.flashing[..c], i, dt)
  }

  /** Storing step c's row and appending its timestamp to the logs of the agents the row
      marks keeps the flash record. */
  lemma FlashStateStep(f: Flashes, steps: nat, n: nat, c: nat, dt: real, row: seq<bool>, after: seq<seq<real>>)
    requires FlashState(f, steps, n, c, dt) && c < steps && |row| == n && |after| == n
    requires forall i :: 0 <= i < n ==> after[i] == f.times[i] + (if row[i] then [Stamp(c, dt)] else [])
    ensures FlashState(Flashes(f.flashing[c := row], after), steps, n, c + 1, dt)
  {
    var next := f.flashing[c := row];
    assert next[..c] == f.flashing[..c];
    forall i | 0 <= i < n
      ensures after[i] == FlashStamps(next[..c + 1], i, dt)
    {
      FlashStampsStep(f.flashing, next, i, dt, c);
    }
  }

  /** One model's per-step record: `order_*`, `local_sync_*` and
      `global_sync_*` hold a value per step, and `recovery_*` lists the order parameters
      recorded after the perturbation. */
  datatype Series = Series(order: seq<real>, localSync: seq<real>, globalSync: seq<real>, recovery: seq<real>)

  /** The record before the first step: zero series and an empty recovery list. */
  function NoSeries(steps: nat): (s: Series)
    ensures |s.order| == steps && |s.localSync| == steps && |s.globalSync| == steps && s.recovery == []
    ensures forall t :: 0 <= t < steps ==> s.order[t] == 0.0 && s.localSync[t] == 0.0 && s.globalSync[t] == 0.0
  {
    Series(ZeroRow(steps), ZeroRow(steps), ZeroRow(steps), [])
  }

  /** Step t's entries: its order parameter `x` and local synchrony `local`; the global
      synchrony is the order parameter, and `x` joins the recovery list when `recovering`. */
  function Record(s: Series, t: nat, x: real, local: real, recovering: bool): Series
    requires t < |s.order| && t < |s.localSync| && t < |s.globalSync|
  {
    Series(s.order[t := x], s.localSync[t := local], s.globalSync[t := x],
           if recovering then s.recovery + [x] else s.recovery)
  }

  /** One model's record after `c` recorded steps of `steps`: each recorded step's global
      synchrony is its order parameter, and the recovery list holds the order parameters
      of the recorded steps after the perturbation step `pt`, in step order. */
  ghost predicate SeriesState(s: Series, steps: nat, pt: nat, c: nat) {
    && |s.order| == steps && |s.localSync| == steps && |s.globalSync| == steps && c <= steps
    && s.recovery == RecoveryWindow(s.order, pt, c)
    && (forall t :: 0 <= t < c ==> s.globalSync[t] == s.order[t])
  }

  /** Before the first step the record is empty: no step has been recorded. */
  lemma NoSeriesState(steps: nat, pt: nat)
    ensures SeriesState(NoSeries(steps), steps, pt, 0)
  {
  }

  /** Recording step c, with `x` joining the recovery list exactly when c is past the
      perturbation step, keeps the record. */
  lemma SeriesStateStep(s: Series, steps: nat, pt: nat, c: nat, x: real, local: real)
    requires SeriesState(s, steps, pt, c) && c < steps
    ensures SeriesState(Record(s, c, x, local, c > pt), steps, pt, c + 1)
    ensures Record(s, c, x, local, c > pt).recovery == s.recovery + (if c > pt then [x] else [])
  {
    var order := s.order[c := x];
    assert order[..c] == s.order[..c];
    RecoveryWindowStep(s.order, order, pt, c);
  }

  /** What `update_visibility` computes for agents at (xs, ys) facing `facing`: the
      distances, the bearings and both graphs. */
  method Rebuild(m: Math, xs: seq<real>, ys: seq<real>, facing: seq<real>)
    returns (d: Matrix, angles: Matrix, baseline: Matrix, enhanced: Matrix)
    requires |xs| == |facing| && |ys| == |facing|
    ensures d == Distances(m, xs, ys) && angles == Bearings(m, xs, ys)
    ensures Square(d, |facing|) && Square(angles, |facing|) && Square(baseline, |facing|) && Square(enhanced, |facing|)
    ensures baseline == BaselineGraph(d)
    ensures enhanced == EnhancedGraph(m, d, angles, facing, VisionRange, VisionAngle)
    ensures Lawful(m) ==> forall i :: 0 <= i < |facing| ==> d[i][i] == 0.0
    ensures Lawful(m) ==> forall i, j :: 0 <= i < |facing| && 0 <= j < |facing| ==> d[i][j] >= 0.0
  {
    d := Distances(m, xs, ys);
    angles := Bearings(m, xs, ys);
    baseline, enhanced := BuildGraphs(m, d, angles, facing, VisionRange, VisionAngle);
  }

  /** `a[idx] = vals` with distinct indices. */
  method ScatterInto(a: array<real>, idx: seq<nat>, vals: seq<real>)
    requires DistinctIndices(idx, a.Length) && |vals| == |idx|
    modifies a
    ensures a[..] == Scatter(old(a[..]), idx, vals)
  {
    ghost var before := a[..];
    forall k | 0 <= k < |idx| {
      a[idx[k]] := vals[k];
    }
    ScatterUnique(before, idx, vals, a[..]);
  }

  /** One population's phases after a step's spontaneous resets and, when `perturbing`, the
      perturbation: the agents whose draw is below the reset probability restart at 0, then
      the disturbed agents take their fresh phases. */
  function ResetAndPerturb(phases: seq<real>, d: StepDraws, perturbing: bool): (r: seq<real>)
    requires StepWellFormed(d, |phases|)
    ensures |r| == |phases|
  {
    var reset := ResetWhere(phases, SpontaneousMask(d.spontaneous));
    if perturbing then Scatter(reset, d.disturb, d.freshPhases) else reset
  }

  /** A fresh buffer holding `s`. */
  method NewBuffer(s: seq<real>) returns (a: array<real>)
    ensures fresh(a) && a[..] == s
  {
    a := new real[|s|](i requires 0 <= i < |s| => s[i]);
  }

  /** A fresh `np.column_stack` of the vectors: row i holds p[i].x and p[i].y. */
  method NewGrid(p: seq<Vec>) returns (g: array2<real>)
    ensures fresh(g) && g.Length0 == |p| && g.Length1 == 2
    ensures forall i :: 0 <= i < |p| ==> g[i, 0] == p[i].x && g[i, 1] == p[i].y
  {
    g := new real[|p|, 2]((i, c) requires 0 <= i < |p| && 0 <= c < 2 => if c == 0 then p[i].x else p[i].y);
  }

  /** The per-agent buffers `__init__` allocates: both models' phases, the oscillators'
      phase velocities, the orientations, and the positions and velocities as n-by-2 grids. */
  method Allocate(phases: seq<real>, facing: seq<real>, start: seq<Vec>, velocity: seq<Vec>)
    returns (pk: array<real>, pi: array<real>, pv: array<real>, o: array<real>, p: array2<real>, v: array2<real>)
    ensures fresh(pk) && fresh(pi) && fresh(pv) && fresh(o) && fresh(p) && fresh(v)
    ensures pk != pi && pk != pv && pi != pv && o != pk && o != pi && o != pv && p != v
    ensures pk[..] == phases && pi[..] == phases && pv[..] == ZeroRow(|phases|) && o[..] == facing
    ensures p.Length0 == |start| && p.Length1 == 2 && v.Length0 == |velocity| && v.Length1 == 2
    ensures forall i :: 0 <= i < |start| ==> p[i, 0] == start[i].x && p[i, 1] == start[i].y
    ensures forall i :: 0 <= i < |velocity| ==> v[i, 0] == velocity[i].x && v[i, 1] == velocity[i].y
  {
    pk := NewBuffer(phases);
    pi := NewBuffer(phases);
    pv := NewBuffer(ZeroRow(|phases|));
    o := NewBuffer(facing);
    p := NewGrid(start);
    v := NewGrid(velocity);
  }

  class FireflyExperiment {
    const math: Math
    const n: nat
    const duration: real
    const dt: real
    const steps: nat
    const perturbationTime: nat
    const times: seq<real>
    const frequencies: seq<real>
    const tempFactor: seq<real>

    const phasesK: array<real>
    const phasesI: array<real>
    const phaseVelocitiesI: array<real>
    const positions: array2<real>
    const velocities: array2<real>
    const orientation: array<real>

    var distances: Matrix
    var visK: Matrix
    var visI: Matrix
    /** The Kuramoto model's and the enhanced model's series. */
    var seriesK: Series
    var seriesI: Series
    /** The Kuramoto model's and the enhanced model's flash records. */
    var flashesK: Flashes
    var flashesI: Flashes
    var perturbationApplied: bool

    /** The bearings and headings the graphs were last built from. */
    ghost var bearings: Matrix
    ghost var headings: seq<real>
    /** Times the perturbation has been applied. */
    ghost var perturbations: nat

    /** The agent count, the perturbation step, array sizes and distinct buffers: facts
        about constants, so no state change can break them. */
    ghost predicate Fixed() {
      && n > 0 && perturbationTime == PerturbationStep(steps) && Lawful(math) && dt > 0.0
      && phasesK.Length == n && phasesI.Length == n && phaseVelocitiesI.Length == n && orientation.Length == n
      && positions.Length0 == n && positions.Length1 == 2 && velocities.Length0 == n && velocities.Length1 == 2
      && phasesK != phasesI && phasesK != phaseVelocitiesI && phasesI != phaseVelocitiesI
      && orientation != phasesK && orientation != phasesI && orientation != phaseVelocitiesI
      && positions != velocities
      && |frequencies| == n && |tempFactor| == n && |times| == steps
    }

    /** The graphs as last rebuilt: row i of each is agent i's baseline and enhanced row
        for the distances, bearings and headings of that moment. */
    ghost predicate Graphs()
      reads this`distances, this`bearings, this`headings, this`visK, this`visI
    {
      && Square(distances, n) && Square(bearings, n) && |headings| == n && Square(visK, n) && Square(visI, n)
      && (forall i :: 0 <= i < n ==> distances[i][i] == 0.0)
      && (forall i, j :: 0 <= i < n && 0 <= j < n ==> distances[i][j] >= 0.0)
      && visK == BaselineGraph(distances)
      && visI == EnhancedGraph(math, distances, bearings, headings, VisionRange, VisionAngle)
    }

    /** The perturbation flag and count once `c` steps have applied their perturbation stage. */
    ghost predicate Perturbed(c: nat)
      reads this`perturbationApplied, this`perturbations
    {
      && (perturbationApplied <==> c > perturbationTime)
      && perturbations == (if c > perturbationTime then 1 else 0)
    }

    /** The flash logs after `c` recorded steps: agent i's log holds the timestamps of the
        recorded steps whose flashing row marks agent i. */
    ghost predicate FlashLogged(c: nat)
      reads this`flashesK, this`flashesI
    {
      FlashState(flashesK, steps, n, c, dt) && FlashState(flashesI, steps, n, c, dt)
    }

    /** The recovery lists and the global synchrony series after `c` recorded steps. */
    ghost predicate SeriesLogged(c: nat)
      reads this`seriesK, this`seriesI
    {
      SeriesState(seriesK, steps, perturbationTime, c) && SeriesState(seriesI, steps, perturbationTime, c)
    }

    /** The state part way through a step: the perturbation stage has run `p` times, the
        flash logs hold `f` steps and the series `s` steps. */
    ghost predicate Consistent(p: nat, f: nat, s: nat)
      reads this
    {
      Fixed() && Graphs() && Perturbed(p) && FlashLogged(f) && SeriesLogged(s)
    }

    /** The state after `c` complete steps of the driver loop. */
    ghost predicate Valid(c: nat)
      reads this
    {
      Consistent(c, c, c)
    }

    /** Position column c (0 for x, 1 for y). */
    function Column(c: nat): (col: seq<real>)
      requires c < positions.Length1
      reads positions
      ensures |col| == positions.Length0 && forall i :: 0 <= i < positions.Length0 ==> col[i] == positions[i, c]
    {
      seq(positions.Length0, i requires 0 <= i < positions.Length0 reads positions => positions[i, c])
    }

    function PositionOf(i: nat): Vec
      requires i < positions.Length0 && positions.Length1 == 2
      reads positions
    {
      Vec(positions[i, 0], positions[i, 1])
    }

    function VelocityOf(i: nat): Vec
      requires i < velocities.Length0 && velocities.Length1 == 2
      reads velocities
    {
      Vec(velocities[i, 0], velocities[i, 1])
    }

    /** The positions as a sequence of vectors. */
    function Positions(): (p: seq<Vec>)
      requires positions.Length1 == 2
      reads positions
      ensures |p| == positions.Length0 && forall i :: 0 <= i < positions.Length0 ==> p[i] == PositionOf(i)
    {
      seq(positions.Length0, i requires 0 <= i < positions.Length0 reads positions => PositionOf(i))
    }

    /** The velocities as a sequence of vectors. */
    function Velocities(): (v: seq<Vec>)
      requires velocities.Length1 == 2
      reads velocities
      ensures |v| == velocities.Length0 && forall i :: 0 <= i < velocities.Length0 ==> v[i] == VelocityOf(i)
    {
      seq(velocities.Length0, i requires 0 <= i < velocities.Length0 reads velocities => VelocityOf(i))
    }

    /** `__init__` with its random draws given as `init`: both models start from the same
        phases, at rest; positions, velocities and orientations come from the draws; the
        graphs are built once (`update_visibility`); every log and series is empty or zero. */
    constructor (m: Math, nFireflies: nat, duration: real, dt: real, init: InitialDraws)
      requires Lawful(m) && nFireflies > 0 && dt > 0.0 && duration > -dt
      requires InitialWellFormed(init, nFireflies)
      ensures Valid(0) && perturbations == 0
      ensures n == nFireflies && this.duration == duration && this.dt == dt
      ensures steps == StepCount(duration, dt) && perturbationTime == PerturbationStep(steps)
      ensures times == Linspace(0.0, duration, steps)
      ensures phasesK[..] == init.phases && phasesI[..] == init.phases
      ensures forall i :: 0 <= i < n ==> phaseVelocitiesI[i] == 0.0
      ensures frequencies == NaturalFrequencies(init.frequencyDraws)
      ensures forall i :: 0 <= i < n ==> 1.0 <= tempFactor[i] < 1.1
      ensures forall i :: 0 <= i < n ==> PositionOf(i) == InitialPosition(m, init.radiusDraws[i], init.thetas[i])
      ensures forall i :: 0 <= i < n ==>
        VelocityOf(i) == Vec(0.2 * init.velocityDraws[i].x, 0.2 * init.velocityDraws[i].y)
      ensures orientation[..] == init.orientations
      ensures distances == Distances(m, Xs(StartPositions(m, init, n)), Ys(StartPositions(m, init, n)))
      ensures bearings == Bearings(m, Xs(StartPositions(m, init, n)), Ys(StartPositions(m, init, n)))
      ensures headings == init.orientations
      ensures flashesK == NoFlashes(steps, n) && flashesI == NoFlashes(steps, n)
      ensures !perturbationApplied && seriesK == NoSeries(steps) && seriesI == NoSeries(steps)
      ensures fresh(phasesK) && fresh(phasesI) && fresh(phaseVelocitiesI)
      ensures fresh(positions) && fresh(velocities) && fresh(orientation)
    {
      var steps := StepCount(duration, dt);
      var start := StartPositions(m, init, nFireflies);
      var xs, ys := Xs(start), Ys(start);
      var d, angles, baseline, enhanced := Rebuild(m, xs, ys, init.orientations);
      TempFactorsRange(xs);
      NoFlashesState(steps, nFireflies, dt);
      NoSeriesState(steps, PerturbationStep(steps));
      math := m;
      n := nFireflies;
      this.duration := duration;
      this.dt := dt;
      this.steps := steps;
      perturbationTime := PerturbationStep(steps);
      times := Linspace(0.0, duration, steps);
      frequencies := NaturalFrequencies(init.frequencyDraws);
      tempFactor := TempFactors(xs);
      var bufK, bufI, bufV, bufO, gridP, gridV := Allocate(init.phases, init.orientations, start, StartVelocities(init, nFireflies));
      phasesK, phasesI, phaseVelocitiesI, positions, velocities, orientation := bufK, bufI, bufV, gridP, gridV, bufO;
      distances, bearings, headings, visK, visI := d, angles, init.orientations, baseline, enhanced;
      seriesK, seriesI := NoSeries(steps), NoSeries(steps);
      flashesK, flashesI := NoFlashes(steps, nFireflies), NoFlashes(steps, nFireflies);
      perturbationApplied, perturbations := false, 0;
      new;
    }

    /** `update_visibility`: recompute the distances and bearings from the positions and
        rebuild both graphs. */
    method UpdateVisibility()
      requires Fixed()
      modifies this`distances, this`bearings, this`headings, this`visK, this`visI
      ensures Graphs()
      ensures distances == Distances(math, Column(0), Column(1)) && bearings == Bearings(math, Column(0), Column(1))
      ensures headings == orientation[..]
    {
      var xs, ys, facing := Column(0), Column(1), orientation[..];
      distances, bearings, visK, visI := Rebuild(math, xs, ys, facing);
      headings := facing;
      assert Column(0) == xs && Column(1) == ys;
    }

    /** Both graphs are stochastic with a zero diagonal (no agent couples to itself), and an
        enhanced weight is positive exactly for the agents in the view cone and within vision
        range. */
    lemma GraphsStochastic()
      requires Fixed() && Lawful(math) && Graphs()
      ensures forall i :: 0 <= i < n ==> Stochastic(visK[i]) && Stochastic(visI[i])
      ensures forall i :: 0 <= i < n ==> visK[i][i] == 0.0 && visI[i][i] == 0.0
      ensures forall i, j :: 0 <= i < n && 0 <= j < n ==>
        (visI[i][j] > 0.0 <==> EnhancedMask(distances[i], bearings[i], headings[i], VisionRange, VisionAngle)[j])
    {
      forall i | 0 <= i < n
        ensures Stochastic(visK[i]) && Stochastic(visI[i])
        ensures visK[i][i] == 0.0 && visI[i][i] == 0.0
        ensures forall j :: 0 <= j < n ==>
          (visI[i][j] > 0.0 <==> EnhancedMask(distances[i], bearings[i], headings[i], VisionRange, VisionAngle)[j])
      {
        BaselineRowStochastic(distances[i]);
        EnhancedRowStochastic(math, distances[i], bearings[i], headings[i], VisionRange, VisionAngle);
      }
    }

    /** The CPU branch of the phase update: Kuramoto phases advance by their rates; IRE
        angular velocities by their accelerations, then IRE phases by the new velocities.
        Returns `phase_changes`, the Kuramoto rates the flash detector uses. */
    method IntegratePhases() returns (rates: seq<real>)
      requires Fixed() && Square(visK, n) && Square(visI, n)
      modifies phasesK, phasesI, phaseVelocitiesI
      ensures rates == KuramotoRates(math, old(phasesK[..]), visK, frequencies, tempFactor, KuramotoCoupling)
      ensures phasesK[..] == Advance(old(phasesK[..]), rates, dt)
      ensures phaseVelocitiesI[..] == Advance(old(phaseVelocitiesI[..]),
        IreAccelerations(math, old(phasesI[..]), old(phaseVelocitiesI[..]), visI, frequencies, tempFactor, IreDamping, IreCoupling), dt)
      ensures phasesI[..] == Advance(old(phasesI[..]), phaseVelocitiesI[..], dt)
    {
      ghost var phases0, velocities0 := phasesI[..], phaseVelocitiesI[..];
      rates := KuramotoRates(math, phasesK[..], visK, frequencies, tempFactor, KuramotoCoupling);
      var nextK := Advance(phasesK[..], rates, dt);
      forall i | 0 <= i < n {
        phasesK[i] := nextK[i];
      }
      assert phasesK[..] == nextK;
      assert phasesI[..] == phases0 && phaseVelocitiesI[..] == velocities0;
      var accelerations := IreAccelerations(math, phasesI[..], phaseVelocitiesI[..], visI, frequencies, tempFactor, IreDamping, IreCoupling);
      var nextV := Advance(phaseVelocitiesI[..], accelerations, dt);
      forall i | 0 <= i < n {
        phaseVelocitiesI[i] := nextV[i];
      }
      assert phaseVelocitiesI[..] == nextV;
      assert phasesI[..] == phases0;
      var nextI := Advance(phasesI[..], nextV, dt);
      forall i | 0 <= i < n {
        phasesI[i] := nextI[i];
      }
      assert phasesI[..] == nextI;
    }

    /** `positions += velocities * dt`. */
    method MovePositions()
      requires Fixed()
      modifies positions
      ensures Positions() == Drift(old(Positions()), Velocities(), dt)
    {
      var moved := Drift(Positions(), Velocities(), dt);
      forall i, c | 0 <= i < n && 0 <= c < 2 {
        positions[i, c] := if c == 0 then moved[i].x else moved[i].y;
      }
      assert Positions() == moved;
    }

    /** Jitter, speed limiting and reflection against the new positions. */
    method SteerVelocities(jitter: seq<Vec>)
      requires Fixed() && |jitter| == n
      modifies velocities
      ensures Velocities() == SteerAll(math, old(Velocities()), jitter, Positions(), dt, MaxSpeed, Boundary)
    {
      var steered := SteerAll(math, Velocities(), jitter, Positions(), dt, MaxSpeed, Boundary);
      forall i, c | 0 <= i < n && 0 <= c < 2 {
        velocities[i, c] := if c == 0 then steered[i].x else steered[i].y;
      }
      assert Velocities() == steered;
    }

    /** Agents moving faster than 0.1 turn to face their velocity. */
    method TurnAgents()
      requires Fixed()
      modifies orientation
      ensures orientation[..] == TurnAll(math, Velocities(), old(orientation[..]))
    {
      var heading := TurnAll(math, Velocities(), orientation[..]);
      forall i | 0 <= i < n {
        orientation[i] := heading[i];
      }
      assert orientation[..] == heading;
    }

    /** Rare spontaneous flashes: agents whose draw is below 0.0001 restart both phases at 0. */
    method SpontaneousFlashes(draws: seq<real>)
      requires Fixed() && |draws| == n
      modifies phasesK, phasesI
      ensures phasesK[..] == ResetWhere(old(phasesK[..]), SpontaneousMask(draws))
      ensures phasesI[..] == ResetWhere(old(phasesI[..]), SpontaneousMask(draws))
    {
      forall i | 0 <= i < n && draws[i] < SpontaneousProbability {
        phasesK[i] := 0.0;
      }
      forall i | 0 <= i < n && draws[i] < SpontaneousProbability {
        phasesI[i] := 0.0;
      }
    }

    /** The one-shot perturbation: at `perturbationTime` the chosen agents get fresh
        Kuramoto phases, the IRE copy of those phases and zero IRE angular velocity;
        every other agent is left alone. At any other step nothing changes. */
    method ApplyPerturbation(t: nat, disturb: seq<nat>, freshPhases: seq<real>)
      requires Fixed() && DistinctIndices(disturb, n) && |disturb| == DisturbCount(n) && |freshPhases| == |disturb|
      modifies this`perturbationApplied, this`perturbations, phasesK, phasesI, phaseVelocitiesI
      ensures t != perturbationTime ==>
        && perturbationApplied == old(perturbationApplied) && perturbations == old(perturbations)
        && phasesK[..] == old(phasesK[..]) && phasesI[..] == old(phasesI[..])
        && phaseVelocitiesI[..] == old(phaseVelocitiesI[..])
      ensures t == perturbationTime ==> perturbationApplied && perturbations == old(perturbations) + 1
      ensures t == perturbationTime ==> |Elements(disturb)| == n / 5
      ensures t == perturbationTime ==> forall k :: 0 <= k < |disturb| ==>
        phasesK[disturb[k]] == freshPhases[k] && phasesI[disturb[k]] == freshPhases[k] && phaseVelocitiesI[disturb[k]] == 0.0
      ensures t == perturbationTime ==> forall a :: 0 <= a < n && a !in disturb ==>
        phasesK[a] == old(phasesK[a]) && phasesI[a] == old(phasesI[a]) && phaseVelocitiesI[a] == old(phaseVelocitiesI[a])
      ensures t == perturbationTime ==>
        && phasesK[..] == Scatter(old(phasesK[..]), disturb, freshPhases)
        && phasesI[..] == Scatter(old(phasesI[..]), disturb, freshPhases)
        && phaseVelocitiesI[..] == Scatter(old(phaseVelocitiesI[..]), disturb, ZeroRow(|disturb|))
    {
      if t == perturbationTime {
        perturbationApplied := true;
        perturbations := perturbations + 1;
        ScatterInto(phasesK, disturb, freshPhases);
        var copied := seq(|disturb|, k requires 0 <= k < |disturb| reads phasesK => phasesK[disturb[k]]);
        assert copied == freshPhases;
        ScatterInto(phasesI, disturb, copied);
        ScatterInto(phaseVelocitiesI, disturb, ZeroRow(|disturb|));
        DistinctIndicesCount(disturb, n);
      }
    }

    /** Flash detection at step t: one timestamp t*dt is appended to the log of each agent
        the detector reports, and the detector's rows are stored as row t. */
    method RecordFlashes(t: nat, rates: seq<real>) returns (flashK: seq<bool>, flashI: seq<bool>)
      requires Consistent(t + 1, t, t) && t < steps && |rates| == n
      modifies this`flashesK, this`flashesI
      ensures Consistent(t + 1, t + 1, t)
      ensures flashK == Detect(phasesK[..], rates, dt) && flashI == Detect(phasesI[..], phaseVelocitiesI[..], dt)
      ensures flashesK.flashing == old(flashesK.flashing)[t := flashK] && flashesI.flashing == old(flashesI.flashing)[t := flashI]
      ensures forall i :: 0 <= i < n ==>
        flashesK.times[i] == old(flashesK.times[i]) + (if flashK[i] then [Stamp(t, dt)] else [])
      ensures forall i :: 0 <= i < n ==>
        flashesI.times[i] == old(flashesI.times[i]) + (if flashI[i] then [Stamp(t, dt)] else [])
    {
      flashK := Detect(phasesK[..], rates, dt);
      flashI := Detect(phasesI[..], phaseVelocitiesI[..], dt);
      StoreFlashes(t, flashK, flashI);
    }

    /** Logs step t's flashing rows `flashK` and `flashI`: each row is stored and every
        flashing agent's log gets the step's timestamp. */
    method StoreFlashes(t: nat, flashK: seq<bool>, flashI: seq<bool>)
      requires Consistent(t + 1, t, t) && t < steps && |flashK| == n && |flashI| == n
      modifies this`flashesK, this`flashesI
      ensures Consistent(t + 1, t + 1, t)
      ensures flashesK.flashing == old(flashesK.flashing)[t := flashK] && flashesI.flashing == old(flashesI.flashing)[t := flashI]
      ensures forall i :: 0 <= i < n ==>
        flashesK.times[i] == old(flashesK.times[i]) + (if flashK[i] then [Stamp(t, dt)] else [])
      ensures forall i :: 0 <= i < n ==>
        flashesI.times[i] == old(flashesI.times[i]) + (if flashI[i] then [Stamp(t, dt)] else [])
    {
      var logsK := AppendFlashes(flashesK.times, flashK, Stamp(t, dt));
      var logsI := AppendFlashes(flashesI.times, flashI, Stamp(t, dt));
      FlashStateStep(flashesK, steps, n, t, dt, flashK, logsK);
      FlashStateStep(flashesI, steps, n, t, dt, flashI, logsI);
      flashesK, flashesI := Flashes(flashesK.flashing[t := flashK], logsK), Flashes(flashesI.flashing[t := flashI], logsI);
    }

    /** Movement: positions, then velocities against the new positions, then orientations
        against the new velocities. */
    method Move(jitter: seq<Vec>)
      requires Fixed() && |jitter| == n
      modifies positions, velocities, orientation
      ensures Positions() == Drift(old(Positions()), old(Velocities()), dt)
      ensures Velocities() == SteerAll(math, old(Velocities()), jitter, Positions(), dt, MaxSpeed, Boundary)
      ensures orientation[..] == TurnAll(math, Velocities(), old(orientation[..]))
    {
      MovePositions();
      SteerVelocities(jitter);
      TurnAgents();
    }

    /** Movement and, every `VisibilityInterval(n)` steps, the graph refresh. */
    method Relocate(t: nat, jitter: seq<Vec>)
      requires Fixed() && Graphs() && |jitter| == n
      modifies this`distances, this`bearings, this`headings, this`visK, this`visI, positions, velocities, orientation
      ensures Graphs()
      ensures Positions() == Drift(old(Positions()), old(Velocities()), dt)
      ensures Velocities() == SteerAll(math, old(Velocities()), jitter, Positions(), dt, MaxSpeed, Boundary)
      ensures orientation[..] == TurnAll(math, Velocities(), old(orientation[..]))
      ensures t % VisibilityInterval(n) != 0 ==>
        && distances == old(distances) && bearings == old(bearings) && headings == old(headings)
        && visK == old(visK) && visI == old(visI)
      ensures t % VisibilityInterval(n) == 0 ==>
        && distances == Distances(math, Column(0), Column(1)) && bearings == Bearings(math, Column(0), Column(1))
        && headings == orientation[..]
    {
      Move(jitter);
      if t % VisibilityInterval(n) == 0 {
        UpdateVisibility();
      }
    }

    /** Spontaneous resets, then the perturbation stage of step t. */
    method Disturb(t: nat, draws: StepDraws)
      requires Fixed() && Perturbed(t) && StepWellFormed(draws, n)
      modifies this`perturbationApplied, this`perturbations, phasesK, phasesI, phaseVelocitiesI
      ensures Perturbed(t + 1)
      ensures t == perturbationTime ==> forall k :: 0 <= k < |draws.disturb| ==>
        phasesI[draws.disturb[k]] == draws.freshPhases[k] && phaseVelocitiesI[draws.disturb[k]] == 0.0
      ensures phasesK[..] == ResetAndPerturb(old(phasesK[..]), draws, t == perturbationTime)
      ensures phasesI[..] == ResetAndPerturb(old(phasesI[..]), draws, t == perturbationTime)
      ensures phaseVelocitiesI[..] == if t == perturbationTime
        then Scatter(old(phaseVelocitiesI[..]), draws.disturb, ZeroRow(|draws.disturb|)) else old(phaseVelocitiesI[..])
    {
      SpontaneousFlashes(draws.spontaneous);
      ApplyPerturbation(t, draws.disturb, draws.freshPhases);
    }

    /** Phase integration, then movement and the periodic graph refresh: the stages of
        `update_models(t)` before the spontaneous resets. Returns `phase_changes`. */
    method Evolve(t: nat, jitter: seq<Vec>) returns (rates: seq<real>)
      requires Valid(t) && |jitter| == n
      modifies this`distances, this`bearings, this`headings, this`visK, this`visI
      modifies phasesK, phasesI, phaseVelocitiesI, positions, velocities, orientation
      ensures Valid(t)
      ensures rates == KuramotoRates(math, old(phasesK[..]), old(visK), frequencies, tempFactor, KuramotoCoupling)
      ensures phasesK[..] == Advance(old(phasesK[..]), rates, dt)
      ensures phaseVelocitiesI[..] == Advance(old(phaseVelocitiesI[..]), IreAccelerations(math, old(phasesI[..]),
        old(phaseVelocitiesI[..]), old(visI), frequencies, tempFactor, IreDamping, IreCoupling), dt)
      ensures phasesI[..] == Advance(old(phasesI[..]), phaseVelocitiesI[..], dt)
      ensures Positions() == Drift(old(Positions()), old(Velocities()), dt)
      ensures Velocities() == SteerAll(math, old(Velocities()), jitter, Positions(), dt, MaxSpeed, Boundary)
      ensures orientation[..] == TurnAll(math, Velocities(), old(orientation[..]))
      ensures t % VisibilityInterval(n) != 0 ==>
        && distances == old(distances) && bearings == old(bearings) && headings == old(headings)
        && visK == old(visK) && visI == old(visI)
      ensures t % VisibilityInterval(n) == 0 ==>
        && distances == Distances(math, Column(0), Column(1)) && bearings == Bearings(math, Column(0), Column(1))
        && headings == orientation[..]
    {
      rates := IntegratePhases();
      ghost var k1, i1, v1 := phasesK[..], phasesI[..], phaseVelocitiesI[..];
      assert Positions() == old(Positions()) && Velocities() == old(Velocities()) && orientation[..] == old(orientation[..]);
      Relocate(t, jitter);
      assert phasesK[..] == k1 && phasesI[..] == i1 && phaseVelocitiesI[..] == v1;
    }

    /** The stages of `update_models(t)` that change the agents: phase integration,
        movement, the periodic graph refresh, spontaneous resets and the perturbation.
        Returns `phase_changes`. */
    method AdvanceAgents(t: nat, draws: StepDraws) returns (rates: seq<real>)
      requires Valid(t) && StepWellFormed(draws, n)
      modifies this`distances, this`bearings, this`headings, this`visK, this`visI
      modifies this`perturbationApplied, this`perturbations
      modifies phasesK, phasesI, phaseVelocitiesI, positions, velocities, orientation
      ensures Consistent(t + 1, t, t) && |rates| == n
      ensures rates == KuramotoRates(math, old(phasesK[..]), old(visK), frequencies, tempFactor, KuramotoCoupling)
      ensures phasesK[..] == ResetAndPerturb(Advance(old(phasesK[..]), rates, dt), draws, t == perturbationTime)
      ensures var v := Advance(old(phaseVelocitiesI[..]), IreAccelerations(math, old(phasesI[..]), old(phaseVelocitiesI[..]),
                                 old(visI), frequencies, tempFactor, IreDamping, IreCoupling), dt);
        && phasesI[..] == ResetAndPerturb(Advance(old(phasesI[..]), v, dt), draws, t == perturbationTime)
        && phaseVelocitiesI[..] == (if t == perturbationTime then Scatter(v, draws.disturb, ZeroRow(|draws.disturb|)) else v)
      ensures Positions() == Drift(old(Positions()), old(Velocities()), dt)
      ensures Velocities() == SteerAll(math, old(Velocities()), draws.jitter, Positions(), dt, MaxSpeed, Boundary)
      ensures orientation[..] == TurnAll(math, Velocities(), old(orientation[..]))
      ensures t % VisibilityInterval(n) != 0 ==>
        && distances == old(distances) && bearings == old(bearings) && headings == old(headings)
        && visK == old(visK) && visI == old(visI)
      ensures t % VisibilityInterval(n) == 0 ==>
        && distances == Distances(math, Column(0), Column(1)) && bearings == Bearings(math, Column(0), Column(1))
        && headings == orientation[..]
    {
      rates := Evolve(t, draws.jitter);
      Disturb(t, draws);
    }

    /** Stores step t's order parameters `ok`, `oi` and local synchronies `lk`, `li`: the
        order update of `update_models`, the assignments of `calculate_multi_scale_sync`,
        and `track_perturbation_recovery`, which appends the order parameters once the
        perturbation has been applied and t is past the perturbation step. */
    method StoreSeries(t: nat, ok: real, oi: real, lk: real, li: real)
      requires Consistent(t + 1, t + 1, t) && t < steps
      modifies this`seriesK, this`seriesI
      ensures Valid(t + 1)
      ensures seriesK == Record(old(seriesK), t, ok, lk, t > perturbationTime)
      ensures seriesI == Record(old(seriesI), t, oi, li, t > perturbationTime)
    {
      SeriesStateStep(seriesK, steps, perturbationTime, t, ok, lk);
      SeriesStateStep(seriesI, steps, perturbationTime, t, oi, li);
      var recovering := perturbationApplied && t > perturbationTime;
      seriesK, seriesI := Record(seriesK, t, ok, lk, recovering), Record(seriesI, t, oi, li, recovering);
    }

    /** The stages of `update_models(t)` after flash detection: the order parameters,
        the synchrony series and the recovery lists. */
    method RecordSeries(t: nat)
      requires Consistent(t + 1, t + 1, t) && t < steps
      modifies this`seriesK, this`seriesI
      ensures Valid(t + 1)
      ensures seriesK == Record(old(seriesK), t, OrderParameter(math, old(phasesK[..])),
        MeanOrZero(LocalOrders(math, old(distances), old(phasesK[..]), n)), t > perturbationTime)
      ensures seriesI == Record(old(seriesI), t, OrderParameter(math, old(phasesI[..])),
        MeanOrZero(LocalOrders(math, old(distances), old(phasesI[..]), n)), t > perturbationTime)
    {
      var pk, pi := phasesK[..], phasesI[..];
      var lk, li := LocalSync(math, distances, pk, pi);
      StoreSeries(t, OrderParameter(math, pk), OrderParameter(math, pi), lk, li);
    }

    /** `update_models(t)`: one step of the driver loop. */
    method UpdateModels(t: nat, draws: StepDraws)
      requires Valid(t) && t < steps && StepWellFormed(draws, n)
      modifies this, phasesK, phasesI, phaseVelocitiesI, positions, velocities, orientation
      ensures Valid(t + 1)
      ensures perturbations == old(perturbations) + (if t == perturbationTime then 1 else 0)
    {
      var rates := AdvanceAgents(t, draws);
      var flashK, flashI := RecordFlashes(t, rates);
      RecordSeries(t);
    }

    /** `run_simulation`: the driver loop over all steps, with step t given the draws
        `draws[t]`. The progress report at the end of each step computes
        `t % (steps // 10)`, which raises ZeroDivisionError when 0 < steps < 10: the run
        then stops after its first step and `completed` is false. */
    method RunSimulation(draws: seq<StepDraws>) returns (completed: bool)
      requires Valid(0) && |draws| == steps
      requires forall t :: 0 <= t < steps ==> StepWellFormed(draws[t], n)
      modifies this, phasesK, phasesI, phaseVelocitiesI, positions, velocities, orientation
      ensures completed <==> (steps == 0 || steps >= 10)
      ensures Valid(if completed then steps else 1)
      ensures perturbations <= 1
      ensures completed && steps > 0 ==> perturbations == 1 && perturbationApplied
      ensures forall i :: 0 <= i < n ==> StrictlyIncreasing(flashesK.times[i]) && StrictlyIncreasing(flashesI.times[i])
    {
      completed := true;
      var t := 0;
      while t < steps
        invariant Valid(t) && t <= steps
        invariant t > 0 ==> steps >= 10
      {
        UpdateModels(t, draws[t]);
        if steps / 10 == 0 {
          completed := false;
          LogsIncrease(1);
          return;
        }
        t := t + 1;
      }
      LogsIncrease(t);
    }

    /** Every flash log is strictly increasing. */
    lemma LogsIncrease(c: nat)
      requires Valid(c)
      ensures forall i :: 0 <= i < n ==> StrictlyIncreasing(flashesK.times[i]) && StrictlyIncreasing(flashesI.times[i])
    {
      forall i | 0 <= i < n ensures StrictlyIncreasing(flashesK.times[i]) && StrictlyIncreasing(flashesI.times[i]) {
        FlashStampsIncreasing(flashesK.flashing[..c], i, dt);
        FlashStampsIncreasing(flashesI.flashing[..c], i, dt);
      }
    }
  }
}
