/** The value-level pieces of one integration step of `update_models`:
    phase equations, motion, the wrap detector, spontaneous resets,
    the perturbation schedule and the flash log each step appends to. */
module Dynamics {
  import opened MathModel
  import opened Visibility

  datatype Vec = Vec(x: real, y: real)

  // ---- Phase equations ----------------------------------------------------

  /** sum_j w[j] * sin(p[j] - p[i]): agent i's row of `visibility * sin_diff`, summed. */
  function Coupling(m: Math, row: seq<real>, phases: seq<real>, i: nat): real
    requires |row| == |phases| && i < |phases|
  {
    Sum(seq(|row|, j requires 0 <= j < |row| => row[j] * m.sin(phases[j] - phases[i])))
  }

  /** The first-order phase rates `phase_changes`. */
  function KuramotoRates(m: Math, phases: seq<real>, vis: Matrix, freq: seq<real>, temp: seq<real>, k: real): (r: seq<real>)
    requires Square(vis, |phases|) && |freq| == |phases| && |temp| == |phases|
    ensures |r| == |phases|
  {
    seq(|phases|, i requires 0 <= i < |phases| => freq[i] * temp[i] + k * Coupling(m, vis[i], phases, i))
  }

  /** The second-order angular accelerations `phase_accelerations`. */
  function IreAccelerations(m: Math, phases: seq<real>, vel: seq<real>, vis: Matrix, freq: seq<real>, temp: seq<real>,
                            gamma: real, k: real): (r: seq<real>)
    requires Square(vis, |phases|) && |vel| == |phases| && |freq| == |phases| && |temp| == |phases|
    ensures |r| == |phases|
  {
    seq(|phases|, i requires 0 <= i < |phases| =>
      freq[i] * temp[i] - gamma * vel[i] + k * Coupling(m, vis[i], phases, i))
  }

  /** One explicit Euler step, `x += rate * dt`, element-wise. */
  function Advance(x: seq<real>, rate: seq<real>, dt: real): (r: seq<real>)
    requires |rate| == |x|
    ensures |r| == |x| && forall i :: 0 <= i < |x| ==> r[i] == x[i] + rate[i] * dt
  {
    seq(|x|, i requires 0 <= i < |x| => x[i] + rate[i] * dt)
  }

  /** The order parameter |mean(exp(i*theta))|, written with cos, sin and sqrt. */
  function OrderParameter(m: Math, phases: seq<real>): (r: real)
    requires phases != []
    ensures Lawful(m) ==> r >= 0.0
  {
    var re := Mean(seq(|phases|, k requires 0 <= k < |phases| => m.cos(phases[k])));
    var im := Mean(seq(|phases|, k requires 0 <= k < |phases| => m.sin(phases[k])));
    m.sqrt(Sq(re) + Sq(im))
  }

  // ---- Flash detection ----------------------------------------------------

  /** The one-step wrap detector: the reduced phase is below the reduced phase
      reconstructed one step back by subtracting rate * dt. */
  predicate Flashed(phase: real, rate: real, dt: real) {
    var now := Mod2Pi(phase);
    now < Mod2Pi(now - rate * dt)
  }

  function Detect(phases: seq<real>, rates: seq<real>, dt: real): (r: seq<bool>)
    requires |rates| == |phases|
    ensures |r| == |phases| && forall i :: 0 <= i < |phases| ==> r[i] == Flashed(phases[i], rates[i], dt)
  {
    seq(|phases|, i requires 0 <= i < |phases| => Flashed(phases[i], rates[i], dt))
  }

  /** For a step that advances the phase by less than a full turn, the detector fires exactly
      when the step crossed a multiple of 2*pi: the previous phase lies in an earlier turn. */
  lemma FlashedIffWrapped(phase: real, rate: real, dt: real)
    requires 0.0 <= rate * dt < TwoPi
    ensures Flashed(phase, rate, dt) <==> ((phase - rate * dt) / TwoPi).Floor < (phase / TwoPi).Floor
  {
    var delta := rate * dt;
    var f := (phase / TwoPi).Floor;
    var now := Mod2Pi(phase);
    assert phase == TwoPi * (f as real) + now;
    if now - delta >= 0.0 {
      Mod2PiOf(now - delta, 0, now - delta);
      Mod2PiOf(phase - delta, f, now - delta);
    } else {
      Mod2PiOf(now - delta, -1, now - delta + TwoPi);
      Mod2PiOf(phase - delta, f - 1, now - delta + TwoPi);
    }
  }

  /** An agent whose phase did not move (a perturbed agent's angular velocity is zero) never flashes. */
  lemma NoFlashAtRest(phase: real, dt: real)
    ensures !Flashed(phase, 0.0, dt)
  {
    assert 0.0 * dt == 0.0;
    Mod2PiIdempotent(phase);
  }

  /** A phase reset to zero by a spontaneous flash is reported as a flash when the
      agent's rate was moving it forward by less than a full turn. */
  lemma ResetRegistersAsFlash(rate: real, dt: real)
    requires 0.0 < rate * dt < TwoPi
    ensures Flashed(0.0, rate, dt)
  {
    var delta := rate * dt;
    Mod2PiOf(0.0, 0, 0.0);
    Mod2PiOf(0.0 - delta, -1, TwoPi - delta);
  }

  // ---- Spontaneous flashes and perturbation -------------------------------

  const SpontaneousProbability: real := 0.0001

  /** `np.random.random(n) < 0.0001` from the uniform draws. */
  function SpontaneousMask(draws: seq<real>): (mask: seq<bool>)
    ensures |mask| == |draws| && forall i :: 0 <= i < |draws| ==> mask[i] == (draws[i] < SpontaneousProbability)
  {
    seq(|draws|, i requires 0 <= i < |draws| => draws[i] < SpontaneousProbability)
  }

  /** `phases[mask] = 0`. */
  function ResetWhere(phases: seq<real>, mask: seq<bool>): (r: seq<real>)
    requires |mask| == |phases|
    ensures |r| == |phases|
    ensures forall i :: 0 <= i < |phases| ==> r[i] == if mask[i] then 0.0 else phases[i]
  {
    seq(|phases|, i requires 0 <= i < |phases| => if mask[i] then 0.0 else phases[i])
  }

  /** `int(0.2 * n)`: how many agents the perturbation disturbs. */
  function DisturbCount(n: nat): (c: nat)
    ensures c == n / 5
  {
    var f := (0.2 * (n as real)).Floor;
    FifthFloor(n, f);
    f
  }

  lemma FifthFloor(n: nat, f: int)
    requires f == (0.2 * (n as real)).Floor
    ensures f == n / 5
  {
    var q, r := n / 5, n % 5;
    assert 0.2 * (n as real) == (q as real) + (r as real) / 5.0;
  }

  /** `int(0.6 * steps)`: the step at which the perturbation fires. */
  function PerturbationStep(steps: nat): (p: nat)
    ensures steps > 0 ==> p < steps
    ensures p <= steps
  {
    var f := (0.6 * (steps as real)).Floor;
    assert f >= 0;
    f
  }

  /** `int(duration / dt)`, which truncates towards zero: the number of whole steps that fit
      in a non-negative duration, and 0 for a duration in (-dt, 0). */
  function StepCount(duration: real, dt: real): (steps: nat)
    requires dt > 0.0 && duration > -dt
    ensures duration >= 0.0 ==> (steps as real) * dt <= duration < ((steps + 1) as real) * dt
    ensures duration < 0.0 ==> steps == 0
  {
    if duration < 0.0 then 0
    else
      var f := (duration / dt).Floor;
      assert (f as real) <= duration / dt < (f as real) + 1.0;
      ScaleFloor(duration, dt, f);
      f
  }

  lemma ScaleFloor(duration: real, dt: real, f: int)
    requires dt > 0.0 && (f as real) <= duration / dt < (f as real) + 1.0
    ensures (f as real) * dt <= duration < ((f + 1) as real) * dt
  {
    var q := duration / dt;
    assert duration == q * dt;
    assert ((f + 1) as real) == (f as real) + 1.0;
    MultiplyMonotone(f as real, q, dt);
    MultiplyStrict(q, (f as real) + 1.0, dt);
    assert duration < ((f as real) + 1.0) * dt;
  }

  lemma MultiplyMonotone(a: real, b: real, c: real)
    requires a <= b && c > 0.0
    ensures a * c <= b * c
  {
  }

  lemma MultiplyStrict(a: real, b: real, c: real)
    requires a < b && c > 0.0
    ensures a * c < b * c
  {
  }

  /** Indices drawn without replacement from range(n). */
  predicate DistinctIndices(idx: seq<nat>, n: nat) {
    && (forall k :: 0 <= k < |idx| ==> idx[k] < n)
    && (forall a, b :: 0 <= a < b < |idx| ==> idx[a] != idx[b])
  }

  /** `s[idx] = vals` with distinct indices: the listed entries are replaced and every other
      entry is kept. */
  function Scatter(s: seq<real>, idx: seq<nat>, vals: seq<real>): (r: seq<real>)
    requires DistinctIndices(idx, |s|) && |vals| == |idx|
    ensures |r| == |s|
    ensures forall k :: 0 <= k < |idx| ==> r[idx[k]] == vals[k]
    ensures forall a :: 0 <= a < |s| && a !in idx ==> r[a] == s[a]
    decreases |idx|
  {
    if idx == [] then s
    else
      var m := |idx| - 1;
      assert forall k :: 0 <= k < m ==> idx[..m][k] == idx[k] && idx[k] != idx[m];
      Scatter(s, idx[..m], vals[..m])[idx[m] := vals[m]]
  }

  /** The replacement is determined by what it promises: a sequence holding `vals` at the
      listed indices and agreeing with `s` everywhere else is `Scatter(s, idx, vals)`. */
  lemma ScatterUnique(s: seq<real>, idx: seq<nat>, vals: seq<real>, r: seq<real>)
    requires DistinctIndices(idx, |s|) && |vals| == |idx| && |r| == |s|
    requires forall k :: 0 <= k < |idx| ==> r[idx[k]] == vals[k]
    requires forall a :: 0 <= a < |s| && a !in idx ==> r[a] == s[a]
    ensures r == Scatter(s, idx, vals)
  {
    var q := Scatter(s, idx, vals);
    forall a | 0 <= a < |s| ensures r[a] == q[a] {
      if a in idx {
        var k :| 0 <= k < |idx| && idx[k] == a;
      }
    }
  }

  /** The set of agents a list of indices names. */
  function Elements(idx: seq<nat>): (e: set<nat>)
    ensures forall k :: k in e <==> k in idx
  {
    if idx == [] then {} else Elements(idx[..|idx| - 1]) + {idx[|idx| - 1]}
  }

  /** Distinct indices name exactly as many agents as there are indices. */
  lemma {:induction false} DistinctIndicesCount(idx: seq<nat>, n: nat)
    requires DistinctIndices(idx, n)
    ensures |Elements(idx)| == |idx|
  {
    if idx != [] {
      var init, last := idx[..|idx| - 1], idx[|idx| - 1];
      assert DistinctIndices(init, n);
      DistinctIndicesCount(init, n);
      assert last !in Elements(init);
    }
  }

  // ---- Visibility refresh cadence -----------------------------------------

  /** `max(10, min(50, n // 100))`. */
  function VisibilityInterval(n: nat): (r: nat)
    ensures 10 <= r <= 50
  {
    var inner := if 50 < n / 100 then 50 else n / 100;
    if 10 < inner then inner else 10
  }

  /** The graphs are never more than 49 steps stale: every window of
      `VisibilityInterval(n)` consecutive steps contains a refresh step. */
  lemma RefreshWithinInterval(n: nat, t: nat)
    ensures exists s :: t <= s < t + VisibilityInterval(n) && s % VisibilityInterval(n) == 0
  {
    var k := VisibilityInterval(n);
    var q, r := t / k, t % k;
    assert t == q * k + r && 0 <= r < k;
    if r == 0 {
      assert t % k == 0;
    } else {
      var s := (q + 1) * k;
      assert s == t + (k - r);
      MultipleMod((q + 1), k);
      assert t <= s < t + k && s % k == 0;
    }
  }

  lemma MultipleMod(c: nat, k: nat)
    requires k > 0
    ensures (c * k) % k == 0
  {
    var q, r := (c * k) / k, (c * k) % k;
    assert c * k == k * q + r && 0 <= r < k;
    assert k * (c - q) == r;
    if c - q >= 1 {
      MultiplyAtLeast(k, c - q);
    } else if c - q <= -1 {
      MultiplyAtLeast(k, q - c);
    }
  }

  lemma MultiplyAtLeast(k: nat, d: int)
    requires d >= 1
    ensures k * d >= k
  {
  }

  // ---- Motion -------------------------------------------------------------

  /** Sign flip of one velocity axis for an agent beyond the boundary box. */
  function Reflect(pos: real, vel: real, boundary: real): real {
    if (if pos < 0.0 then -pos else pos) > boundary then -vel else vel
  }

  /** Speed limiting: a velocity faster than the maximum is rescaled to the maximum speed. */
  function Clamp(m: Math, v: Vec, maxSpeed: real): Vec
    requires maxSpeed >= 0.0
  {
    var speed := m.sqrt(Sq(v.x) + Sq(v.y));
    if speed > maxSpeed then Vec(v.x * (maxSpeed / speed), v.y * (maxSpeed / speed)) else v
  }

  /** Jitter, then speed limiting, then reflection against the new position. */
  function NextVelocity(m: Math, v: Vec, jitter: Vec, pos: Vec, dt: real, maxSpeed: real, boundary: real): (r: Vec)
    requires maxSpeed >= 0.0
  {
    var jittered := Vec(v.x + 0.2 * jitter.x * dt, v.y + 0.2 * jitter.y * dt);
    var limited := Clamp(m, jittered, maxSpeed);
    Vec(Reflect(pos.x, limited.x, boundary), Reflect(pos.y, limited.y, boundary))
  }

  /** Heading follows the velocity when the speed exceeds 0.1, and is kept otherwise. */
  function NextOrientation(m: Math, v: Vec, orientation: real): real {
    if m.sqrt(Sq(v.x) + Sq(v.y)) > 0.1 then m.atan2(v.y, v.x) else orientation
  }

  /** `positions += velocities * dt` over the whole population. */
  function Drift(p: seq<Vec>, v: seq<Vec>, dt: real): (r: seq<Vec>)
    requires |v| == |p|
    ensures |r| == |p| && forall i :: 0 <= i < |p| ==> r[i] == Vec(p[i].x + v[i].x * dt, p[i].y + v[i].y * dt)
  {
    seq(|p|, i requires 0 <= i < |p| => Vec(p[i].x + v[i].x * dt, p[i].y + v[i].y * dt))
  }

  /** Every agent's next velocity, each against its own jitter and new position. */
  function SteerAll(m: Math, v: seq<Vec>, jitter: seq<Vec>, p: seq<Vec>, dt: real, maxSpeed: real, boundary: real): (r: seq<Vec>)
    requires |jitter| == |v| && |p| == |v| && maxSpeed >= 0.0
    ensures |r| == |v| && forall i :: 0 <= i < |v| ==> r[i] == NextVelocity(m, v[i], jitter[i], p[i], dt, maxSpeed, boundary)
  {
    seq(|v|, i requires 0 <= i < |v| => NextVelocity(m, v[i], jitter[i], p[i], dt, maxSpeed, boundary))
  }

  /** Every agent's next heading for its velocity. */
  function TurnAll(m: Math, v: seq<Vec>, o: seq<real>): (r: seq<real>)
    requires |o| == |v|
    ensures |r| == |v| && forall i :: 0 <= i < |v| ==> r[i] == NextOrientation(m, v[i], o[i])
  {
    seq(|v|, i requires 0 <= i < |v| => NextOrientation(m, v[i], o[i]))
  }

  /** Reflection flips a non-zero velocity component exactly when the position is out of bounds. */
  lemma ReflectFlipsIffOutside(pos: real, vel: real, boundary: real)
    requires vel != 0.0
    ensures Reflect(pos, vel, boundary) == -vel <==> (pos > boundary || pos < -boundary)
    ensures Reflect(pos, vel, boundary) == vel <==> (-boundary <= pos <= boundary)
  {
  }

  // ---- The flash log ------------------------------------------------------

  predicate RowsOf(rows: seq<seq<bool>>, n: nat) {
    forall t :: 0 <= t < |rows| ==> |rows[t]| == n
  }

  /** `t_idx * self.dt`: the time of step t. */
  function Stamp(t: nat, dt: real): real {
    (t as real) * dt
  }

  /** Agent i's flash log after the steps whose flashing rows are `rows`:
      the timestamps t*dt of the steps t whose row marks agent i. */
  function FlashStamps(rows: seq<seq<bool>>, i: nat, dt: real): (log: seq<real>)
    requires forall t :: 0 <= t < |rows| ==> i < |rows[t]|
    ensures |log| <= |rows|
  {
    if rows == [] then []
    else
      FlashStamps(rows[..|rows| - 1], i, dt) + (if rows[|rows| - 1][i] then [Stamp(|rows| - 1, dt)] else [])
  }

  predicate StrictlyIncreasing(s: seq<real>) {
    forall a, b :: 0 <= a < b < |s| ==> s[a] < s[b]
  }

  /** A flash log is strictly increasing and holds only timestamps of steps already taken. */
  lemma {:induction false} FlashStampsIncreasing(rows: seq<seq<bool>>, i: nat, dt: real)
    requires forall t :: 0 <= t < |rows| ==> i < |rows[t]|
    requires dt > 0.0
    ensures StrictlyIncreasing(FlashStamps(rows, i, dt))
    ensures forall k :: 0 <= k < |FlashStamps(rows, i, dt)| ==>
      0.0 <= FlashStamps(rows, i, dt)[k] < (|rows| as real) * dt
  {
    if rows != [] {
      var init := rows[..|rows| - 1];
      FlashStampsIncreasing(init, i, dt);
      var last := Stamp(|rows| - 1, dt);
      assert (|init| as real) * dt == last;
      assert last >= 0.0 && last < (|rows| as real) * dt;
    }
  }

  /** The flash log of agent i has one entry per step whose flashing row marks agent i. */
  lemma {:induction false} FlashStampsCount(rows: seq<seq<bool>>, i: nat, dt: real)
    requires forall t :: 0 <= t < |rows| ==> i < |rows[t]|
    ensures |FlashStamps(rows, i, dt)| == CountTrue(seq(|rows|, t requires 0 <= t < |rows| => rows[t][i]))
  {
    if rows != [] {
      var init := rows[..|rows| - 1];
      FlashStampsCount(init, i, dt);
      var col := seq(|rows|, t requires 0 <= t < |rows| => rows[t][i]);
      assert col[..|rows| - 1] == seq(|init|, t requires 0 <= t < |init| => init[t][i]);
    }
  }

  /** The loop over `np.where(flashing)[0]`: the timestamp is appended to the log of
      every flashing agent, visiting them in index order; other logs are kept. */
  method AppendFlashes(logs: seq<seq<real>>, flashing: seq<bool>, stamp: real) returns (r: seq<seq<real>>)
    requires |flashing| == |logs|
    ensures |r| == |logs|
    ensures forall i :: 0 <= i < |logs| ==> r[i] == logs[i] + (if flashing[i] then [stamp] else [])
  {
    r := logs;
    for i := 0 to |logs|
      invariant |r| == |logs|
      invariant forall a :: 0 <= a < i ==> r[a] == logs[a] + (if flashing[a] then [stamp] else [])
      invariant forall a :: i <= a < |logs| ==> r[a] == logs[a]
    {
      if flashing[i] {
        r := r[i := r[i] + [stamp]];
      }
    }
  }

  /** The recovery trajectory after `clock` steps: the order parameters of the steps
      strictly after the perturbation step. */
  function RecoveryWindow(order: seq<real>, perturbationTime: nat, clock: nat): (w: seq<real>)
    requires clock <= |order|
    ensures |w| == if clock > perturbationTime + 1 then clock - perturbationTime - 1 else 0
  {
    if clock > perturbationTime + 1 then order[perturbationTime + 1..clock] else []
  }

  /** Recording step c extends every flash log by at most that step's timestamp, and
      leaves what the earlier steps logged untouched. */
  lemma FlashStampsStep(before: seq<seq<bool>>, after: seq<seq<bool>>, i: nat, dt: real, c: nat)
    requires c < |after| && c <= |before| && after[..c] == before[..c]
    requires forall t :: 0 <= t < |after| ==> i < |after[t]|
    requires forall t :: 0 <= t < |before| ==> i < |before[t]|
    ensures FlashStamps(after[..c + 1], i, dt) ==
      FlashStamps(before[..c], i, dt) + (if after[c][i] then [Stamp(c, dt)] else [])
  {
    var rows := after[..c + 1];
    assert forall t :: 0 <= t < |rows| ==> i < |rows[t]|;
    assert rows[..|rows| - 1] == before[..c] && rows[|rows| - 1] == after[c];
    FlashStampsLast(rows, i, dt);
  }

  /** The last recorded row contributes the last timestamp, if any. */
  lemma FlashStampsLast(rows: seq<seq<bool>>, i: nat, dt: real)
    requires rows != [] && forall t :: 0 <= t < |rows| ==> i < |rows[t]|
    ensures FlashStamps(rows, i, dt) ==
      FlashStamps(rows[..|rows| - 1], i, dt) + (if rows[|rows| - 1][i] then [Stamp(|rows| - 1, dt)] else [])
  {
  }

  /** Recording step c extends the recovery window by that step's order parameter exactly
      when c comes after the perturbation step. */
  lemma RecoveryWindowStep(before: seq<real>, after: seq<real>, perturbationTime: nat, c: nat)
    requires c < |after| && c <= |before| && after[..c] == before[..c]
    ensures RecoveryWindow(after, perturbationTime, c + 1) ==
      RecoveryWindow(before, perturbationTime, c) + (if c > perturbationTime then [after[c]] else [])
  {
    if c > perturbationTime + 1 {
      assert after[perturbationTime + 1..c] == before[..c][perturbationTime + 1..c] == before[perturbationTime + 1..c];
      assert after[perturbationTime + 1..c + 1] == after[perturbationTime + 1..c] + [after[c]];
    } else if c == perturbationTime + 1 {
      assert after[perturbationTime + 1..c + 1] == [after[c]];
    }
  }
}
