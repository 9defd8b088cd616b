/** Real-valued stand-ins for the numpy arithmetic the simulation uses.
    Transcendental functions are fields of a `Math` record handed to every
    operation that needs them; `Lawful` lists the only facts the model relies on. */
module MathModel {

  /** The shortest decimal form of the double `np.pi`, taken as an exact real. */
  const Pi: real := 3.141592653589793
  const TwoPi: real := 2.0 * Pi

  datatype Math = Math(
    sin: real -> real,
    cos: real -> real,
    exp: real -> real,
    sqrt: real -> real,
    atan2: (real, real) -> real)

  /** What the simulation relies on about the library functions. */
  ghost predicate Lawful(m: Math) {
    && (forall x :: m.exp(x) > 0.0)
    && (forall x :: m.sqrt(x) >= 0.0)
    && m.sqrt(0.0) == 0.0
    && m.sqrt(1.0) == 1.0
    && (forall x :: x < 0.0 ==> m.atan2(0.0, x) == Pi)
    && (forall x :: x > 0.0 ==> m.atan2(0.0, x) == 0.0)
  }

  function Sq(x: real): real { x * x }

  /** Python's float `x % (2*np.pi)`: the remainder takes the sign of the divisor. */
  function Mod2Pi(x: real): (r: real)
    ensures 0.0 <= r < TwoPi
  {
    x - TwoPi * ((x / TwoPi).Floor as real)
  }

  /** `Mod2Pi` is determined by a decomposition x = 2*pi*k + s with s in [0, 2*pi). */
  lemma Mod2PiOf(x: real, k: int, s: real)
    requires 0.0 <= s < TwoPi && x == TwoPi * (k as real) + s
    ensures (x / TwoPi).Floor == k && Mod2Pi(x) == s
  {
    assert x / TwoPi == (k as real) + s / TwoPi;
    assert 0.0 <= s / TwoPi < 1.0;
  }

  lemma Mod2PiIdempotent(x: real)
    ensures Mod2Pi(Mod2Pi(x)) == Mod2Pi(x)
  {
    Mod2PiOf(Mod2Pi(x), 0, Mod2Pi(x));
  }

  /** `np.degrees`. */
  function Degrees(rad: real): real { rad * 180.0 / Pi }

  function Sum(s: seq<real>): real
  {
    if s == [] then 0.0 else Sum(s[..|s| - 1]) + s[|s| - 1]
  }

  /** `np.mean` of a non-empty list. */
  function Mean(s: seq<real>): real
    requires s != []
  {
    Sum(s) / (|s| as real)
  }

  function Deviations(s: seq<real>, mu: real): (r: seq<real>)
    ensures |r| == |s|
    ensures forall k :: 0 <= k < |s| ==> r[k] == Sq(s[k] - mu)
  {
    seq(|s|, k requires 0 <= k < |s| => Sq(s[k] - mu))
  }

  /** `np.std` (population standard deviation) of a non-empty list. */
  function Std(m: Math, s: seq<real>): (r: real)
    requires s != []
    ensures Lawful(m) ==> r >= 0.0
  {
    m.sqrt(Mean(Deviations(s, Mean(s))))
  }

  /** `np.diff`. */
  function Diff(s: seq<real>): (r: seq<real>)
    ensures |r| == if s == [] then 0 else |s| - 1
    ensures forall k :: 0 <= k < |r| ==> r[k] == s[k + 1] - s[k]
  {
    if |s| <= 1 then [] else seq(|s| - 1, k requires 0 <= k < |s| - 1 => s[k + 1] - s[k])
  }

  /** `np.linspace(start, stop, num)`: num evenly spaced samples, the last one exactly `stop`. */
  function Linspace(start: real, stop: real, num: nat): (r: seq<real>)
    ensures |r| == num
    ensures num > 0 ==> r[0] == start
    ensures num > 1 ==> r[num - 1] == stop
  {
    if num == 1 then [start]
    else seq(num, k requires 0 <= k < num => start + (k as real) * ((stop - start) / ((num - 1) as real)))
  }

  predicate AllNonNegative(s: seq<real>) {
    forall k :: 0 <= k < |s| ==> s[k] >= 0.0
  }

  predicate AllAtMost(s: seq<real>, b: real) {
    forall k :: 0 <= k < |s| ==> s[k] <= b
  }

  lemma {:induction false} SumNonNegative(s: seq<real>)
    requires AllNonNegative(s)
    ensures Sum(s) >= 0.0
  {
    if s != [] {
      SumNonNegative(s[..|s| - 1]);
    }
  }

  /** A sum of non-negative terms is positive as soon as one term is. */
  lemma {:induction false} SumPositive(s: seq<real>, k: nat)
    requires AllNonNegative(s) && k < |s| && s[k] > 0.0
    ensures Sum(s) > 0.0
  {
    var init := s[..|s| - 1];
    if k == |s| - 1 {
      SumNonNegative(init);
    } else {
      SumPositive(init, k);
    }
  }

  lemma {:induction false} SumAtMost(s: seq<real>, b: real)
    requires AllAtMost(s, b)
    ensures Sum(s) <= (|s| as real) * b
  {
    if s != [] {
      SumAtMost(s[..|s| - 1], b);
    }
  }

  lemma MeanNonNegative(s: seq<real>)
    requires s != [] && AllNonNegative(s)
    ensures Mean(s) >= 0.0
  {
    SumNonNegative(s);
  }

  lemma MeanAtMost(s: seq<real>, b: real)
    requires s != [] && AllAtMost(s, b)
    ensures Mean(s) <= b
  {
    SumAtMost(s, b);
  }

  /** The intervals of a log add up to the time between its first and last entry. */
  lemma {:induction false} SumDiffTelescopes(s: seq<real>)
    requires s != []
    ensures Sum(Diff(s)) == s[|s| - 1] - s[0]
  {
    if |s| > 1 {
      var init := s[..|s| - 1];
      var d, di := Diff(s), Diff(init);
      SumDiffTelescopes(init);
      assert d[..|d| - 1] == di;
      assert d[|d| - 1] == s[|s| - 1] - s[|s| - 2];
      assert init[|init| - 1] == s[|s| - 2] && init[0] == s[0];
      assert Sum(d) == Sum(di) + d[|d| - 1];
    }
  }
}
