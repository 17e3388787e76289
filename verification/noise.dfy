/**
 * Noise composition: the fractal octave sum (fbm) and the ridged fold, over an
 * abstract gradient-noise sampler. The Perlin generator itself is a parameter.
 */
module Noise {

  /** Earth's equatorial circumference, the baseline of the noise scale. */
  const EarthCircumferenceKm: real := 40075.0

  /** A seeded 3-D gradient-noise source, sampled at a point. */
  type Sampler = (real, real, real) -> real

  /** Perlin noise stays within [-1, 1] at every point. */
  ghost predicate Bounded(s: Sampler) {
    forall x: real, y: real, z: real :: -1.0 <= s(x, y, z) <= 1.0
  }

  /** An f32 result: a finite value, or the NaN that 0/0 produces. */
  datatype Float = Finite(value: real) | NaN

  /** b raised to the k-th power. */
  function Pow(b: real, k: nat): real {
    if k == 0 then 1.0 else b * Pow(b, k - 1)
  }

  /** A coordinate or sample scaled by a factor (a plain product). */
  function Scale(a: real, f: real): real {
    a * f
  }

  /** Octave k contributes the sample at frequency 2^k, weighted by amplitude 0.5^k. */
  function Octave(s: Sampler, x: real, y: real, z: real, k: nat): real {
    var f := Pow(2.0, k);
    Scale(s(Scale(x, f), Scale(y, f), Scale(z, f)), Pow(0.5, k))
  }

  /** The weighted sum of the first n octaves. */
  function OctaveSum(s: Sampler, x: real, y: real, z: real, n: nat): real {
    if n == 0 then 0.0 else OctaveSum(s, x, y, z, n - 1) + Octave(s, x, y, z, n - 1)
  }

  /** The sum of the first n amplitudes, fbm's normaliser `max_value`. */
  function AmplitudeSum(n: nat): real {
    if n == 0 then 0.0 else AmplitudeSum(n - 1) + Pow(0.5, n - 1)
  }

  lemma {:induction false} PowHalfBounds(k: nat)
    ensures 0.0 < Pow(0.5, k) <= 1.0
    ensures k >= 1 ==> Pow(0.5, k) <= 0.5
  {
    if k > 0 {
      PowHalfBounds(k - 1);
    }
  }

  /** The normaliser in closed form: 2 - 2^(1-n), which is at least 1 once n >= 1. */
  lemma {:induction false} AmplitudeSumClosedForm(n: nat)
    ensures AmplitudeSum(n) == 2.0 - 2.0 * Pow(0.5, n)
    ensures n >= 1 ==> 1.0 <= AmplitudeSum(n) < 2.0
  {
    PowHalfBounds(n);
    if n > 0 {
      AmplitudeSumClosedForm(n - 1);
    }
  }

  /** Over a bounded sampler the octave sum never exceeds the normaliser in magnitude. */
  lemma {:induction false} OctaveSumBounded(s: Sampler, x: real, y: real, z: real, n: nat)
    requires Bounded(s)
    ensures -AmplitudeSum(n) <= OctaveSum(s, x, y, z, n) <= AmplitudeSum(n)
  {
    if n > 0 {
      OctaveSumBounded(s, x, y, z, n - 1);
      var k := n - 1;
      var f := Pow(2.0, k);
      var a := Pow(0.5, k);
      PowHalfBounds(k);
      var v := s(Scale(x, f), Scale(y, f), Scale(z, f));
      assert -1.0 <= v <= 1.0;
      assert Octave(s, x, y, z, k) == Scale(v, a);
      ScaleBounded(v, a);
    }
  }

  /** A sample in [-1, 1] weighted by a non-negative amplitude stays within that amplitude. */
  lemma ScaleBounded(v: real, a: real)
    requires -1.0 <= v <= 1.0 && 0.0 <= a
    ensures -a <= Scale(v, a) <= a
  {
    MulNonNegative(1.0 - v, a);
    MulNonNegative(1.0 + v, a);
    assert (1.0 - v) * a == a - v * a;
    assert (1.0 + v) * a == a + v * a;
  }

  lemma MulNonNegative(x: real, y: real)
    requires 0.0 <= x && 0.0 <= y
    ensures 0.0 <= x * y
  {
  }

  /** The first octave is the sample itself, at unit frequency and amplitude. */
  lemma FirstOctave(s: Sampler, x: real, y: real, z: real)
    ensures OctaveSum(s, x, y, z, 1) == s(x, y, z)
    ensures AmplitudeSum(1) == 1.0
  {
    assert Pow(2.0, 0) == 1.0 && Pow(0.5, 0) == 1.0;
    assert Scale(x, 1.0) == x && Scale(y, 1.0) == y && Scale(z, 1.0) == z;
    assert Octave(s, x, y, z, 0) == Scale(s(x, y, z), 1.0);
  }

  /** A quotient whose numerator is bounded by its denominator lies in [-1, 1]. */
  lemma QuotientBounded(num: real, den: real)
    requires den >= 1.0 && -den <= num <= den
    ensures -1.0 <= num / den <= 1.0
  {
  }

  /**
   * fbm: the octave sum divided by the normaliser. With no octaves the
   * division is 0/0, which is NaN.
   */
  function Fbm(s: Sampler, x: real, y: real, z: real, octaves: nat): (r: Float)
    ensures r.NaN? <==> octaves == 0
    ensures octaves == 1 ==> r == Finite(s(x, y, z))
    ensures r.Finite? ==> r.value * AmplitudeSum(octaves) == OctaveSum(s, x, y, z, octaves)
  {
    if octaves == 0 then NaN
    else
      AmplitudeSumClosedForm(octaves);
      FirstOctave(s, x, y, z);
      Finite(OctaveSum(s, x, y, z, octaves) / AmplitudeSum(octaves))
  }

  /** Over a bounded sampler, fbm with at least one octave stays within [-1, 1]. */
  lemma FbmBounded(s: Sampler, x: real, y: real, z: real, octaves: nat)
    requires octaves >= 1
    ensures Bounded(s) ==> -1.0 <= Fbm(s, x, y, z, octaves).value <= 1.0
  {
    if Bounded(s) {
      var sum := OctaveSum(s, x, y, z, octaves);
      var amp := AmplitudeSum(octaves);
      AmplitudeSumClosedForm(octaves);
      OctaveSumBounded(s, x, y, z, octaves);
      QuotientBounded(sum, amp);
    }
  }

  /**
   * The fbm loop as written: amplitude halves and frequency doubles each octave,
   * while `value` and `max_value` accumulate.
   */
  method FbmLoop(s: Sampler, x: real, y: real, z: real, octaves: nat) returns (r: Float)
    ensures r == Fbm(s, x, y, z, octaves)
  {
    var value := 0.0;
    var amplitude := 1.0;
    var frequency := 1.0;
    var maxValue := 0.0;
    for k := 0 to octaves
      invariant amplitude == Pow(0.5, k)
      invariant frequency == Pow(2.0, k)
      invariant value == OctaveSum(s, x, y, z, k)
      invariant maxValue == AmplitudeSum(k)
    {
      assert OctaveSum(s, x, y, z, k + 1) == value + Octave(s, x, y, z, k);
      value := value + Scale(s(Scale(x, frequency), Scale(y, frequency), Scale(z, frequency)), amplitude);
      maxValue := maxValue + amplitude;
      amplitude := amplitude * 0.5;
      frequency := frequency * 2.0;
    }
    if maxValue == 0.0 {
      AmplitudeSumClosedForm(octaves);
      r := NaN;
    } else {
      r := Finite(value / maxValue);
    }
  }

  /** Ridged noise: signed noise folded into peaks, 1 - |v|. */
  function Ridged(s: Sampler, x: real, y: real, z: real): (r: real)
    ensures r <= 1.0
    ensures r == 1.0 <==> s(x, y, z) == 0.0
    ensures -1.0 <= s(x, y, z) <= 1.0 ==> 0.0 <= r
  {
    var v := s(x, y, z);
    1.0 - (if v < 0.0 then -v else v)
  }

  /** Over a bounded sampler ridged noise lies in [0, 1]. */
  lemma RidgedBounded(s: Sampler, x: real, y: real, z: real)
    ensures Bounded(s) ==> 0.0 <= Ridged(s, x, y, z) <= 1.0
  {
  }
}
