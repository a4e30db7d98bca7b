/** Sample energy, and the arithmetic of mixing with a 1/sqrt(n) headroom. */
module MixMath {

  const SILENCE_THRESHOLD: real := 0.00000001

  function Abs(x: real): (r: real)
    ensures r >= 0.0
  {
    if x < 0.0 then -x else x
  }

  /** Products are named so that equal factors visibly give equal products. */
  function Scale(h: real, x: real): real {
    h * x
  }

  function Square(x: real): (r: real)
    ensures r >= 0.0
  {
    x * x
  }

  predicate IsAudible(x: real) {
    Abs(x) > SILENCE_THRESHOLD
  }

  ghost predicate HasAudible(samples: seq<real>) {
    exists x :: x in samples && IsAudible(x)
  }

  ghost function Sum(xs: seq<real>): real {
    if xs == [] then 0.0 else Sum(xs[..|xs| - 1]) + xs[|xs| - 1]
  }

  ghost function Energy(xs: seq<real>): (r: real)
    ensures r >= 0.0
  {
    if xs == [] then 0.0 else Energy(xs[..|xs| - 1]) + Square(xs[|xs| - 1])
  }

  ghost function CountAudible(xs: seq<real>): nat {
    if xs == [] then 0 else CountAudible(xs[..|xs| - 1]) + if IsAudible(xs[|xs| - 1]) then 1 else 0
  }

  lemma {:induction false} CountAudiblePositive(xs: seq<real>)
    ensures CountAudible(xs) > 0 <==> HasAudible(xs)
  {
    if xs != [] {
      var n := |xs| - 1;
      CountAudiblePositive(xs[..n]);
      assert forall x :: x in xs <==> x in xs[..n] || x == xs[n];
    }
  }

  datatype PacketEnergy = PacketEnergy(peak: real, sumSquares: real, sampleCount: nat, nonZeroCount: nat) {
    predicate HasAudibleSamples() {
      nonZeroCount > 0
    }
  }

  /** `peak` is the largest magnitude in the buffer, 0 for an empty one. */
  ghost predicate IsPeak(peak: real, samples: seq<real>) {
    && (forall x :: x in samples ==> Abs(x) <= peak)
    && (if samples == [] then peak == 0.0 else exists x :: x in samples && Abs(x) == peak)
  }

  lemma PeakStep(peak: real, samples: seq<real>, x: real)
    requires IsPeak(peak, samples)
    ensures IsPeak(if Abs(x) > peak then Abs(x) else peak, samples + [x])
  {
    var all := samples + [x];
    assert all[|samples|] == x;
    assert forall y :: y in samples ==> y in all;
  }

  lemma MeasureStep(samples: seq<real>, i: nat, peak: real)
    requires i < |samples| && IsPeak(peak, samples[..i])
    ensures Energy(samples[..i + 1]) == Energy(samples[..i]) + Square(Abs(samples[i]))
    ensures CountAudible(samples[..i + 1]) == CountAudible(samples[..i]) + if IsAudible(samples[i]) then 1 else 0
    ensures IsPeak(if Abs(samples[i]) > peak then Abs(samples[i]) else peak, samples[..i + 1])
  {
    assert samples[..i + 1] == samples[..i] + [samples[i]];
    assert samples[..i + 1][..i] == samples[..i];
    PeakStep(peak, samples[..i], samples[i]);
    SquareOfAbs(samples[i]);
  }

  lemma SquareOfAbs(x: real)
    ensures Square(Abs(x)) == Square(x)
  {
  }

  /** Measures a buffer: its largest magnitude, its energy and whether any
      sample rises above the silence threshold. */
  method MeasurePacketEnergy(samples: seq<real>) returns (energy: PacketEnergy)
    ensures energy.sampleCount == |samples|
    ensures energy.sumSquares == Energy(samples)
    ensures energy.nonZeroCount == CountAudible(samples)
    ensures energy.HasAudibleSamples() <==> HasAudible(samples)
    ensures IsPeak(energy.peak, samples)
  {
    var peak, sumSquares, nonZero := 0.0, 0.0, 0;
    for i := 0 to |samples|
      invariant sumSquares == Energy(samples[..i])
      invariant nonZero == CountAudible(samples[..i])
      invariant IsPeak(peak, samples[..i])
    {
      MeasureStep(samples, i, peak);
      var magnitude := Abs(samples[i]);
      peak := if magnitude > peak then magnitude else peak;
      nonZero := nonZero + if magnitude > SILENCE_THRESHOLD then 1 else 0;
      sumSquares := sumSquares + Square(magnitude);
    }
    assert samples[..|samples|] == samples;
    CountAudiblePositive(samples);
    energy := PacketEnergy(peak, sumSquares, |samples|, nonZero);
  }

  // ---- Cauchy-Schwarz ----

  lemma SquareOfSumStep(n: real, s: real, q: real, x: real)
    requires n >= 1.0 && s * s <= n * q
    ensures (s + x) * (s + x) <= (n + 1.0) * (q + x * x)
  {
    var d := n * x - s;
    assert d * d >= 0.0;
    assert d * d == n * n * x * x - 2.0 * n * (x * s) + s * s;
    assert n * (2.0 * (x * s)) <= n * (n * (x * x) + q);
    DivideBoth(n, 2.0 * (x * s), n * (x * x) + q);
  }

  lemma DivideBoth(n: real, a: real, b: real)
    requires n > 0.0 && n * a <= n * b
    ensures a <= b
  {
    if a > b {
      ProductPositive(n, a - b);
    }
  }

  lemma ProductPositive(x: real, y: real)
    requires x > 0.0 && y > 0.0
    ensures x * y > 0.0
  {
  }

  lemma {:induction false} CauchySchwarz(xs: seq<real>)
    ensures Square(Sum(xs)) <= Scale(|xs| as real, Energy(xs))
  {
    if |xs| == 1 {
      assert xs[..0] == [];
    } else if |xs| > 1 {
      var n := |xs| - 1;
      CauchySchwarz(xs[..n]);
      SquareOfSumStep(n as real, Sum(xs[..n]), Energy(xs[..n]), xs[n]);
    }
  }

  // ---- Headroom and clamping ----

  /** The gain for `n` audible sources: exactly 1/sqrt(n), or 1 when n <= 1. */
  ghost predicate IsHeadroom(h: real, n: nat) {
    h > 0.0 && if n <= 1 then h == 1.0 else h * h * (n as real) == 1.0
  }

  function Clamp(x: real): real {
    if x > 1.0 then 1.0 else if x < -1.0 then -1.0 else x
  }

  /** `y` is the value of [-1, 1] that is nearest to `x`. */
  predicate IsNearestInRange(y: real, x: real) {
    && -1.0 <= y <= 1.0
    && (-1.0 <= x <= 1.0 ==> y == x)
    && (x > 1.0 ==> y == 1.0)
    && (x < -1.0 ==> y == -1.0)
  }

  /** Clamping moves a sample into range, and by no more than it must. */
  lemma ClampIsNearest(x: real, y: real)
    requires -1.0 <= y <= 1.0
    ensures IsNearestInRange(Clamp(x), x)
    ensures Abs(x - Clamp(x)) <= Abs(x - y)
    ensures Abs(x - Clamp(x)) == Abs(x - y) ==> y == Clamp(x)
  {
  }

  /** A buffer is silent when no sample leaves the band around zero. */
  lemma SilentMeansTiny(samples: seq<real>)
    ensures !HasAudible(samples) <==> forall x :: x in samples ==> -0.00000001 <= x <= 0.00000001
  {
    if !HasAudible(samples) {
      forall x | x in samples ensures -0.00000001 <= x <= 0.00000001 {
        assert !IsAudible(x);
      }
    } else {
      var x :| x in samples && IsAudible(x);
    }
  }

  lemma ClampShrinks(x: real)
    ensures Square(Clamp(x)) <= Square(x)
  {
  }

  lemma ShortSum(xs: seq<real>)
    requires |xs| <= 1
    ensures Square(Sum(xs)) == Energy(xs)
  {
    if |xs| == 1 {
      assert xs[..0] == [];
    }
  }

  /** The scaled sum of the sources has at most their energy. */
  lemma ScaledSumEnergy(xs: seq<real>, h: real)
    requires IsHeadroom(h, |xs|)
    ensures Square(Scale(h, Sum(xs))) <= Energy(xs)
  {
    if |xs| <= 1 {
      ShortSum(xs);
    } else {
      CauchySchwarz(xs);
      SquareOfProduct(h, Sum(xs));
      ScaleCancels(h * h, |xs| as real, Square(Sum(xs)), Energy(xs));
    }
  }

  /** One output sample is never louder than the samples mixed into it together. */
  lemma MixedSampleEnergy(xs: seq<real>, h: real)
    requires IsHeadroom(h, |xs|)
    ensures Square(Clamp(Scale(h, Sum(xs)))) <= Energy(xs)
  {
    ScaledSumEnergy(xs, h);
    ClampShrinks(Scale(h, Sum(xs)));
  }

  lemma SquareOfProduct(h: real, s: real)
    ensures Square(Scale(h, s)) == Scale(h * h, Square(s))
  {
  }

  lemma ScaleCancels(g: real, n: real, a: real, e: real)
    requires g >= 0.0 && g * n == 1.0 && a <= Scale(n, e)
    ensures Scale(g, a) <= e
  {
    ScaleBound(g, a, n * e);
    assert g * (n * e) == (g * n) * e;
  }

  lemma ScaleBound(k: real, a: real, b: real)
    requires k >= 0.0 && a <= b
    ensures k * a <= k * b
  {
  }
}
