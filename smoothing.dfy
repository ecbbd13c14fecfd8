/**
 * `SpectrumSmoother`: per-band exponential moving average with a decaying
 * peak hold. The pipeline does not use it (the analysis thread publishes
 * the binned spectrum directly); it is modelled on its own.
 */
module Smoothing {
  import opened Seqs

  const DefaultSmoothingFactor: real := 0.7
  const PeakDecayRate: real := 0.95

  /** `f32::clamp(0.0, 1.0)` on a number. */
  function Clamp01(x: real): (r: real)
    ensures 0.0 <= r <= 1.0
    ensures 0.0 <= x <= 1.0 ==> r == x
    ensures x < 0.0 ==> r == 0.0
    ensures x > 1.0 ==> r == 1.0
  {
    if x < 0.0 then 0.0 else if x > 1.0 then 1.0 else x
  }

  /** One exponential-moving-average step: `alpha * input + (1 - alpha) * previous`. */
  function Ema(alpha: real, input: real, previous: real): real
  {
    alpha * input + (1.0 - alpha) * previous
  }

  /** The peak hold of one band: a new maximum is taken, otherwise the peak decays. */
  function PeakHold(peak: real, current: real, decay: real): real
  {
    if current > peak then current else peak * decay
  }

  function EmaStep(previous: seq<real>, input: seq<real>, alpha: real): (r: seq<real>)
    requires |input| == |previous|
    ensures |r| == |previous| && forall i :: 0 <= i < |r| ==> r[i] == Ema(alpha, input[i], previous[i])
  {
    seq(|previous|, i requires 0 <= i < |previous| => Ema(alpha, input[i], previous[i]))
  }

  function PeakStep(peaks: seq<real>, current: seq<real>, decay: real): (r: seq<real>)
    requires |current| == |peaks|
    ensures |r| == |peaks| && forall i :: 0 <= i < |r| ==> r[i] == PeakHold(peaks[i], current[i], decay)
  {
    seq(|peaks|, i requires 0 <= i < |peaks| => PeakHold(peaks[i], current[i], decay))
  }

  class SpectrumSmoother {
    var smoothedValues: seq<real>
    var peakValues: seq<real>
    const peakDecayRate: real
    const smoothingFactor: real

    ghost predicate Valid()
      reads this
    {
      && |peakValues| == |smoothedValues|
      && 0.0 <= smoothingFactor <= 1.0
      && peakDecayRate == PeakDecayRate
    }

    /** `SpectrumSmoother::new`: zeroed state for `numBands` bands, the factor clamped into [0, 1]. */
    constructor (numBands: nat, smoothingFactor: real)
      ensures Valid()
      ensures smoothedValues == Zeros(numBands) && peakValues == Zeros(numBands)
      ensures this.smoothingFactor == Clamp01(smoothingFactor)
    {
      smoothedValues := Zeros(numBands);
      peakValues := Zeros(numBands);
      peakDecayRate := PeakDecayRate;
      this.smoothingFactor := Clamp01(smoothingFactor);
    }

    /**
     * `smooth`: on a length mismatch nothing changes and the current
     * smoothed values are returned; otherwise every band takes one EMA step
     * towards its new value and then its peak is held or decayed.
     */
    method Smooth(newValues: seq<real>) returns (r: seq<real>)
      requires Valid()
      modifies this
      ensures Valid()
      ensures |newValues| != |old(smoothedValues)| ==>
        && smoothedValues == old(smoothedValues)
        && peakValues == old(peakValues)
        && r == old(smoothedValues)
      ensures |newValues| == |old(smoothedValues)| ==>
        && smoothedValues == EmaStep(old(smoothedValues), newValues, smoothingFactor)
        && peakValues == PeakStep(old(peakValues), smoothedValues, peakDecayRate)
        && r == smoothedValues
    {
      if |newValues| != |smoothedValues| {
        return smoothedValues;
      }
      for i := 0 to |newValues|
        invariant |smoothedValues| == |old(smoothedValues)| && peakValues == old(peakValues)
        invariant forall j :: 0 <= j < i ==>
          smoothedValues[j] == Ema(smoothingFactor, newValues[j], old(smoothedValues)[j])
        invariant forall j :: i <= j < |smoothedValues| ==> smoothedValues[j] == old(smoothedValues)[j]
      {
        smoothedValues := smoothedValues[i := Ema(smoothingFactor, newValues[i], smoothedValues[i])];
      }
      ghost var smoothed := smoothedValues;
      for i := 0 to |smoothedValues|
        invariant smoothedValues == smoothed && |peakValues| == |old(peakValues)|
        invariant forall j :: 0 <= j < i ==>
          peakValues[j] == PeakHold(old(peakValues)[j], smoothed[j], peakDecayRate)
        invariant forall j :: i <= j < |peakValues| ==> peakValues[j] == old(peakValues)[j]
      {
        peakValues := peakValues[i := PeakHold(peakValues[i], smoothedValues[i], peakDecayRate)];
      }
      r := smoothedValues;
    }

    /** `reset`: both vectors zeroed, their lengths kept. */
    method Reset()
      requires Valid()
      modifies this
      ensures Valid()
      ensures smoothedValues == Zeros(|old(smoothedValues)|)
      ensures peakValues == Zeros(|old(peakValues)|)
    {
      smoothedValues := Zeros(|smoothedValues|);
      peakValues := Zeros(|peakValues|);
    }
  }

  // ---------------------------------------------------------------------
  // What the smoothing does over time

  function Pow(q: real, n: nat): real
  {
    if n == 0 then 1.0 else q * Pow(q, n - 1)
  }

  /** A band's smoothed value after `n` frames of the same input `x`, starting from `v`. */
  function EmaIterate(alpha: real, x: real, v: real, n: nat): real
  {
    if n == 0 then v else Ema(alpha, x, EmaIterate(alpha, x, v, n - 1))
  }

  /** Each step shrinks the distance to the input by the factor `1 - alpha`. */
  lemma {:induction false} EmaIterateGap(alpha: real, x: real, v: real, n: nat)
    ensures EmaIterate(alpha, x, v, n) - x == Pow(1.0 - alpha, n) * (v - x)
  {
    if n > 0 {
      EmaIterateGap(alpha, x, v, n - 1);
      var p := EmaIterate(alpha, x, v, n - 1);
      assert Ema(alpha, x, p) - x == (1.0 - alpha) * (p - x);
    }
  }

  lemma MulNonNeg(a: real, b: real)
    requires a >= 0.0 && b >= 0.0
    ensures a * b >= 0.0
  {
  }

  lemma MulLeft(p: real, a: real, b: real)
    requires p >= 0.0 && a <= b
    ensures p * a <= p * b
  {
  }

  lemma BernoulliStep(alpha: real, k: real)
    requires 0.0 < alpha <= 1.0 && k >= 0.0
    ensures (1.0 - alpha) * (1.0 + k * alpha + alpha) <= 1.0 + k * alpha
  {
    assert (1.0 - alpha) * (1.0 + k * alpha + alpha)
        == 1.0 + k * alpha - alpha * alpha * (k + 1.0);
    MulNonNeg(alpha * alpha, k + 1.0);
  }

  /** Bernoulli-style bound: `(1 - alpha)^n * (1 + n * alpha) <= 1`. */
  lemma {:induction false} PowBound(alpha: real, n: nat)
    requires 0.0 < alpha <= 1.0
    ensures 0.0 <= Pow(1.0 - alpha, n)
    ensures Pow(1.0 - alpha, n) * (1.0 + n as real * alpha) <= 1.0
  {
    if n > 0 {
      PowBound(alpha, n - 1);
      var q := 1.0 - alpha;
      var p := Pow(q, n - 1);
      var k := (n - 1) as real;
      var big := 1.0 + k * alpha + alpha;
      assert Pow(q, n) == q * p;
      MulNonNeg(q, p);
      BernoulliStep(alpha, k);
      MulLeft(p, q * big, 1.0 + k * alpha);
      assert 1.0 + n as real * alpha == big;
      assert q * p * big == p * (q * big);
    }
  }

  function Abs(x: real): real
  {
    if x < 0.0 then -x else x
  }

  lemma BeyondQuotient(n: real, d: real, c: real)
    requires c > 0.0 && n > d / c
    ensures n * c > d
  {
    assert n * c > (d / c) * c;
  }

  lemma AbsScale(p: real, y: real)
    requires p >= 0.0
    ensures Abs(p * y) == p * Abs(y)
  {
  }

  lemma SmallEnough(p: real, d: real, big: real, tolerance: real)
    requires p >= 0.0 && d >= 0.0 && tolerance > 0.0
    requires p * big <= 1.0 && d < big * tolerance
    ensures p * d < tolerance
  {
    if p > 0.0 {
      assert p * d < p * (big * tolerance);
      assert p * (big * tolerance) == (p * big) * tolerance;
      MulLeft(tolerance, p * big, 1.0);
    }
  }

  /**
   * Under a constant input the smoothed value converges to it: for a
   * smoothing factor in (0, 1] and any tolerance there is a frame count
   * after which the value is within that tolerance.
   */
  lemma EmaConverges(alpha: real, x: real, v: real, tolerance: real) returns (n: nat)
    requires 0.0 < alpha <= 1.0 && tolerance > 0.0
    ensures Abs(EmaIterate(alpha, x, v, n) - x) < tolerance
  {
    var d := Abs(v - x);
    var c := alpha * tolerance;
    MulNonNeg(alpha, tolerance);
    assert c > 0.0;
    n := (d / c).Floor as nat + 1;
    var p := Pow(1.0 - alpha, n);
    var big := 1.0 + n as real * alpha;
    EmaIterateGap(alpha, x, v, n);
    PowBound(alpha, n);
    AbsScale(p, v - x);
    BeyondQuotient(n as real, d, c);
    assert n as real * c == n as real * alpha * tolerance;
    assert big * tolerance == tolerance + n as real * alpha * tolerance;
    SmallEnough(p, d, big, tolerance);
  }

  /** With a constant input equal to the current value, smoothing leaves it unchanged. */
  lemma EmaFixedPoint(alpha: real, x: real)
    ensures Ema(alpha, x, x) == x
  {
  }

  /**
   * Peak hold on dB values: a negative peak that is not exceeded "decays"
   * upwards, towards 0 dB, because it is multiplied by 0.95.
   */
  lemma NegativePeakRisesOnDecay(peak: real, current: real)
    requires current <= peak < 0.0
    ensures peak < PeakHold(peak, current, PeakDecayRate) < 0.0
  {
  }
}
