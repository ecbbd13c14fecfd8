/**
 * Logarithmic frequency bands over the FFT bins and the averaging of the
 * dB spectrum into those bands (`FrequencyBinner`).
 */
module FrequencyBinning {

  /**
   * One band's bin indices as the floating-point maths yields them,
   * before clamping: `floor(freq_start * N / R)` and
   * `ceil(freq_end * N / R)` after the saturating cast to `usize`, and the
   * band's centre frequency. That maths (`powf`, `floor`, `ceil`) is an
   * input here.
   */
  datatype RawBand = RawBand(startBin: nat, endBin: nat, centerFreq: real)

  datatype FrequencyBand = FrequencyBand(startBin: nat, endBin: nat, centerFreq: real)

  /** The bands and the FFT size they were computed for. */
  datatype FrequencyBinner = FrequencyBinner(bands: seq<FrequencyBand>, fftSize: nat, sampleRate: real)

  const MinBands: nat := 32
  const MaxBands: nat := 64

  /**
   * Clamps a band into the bins of a real FFT of size `fftSize`: the start
   * to at most the Nyquist bin, the end to at most one past it and at least
   * one past the start, so that no band is empty.
   */
  function ClampBand(raw: RawBand, fftSize: nat): (b: FrequencyBand)
    ensures b.startBin <= fftSize / 2
    ensures b.startBin < b.endBin <= fftSize / 2 + 1
    ensures b.centerFreq == raw.centerFreq
    ensures raw.startBin <= fftSize / 2 ==> b.startBin == raw.startBin
    ensures raw.startBin > fftSize / 2 ==> b == FrequencyBand(fftSize / 2, fftSize / 2 + 1, raw.centerFreq)
    ensures b.startBin < raw.endBin <= fftSize / 2 + 1 ==> b.endBin == raw.endBin
    ensures raw.endBin > fftSize / 2 + 1 ==> b.endBin == fftSize / 2 + 1
    ensures raw.endBin <= b.startBin ==> b.endBin == b.startBin + 1
  {
    var start := if raw.startBin < fftSize / 2 then raw.startBin else fftSize / 2;
    var end0 := if raw.endBin < fftSize / 2 + 1 then raw.endBin else fftSize / 2 + 1;
    var end := if end0 > start + 1 then end0 else start + 1;
    FrequencyBand(start, end, raw.centerFreq)
  }

  /** A band clamped for `fftSize` lies within the bins of that FFT. */
  predicate InRange(b: FrequencyBand, fftSize: nat)
  {
    b.startBin <= fftSize / 2 && b.startBin < b.endBin <= fftSize / 2 + 1
  }

  /**
   * `calculate_logarithmic_bands`: band `i` is the clamped form of the raw
   * band `edges(i)`, for `i` below `numBands`.
   */
  method CalculateLogarithmicBands(numBands: nat, edges: nat -> RawBand, fftSize: nat)
    returns (bands: seq<FrequencyBand>)
    ensures |bands| == numBands
    ensures forall i :: 0 <= i < numBands ==> bands[i] == ClampBand(edges(i), fftSize)
    ensures forall i :: 0 <= i < numBands ==> InRange(bands[i], fftSize)
  {
    bands := [];
    for i := 0 to numBands
      invariant |bands| == i
      invariant forall j :: 0 <= j < i ==> bands[j] == ClampBand(edges(j), fftSize)
    {
      bands := bands + [ClampBand(edges(i), fftSize)];
    }
  }

  /** `FrequencyBinner::new` over the raw band edges for this sample rate. */
  method NewBinner(numBands: nat, fftSize: nat, sampleRate: real, edges: nat -> RawBand)
    returns (binner: FrequencyBinner)
    ensures binner.fftSize == fftSize && binner.sampleRate == sampleRate
    ensures |binner.bands| == numBands
    ensures forall i :: 0 <= i < numBands ==> binner.bands[i] == ClampBand(edges(i), fftSize)
  {
    var bands := CalculateLogarithmicBands(numBands, edges, fftSize);
    binner := FrequencyBinner(bands, fftSize, sampleRate);
  }

  /** `adapt_to_width`'s band count: the terminal width clamped into [32, 64]. */
  function AdaptedBandCount(terminalWidth: nat): (n: nat)
    ensures MinBands <= n <= MaxBands
    ensures MinBands <= terminalWidth <= MaxBands ==> n == terminalWidth
    ensures terminalWidth < MinBands ==> n == MinBands
    ensures terminalWidth > MaxBands ==> n == MaxBands
  {
    if terminalWidth < MinBands then MinBands
    else if terminalWidth > MaxBands then MaxBands
    else terminalWidth
  }

  /** Sum of `m[lo..hi]`. */
  function SumRange(m: seq<real>, lo: nat, hi: nat): real
    requires lo <= hi <= |m|
    decreases hi - lo
  {
    if lo == hi then 0.0 else SumRange(m, lo, hi - 1) + m[hi - 1]
  }

  /** One past the last bin of `band` that `m` has. */
  function CoveredEnd(band: FrequencyBand, m: seq<real>): nat
  {
    if band.endBin < |m| then band.endBin else |m|
  }

  /**
   * The value of one band: the mean of `m[b]` over the bins `b` of the band
   * that `m` has, or 0.0 when it has none of them.
   */
  function BandMean(band: FrequencyBand, m: seq<real>): real
  {
    var hi := CoveredEnd(band, m);
    if band.startBin < hi then SumRange(m, band.startBin, hi) / (hi - band.startBin) as real else 0.0
  }

  /**
   * `bin_spectrum`: one value per band, in band order, each the mean of the
   * band's bins present in `magnitudes` (0.0 when there are none).
   */
  method BinSpectrum(bands: seq<FrequencyBand>, magnitudes: seq<real>) returns (binned: seq<real>)
    ensures |binned| == |bands|
    ensures forall i :: 0 <= i < |bands| ==> binned[i] == BandMean(bands[i], magnitudes)
  {
    binned := [];
    for i := 0 to |bands|
      invariant |binned| == i
      invariant forall j :: 0 <= j < i ==> binned[j] == BandMean(bands[j], magnitudes)
    {
      var band := bands[i];
      var sum := 0.0;
      var count: nat := 0;
      var bin := band.startBin;
      while bin < band.endBin
        invariant band.startBin <= bin && (bin <= band.endBin || bin == band.startBin)
        invariant var top := if bin < |magnitudes| then bin else |magnitudes|;
          && count == (if band.startBin < top then top - band.startBin else 0)
          && sum == (if band.startBin < top then SumRange(magnitudes, band.startBin, top) else 0.0)
      {
        if bin < |magnitudes| {
          sum := sum + magnitudes[bin];
          count := count + 1;
        }
        bin := bin + 1;
      }
      var average := if count > 0 then sum / count as real else 0.0;
      binned := binned + [average];
    }
  }

  lemma {:induction false} SumRangeBounds(m: seq<real>, lo: nat, hi: nat, low: real, high: real)
    requires lo <= hi <= |m|
    requires forall b :: lo <= b < hi ==> low <= m[b] <= high
    ensures (hi - lo) as real * low <= SumRange(m, lo, hi) <= (hi - lo) as real * high
    decreases hi - lo
  {
    if lo < hi {
      SumRangeBounds(m, lo, hi - 1, low, high);
      var k := (hi - 1 - lo) as real;
      assert (hi - lo) as real * low == k * low + low;
      assert (hi - lo) as real * high == k * high + high;
    }
  }

  /**
   * A band's value lies between the smallest and the largest of its bins,
   * and a band over bins that all hold `v` has the value `v`.
   */
  lemma BandMeanWithinBins(band: FrequencyBand, m: seq<real>, low: real, high: real)
    requires band.startBin < CoveredEnd(band, m)
    requires forall b :: band.startBin <= b < CoveredEnd(band, m) ==> low <= m[b] <= high
    ensures low <= BandMean(band, m) <= high
  {
    var hi := CoveredEnd(band, m);
    var n := (hi - band.startBin) as real;
    SumRangeBounds(m, band.startBin, hi, low, high);
    var s := SumRange(m, band.startBin, hi);
    assert BandMean(band, m) == s / n;
    assert s / n >= low by {
      assert s >= n * low;
    }
    assert s / n <= high by {
      assert s <= n * high;
    }
  }

  /**
   * With the analyser's `N/2 + 1` magnitudes every clamped band covers at
   * least one bin, so the 0.0 fallback of `bin_spectrum` is never taken.
   */
  lemma ClampedBandsNeverEmpty(raw: RawBand, fftSize: nat, m: seq<real>)
    requires |m| == fftSize / 2 + 1
    ensures ClampBand(raw, fftSize).startBin < CoveredEnd(ClampBand(raw, fftSize), m)
  {
  }

  /**
   * Band `i`'s end frequency and band `i + 1`'s start frequency are the
   * same value, rounded up for the one and down for the other, so the raw
   * bins of adjacent bands meet or overlap.
   */
  ghost predicate SharedBoundaries(edges: nat -> RawBand)
  {
    forall i: nat :: edges(i).endBin >= edges(i + 1).startBin
  }

  /**
   * The clamp opens no gap: adjacent clamped bands still meet or overlap.
   * They may overlap, and at common rates the last band ends well below
   * the Nyquist bin.
   */
  lemma AdjacentBandsLeaveNoGap(edges: nat -> RawBand, fftSize: nat)
    requires SharedBoundaries(edges)
    ensures forall i: nat :: ClampBand(edges(i), fftSize).endBin >= ClampBand(edges(i + 1), fftSize).startBin
  {
  }
}
