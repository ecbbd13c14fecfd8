/**
 * The analysis side of the pipeline: `FftEngine::process_block`, which
 * takes one hop of samples from the ring and analyses a 50%-overlap frame,
 * and the publish step of the analysis thread.
 *
 * The Fourier transform itself (`rustfft`), the Hann window values and the
 * magnitude-to-decibel conversion are parameters: `dft(x, k)` is bin `k`
 * of the forward transform of `x`, `decibels(c)` is
 * `20 * log10(sqrt(re^2 + im^2) + 1e-10)`, and the window table is given
 * to the constructor.
 */
module FftAnalysis {
  import opened Wrappers
  import opened Ring
  import opened FrequencyBinning
  import opened Seqs

  /** FFT size used by the visualizer. */
  const FftSize: nat := 2048

  datatype Complex = Complex(re: real, im: real)

  /**
   * The frame analysed in one cycle: the retained overlap when it holds
   * exactly one hop, otherwise a hop of zeros, followed by the new hop.
   */
  function AnalysisFrame(overlap: seq<real>, hop: seq<real>): (frame: seq<real>)
    ensures |frame| == 2 * |hop|
    ensures frame[|hop|..] == hop
    ensures |overlap| == |hop| ==> frame[..|hop|] == overlap
    ensures |overlap| != |hop| ==> frame[..|hop|] == Zeros(|hop|)
  {
    (if |overlap| == |hop| then overlap else Zeros(|hop|)) + hop
  }

  /** `apply_window`'s values: sample times window coefficient, zero imaginary part. */
  function Windowed(frame: seq<real>, window: seq<real>): (w: seq<Complex>)
    requires |frame| <= |window|
    ensures |w| == |frame|
    ensures forall i :: 0 <= i < |frame| ==> w[i] == Complex(frame[i] * window[i], 0.0)
  {
    seq(|frame|, i requires 0 <= i < |frame| => Complex(frame[i] * window[i], 0.0))
  }

  /** The in-place forward transform: bin `k` of the result is `dft(x, k)`. */
  function Transform(x: seq<Complex>, dft: (seq<Complex>, nat) -> Complex): (y: seq<Complex>)
    ensures |y| == |x| && forall k :: 0 <= k < |x| ==> y[k] == dft(x, k)
  {
    seq(|x|, k requires 0 <= k < |x| => dft(x, k))
  }

  class FftEngine {
    const fftSize: nat
    const window: seq<real>
    const sampleSource: SampleRing
    var inputBuffer: array<Complex>
    var overlapBuffer: seq<real>
    ghost var Repr: set<object>

    ghost predicate Valid()
      reads this, Repr
    {
      && this in Repr && inputBuffer in Repr && sampleSource in Repr
      && sampleSource.Repr <= Repr
      && this !in sampleSource.Repr && inputBuffer !in sampleSource.Repr
      && sampleSource.Valid()
      && fftSize >= 1
      && inputBuffer.Length == fftSize && |window| == fftSize
    }

    /**
     * `FftEngine::new`: a zeroed input buffer and no overlap yet. The
     * magnitude step reads `fftSize / 2 + 1` bins, so the size must be
     * at least 1.
     */
    constructor (fftSize: nat, sampleSource: SampleRing, hannWindow: seq<real>)
      requires fftSize >= 1 && |hannWindow| == fftSize && sampleSource.Valid()
      ensures Valid() && fresh(Repr - sampleSource.Repr)
      ensures this.fftSize == fftSize && this.sampleSource == sampleSource && window == hannWindow
      ensures overlapBuffer == [] && inputBuffer[..] == seq(fftSize, i => Complex(0.0, 0.0))
      ensures sampleSource.Contents == old(sampleSource.Contents)
    {
      this.fftSize := fftSize;
      this.sampleSource := sampleSource;
      window := hannWindow;
      inputBuffer := new Complex[fftSize](i => Complex(0.0, 0.0));
      overlapBuffer := [];
      Repr := {this, inputBuffer, sampleSource} + sampleSource.Repr;
    }

    /**
     * `process_block`. One hop (`fftSize / 2` samples) is popped from the
     * ring. If fewer were there, those are consumed all the same, nothing
     * else changes and the result is None. Otherwise the frame is the
     * previous overlap (or zeros) followed by the hop, the hop becomes the
     * new overlap, the windowed frame is transformed in place and the
     * result holds the decibel values of bins `0..=fftSize / 2`.
     */
    method ProcessBlock(dft: (seq<Complex>, nat) -> Complex, decibels: Complex -> real)
      returns (r: Option<seq<real>>)
      requires Valid()
      modifies Repr
      ensures Valid() && Repr == old(Repr)
      ensures var hop := fftSize / 2;
        var k := if |old(sampleSource.Contents)| < hop then |old(sampleSource.Contents)| else hop;
        sampleSource.Contents == old(sampleSource.Contents)[k..]
      ensures |old(sampleSource.Contents)| < fftSize / 2 ==>
        && r == None
        && overlapBuffer == old(overlapBuffer)
        && inputBuffer[..] == old(inputBuffer[..])
      ensures |old(sampleSource.Contents)| >= fftSize / 2 ==>
        var hop := old(sampleSource.Contents)[..fftSize / 2];
        var frame := AnalysisFrame(old(overlapBuffer), hop);
        && |frame| <= fftSize
        && overlapBuffer == hop
        && inputBuffer[..] == Transform(Windowed(frame, window) + old(inputBuffer[..])[|frame|..], dft)
        && r.Some? && |r.value| == fftSize / 2 + 1
        && (forall i :: 0 <= i <= fftSize / 2 ==> r.value[i] == decibels(inputBuffer[i]))
    {
      var hopSize := fftSize / 2;
      ghost var input := inputBuffer[..];
      var samples := sampleSource.PopSlice(hopSize);
      assert inputBuffer[..] == input;
      if |samples| < hopSize {
        return None;
      }
      var fullSamples := AnalysisFrame(overlapBuffer, samples);
      overlapBuffer := fullSamples[hopSize..];
      ghost var remaining := sampleSource.Contents;
      ApplyWindow(fullSamples);
      ghost var windowed := inputBuffer[..];
      assert windowed == Windowed(fullSamples, window) + input[|fullSamples|..];
      RunFft(dft);
      assert inputBuffer[..] == Transform(windowed, dft);
      var magnitudes := ComputeMagnitudes(decibels);
      r := Some(magnitudes);
      assert sampleSource.Contents == remaining;
    }

    /** `apply_window`: the first `|samples|` slots get the windowed samples. */
    method ApplyWindow(samples: seq<real>)
      requires Valid() && |samples| <= fftSize
      modifies inputBuffer
      ensures Valid()
      ensures inputBuffer[..] == Windowed(samples, window) + old(inputBuffer[..])[|samples|..]
    {
      for i := 0 to |samples|
        invariant forall j :: 0 <= j < i ==> inputBuffer[j] == Complex(samples[j] * window[j], 0.0)
        invariant forall j :: i <= j < fftSize ==> inputBuffer[j] == old(inputBuffer[j])
      {
        inputBuffer[i] := Complex(samples[i] * window[i], 0.0);
      }
    }

    /** `fft.process(&mut input_buffer)`: the buffer is replaced by its transform. */
    method RunFft(dft: (seq<Complex>, nat) -> Complex)
      requires Valid()
      modifies inputBuffer
      ensures Valid()
      ensures inputBuffer[..] == Transform(old(inputBuffer[..]), dft)
    {
      var x := inputBuffer[..];
      for k := 0 to fftSize
        invariant forall j :: 0 <= j < k ==> inputBuffer[j] == dft(x, j)
        invariant forall j :: k <= j < fftSize ==> inputBuffer[j] == x[j]
      {
        inputBuffer[k] := dft(x, k);
      }
    }

    /** `compute_magnitudes`: the decibel value of every bin up to and including Nyquist. */
    method ComputeMagnitudes(decibels: Complex -> real) returns (magnitudes: seq<real>)
      requires Valid()
      ensures |magnitudes| == fftSize / 2 + 1
      ensures forall i :: 0 <= i <= fftSize / 2 ==> magnitudes[i] == decibels(inputBuffer[i])
    {
      var numBins := fftSize / 2 + 1;
      magnitudes := [];
      for i := 0 to numBins
        invariant |magnitudes| == i
        invariant forall j :: 0 <= j < i ==> magnitudes[j] == decibels(inputBuffer[j])
      {
        magnitudes := magnitudes + [decibels(inputBuffer[i])];
      }
    }
  }

  /**
   * For an even FFT size the frame fills the whole input buffer, so no
   * slot keeps a value from the previous cycle.
   */
  lemma EvenFrameFillsBuffer(fftSize: nat, overlap: seq<real>, hop: seq<real>, stale: seq<Complex>, window: seq<real>)
    requires fftSize % 2 == 0 && |hop| == fftSize / 2 && |window| == fftSize && |stale| == fftSize
    ensures |AnalysisFrame(overlap, hop)| == fftSize
    ensures Windowed(AnalysisFrame(overlap, hop), window) + stale[fftSize..]
         == Windowed(AnalysisFrame(overlap, hop), window)
  {
  }

  // ---------------------------------------------------------------------
  // Publishing

  /** The latest published spectrum and when it was published. */
  class SpectrumData {
    var bands: seq<real>
    var timestamp: int

    /** `SpectrumData::new`: all bands zero. */
    constructor (numBands: nat, now: int)
      ensures bands == Zeros(numBands) && timestamp == now
    {
      bands := Zeros(numBands);
      timestamp := now;
    }
  }

  /** The binned spectrum `bin_spectrum` computes for these magnitudes. */
  function Binned(bands: seq<FrequencyBand>, magnitudes: seq<real>): (b: seq<real>)
    ensures |b| == |bands|
  {
    seq(|bands|, i requires 0 <= i < |bands| => BandMean(bands[i], magnitudes))
  }

  /**
   * The analysis thread's state: the engine over the ring's consumer, the
   * binner for the configured number of bands, and the spectrum it
   * publishes to, which `FftProcessor::new` also hands to the caller.
   */
  class FftProcessor {
    const engine: FftEngine
    const binner: FrequencyBinner
    const spectrumBuffer: SpectrumData
    const sampleRate: nat

    ghost predicate Valid()
      reads this, engine, engine.Repr
    {
      && engine.Valid() && spectrumBuffer !in engine.Repr
      && engine.fftSize == binner.fftSize == FftSize
    }

    /**
     * `FftProcessor::new`: an engine of `FftSize` over the ring, a binner
     * with `numBands` bands clamped to that size (`edges(i)` is band `i`
     * before clamping), and an all-zero published spectrum stamped `now`.
     */
    constructor (sampleSource: SampleRing, numBands: nat, sampleRate: nat,
                 hannWindow: seq<real>, edges: nat -> RawBand, now: int)
      requires sampleSource.Valid() && |hannWindow| == FftSize
      ensures Valid() && fresh(engine) && fresh(spectrumBuffer)
      ensures fresh(engine.Repr - sampleSource.Repr)
      ensures engine.sampleSource == sampleSource && engine.window == hannWindow
      ensures engine.overlapBuffer == [] && sampleSource.Contents == old(sampleSource.Contents)
      ensures binner.sampleRate == sampleRate as real && |binner.bands| == numBands
      ensures forall i :: 0 <= i < numBands ==> binner.bands[i] == ClampBand(edges(i), FftSize)
      ensures spectrumBuffer.bands == Zeros(numBands) && spectrumBuffer.timestamp == now
      ensures this.sampleRate == sampleRate
    {
      var e := new FftEngine(FftSize, sampleSource, hannWindow);
      var b := NewBinner(numBands, FftSize, sampleRate as real, edges);
      var d := new SpectrumData(numBands, now);
      engine := e;
      binner := b;
      spectrumBuffer := d;
      this.sampleRate := sampleRate;
    }

    /**
     * One cycle of `FftProcessor::run`, without its sleeps: analyse a
     * block; when there is one, bin it and, if the spectrum lock is taken,
     * replace the published bands and timestamp. Otherwise the published
     * spectrum stays as it was. The engine's part is `process_block`'s.
     */
    method Tick(dft: (seq<Complex>, nat) -> Complex, decibels: Complex -> real,
                lockAcquired: bool, now: int)
      returns (analysis: Option<seq<real>>, published: bool)
      requires Valid()
      modifies engine.Repr, spectrumBuffer
      ensures Valid() && engine.Repr == old(engine.Repr)
      ensures var hop := FftSize / 2;
        var k := if |old(engine.sampleSource.Contents)| < hop then |old(engine.sampleSource.Contents)| else hop;
        engine.sampleSource.Contents == old(engine.sampleSource.Contents)[k..]
      ensures analysis.Some? <==> |old(engine.sampleSource.Contents)| >= FftSize / 2
      ensures analysis.None? ==>
        && engine.overlapBuffer == old(engine.overlapBuffer)
        && engine.inputBuffer[..] == old(engine.inputBuffer[..])
      ensures analysis.Some? ==>
        var hop := old(engine.sampleSource.Contents)[..FftSize / 2];
        var frame := AnalysisFrame(old(engine.overlapBuffer), hop);
        && |frame| <= FftSize
        && engine.overlapBuffer == hop
        && engine.inputBuffer[..] == Transform(Windowed(frame, engine.window) + old(engine.inputBuffer[..])[|frame|..], dft)
        && |analysis.value| == FftSize / 2 + 1
        && (forall i :: 0 <= i <= FftSize / 2 ==> analysis.value[i] == decibels(engine.inputBuffer[i]))
      ensures published <==> analysis.Some? && lockAcquired
      ensures published ==>
        spectrumBuffer.bands == Binned(binner.bands, analysis.value) && spectrumBuffer.timestamp == now
      ensures !published ==>
        spectrumBuffer.bands == old(spectrumBuffer.bands)
        && spectrumBuffer.timestamp == old(spectrumBuffer.timestamp)
    {
      analysis := engine.ProcessBlock(dft, decibels);
      published := false;
      if analysis.Some? {
        var binned := BinSpectrum(binner.bands, analysis.value);
        if lockAcquired {
          spectrumBuffer.bands := binned;
          spectrumBuffer.timestamp := now;
          published := true;
        }
      }
    }
  }
}
