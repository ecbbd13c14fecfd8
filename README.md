# termsonic core in Dafny

A model of the core of termsonic, a terminal music visualizer written in Rust. The model covers:

- **Capture and mixdown.** The capture callback mixes interleaved input channels down to mono. It pushes the result into a bounded sample ring of 8192 samples. Also modelled: how the stream's sample rate is chosen, and how an input device is found by name.
- **Analysis.** `FftEngine::process_block` pops one hop of `fft_size / 2` samples. It builds a 50%-overlap frame from the retained overlap (or zeros) and the new hop, then keeps the hop as the next overlap. It windows and transforms the frame in place and returns `fft_size / 2 + 1` decibel values.
- **Binning.** The `FrequencyBinner` clamps each logarithmic band into the FFT's bins. `bin_spectrum` averages the dB spectrum over each band.
- **Publishing.** One cycle of the analysis thread: analyse a block, bin it, and publish it when the spectrum lock is taken.
- **Smoothing.** The `SpectrumSmoother`: a per-band exponential moving average with a decaying peak hold. The pipeline does not use it; it is modelled on its own.
- **Drawing.** The `Canvas` cell grid the visualizer draws into, and the `ColorScheme` that names colours and picks one per band. `SpectrumBarsMode` lays out one bar per band with an optional peak dot.
- **Configuration.** Command-line validation (`CliConfig::validate`) and the colour list handed to the renderer (`parse_colors`).

Modules, one per file:

| file | module | models |
|---|---|---|
| `wrappers.dfy` | `Wrappers` | `Option` and `Result` |
| `seqs.dfy` | `Seqs` | `Zeros`, the zero-filled vector shared by the analysis and smoothing state |
| `text.dfy` | `Text` | `to_lowercase`, `trim`, `split`, `contains` on strings |
| `ring.dfy` | `Ring` | the `ringbuf` crate's bounded FIFO (`HeapRb<f32>`) as a class over an array |
| `audio.dfy` | `Audio` | `src/audio.rs` |
| `fft.dfy` | `FftAnalysis` | `FftEngine`, `SpectrumData`, one cycle of `FftProcessor::run` |
| `binning.dfy` | `FrequencyBinning` | `FrequencyBinner` |
| `smoothing.dfy` | `Smoothing` | `SpectrumSmoother` |
| `render.dfy` | `Render` | `Canvas` and `ColorScheme` |
| `modes.dfy` | `Modes` | `SpectrumBarsMode` and the mode names |
| `config.dfy` | `Config` | `CliConfig::validate`, `validate_colors`, `parse_colors` |

Modelling conventions:

- `f32` values are `real`.
- Transcendental and library maths is passed in as function-valued parameters, with no body assumed. This covers the FFT (`dft(x, k)` is bin `k` of the transform of `x`) and the magnitude-to-decibel conversion (`decibels(c)`). The Hann window table is a constructor argument. The floor/ceil frequency-to-bin results of `calculate_logarithmic_bands` are an input function `edges(i)`.
- Objects whose fields the source updates in place are classes: the ring, `FftEngine`, `SpectrumSmoother`, `Canvas` and `SpectrumData`. `Vec` fields are `seq` fields that the methods reassign. The FFT input buffer is an `array`.
- Locks that can fail are a boolean parameter, `lockAcquired`. Clock readings are a parameter, `now`.

Behaviour of the code worth knowing, which the model follows:

- The frequency bands can overlap but never leave a gap. Band `i`'s end and band `i + 1`'s start come from the same frequency, rounded up for the one and down for the other, and the clamp keeps them meeting (`FrequencyBinning.AdjacentBandsLeaveNoGap`). The bands span 20 Hz to 20 kHz, not `[0, N/2]`: at 44.1 kHz the last band ends at bin 929 of 1024.
- A mixdown panics for zero channels: `chunks_exact(channels)` (src/audio.rs:196) does. `Audio.Mixdown` and `Audio.AudioCallback` therefore require at least one channel.
- The peak is replaced only when the smoothed value is strictly greater than it (`>` at src/fft.rs:295). A value equal to the peak makes the peak decay. `Smoothing.PeakHold` makes the same strict comparison.

## Model

| member | source | states |
|---|---|---|
| Text.ToLower | src/config.rs:78 | same length, each character lower-cased (ASCII letters only) |
| Text.ToLowerIsLower | src/config.rs:78 | the result is lower-case and lower-casing is idempotent |
| Text.Trim | src/config.rs:78 | the result is a contiguous slice of the input that neither starts nor ends with white space; everything cut off before and after it is white space; a string without white space is unchanged |
| Text.Split | src/config.rs:77 | `split(',')` always yields at least one piece; what the pieces are is stated by the `Split*` lemmas below |
| Text.SplitCount | src/config.rs:77 | `split(',')` yields one more piece than there are separators |
| Text.SplitPiecesFree | src/config.rs:77 | no piece contains the separator |
| Text.SplitJoin | src/config.rs:77 | joining the pieces with the separator gives back the input |
| Text.SplitWithoutSeparator | src/config.rs:77 | a string without the separator is its only piece |
| Text.SplitFirst | src/config.rs:77 | the text before the first separator is the first piece, followed by the pieces of the rest |
| Ring.SampleRing.constructor | src/audio.rs:19-21 | an empty ring of the given capacity |
| Ring.SampleRing.Free | src/audio.rs:188-191 | the room left is capacity minus the buffered samples |
| Ring.SampleRing.PushSlice | src/audio.rs:188-191 | stores the longest prefix that fits, returns its length, never touches buffered samples, drops the newest excess |
| Ring.SampleRing.PopSlice | src/fft.rs:60-61 | removes and returns the `min(n, buffered)` oldest samples in FIFO order |
| Audio.CreateRingBuffer | src/audio.rs:19-28 | a fresh empty ring of capacity 8192 |
| Audio.Mixdown | src/audio.rs:186-198 | one channel passes through unchanged; otherwise one sample per complete frame, `len / c` in all (each sample's value: `Audio.MixdownSpec`) |
| Audio.MixdownSpec | src/audio.rs:186-198 | one channel passes through unchanged; otherwise the block has `len / c` samples and sample `k` is the mean of frame `k`, an incomplete trailing frame ignored |
| Audio.StereoMixdownExample | src/audio.rs:195-198 | the stereo frames `[1, -1], [2, 0]` mix down to `[0, 1]` |
| Audio.AudioCallback | src/audio.rs:175-205 | nothing is pushed when the producer lock fails; otherwise the mixed-down block's prefix that fits is appended and `dropped` is the overrun the warning reports |
| Audio.FirstMatch | src/audio.rs:79-85 | the first device, in enumeration order, whose readable name contains the query ignoring case; none iff no device matches |
| Audio.FindDeviceByName | src/audio.rs:75-94 | an enumeration failure is an error; otherwise the first matching device, or a not-found error exactly when no device matches |
| Audio.U32AsI32 | src/audio.rs:102 | `as i32` keeps the bits: the result is an `i32` congruent to the input modulo 2^32 |
| Audio.WrapI32 | src/audio.rs:102 | wrap-around subtraction: an `i32` congruent to the exact result, equal to it when it fits |
| Audio.AbsI32 | src/audio.rs:102 | `abs` is the absolute value except at `i32::MIN`, which stays `i32::MIN` |
| Audio.CreateStreamConfig | src/audio.rs:97-116 | the channel count is copied; the rate is 44100 or the device's; for rates below 2^31 it is exactly the intended choice; from 2^31 up it is 44100 only for the rate 2^31 + 44100, where the release-build wrap makes the difference `i32::MIN` |
| Audio.IntendedSampleRate | src/audio.rs:101-107 | 44100 Hz iff the device rate is within 1000 Hz of it, otherwise the device rate |
| Audio.StreamRateWrapCounterexample | src/audio.rs:102 | a device rate of 2^31 + 44100 Hz makes the code pick 44100 Hz, where the intended choice keeps the device rate |
| FrequencyBinning.ClampBand | src/fft.rs:183-185 | start at most the Nyquist bin, else the Nyquist bin; `start < end <= N/2 + 1`; raw bins already in range are kept; an end past `N/2 + 1` becomes `N/2 + 1`; an end at or before the start becomes `start + 1` |
| FrequencyBinning.CalculateLogarithmicBands | src/fft.rs:162-195 | `num_bands` bands, band `i` the clamped raw band `i`, each in range and non-empty |
| FrequencyBinning.NewBinner | src/fft.rs:144-158 | the binner holds the clamped bands, the FFT size and the sample rate |
| FrequencyBinning.AdaptedBandCount | src/fft.rs:232-236 | the terminal width clamped into [32, 64] |
| FrequencyBinning.BinSpectrum | src/fft.rs:199-224 | one value per band, in band order, each the mean of the band's bins present in the magnitudes, or 0.0 when none is |
| FrequencyBinning.SumRangeBounds | src/fft.rs:204-212 | the sum of `k` bins lies between `k` times their lower and upper bounds |
| FrequencyBinning.BandMeanWithinBins | src/fft.rs:214-218 | a band's value lies between the smallest and largest of its bins |
| FrequencyBinning.ClampedBandsNeverEmpty | src/fft.rs:184-185 | with `N/2 + 1` magnitudes every clamped band covers a bin, so the 0.0 fallback is never taken |
| FrequencyBinning.AdjacentBandsLeaveNoGap | src/fft.rs:172-185 | when each band's raw end is at least the next band's raw start (one frequency, rounded up and down), the clamped bands also meet: no gap between adjacent bands |
| Smoothing.Clamp01 | src/fft.rs:262 | the smoothing factor is clamped into [0, 1], unchanged inside it |
| Smoothing.SpectrumSmoother.constructor | src/fft.rs:254-264 | zeroed smoothed and peak vectors of `num_bands` entries, factor clamped, decay 0.95 |
| Smoothing.SpectrumSmoother.Smooth | src/fft.rs:271-304 | on a length mismatch nothing changes and the current values are returned; otherwise every band takes one EMA step, then its peak is replaced by a strictly larger value or decays by 0.95 |
| Smoothing.SpectrumSmoother.Reset | src/fft.rs:334-337 | both vectors zeroed, lengths kept |
| Smoothing.EmaIterateGap | src/fft.rs:284-286 | after `n` frames of the same input the distance to it has shrunk by `(1 - alpha)^n` |
| Smoothing.EmaConverges | src/fft.rs:280-287 | under a constant input the smoothed value gets within any tolerance of it |
| Smoothing.EmaFixedPoint | src/fft.rs:285-286 | a value equal to the input is left unchanged |
| Smoothing.NegativePeakRisesOnDecay | src/fft.rs:294-300 | a negative dB peak that is not exceeded moves up towards 0 when it "decays" |
| FftAnalysis.AnalysisFrame | src/fft.rs:68-80 | the frame is the overlap when it holds exactly one hop, else a hop of zeros, followed by the new hop; its length is two hops |
| FftAnalysis.FftEngine.constructor | src/fft.rs:28-43 | zeroed input buffer of `fft_size` slots, no overlap, the given window |
| FftAnalysis.FftEngine.ProcessBlock | src/fft.rs:55-97 | the hop is popped even when short; a short read gives None and leaves the overlap and buffer as they were; otherwise the hop becomes the overlap, the buffer holds the transform of the windowed frame, and the result is the dB value of bins `0..=N/2` |
| FftAnalysis.FftEngine.ApplyWindow | src/fft.rs:100-104 | the first `len` slots hold sample times window, the rest unchanged |
| FftAnalysis.FftEngine.RunFft | src/fft.rs:90-91 | the buffer is replaced by its transform |
| FftAnalysis.FftEngine.ComputeMagnitudes | src/fft.rs:108-123 | `N/2 + 1` values, value `i` the dB value of bin `i` |
| FftAnalysis.EvenFrameFillsBuffer | src/fft.rs:69-87 | for an even FFT size the windowed frame fills the whole buffer |
| FftAnalysis.SpectrumData.constructor | src/fft.rs:349-354 | all bands zero |
| FftAnalysis.FftProcessor.constructor | src/fft.rs:370-387 | builds a fresh engine of size 2048 over the given ring (no overlap yet, ring untouched), a binner of `numBands` bands clamped to that size with the rate as a real (`as f32`), and a fresh all-zero spectrum, which is the one shared with the caller |
| FftAnalysis.FftProcessor.Tick | src/fft.rs:400-424 | the engine does what `process_block` promises (ring consumption, overlap, transformed buffer, decibel bins, nothing changed on a short read); a block is analysed iff a hop is buffered; the binned bands are published, with the new timestamp, iff there is one and the lock is taken; otherwise the snapshot is unchanged |
| Render.Canvas.constructor | src/render.rs:48-55 | `height` rows of `width` blank cells |
| Render.Canvas.GetCell | src/render.rs:75-81 | Some iff inside the canvas, then the stored cell |
| Render.Canvas.SetCell | src/render.rs:68-72 | inside the canvas exactly that cell changes, and reading it back gives the written cell; outside nothing changes |
| Render.Canvas.Clear | src/render.rs:84-90 | every cell blank, dimensions kept |
| Render.Canvas.Resize | src/render.rs:93-97 | the new dimensions, every cell blank |
| Render.DefaultScheme | src/render.rs:228-242 | the default gradient is red, yellow, green, cyan, blue, bass to treble; `Config.DefaultNamesGiveDefaultScheme` ties it to the default colour names |
| Render.Gradient | src/render.rs:136-142 | the given colours, or the default scheme for none |
| Render.ParseColorName | src/render.rs:163-182 | Ok iff the lower-cased name is one of the listed names, then its colour; otherwise an error naming the input |
| Render.ColorAliases | src/render.rs:173-179 | `gray`/`grey`, `dark_blue`/`darkblue` and differently cased names parse to the same colour |
| Render.FromNames | src/render.rs:147-160 | the default scheme for no names; otherwise Ok iff every name parses, then one colour per name in order; an error is the first unknown name's |
| Render.GradientIndex | src/render.rs:199-219 | the chosen index is inside the scheme |
| Render.GetColor | src/render.rs:190-220 | White for an empty scheme, the only colour of a one-colour scheme, otherwise always a colour of the scheme |
| Render.GradientEnds | src/render.rs:199-219 | the first band takes the first colour and the last band the last |
| Render.GradientIndexMonotone | src/render.rs:199-219 | a later band never takes an earlier colour of the gradient |
| Modes.Name | src/modes.rs:105-107 | the three modes report `spectrum`, `waveform` and `circular` |
| Modes.NamesDistinct | src/modes.rs:378-387 | different modes report different names |
| Modes.Normalized | src/modes.rs:27 | a dB value mapped onto [0, 1], 0 at or below -60 dB, 1 at or above 0 dB |
| Modes.NormalizedMonotone | src/modes.rs:27 | normalisation is monotone |
| Modes.MagnitudeToHeight | src/modes.rs:24-31 | the height lies in [0, max]; 0 at or below -60 dB, the full height at or above 0 dB |
| Modes.MagnitudeToHeightExamples | src/modes.rs:341-351 | -60 dB gives 0, 0 dB gives 10 and -30 dB gives 5 on a canvas 10 rows high |
| Modes.MagnitudeToHeightMonotone | src/modes.rs:27-30 | a louder band never gets a shorter bar |
| Modes.RenderSpectrumBars | src/modes.rs:50-103 | the canvas becomes the layout: every cell is the rendered cell for its position over what was there, dimensions kept |
| Modes.DrawBar | src/modes.rs:73-101 | in the bar's columns each row becomes the bar's cell for that row, with the peak dot when shown; all other cells unchanged |
| Modes.FillRow | src/modes.rs:81-85 | the columns `[x0, x0 + barWidth)` of one row that lie on the canvas get the given cell; every other cell is unchanged |
| Modes.RenderedCellInBar | src/modes.rs:59-67 | inside bar `i`'s columns `[i*w, (i+1)*w)` the cell is bar `i`'s cell, coloured by band `i` of `num_bars` |
| Modes.EmptyInputLeavesCanvas | src/modes.rs:54-56 | an empty spectrum or an empty canvas leaves every cell as it was |
| Modes.ColumnsBeyondBarsUntouched | src/modes.rs:59-85 | columns at or beyond `num_bars * bar_width` are never written |
| Modes.BarsFit | src/modes.rs:59-60 | `num_bars * (width / num_bars)` columns fit in the canvas |
| Modes.BarColumnsInCanvas | src/modes.rs:63-64 | every bar column lies inside the canvas |
| Modes.BarCellShape | src/modes.rs:73-101 | a bar's row is a full block iff it is among the bottom `h` rows, a peak dot iff peaks are shown, the bar is not full and the row is the one above it, else a space |
| Modes.BarColumnShape | src/modes.rs:63-101 | in bar `i`'s columns the rendered canvas has full blocks exactly in the bottom `h` rows, the peak dot exactly in row `height - h - 1` when shown (the bottom row for an empty bar), band `i`'s colour throughout |
| Config.Defaults | src/config.rs:14-20 | mode `spectrum`, sensitivity 1.0, no colours, no device |
| Config.ParseColors | src/config.rs:92-108 | the default gradient without `--colors`; otherwise one name per comma-separated item, number of commas plus one, each trimmed and lower-cased, in order |
| Config.FirstInvalid | src/config.rs:77-86 | None iff every name is in the vocabulary, otherwise the first one that is not |
| Config.ValidateColors | src/config.rs:70-89 | Ok iff every normalised item is one of the sixteen names; an error carries the first item that is not |
| Config.Validate | src/config.rs:42-67 | Ok iff the sensitivity is in [0.1, 5.0], the mode is valid and any given colours are; the sensitivity is checked first, then the mode, then the colours, and each failure reports its own error (the colour error is `validate_colors`'s own) |
| Config.DefaultsAreValid | src/config.rs:14-20 | the defaults pass validation and yield the default gradient |
| Config.ValidModesAreModeNames | src/config.rs:52 | the accepted mode names are exactly the names the modes report |
| Config.ModeIsCaseSensitive | src/config.rs:52-59 | `Spectrum` is an invalid mode, while ` RED , Blue` is a valid colour list |
| Config.SpacedCapitalsValid | src/config.rs:77-79 | items are trimmed and lower-cased before the check |
| Config.ValidateFirstItem | src/config.rs:77-86 | the items are checked left to right: a bad first item is reported, otherwise the rest decides |
| Config.ValidateLastItem | src/config.rs:77-86 | a single item is checked on its own |
| Config.BlankItemRejected | src/config.rs:77-85 | an empty or blank item makes the list invalid |
| Config.DoubleCommaRejected | src/config.rs:77-85 | `red,,blue` is rejected with the empty item reported |
| Config.FirstInvalidUnique | src/config.rs:77-86 | only one position can be the first invalid one |
| Config.SingleName | src/config.rs:77-86 | a plain name is the whole list and is checked on its own |
| Config.ParsedNamesAreNormal | src/config.rs:93-97 | every parsed name is lower-case and comma-free; without a comma the normalised option is the only name |
| Config.DefaultNamesGiveDefaultScheme | src/config.rs:99-106 | the default names parse to the renderer's default gradient, colour by colour |
| Config.ValidatedColorMayNotParse | src/config.rs:71-75 | `light_red` passes validation but the renderer cannot parse it |
| Config.ParseableColorRefused | src/config.rs:71-75 | `dark_red` is refused by validation although the renderer parses it |
| Config.ValidateSchemeColors | src/config.rs:70-89 | corrected check: Ok iff the renderer parses every name the list yields; an error carries the first one it does not |
| Config.ValidateForScheme | src/config.rs:42-67 | `validate` with the corrected colour check: the same sensitivity and mode errors in the same order, then the corrected colour check's own result |
| Config.ValidConfigBuildsScheme | src/config.rs:92-108 | with the corrected check every accepted configuration yields names the renderer parses |

## Left out

- The Fourier transform (`rustfft`), the Hann window values and the magnitude-to-decibel conversion. These are parameters with no assumed behaviour. The window is computed with the denominator `size - 1`; the model takes whatever table it is given.
- The `powf`/`floor`/`ceil` computation of each band's raw bins and centre frequency. These are inputs, and only the clamp is modelled.
- Floating-point rounding, NaN and infinities: `f32` is `real`. A NaN sensitivity passes `validate` in the code (both comparisons are false). A NaN magnitude gives height 0 through the saturating cast. Neither is captured.
- Modes.MagnitudeToHeight: the `f32 as usize` cast is modelled as the floor of a non-negative real. The saturation of the cast never matters there, because the value is at most the height.
- Text.ToLower: lower-cases ASCII letters only. Rust's `to_lowercase` also maps other Unicode letters (such as the Kelvin sign to `k`), which is not captured.
- Audio.Mixdown: requires at least one channel; with zero channels the code panics in `chunks_exact`.
- Audio.CreateStreamConfig: models a release build, where `i32` arithmetic wraps. In a debug build every device rate in [2^31, 2^31 + 44100) panics: the rate reinterpreted as `i32` is below `i32::MIN + 44100`, so the subtraction overflows. A rate of exactly 2^31 + 44100 reaches `abs(i32::MIN)`, which panics too.
- Threads, the `Arc<Mutex<_>>` sharing, the 16 ms and 5 ms sleeps and the endless loop of `FftProcessor::run` and `spawn_fft_thread`. Only one cycle, `FftProcessor.Tick`, is modelled. Lock failure is the `lockAcquired` parameter and the clock is the `now` parameter.
- The cpal device and stream plumbing: `AudioProcessor::new`, `start`, `stop`, `list_devices` and the text of the not-found message. Device enumeration is an input list of names (None when enumeration fails; None entries for names that cannot be read), and a found device is its index.
- `TerminalRenderer`, `RenderLoop` and `RenderConfig`: terminal I/O, key polling and frame timing.
- `WaveformMode` and `CircularMode` drawing (RMS, `sin`/`cos`). Only their names are modelled.
- `SpectrumBarsMode::get_block_char` and the partial block characters: `render` never uses them.
- `src/main.rs`, `CliConfig::parse_args` (clap) and `display_modes` (printing).
- `SpectrumSmoother::update_peaks`: an unused copy of the peak step inside `smooth`. The accessors `smoothed_values` and `peak_values` are the class's fields.

## Findings

| source | as written | input that shows it | evidently intended | confidence | as-written member | corrected member |
|---|---|---|---|---|---|---|
| src/audio.rs:102 | `(actual as i32 - 44100).abs() < 1000` reinterprets the `u32` rate as `i32`, and `abs` of `i32::MIN` stays negative in a release build | a device rate of 2147527748 Hz (2^31 + 44100) gives a difference of `i32::MIN`, so 44100 Hz is chosen | 44100 Hz only when the device rate is within 1000 Hz of 44100 | high for the arithmetic, low for practical impact (no device reports such a rate); not executed | Audio.StreamRateWrapCounterexample | Audio.IntendedSampleRate |
| src/config.rs:71-75 | `validate_colors` accepts its own sixteen names, which differ from those `parse_color_name` (src/render.rs:163-182) accepts | `--colors light_red` passes validation, then `from_names` fails after capture has started; `--colors dark_red` is refused although it would render | validation accepts exactly the colour names the renderer can parse | high; not executed | Config.ValidatedColorMayNotParse | Config.ValidateSchemeColors |
