# get_pitch: an autocorrelation pitch detector, modelled in Dafny

`get_pitch` estimates the fundamental frequency (F0) of a mono speech signal frame by frame.
The steps are:

1. Center-clip the whole signal with a threshold of 0.75 times its mean square.
2. Cut it into 30 ms frames at a 15 ms hop.
3. Hand each frame to a `PitchAnalyzer`. The analyzer windows the frame and autocorrelates it. It looks for the
   first autocorrelation maximum within a lag range derived from a 50–500 Hz F0 range. It then returns 0 (unvoiced)
   or `rate / lag`.
4. Smooth the estimates with an in-place three-point median filter.
5. Write them out with an extra 0 at each end.

The project has two modules:

- `PitchAnalysis` (`pitch_analyzer.dfy`) models the analyzer class of `src/get_pitch/pitch_analyzer.cpp`.
  - `PitchAnalyzer` is a Dafny class whose fields are the window and the lag range.
  - Its methods `SetWindow`, `SetF0Range`, `Autocorrelation` and `ComputePitch` update those fields or the caller's
    arrays in place.
  - Each method is proved against a specification function. `AutocorrVector` specifies the autocorrelation,
    `FirstMax` the lag search, `Unvoiced` the voicing rule and `FrameEstimate` the per-frame result.
- `GetPitch` (`get_pitch.dfy`) models the in-memory part of `main` in `src/get_pitch/get_pitch.cpp`.
  - `CenterClip` works in place on an array. Its specifications are `ClipThreshold` and `ClipAll`.
  - `ScheduleFrames` is the frame loop, specified by `FrameCount` and `FrameEstimates`.
  - `MedianFilter` works in place, specified by `MedianSmooth`.
  - `WriteContour` builds the output.
  - `EstimateContour` composes the four.

Samples are `real`. Lags, lengths and the sampling rate are `nat`. C++'s truncating float-to-unsigned conversions
of positive values are written as `Floor`. `frameLen / 2` is integer division, as in the source.

## Model

| member | source | states |
|---|---|---|
| `PitchAnalysis.PrefixEnergy` | src/get_pitch/pitch_analyzer.cpp:21-22 | the running sum of x[n]·x[n] is never negative and is zero exactly when every sample so far is zero |
| `PitchAnalysis.EnergyNonNegative` | src/get_pitch/pitch_analyzer.cpp:21-22 | lag-0 autocorrelation (frame energy) is ≥ 0, and = 0 iff the frame is silent |
| `PitchAnalysis.AutocorrVector` | src/get_pitch/pitch_analyzer.cpp:15-29 | the vector left in r: lag l ≥ 2 is Σ x[n]·x[n-l]; lag 1 times len(x)^(len(r)-1) is its sum; lag 0 is the energy, or 1e-10 when the energy is 0, and is always > 0 |
| `PitchAnalysis.LagOneDividedPerPass` | src/get_pitch/pitch_analyzer.cpp:17-25 | one more pass of the lag loop divides r[1] once more by len(x) |
| `PitchAnalysis.LagOneBoundedByEnergy` | src/get_pitch/pitch_analyzer.cpp:20-23 | the lag-1 sum never exceeds the lag-0 sum (the energy) in absolute value |
| `PitchAnalysis.LagOneNormBound` | src/get_pitch/pitch_analyzer.cpp:17-25 | for every non-empty frame and at least two lags, r[1] / r[0] ≤ 1/2 after the repeated division of r[1] |
| `PitchAnalysis.PitchAnalyzer.Autocorrelation` | src/get_pitch/pitch_analyzer.cpp:15-29 | fills r in place with exactly `AutocorrVector(x, len(r))`; needs len(r) ≥ 2 because r[1] is written on the lag-0 pass |
| `PitchAnalysis.HammingCoefficient` | src/get_pitch/pitch_analyzer.cpp:41-43 | the literal formula -2·0.23·c + 0.54 equals the standard 0.54 - 0.46·c and lies in [0.08, 1] for c in [-1, 1] |
| `PitchAnalysis.Resized` | src/get_pitch/pitch_analyzer.cpp:35 | resize keeps the first n values and has length n |
| `PitchAnalysis.PitchAnalyzer.SetWindow` | src/get_pitch/pitch_analyzer.cpp:31-49 | a zero frame length leaves the window untouched; otherwise the window has frameLen coefficients, all 1 for RECT and the Hamming formula of cos(2πi/N) for HAMMING |
| `PitchAnalysis.MinLag` | src/get_pitch/pitch_analyzer.cpp:52-54 | npitch_min is at least 2, and above 2 it is floor(rate / maxF0) |
| `PitchAnalysis.MaxLag` | src/get_pitch/pitch_analyzer.cpp:56-60 | npitch_max = min(frameLen/2, 1 + floor(rate / minF0)): below frameLen/2 it is 1 + floor(rate / minF0), and it equals frameLen/2 only when rate / minF0 ≥ frameLen/2 - 1 |
| `PitchAnalysis.PitchAnalyzer.SetF0Range` | src/get_pitch/pitch_analyzer.cpp:51-61 | sets npitch_min = MinLag ≥ 2 and npitch_max = MaxLag ≤ frameLen/2 |
| `PitchAnalysis.LagRangeNonEmptyIff` | src/get_pitch/pitch_analyzer.cpp:51-61 | for 0 < minF0 ≤ maxF0, the unchecked lag range is non-empty exactly when rate/minF0 ≥ 2 and npitch_min < frameLen/2; frames shorter than 6 samples always get an empty range |
| `PitchAnalysis.DefaultLagRange` | src/get_pitch/get_pitch.cpp:67 | 16 kHz, 480-sample frames and 50–500 Hz give the lag range [32, 240) |
| `PitchAnalysis.DefaultAnalyzer` | src/get_pitch/get_pitch.cpp:67 | the configuration main asks for yields a ready analyzer with an all-ones window and, at 16 kHz, lags [32, 240) |
| `PitchAnalysis.Unvoiced` | src/get_pitch/pitch_analyzer.cpp:63-73 | unvoiced iff pot ≤ -40 or (rmaxnorm ≤ 0.41 and r1norm ≤ 0.93), with the three constants of lines 7-9 |
| `PitchAnalysis.VoicingMonotone` | src/get_pitch/pitch_analyzer.cpp:63-73 | raising power, r1norm or rmaxnorm never turns a voiced frame unvoiced |
| `PitchAnalysis.LagOneNeverDecides` | src/get_pitch/pitch_analyzer.cpp:63-73 | on the autocorrelation vector of any non-empty frame the r1norm > 0.93 test never fires: unvoiced iff pot ≤ -40 or rmaxnorm ≤ 0.41 |
| `PitchAnalysis.PowerFloor` | src/get_pitch/pitch_analyzer.cpp:106 | for an increasing log10, the power test 10·log10(r0) > -40 is exactly r0 > 1/10000 |
| `PitchAnalysis.FirstMax` | src/get_pitch/pitch_analyzer.cpp:99-104 | the scan's lag is the first index of [lo, hi) where r reaches its maximum over [lo, hi) |
| `PitchAnalysis.FirstMaxUnique` | src/get_pitch/pitch_analyzer.cpp:99-104 | there is only one such first maximum |
| `PitchAnalysis.FirstMaxLag` | src/get_pitch/pitch_analyzer.cpp:89-104 | the iterator scan with strict `>` returns the first maximum |
| `PitchAnalysis.FrameEstimate` | src/get_pitch/pitch_analyzer.cpp:80-119 | the estimate for a frame of the right length is ≥ 0, and when positive lies in [rate/(npitch_max-1), rate/npitch_min] |
| `PitchAnalysis.PitchOf` | src/get_pitch/pitch_analyzer.cpp:76-119 | compute_pitch's result is -1 exactly for a wrong-length frame; otherwise 0 or a pitch in the lag range's frequency band |
| `PitchAnalysis.SilentFrameIsUnvoiced` | src/get_pitch/pitch_analyzer.cpp:106-117 | an all-zero frame is reported unvoiced (0): its r[0] is clamped to 1e-10, below the -40 dB power floor |
| `PitchAnalysis.PitchAnalyzer.ComputePitch` | src/get_pitch/pitch_analyzer.cpp:76-120 | a wrong-length frame gives -1 and is left alone; otherwise the frame is windowed in place and the result is `FrameEstimate` of the original frame |
| `GetPitch.Clip` | src/get_pitch/get_pitch.cpp:84-92 | for t ≥ 0 a clipped sample has magnitude max(abs(s) - t, 0), never more than abs(s), and never the opposite sign |
| `GetPitch.ClipKeepsSign` | src/get_pitch/get_pitch.cpp:84-92 | clipped sample times original sample is ≥ 0 |
| `GetPitch.ClipIsOdd` | src/get_pitch/get_pitch.cpp:84-92 | clip(-s) = -clip(s) for t ≥ 0 |
| `GetPitch.ClipScenario` | src/get_pitch/get_pitch.cpp:84-92 | ±T map to 0 and ±2T map to ±T |
| `GetPitch.ClipAll` | src/get_pitch/get_pitch.cpp:82-94 | clipping keeps the signal length |
| `GetPitch.ClipZeroIsIdentity` | src/get_pitch/get_pitch.cpp:82-94 | a zero threshold leaves every sample unchanged |
| `GetPitch.ClipAllShrinks` | src/get_pitch/get_pitch.cpp:82-94 | every clipped sample keeps its sign and loses t of magnitude, down to 0 |
| `GetPitch.ClipThreshold` | src/get_pitch/get_pitch.cpp:73-80 | the threshold 0.75·Σx²/len(x) is ≥ 0, and for a non-empty signal it is 0 exactly when the signal is silent |
| `GetPitch.CenterClip` | src/get_pitch/get_pitch.cpp:73-94 | computes that threshold and rewrites every sample in place with the clipping rule |
| `GetPitch.FrameCount` | src/get_pitch/get_pitch.cpp:99 | frame k is taken exactly when k·shift + len < len(x), i.e. exactly for k below the count |
| `GetPitch.FrameCountVersusUsualFormula` | src/get_pitch/get_pitch.cpp:99 | for L ≥ len, the strict `<` yields floor((L-len)/shift) + 1 frames, except one fewer when (L-len) is a multiple of shift |
| `GetPitch.DefaultFrameCount` | src/get_pitch/get_pitch.cpp:97-102 | one second at 16 kHz with 480/240-sample frames gives 65 frames |
| `GetPitch.FrameEstimates` | src/get_pitch/get_pitch.cpp:97-102 | the raw contour has one estimate per taken frame, FrameCount in all |
| `GetPitch.ScheduleFrames` | src/get_pitch/get_pitch.cpp:97-102 | the loop appends exactly `FrameEstimates` of the signal |
| `GetPitch.Sort3` | src/get_pitch/get_pitch.cpp:113 | the sorted window is ordered and a permutation of the three values |
| `GetPitch.Median3` | src/get_pitch/get_pitch.cpp:112-114 | the window's median: one of the three, with the other two on either side |
| `GetPitch.SortedWindowMiddle` | src/get_pitch/get_pitch.cpp:112-114 | sorting the window and taking its middle element, as the loop does, gives that median |
| `GetPitch.MedianUnique` | src/get_pitch/get_pitch.cpp:112-114 | three values have a single median |
| `GetPitch.Filtered` | src/get_pitch/get_pitch.cpp:111-114 | every filtered entry is one of the original estimates |
| `GetPitch.MedianSmooth` | src/get_pitch/get_pitch.cpp:109-115 | the filter keeps the length, never changes entries 0 and 1 or the last entry, and only produces values already in the contour |
| `GetPitch.MedianSmoothStep` | src/get_pitch/get_pitch.cpp:111-114 | for 2 ≤ i ≤ len(s) − 2, entry i is the median of the already filtered entry i-1 and the original entries i and i+1 |
| `GetPitch.SortedContourUnchanged` | src/get_pitch/get_pitch.cpp:109-115 | a non-decreasing contour passes through unchanged |
| `GetPitch.FilteredBetweenNeighbours` | src/get_pitch/get_pitch.cpp:109-115 | every smoothed entry from index 2 to len(s) − 2 lies between its smoothed neighbours |
| `GetPitch.MedianSmoothIdempotent` | src/get_pitch/get_pitch.cpp:109-115 | smoothing an already smoothed contour changes nothing, for every contour |
| `GetPitch.IsolatedErrorRemoved` | src/get_pitch/get_pitch.cpp:109-115 | a single outlier at an index from 2 to len(s) − 2 in an otherwise constant contour is removed |
| `GetPitch.MedianFilter` | src/get_pitch/get_pitch.cpp:109-115 | the in-place loop, bounded so that f0[i+1] exists, leaves exactly `MedianSmooth` of the old contour |
| `GetPitch.MedianSmoothAsWritten` | src/get_pitch/get_pitch.cpp:111-112 | the loop as written, with the value read past the end as a parameter, keeps the length |
| `GetPitch.AsWrittenDiffersOnlyAtEnd` | src/get_pitch/get_pitch.cpp:111-112 | the read past the end can change only the last estimate |
| `GetPitch.PastEndReadLosesLastEstimate` | src/get_pitch/get_pitch.cpp:111-112 | for [0, 0, 0, 200] with 0 past the end the program outputs 0 last; the bounded loop keeps 200 |
| `GetPitch.WriteContour` | src/get_pitch/get_pitch.cpp:124-127 | the written lines are 0, the estimates in order, then 0: length len(f0) + 2 |
| `GetPitch.EstimateContour` | src/get_pitch/get_pitch.cpp:73-127 | main's pipeline with the bounded median filter (see Findings): clipped signal in place, output = 0 ++ MedianSmooth(FrameEstimates(clipped)) ++ 0 |
| `GetPitch.ContourShape` | src/get_pitch/get_pitch.cpp:97-127 | the output has FrameCount + 2 lines, each 0 or one of the frame estimates |
| `GetPitch.EstimatesInPitchRange` | src/get_pitch/get_pitch.cpp:97-102 | with compute_pitch as the estimator, every frame estimate is 0 or a pitch in [rate/(npitch_max-1), rate/npitch_min]; -1 never occurs |
| `GetPitch.ContourInPitchRange` | src/get_pitch/get_pitch.cpp:97-127 | with compute_pitch as the estimator, every output line is 0 or a pitch in [rate/(npitch_max-1), rate/npitch_min] |

## Where the code and the usual description differ

The model follows the code in each case:

- **Frame count.** The frame loop's condition is `iX + n_len < x.end()` (get_pitch.cpp:99).
  - So a frame ending exactly at the last sample is not analysed, and a signal exactly one frame long gives no
    estimate.
  - The usual formula floor((L - len)/shift) + 1 over-counts by one in those cases
    (`FrameCountVersusUsualFormula`).
- **Lag-1 normalisation.** `r[1] = r[1]/x.size()` sits inside the lag loop (pitch_analyzer.cpp:24).
  - So r[1] ends divided by len(x) once per pass from lag 1 on, len(r) - 1 times in all.
  - Since the lag-1 sum is bounded by the energy, r1norm is then at most 1/2 for every non-empty frame
    (`LagOneNormBound`), so the r1norm > 0.93 test never decides voicing (`LagOneNeverDecides`).
- **Lag range.** `set_f0_range` never checks that npitch_min < npitch_max (`LagRangeNonEmptyIff`).
  `ComputePitch` therefore requires an analyzer that is `Ready`.
- **Median filter start.** The filter starts at index 2, so entry 1 is never smoothed. The model keeps this.
- **Hamming formula.** The literal `-2·0.23·cos(...) + 0.54` is the standard 0.54 - 0.46·cos(...)
  (`HammingCoefficient`).

## Left out

- Reading the WAV file, command-line parsing, the output stream and its error paths, and the exit codes are I/O.
  The output is modelled as the sequence of values written, one per line, without number formatting.
- The `cout` diagnostic line in `compute_pitch` (pitch_analyzer.cpp:111-114) is a console side effect only.
- `log10` and `cos` are parameters. The Hamming coefficients are stated in terms of the cosine values they are
  given, not evaluated.
- Floating point.
  - Samples, thresholds and the 1e-10 floor are exact reals.
  - `0.41F` and `0.93F` are taken as the decimals they spell.
  - Rounding, overflow and NaN are not modelled.
  - The unsigned conversions in `set_f0_range` are unbounded.
- `n_len` and `n_shift` (get_pitch.cpp:63-64) are integer inputs; their derivation from `rate * 0.030` and
  `rate * 0.015` in floating point is not modelled.
- `abs` on a sample is taken to be the floating-point overload.
- `pitch_analyzer.h` is not part of this model.
  - Its constructor and `operator()` are absent.
  - The `PitchAnalyzer` constructor here only records the frame length and the rate.
  - `DefaultAnalyzer` configures the analyzer through `SetWindow` and `SetF0Range` directly.
  - The frame loop takes the analyzer call as a function parameter `estimate` of the frame's samples.
    `ContourInPitchRange` instantiates it with `PitchOf`, compute_pitch's result as a function of the frame.
- GetPitch.ClipThreshold: gives 0 for an empty signal, where the program divides 0 by 0 and gets NaN.
  There is no sample to clip either way, so the output is the same.
- PitchAnalysis.PitchAnalyzer.Autocorrelation: requires a non-empty frame.
  - For an empty frame the program divides r[1] by zero.
  - `ComputePitch` only calls it with frameLen ≥ 6 samples.
- GetPitch.ScheduleFrames: requires a positive hop. With a zero hop and a signal longer than one frame, the program
  never leaves the frame loop. With a shorter signal it takes no frame. `requires shift > 0` excludes both cases.
- The iterator `iX` may step past `x.end()` on the last hop; the model uses an index and stops at the same point.
- The end-to-end 200 Hz sine-wave scenario needs `cos` and floating-point tolerance and is not stated.

## Findings

| source | as written | input that shows it | evidently intended | confidence | as-written member | corrected member |
|---|---|---|---|---|---|---|
| src/get_pitch/get_pitch.cpp:111-112 | the median loop runs to `i = f0.size()-1` and reads `f0[i+1]`, one past the end | contour [0, 0, 0, 200] with 0 in the memory past the end: the last estimate, 200, is replaced by 0 | stop at `i + 1 < f0.size()`, leaving the last estimate, which has no right neighbour, as it is | not executed | `GetPitch.MedianSmoothAsWritten` | `GetPitch.MedianFilter` |
