/** Model of the pitch analyzer (src/get_pitch/pitch_analyzer.cpp): an
    autocorrelation pitch estimator with a rectangular or Hamming window, a
    configured lag search range and a three-threshold voicing rule.

    Samples are `real`; lags, lengths and the sampling rate are `nat`.
    `log10` and the cosine used by the Hamming window are parameters. */
module PitchAnalysis {

  /** Voicing thresholds: normalised autocorrelation at the best lag, at lag 1,
      and the power floor in dB (compared as `pot > -PowerThreshold`). */
  const RMaxNormThreshold: real := 0.41
  const R1NormThreshold: real := 0.93
  const PowerThreshold: real := 40.0

  /** Value written into r[0] when the frame has no energy. */
  const ZeroEnergyFloor: real := 0.0000000001

  datatype WindowType = Rect | Hamming

  // ---------------------------------------------------------------------
  // Autocorrelation: specification
  // ---------------------------------------------------------------------

  /** The product of two samples. Kept as a named function so that sign
      facts about a sample times itself can be stated without a square:
      written as a literal `v * v`, the square is not connected to the rest
      of the arithmetic and Dafny could not prove those sign facts. */
  function SampleProduct(a: real, b: real): real
  {
    a * b
  }

  /** The sum of x[n] * x[n - l] for l <= n < m (empty when m <= l). */
  function LagProductSum(x: seq<real>, l: nat, m: nat): real
    requires m <= |x|
    decreases m
  {
    if m <= l then 0.0 else LagProductSum(x, l, m - 1) + SampleProduct(x[m - 1], x[m - 1 - l])
  }

  /** Biased autocorrelation of x at lag l: the sum of x[n] * x[n - l] over l <= n < |x|. */
  function Autocorr(x: seq<real>, l: nat): real
  {
    LagProductSum(x, l, |x|)
  }

  /** Two samples of the same strict sign have a positive product. */
  lemma ProductPositive(a: real, b: real)
    requires (a > 0.0 && b > 0.0) || (a < 0.0 && b < 0.0)
    ensures SampleProduct(a, b) > 0.0
  {
  }

  /** The energy of every prefix is non-negative, and it is zero exactly when
      every sample of the prefix is zero. */
  lemma {:induction false} PrefixEnergy(x: seq<real>, m: nat)
    requires m <= |x|
    ensures LagProductSum(x, 0, m) >= 0.0
    ensures LagProductSum(x, 0, m) == 0.0 <==> forall n :: 0 <= n < m ==> x[n] == 0.0
  {
    if m > 0 {
      PrefixEnergy(x, m - 1);
      var v := x[m - 1];
      if v != 0.0 {
        ProductPositive(v, v);
      }
      assert (forall n :: 0 <= n < m ==> x[n] == 0.0) ==
             ((forall n :: 0 <= n < m - 1 ==> x[n] == 0.0) && v == 0.0);
    }
  }

  /** r[0] before clamping is the frame energy: never negative, and zero
      exactly for a silent frame. */
  lemma EnergyNonNegative(x: seq<real>)
    ensures Autocorr(x, 0) >= 0.0
    ensures Autocorr(x, 0) == 0.0 <==> forall n :: 0 <= n < |x| ==> x[n] == 0.0
  {
    PrefixEnergy(x, |x|);
  }

  /** b raised to the power e. */
  function Pow(b: real, e: nat): (p: real)
    requires b > 0.0
    ensures p > 0.0
  {
    if e == 0 then 1.0 else Pow(b, e - 1) * b
  }

  lemma DivideTwice(a: real, p: real, b: real)
    requires p > 0.0 && b > 0.0
    ensures a / p / b == a / (p * b)
  {
  }

  /** One more division by n of the lag-1 entry: after the pass for lag l
      the entry has been divided l times since its own pass (l = 1). */
  lemma NextDivision(s1: real, n: real, l: nat, v: real)
    requires n > 0.0
    requires l == 1 ==> v == s1
    requires l >= 2 ==> v == s1 / Pow(n, l - 1)
    ensures l >= 1 ==> v / n == s1 / Pow(n, l)
  {
    if l >= 2 {
      DivideTwice(s1, Pow(n, l - 1), n);
    } else if l == 1 {
      assert Pow(n, 1) == n;
    }
  }

  /** The vector that autocorrelation leaves in an output of length m:
      lag l >= 2 holds Autocorr(x, l); lag 1 has been divided by |x| once on
      the l = 1 pass and once on every later pass, m - 1 times in all; lag 0
      is the energy, moved to ZeroEnergyFloor when it is exactly zero. */
  function AutocorrVector(x: seq<real>, m: nat): (r: seq<real>)
    requires |x| > 0 && m >= 2
    ensures |r| == m
    ensures r[0] > 0.0
    ensures Autocorr(x, 0) > 0.0 ==> r[0] == Autocorr(x, 0)
    ensures Autocorr(x, 0) == 0.0 ==> r[0] == ZeroEnergyFloor
    ensures r[1] * Pow(|x| as real, m - 1) == Autocorr(x, 1)
    ensures forall l :: 2 <= l < m ==> r[l] == Autocorr(x, l)
  {
    EnergyNonNegative(x);
    seq(m, l requires 0 <= l < m =>
      if l == 0 then (if Autocorr(x, 0) == 0.0 then ZeroEnergyFloor else Autocorr(x, 0))
      else if l == 1 then Autocorr(x, 1) / Pow(|x| as real, m - 1)
      else Autocorr(x, l))
  }

  /** The lag-1 entry is sensitive to the length of the output vector: one
      more lag divides it once more by the frame length. */
  lemma LagOneDividedPerPass(x: seq<real>, m: nat)
    requires |x| > 0 && m >= 2
    ensures AutocorrVector(x, m + 1)[1] == AutocorrVector(x, m)[1] / (|x| as real)
  {
    var n := |x| as real;
    DivideTwice(Autocorr(x, 1), Pow(n, m - 1), n);
  }

  /** Twice the product of two samples is bounded by the sum of their squares. */
  lemma ProductBound(a: real, b: real)
    ensures 2.0 * SampleProduct(a, b) <= SampleProduct(a, a) + SampleProduct(b, b)
    ensures -2.0 * SampleProduct(a, b) <= SampleProduct(a, a) + SampleProduct(b, b)
  {
    var d, e := a - b, a + b;
    if d != 0.0 {
      ProductPositive(d, d);
    }
    if e != 0.0 {
      ProductPositive(e, e);
    }
    assert SampleProduct(d, d) >= 0.0 && SampleProduct(e, e) >= 0.0;
    assert SampleProduct(d, d) == SampleProduct(a, a) - 2.0 * SampleProduct(a, b) + SampleProduct(b, b);
    assert SampleProduct(e, e) == SampleProduct(a, a) + 2.0 * SampleProduct(a, b) + SampleProduct(b, b);
  }

  /** On every non-empty prefix, twice the lag-1 sum is bounded in absolute
      value by twice the energy less the square of the prefix's last sample. */
  lemma {:induction false} LagOnePrefixBound(x: seq<real>, m: nat)
    requires 1 <= m <= |x|
    ensures 2.0 * LagProductSum(x, 1, m) <= 2.0 * LagProductSum(x, 0, m) - SampleProduct(x[m - 1], x[m - 1])
    ensures -2.0 * LagProductSum(x, 1, m) <= 2.0 * LagProductSum(x, 0, m) - SampleProduct(x[m - 1], x[m - 1])
  {
    if m == 1 {
      assert LagProductSum(x, 0, 1) == SampleProduct(x[0], x[0]);
      if x[0] != 0.0 {
        ProductPositive(x[0], x[0]);
      }
    } else {
      LagOnePrefixBound(x, m - 1);
      ProductBound(x[m - 1], x[m - 2]);
    }
  }

  /** The lag-1 autocorrelation never exceeds the energy in absolute value. */
  lemma LagOneBoundedByEnergy(x: seq<real>)
    ensures -Autocorr(x, 0) <= Autocorr(x, 1) <= Autocorr(x, 0)
  {
    if |x| > 0 {
      var v := x[|x| - 1];
      LagOnePrefixBound(x, |x|);
      if v != 0.0 {
        ProductPositive(v, v);
      }
    }
  }

  lemma ScaleMonotone(u: real, v: real, c: real)
    requires c > 0.0 && u <= v
    ensures u * c <= v * c
  {
  }

  lemma ZeroFactor(a: real, p: real)
    requires p > 0.0 && a * p == 0.0
    ensures a == 0.0
  {
  }

  lemma {:induction false} PowAtLeastBase(b: real, e: nat)
    requires b >= 1.0 && e >= 1
    ensures Pow(b, e) >= b
  {
    if e >= 2 {
      PowAtLeastBase(b, e - 1);
      ScaleMonotone(1.0, Pow(b, e - 1), b);
    }
  }

  /** The normalised lag-1 feature r[1] / r[0] is at most 1/2 for every
      non-empty frame: a one-sample frame has no lag-1 product at all, and a
      longer one has r[1] divided by its length at least once. */
  lemma {:induction false} LagOneNormBound(x: seq<real>, m: nat)
    requires |x| >= 1 && m >= 2
    ensures AutocorrVector(x, m)[1] / AutocorrVector(x, m)[0] <= 0.5
  {
    var r := AutocorrVector(x, m);
    if |x| == 1 {
      assert Autocorr(x, 1) == 0.0;
      ZeroFactor(r[1], Pow(|x| as real, m - 1));
    } else {
      LongFrameLagOneBound(x, m);
    }
  }

  lemma LongFrameLagOneBound(x: seq<real>, m: nat)
    requires |x| >= 2 && m >= 2
    ensures AutocorrVector(x, m)[1] <= 0.5 * AutocorrVector(x, m)[0]
  {
    var r := AutocorrVector(x, m);
    var p := Pow(|x| as real, m - 1);
    LagOneBoundedByEnergy(x);
    EnergyNonNegative(x);
    PowAtLeastBase(|x| as real, m - 1);
    assert r[1] * p <= r[0];
    HalfOfBound(r[1], p, r[0]);
  }

  /** A value that, scaled by at least 2, stays below b is at most b / 2. */
  lemma HalfOfBound(v: real, p: real, b: real)
    requires p >= 2.0 && b >= 0.0 && v * p <= b
    ensures v <= 0.5 * b
  {
    if v > 0.0 {
      ScaleMonotone(2.0, p, v);
    }
  }

  /** Hence the lag-1 feature never decides voicing: a frame is voiced exactly
      when its power passes the floor and its best-lag feature passes 0.41. */
  lemma LagOneNeverDecides(x: seq<real>, m: nat, pot: real, rmaxnorm: real)
    requires |x| >= 1 && m >= 2
    ensures var r := AutocorrVector(x, m);
            Unvoiced(pot, r[1] / r[0], rmaxnorm) <==> pot <= -PowerThreshold || rmaxnorm <= RMaxNormThreshold
  {
    LagOneNormBound(x, m);
  }

  // ---------------------------------------------------------------------
  // Windowing
  // ---------------------------------------------------------------------

  /** Hamming coefficient from c = cos(2*pi*i/N), with the source's constants. */
  function HammingCoefficient(c: real): (w: real)
    ensures -1.0 <= c <= 1.0 ==> 0.08 <= w <= 1.0
    ensures w == 0.54 - 0.46 * c
  {
    -2.0 * 0.23 * c + 0.54
  }

  /** std::vector::resize: keep the first n values, pad with zeros. */
  function Resized(s: seq<real>, n: nat): (t: seq<real>)
    ensures |t| == n
    ensures forall i :: 0 <= i < n && i < |s| ==> t[i] == s[i]
  {
    if n <= |s| then s[..n] else s + seq(n - |s|, _ => 0.0)
  }

  /** The frame multiplied sample by sample by the window. */
  function Windowed(x: seq<real>, w: seq<real>): (y: seq<real>)
    requires |x| <= |w|
  {
    seq(|x|, i requires 0 <= i < |x| => x[i] * w[i])
  }

  // ---------------------------------------------------------------------
  // Lag search
  // ---------------------------------------------------------------------

  /** k is the first index of [lo, hi) at which s reaches its maximum over [lo, hi). */
  ghost predicate IsFirstMax(s: seq<real>, lo: nat, hi: nat, k: nat)
  {
    lo <= k < hi <= |s| &&
    (forall j :: lo <= j < hi ==> s[j] <= s[k]) &&
    (forall j :: lo <= j < k ==> s[j] < s[k])
  }

  lemma FirstMaxUnique(s: seq<real>, lo: nat, hi: nat, k1: nat, k2: nat)
    requires IsFirstMax(s, lo, hi, k1) && IsFirstMax(s, lo, hi, k2)
    ensures k1 == k2
  {
    assert s[k1] <= s[k2] && s[k2] <= s[k1];
  }

  /** The lag a left-to-right scan with a strict `>` settles on. */
  function FirstMax(s: seq<real>, lo: nat, hi: nat): (k: nat)
    requires lo < hi <= |s|
    ensures IsFirstMax(s, lo, hi, k)
    decreases hi
  {
    if hi == lo + 1 then lo
    else
      var k := FirstMax(s, lo, hi - 1);
      if s[hi - 1] > s[k] then hi - 1 else k
  }

  /** The scan over the half-open lag range; iRMax starts at lo, so a
      maximum shared by several lags keeps the smallest. */
  method FirstMaxLag(r: array<real>, lo: nat, hi: nat) returns (lag: nat)
    requires lo < hi <= r.Length
    ensures IsFirstMax(r[..], lo, hi, lag)
  {
    lag := lo;
    var i := lo;
    while i < hi
      invariant lo <= i <= hi
      invariant lo <= lag <= i && lag < hi
      invariant forall j :: lo <= j < i ==> r[j] <= r[lag]
      invariant forall j :: lo <= j < lag ==> r[j] < r[lag]
    {
      if r[i] > r[lag] {
        lag := i;
      }
      i := i + 1;
    }
  }

  // ---------------------------------------------------------------------
  // Voicing decision and the per-frame estimate
  // ---------------------------------------------------------------------

  /** The voicing rule: a frame is voiced only when its power is above the
      floor and one of the two correlation features passes its threshold. */
  function Unvoiced(pot: real, r1norm: real, rmaxnorm: real): (u: bool)
    ensures u <==> pot <= -40.0 || (rmaxnorm <= 0.41 && r1norm <= 0.93)
  {
    if (rmaxnorm > RMaxNormThreshold || r1norm > R1NormThreshold) && pot > -PowerThreshold then
      false
    else
      true
  }

  /** Raising any of the three features never turns a voiced frame unvoiced. */
  lemma VoicingMonotone(pot: real, r1: real, rmax: real, pot': real, r1': real, rmax': real)
    requires !Unvoiced(pot, r1, rmax)
    requires pot <= pot' && r1 <= r1' && rmax <= rmax'
    ensures !Unvoiced(pot', r1', rmax')
  {
  }

  /** For a strictly increasing log10 with log10(1/10000) = -4 the power test
      `10 * log10(r0) > -40` is the exact test r0 > 1/10000. */
  lemma PowerFloor(log10: real -> real, r0: real)
    requires forall a, b :: 0.0 < a < b ==> log10(a) < log10(b)
    requires log10(0.0001) == -4.0
    requires r0 > 0.0
    ensures 10.0 * log10(r0) > -PowerThreshold <==> r0 > 0.0001
  {
    if r0 > 0.0001 {
      assert log10(0.0001) < log10(r0);
    } else if r0 < 0.0001 {
      assert log10(r0) < log10(0.0001);
    }
  }

  lemma QuotientAntitone(a: real, b: real, c: real)
    requires a >= 0.0 && 0.0 < b <= c
    ensures a / c <= a / b
  {
    assert a / c * c == a;
    assert a / b * b == a;
  }

  /** What compute_pitch returns for a frame of the right length: window the
      frame, autocorrelate up to lag hi - 1, pick the first maximum in
      [lo, hi), then 0 when unvoiced and rate / lag when voiced. A positive
      estimate therefore lies between rate / (hi - 1) and rate / lo. */
  function FrameEstimate(frame: seq<real>, window: seq<real>, lo: nat, hi: nat, rate: nat,
                         log10: real -> real): (f: real)
    requires 0 < |frame| <= |window|
    requires 2 <= lo < hi
    ensures f >= 0.0
    ensures f > 0.0 ==> rate as real / (hi - 1) as real <= f <= rate as real / lo as real
  {
    var r := AutocorrVector(Windowed(frame, window), hi);
    var lag := FirstMax(r, lo, hi);
    QuotientAntitone(rate as real, lo as real, lag as real);
    QuotientAntitone(rate as real, lag as real, (hi - 1) as real);
    if Unvoiced(10.0 * log10(r[0]), r[1] / r[0], r[lag] / r[0]) then 0.0
    else rate as real / lag as real
  }

  /** compute_pitch on any frame for a configuration with a non-empty lag
      range: -1 when the frame length differs from the window length,
      FrameEstimate otherwise. */
  function PitchOf(frame: seq<real>, window: seq<real>, lo: nat, hi: nat, rate: nat,
                   log10: real -> real): (f: real)
    requires 0 < |window| && 2 <= lo < hi
    ensures f == -1.0 <==> |frame| != |window|
    ensures |frame| == |window| ==>
              f == 0.0 || rate as real / (hi - 1) as real <= f <= rate as real / lo as real
  {
    if |frame| != |window| then -1.0 else FrameEstimate(frame, window, lo, hi, rate, log10)
  }

  /** A silent frame is unvoiced: its energy is clamped to 1e-10, whose power
      is far below the -40 dB floor. */
  lemma SilentFrameIsUnvoiced(frame: seq<real>, window: seq<real>, lo: nat, hi: nat, rate: nat,
                              log10: real -> real)
    requires 0 < |frame| <= |window|
    requires 2 <= lo < hi
    requires forall n :: 0 <= n < |frame| ==> frame[n] == 0.0
    requires forall a, b :: 0.0 < a < b ==> log10(a) < log10(b)
    requires log10(0.0001) == -4.0
    ensures FrameEstimate(frame, window, lo, hi, rate, log10) == 0.0
  {
    var xw := Windowed(frame, window);
    assert forall n :: 0 <= n < |xw| ==> xw[n] == 0.0;
    EnergyNonNegative(xw);
    var r := AutocorrVector(xw, hi);
    assert r[0] == ZeroEnergyFloor;
    PowerFloor(log10, r[0]);
  }

  // ---------------------------------------------------------------------
  // Lag range from the F0 range
  // ---------------------------------------------------------------------

  /** npitch_min: the truncated rate / maxF0, raised to at least 2. */
  function MinLag(rate: nat, maxF0: real): (n: nat)
    requires maxF0 > 0.0
    ensures n >= 2
    ensures n > 2 ==> n as real <= rate as real / maxF0 < n as real + 1.0
    ensures n == 2 ==> rate as real / maxF0 < 3.0
  {
    var q := (rate as real / maxF0).Floor;
    if q < 2 then 2 else q
  }

  /** npitch_max: one more than the truncated rate / minF0, lowered to at most frameLen / 2. */
  function MaxLag(rate: nat, frameLen: nat, minF0: real): (n: nat)
    requires minF0 > 0.0
    ensures n <= frameLen / 2
    ensures n < frameLen / 2 ==> n as real - 1.0 <= rate as real / minF0 < n as real
    ensures n == frameLen / 2 ==> rate as real / minF0 >= n as real - 1.0
  {
    assert rate as real / minF0 >= 0.0;
    var q := 1 + (rate as real / minF0).Floor;
    if q > frameLen / 2 then frameLen / 2 else q
  }

  /** set_f0_range does not check that the range is non-empty. With
      0 < minF0 <= maxF0 it is non-empty exactly when rate / minF0 >= 2 and
      the lower bound stays below frameLen / 2; in particular every frame
      shorter than 6 samples gets an empty range. */
  lemma LagRangeNonEmptyIff(rate: nat, frameLen: nat, minF0: real, maxF0: real)
    requires 0.0 < minF0 <= maxF0
    ensures MinLag(rate, maxF0) < MaxLag(rate, frameLen, minF0) <==>
            rate as real / minF0 >= 2.0 && MinLag(rate, maxF0) < frameLen / 2
    ensures frameLen < 6 ==> MaxLag(rate, frameLen, minF0) <= MinLag(rate, maxF0)
  {
    var a := rate as real / maxF0;
    var b := rate as real / minF0;
    QuotientAntitone(rate as real, minF0, maxF0);
    assert a <= b;
    assert a.Floor <= b.Floor;
    if b >= 2.0 {
      assert b.Floor >= 2;
    } else {
      assert b.Floor < 2;
    }
  }

  /** The configuration main uses: 16 kHz, 480-sample frames, 50-500 Hz. */
  lemma DefaultLagRange()
    ensures MinLag(16000, 500.0) == 32
    ensures MaxLag(16000, 480, 50.0) == 240
  {
    assert 16000 as real / 500.0 == 32.0;
    assert 16000 as real / 50.0 == 320.0;
  }

  // ---------------------------------------------------------------------
  // The analyzer object
  // ---------------------------------------------------------------------

  class PitchAnalyzer {
    /** Frame length in samples and sampling rate in Hz, fixed for the run. */
    const frameLen: nat
    const samplingFreq: nat
    /** Window coefficients, lag search range [npitchMin, npitchMax). */
    var window: seq<real>
    var npitchMin: nat
    var npitchMax: nat

    /** Records the frame length and the rate; the window and the lag range
        are set by SetWindow and SetF0Range. */
    constructor (frameLen: nat, samplingFreq: nat)
      ensures this.frameLen == frameLen && this.samplingFreq == samplingFreq
      ensures window == [] && npitchMin == 0 && npitchMax == 0
    {
      this.frameLen := frameLen;
      this.samplingFreq := samplingFreq;
      window := [];
      npitchMin := 0;
      npitchMax := 0;
    }

    /** What compute_pitch needs of the configuration: a window as long as
        the frame and a non-empty lag range that set_f0_range can produce. */
    predicate Ready()
      reads this
    {
      |window| == frameLen && 2 <= npitchMin < npitchMax <= frameLen / 2
    }

    /** Does nothing for a zero frame length; otherwise resizes the window
        to frameLen and fills it: all ones for RECT, the Hamming formula on
        cos(2*pi*i/frameLen) (given by `cosine(i, frameLen)`) for HAMMING. */
    method SetWindow(winType: WindowType, cosine: (nat, nat) -> real)
      modifies this`window
      ensures frameLen == 0 ==> window == old(window)
      ensures frameLen > 0 ==> |window| == frameLen
      ensures frameLen > 0 && winType == Rect ==>
                forall i :: 0 <= i < frameLen ==> window[i] == 1.0
      ensures frameLen > 0 && winType == Hamming ==>
                forall i :: 0 <= i < frameLen ==> window[i] == HammingCoefficient(cosine(i, frameLen))
    {
      if frameLen == 0 {
        return;
      }
      window := Resized(window, frameLen);
      match winType
      case Hamming =>
        var i := 0;
        while i < frameLen
          invariant 0 <= i <= frameLen && |window| == frameLen
          invariant forall k :: 0 <= k < i ==> window[k] == HammingCoefficient(cosine(k, frameLen))
        {
          window := window[i := HammingCoefficient(cosine(i, frameLen))];
          i := i + 1;
        }
      case Rect =>
        window := seq(frameLen, _ => 1.0);
    }

    /** Sets the lag search range from the F0 range, with integer truncation
        and the two clamps; the range may come out empty (see LagRangeNonEmptyIff). */
    method SetF0Range(minF0: real, maxF0: real)
      requires minF0 > 0.0 && maxF0 > 0.0
      modifies this`npitchMin, this`npitchMax
      ensures npitchMin == MinLag(samplingFreq, maxF0) && npitchMin >= 2
      ensures npitchMax == MaxLag(samplingFreq, frameLen, minF0) && npitchMax <= frameLen / 2
    {
      npitchMin := (samplingFreq as real / maxF0).Floor;
      if npitchMin < 2 {
        npitchMin := 2;
      }
      npitchMax := 1 + (samplingFreq as real / minF0).Floor;
      if npitchMax > frameLen / 2 {
        npitchMax := frameLen / 2;
      }
    }

    /** Fills r in place with the autocorrelation of x for lags 0 .. |r| - 1,
        dividing r[1] by |x| at the end of every pass, then moves a zero r[0]
        to ZeroEnergyFloor. */
    method Autocorrelation(x: seq<real>, r: array<real>)
      requires |x| > 0 && r.Length >= 2
      modifies r
      ensures r[..] == AutocorrVector(x, r.Length)
    {
      var n := |x| as real;
      var l := 0;
      while l < r.Length
        invariant 0 <= l <= r.Length
        invariant forall k :: 0 <= k < l && k != 1 ==> r[k] == Autocorr(x, k)
        invariant l >= 2 ==> r[1] == Autocorr(x, 1) / Pow(n, l - 1)
      {
        label PassStart:
        r[l] := 0.0;
        var i := l;
        while i < |x|
          invariant l <= i
          invariant l <= |x| ==> i <= |x| && r[l] == LagProductSum(x, l, i)
          invariant l > |x| ==> i == l && r[l] == 0.0
          invariant forall k :: 0 <= k < r.Length && k != l ==> r[k] == old@PassStart(r[k])
        {
          r[l] := r[l] + x[i] * x[i - l];
          i := i + 1;
        }
        assert r[l] == Autocorr(x, l);
        NextDivision(Autocorr(x, 1), n, l, r[1]);
        r[1] := r[1] / n;
        l := l + 1;
      }
      if r[0] == 0.0 {
        r[0] := ZeroEnergyFloor;
      }
      EnergyNonNegative(x);
    }

    /** A frame of the wrong length gives -1 and is left alone. Otherwise the
        frame is windowed in place and the estimate is FrameEstimate of the
        original frame; the analyzer itself is not changed. */
    method ComputePitch(x: array<real>, log10: real -> real) returns (f: real)
      requires x.Length == frameLen ==> Ready()
      modifies x
      ensures x.Length != frameLen ==> f == -1.0 && x[..] == old(x[..])
      ensures x.Length == frameLen ==> x[..] == Windowed(old(x[..]), window)
      ensures x.Length == frameLen ==>
                f == FrameEstimate(old(x[..]), window, npitchMin, npitchMax, samplingFreq, log10)
    {
      if x.Length != frameLen {
        return -1.0;
      }
      var i := 0;
      while i < x.Length
        invariant 0 <= i <= x.Length
        invariant forall k :: 0 <= k < i ==> x[k] == old(x[k]) * window[k]
        invariant forall k :: i <= k < x.Length ==> x[k] == old(x[k])
      {
        x[i] := x[i] * window[i];
        i := i + 1;
      }
      assert forall k :: 0 <= k < x.Length ==> x[..][k] == Windowed(old(x[..]), window)[k];
      assert x[..] == Windowed(old(x[..]), window);

      var r := new real[npitchMax](_ => 0.0);
      Autocorrelation(x[..], r);

      var lag := FirstMaxLag(r, npitchMin, npitchMax);
      FirstMaxUnique(r[..], npitchMin, npitchMax, lag, FirstMax(r[..], npitchMin, npitchMax));

      var pot := 10.0 * log10(r[0]);
      if Unvoiced(pot, r[1] / r[0], r[lag] / r[0]) {
        f := 0.0;
      } else {
        f := samplingFreq as real / lag as real;
      }
    }
  }

  /** The analyzer main builds: 480-sample frames at 16 kHz, RECT window,
      F0 between 50 and 500 Hz; it is ready to estimate. */
  method DefaultAnalyzer(cosine: (nat, nat) -> real) returns (a: PitchAnalyzer)
    ensures fresh(a) && a.Ready()
    ensures a.frameLen == 480 && a.samplingFreq == 16000
    ensures a.npitchMin == 32 && a.npitchMax == 240
    ensures forall i :: 0 <= i < 480 ==> a.window[i] == 1.0
  {
    a := new PitchAnalyzer(480, 16000);
    a.SetWindow(Rect, cosine);
    a.SetF0Range(50.0, 500.0);
    DefaultLagRange();
  }
}
