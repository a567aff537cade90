/** Model of the in-memory part of the get_pitch program
    (src/get_pitch/get_pitch.cpp): center clipping of the whole signal,
    frame scheduling at a fixed hop through a PitchAnalyzer, the in-place
    three-point median filter over the estimates, and the contour that is
    written out with a zero at each end. */
module GetPitch {
  import opened PitchAnalysis

  // ---------------------------------------------------------------------
  // Center clipping
  // ---------------------------------------------------------------------

  function Abs(v: real): real
  {
    if v < 0.0 then -v else v
  }

  function Max(a: real, b: real): real
  {
    if a < b then b else a
  }

  /** One sample through the clipping rule with threshold t: s - t when
      s >= t, zero when |s| < t, s + t otherwise. For t >= 0 this is the
      textbook center clipper sign(s) * max(|s| - t, 0). */
  function Clip(s: real, t: real): (c: real)
    ensures t >= 0.0 ==> Abs(c) == Max(Abs(s) - t, 0.0)
    ensures t >= 0.0 ==> Abs(c) <= Abs(s)
    ensures t >= 0.0 ==> (c > 0.0 ==> s > 0.0) && (c < 0.0 ==> s < 0.0)
  {
    if s >= t then s - t
    else if Abs(s) < t then 0.0
    else s + t
  }

  /** Clipping never flips the sign of a sample: out * in >= 0. */
  lemma ClipKeepsSign(s: real, t: real)
    requires t >= 0.0
    ensures SampleProduct(Clip(s, t), s) >= 0.0
  {
    var c := Clip(s, t);
    if c > 0.0 || c < 0.0 {
      ProductPositive(c, s);
    }
  }

  /** The clipper is odd: clipping -s gives minus the clipping of s. */
  lemma ClipIsOdd(s: real, t: real)
    requires t >= 0.0
    ensures Clip(-s, t) == -Clip(s, t)
  {
  }

  /** Samples at +-t become zero, samples at +-2t become +-t. */
  lemma ClipScenario(t: real)
    requires t > 0.0
    ensures Clip(t, t) == 0.0 && Clip(-t, t) == 0.0
    ensures Clip(2.0 * t, t) == t && Clip(-2.0 * t, t) == -t
  {
  }

  /** The signal after the clipping loop. */
  function ClipAll(s: seq<real>, t: real): (c: seq<real>)
    ensures |c| == |s|
  {
    seq(|s|, i requires 0 <= i < |s| => Clip(s[i], t))
  }

  /** A zero threshold leaves the signal as it is. */
  lemma ClipZeroIsIdentity(s: seq<real>)
    ensures ClipAll(s, 0.0) == s
  {
    assert forall i :: 0 <= i < |s| ==> ClipAll(s, 0.0)[i] == s[i];
  }

  /** Every clipped sample keeps its sign and loses t of magnitude, down to zero. */
  lemma ClipAllShrinks(s: seq<real>, t: real)
    requires t >= 0.0
    ensures forall i :: 0 <= i < |s| ==>
              Abs(ClipAll(s, t)[i]) == Max(Abs(s[i]) - t, 0.0) &&
              SampleProduct(ClipAll(s, t)[i], s[i]) >= 0.0
  {
    forall i | 0 <= i < |s|
      ensures SampleProduct(ClipAll(s, t)[i], s[i]) >= 0.0
    {
      ClipKeepsSign(s[i], t);
    }
  }

  /** 0.75 times the mean square of the signal. An empty signal gets 0 here;
      see README for what the program computes in that case. */
  function ClipThreshold(s: seq<real>): (t: real)
    ensures t >= 0.0
    ensures |s| > 0 ==> (t == 0.0 <==> forall n :: 0 <= n < |s| ==> s[n] == 0.0)
  {
    if |s| == 0 then 0.0
    else
      EnergyNonNegative(s);
      var e := Autocorr(s, 0);
      var m := e / |s| as real;
      assert m * |s| as real == e;
      0.75 * m
  }

  /** The preprocessing loops: accumulate the energy, turn it into the
      threshold, then clip every sample in place. */
  method CenterClip(x: array<real>) returns (threshold: real)
    modifies x
    ensures threshold == ClipThreshold(old(x[..]))
    ensures x[..] == ClipAll(old(x[..]), threshold)
  {
    var pow := 0.0;
    var i := 0;
    while i < x.Length
      invariant 0 <= i <= x.Length
      invariant pow == LagProductSum(x[..], 0, i)
    {
      pow := pow + x[i] * x[i];
      i := i + 1;
    }
    if x.Length > 0 {
      pow := pow / x.Length as real;
    }
    threshold := 0.75 * pow;

    i := 0;
    while i < x.Length
      invariant 0 <= i <= x.Length
      invariant forall k :: 0 <= k < i ==> x[k] == Clip(old(x[k]), threshold)
      invariant forall k :: i <= k < x.Length ==> x[k] == old(x[k])
    {
      if x[i] >= threshold {
        x[i] := x[i] - threshold;
      } else if Abs(x[i]) < threshold {
        x[i] := 0.0;
      } else {
        x[i] := x[i] + threshold;
      }
      i := i + 1;
    }
    assert forall k :: 0 <= k < x.Length ==> x[..][k] == ClipAll(old(x[..]), threshold)[k];
  }

  // ---------------------------------------------------------------------
  // Frame scheduling
  // ---------------------------------------------------------------------

  /** The frame loop analyses frame k, the samples [k * shift, k * shift + len),
      while its end lies strictly inside a signal of n samples. */
  predicate Taken(k: nat, n: nat, len: nat, shift: nat)
  {
    k * shift + len < n
  }

  lemma MulMonotone(a: nat, b: nat, c: nat)
    requires a <= b
    ensures a * c <= b * c
  {
  }

  lemma MulStrict(k: int, d: int)
    requires d > 0
    ensures k > 0 ==> k * d >= d
    ensures k < 0 ==> k * d <= -d
  {
    if k > 0 {
      MulMonotone(1, k, d);
    } else if k < 0 {
      MulMonotone(1, -k, d);
      assert k * d == -((-k) * d);
    }
  }

  /** Quotient and remainder are determined by a == q * d + r with 0 <= r < d. */
  lemma DivisionUnique(a: nat, d: nat, q: nat, r: nat)
    requires d > 0 && a == q * d + r && r < d
    ensures a / d == q && a % d == r
  {
    var q' := a / d;
    var r' := a % d;
    assert (q - q') * d == r' - r;
    MulStrict(q - q', d);
  }

  /** The number of frames the loop analyses: a frame k is taken exactly
      when k is below this count. */
  function FrameCount(n: nat, len: nat, shift: nat): (count: nat)
    requires shift > 0
    ensures forall k: nat :: Taken(k, n, len, shift) <==> k < count
  {
    if len < n then
      var q := (n - len - 1) / shift;
      var r := (n - len - 1) % shift;
      assert n - len - 1 == q * shift + r;
      assert forall k: nat :: k <= q ==> Taken(k, n, len, shift) by {
        forall k: nat | k <= q
          ensures Taken(k, n, len, shift)
        {
          MulMonotone(k, q, shift);
        }
      }
      assert forall k: nat :: k > q ==> !Taken(k, n, len, shift) by {
        forall k: nat | k > q
          ensures !Taken(k, n, len, shift)
        {
          MulMonotone(q + 1, k, shift);
        }
      }
      q + 1
    else
      0
  }

  /** The usual frame count floor((n - len) / shift) + 1 counts one frame
      more than the loop whenever the last frame would end exactly at the end
      of the signal, because the loop condition is a strict `<`. */
  lemma {:induction false} FrameCountVersusUsualFormula(n: nat, len: nat, shift: nat)
    requires shift > 0 && len <= n
    ensures (n - len) % shift != 0 ==> FrameCount(n, len, shift) == (n - len) / shift + 1
    ensures (n - len) % shift == 0 ==> FrameCount(n, len, shift) == (n - len) / shift
  {
    var d := n - len;
    var q := d / shift;
    var r := d % shift;
    if d > 0 {
      if r > 0 {
        DivisionUnique(d - 1, shift, q, r - 1);
      } else {
        DivisionUnique(d - 1, shift, q - 1, shift - 1);
      }
    }
  }

  /** One second at 16 kHz with 480-sample frames and a 240-sample hop:
      65 frames, as the usual formula also gives. */
  lemma DefaultFrameCount()
    ensures FrameCount(16000, 480, 240) == 65
    ensures FrameCount(16000, 480, 240) == (16000 - 480) / 240 + 1
  {
    FrameCountVersusUsualFormula(16000, 480, 240);
  }

  /** The raw contour: the estimate of every frame the loop takes, in order. */
  function FrameEstimates(s: seq<real>, len: nat, shift: nat, estimate: seq<real> -> real): (f0: seq<real>)
    requires shift > 0
    ensures |f0| == FrameCount(|s|, len, shift)
  {
    var count := FrameCount(|s|, len, shift);
    seq(count, k requires 0 <= k < count =>
      assert Taken(k, |s|, len, shift);
      estimate(s[k * shift .. k * shift + len]))
  }

  /** The frame loop: the analyzer is applied to each frame in turn and its
      result appended to f0; the signal itself is only read. */
  method ScheduleFrames(x: array<real>, len: nat, shift: nat, estimate: seq<real> -> real)
    returns (f0: seq<real>)
    requires shift > 0
    ensures f0 == FrameEstimates(x[..], len, shift, estimate)
  {
    f0 := [];
    var start := 0;
    while start + len < x.Length
      invariant start == |f0| * shift
      invariant |f0| <= FrameCount(x.Length, len, shift)
      invariant forall k :: 0 <= k < |f0| ==> f0[k] == FrameEstimates(x[..], len, shift, estimate)[k]
      decreases x.Length - start
    {
      assert Taken(|f0|, x.Length, len, shift);
      var f := estimate(x[start .. start + len]);
      f0 := f0 + [f];
      start := start + shift;
    }
    assert !Taken(|f0|, x.Length, len, shift);
  }

  // ---------------------------------------------------------------------
  // Median filter
  // ---------------------------------------------------------------------

  /** std::sort applied to the three-element window. */
  function Sort3(a: real, b: real, c: real): (t: seq<real>)
    ensures |t| == 3 && t[0] <= t[1] <= t[2]
    ensures multiset{t[0], t[1], t[2]} == multiset{a, b, c}
  {
    if a <= b then
      if b <= c then [a, b, c] else if a <= c then [a, c, b] else [c, a, b]
    else
      if a <= c then [b, a, c] else if b <= c then [b, c, a] else [c, b, a]
  }

  predicate Between(m: real, p: real, q: real)
  {
    (p <= m <= q) || (q <= m <= p)
  }

  /** m is a median of a, b, c: one of them, with the other two on either side. */
  predicate IsMedian(a: real, b: real, c: real, m: real)
  {
    (m == a && Between(m, b, c)) || (m == b && Between(m, a, c)) || (m == c && Between(m, a, b))
  }

  /** The median of a three-sample window, decided by comparisons. */
  function Median3(a: real, b: real, c: real): (m: real)
    ensures IsMedian(a, b, c, m)
  {
    if a <= b then (if b <= c then b else if a <= c then c else a)
    else (if a <= c then a else if b <= c then c else b)
  }

  /** Sorting the window and taking its middle value gives the median. */
  lemma SortedWindowMiddle(a: real, b: real, c: real)
    ensures Sort3(a, b, c)[1] == Median3(a, b, c)
  {
  }

  /** Three values have one median. */
  lemma MedianUnique(a: real, b: real, c: real, m1: real, m2: real)
    requires IsMedian(a, b, c, m1) && IsMedian(a, b, c, m2)
    ensures m1 == m2
  {
  }

  /** Entry i after the filter loop. The loop starts at index 2 and reads
      the entry before it after that entry has been filtered; the last
      entry has no right neighbour and is left as it is. */
  function Filtered(s: seq<real>, i: nat): (v: real)
    requires i < |s|
    ensures v in s
    decreases i
  {
    if i < 2 || i + 1 >= |s| then s[i]
    else Median3(Filtered(s, i - 1), s[i], s[i + 1])
  }

  /** The whole filtered contour. */
  function MedianSmooth(s: seq<real>): (r: seq<real>)
    ensures |r| == |s|
    ensures forall i :: 0 <= i < |s| && (i < 2 || i == |s| - 1) ==> r[i] == s[i]
    ensures forall i :: 0 <= i < |s| ==> r[i] in s
  {
    seq(|s|, i requires 0 <= i < |s| => Filtered(s, i))
  }

  /** Each filtered entry is the median of the filtered entry before it and
      the original entry and its right neighbour. */
  lemma MedianSmoothStep(s: seq<real>, i: nat)
    requires 2 <= i && i + 1 < |s|
    ensures IsMedian(MedianSmooth(s)[i - 1], s[i], s[i + 1], MedianSmooth(s)[i])
  {
  }

  /** A non-decreasing contour passes through the filter unchanged. */
  lemma {:induction false} SortedContourUnchanged(s: seq<real>)
    requires forall i, j :: 0 <= i < j < |s| ==> s[i] <= s[j]
    ensures MedianSmooth(s) == s
  {
    forall i | 0 <= i < |s|
      ensures Filtered(s, i) == s[i]
    {
      SortedFilteredAt(s, i);
    }
  }

  lemma {:induction false} SortedFilteredAt(s: seq<real>, i: nat)
    requires forall i, j :: 0 <= i < j < |s| ==> s[i] <= s[j]
    requires i < |s|
    ensures Filtered(s, i) == s[i]
  {
    if 2 <= i && i + 1 < |s| {
      SortedFilteredAt(s, i - 1);
      assert s[i - 1] <= s[i] <= s[i + 1];
    }
  }

  /** An isolated error at an index j with 2 <= j <= |s| - 2 in an otherwise
      constant contour is removed: the whole contour comes out constant. */
  lemma {:induction false} IsolatedErrorRemoved(s: seq<real>, j: nat, v: real)
    requires 2 <= j && j + 1 < |s|
    requires forall i :: 0 <= i < |s| && i != j ==> s[i] == v
    ensures forall i :: 0 <= i < |s| ==> MedianSmooth(s)[i] == v
  {
    forall i | 0 <= i < |s|
      ensures Filtered(s, i) == v
    {
      ConstantFilteredAt(s, j, v, i);
    }
  }

  lemma {:induction false} ConstantFilteredAt(s: seq<real>, j: nat, v: real, i: nat)
    requires 2 <= j && j + 1 < |s|
    requires forall i :: 0 <= i < |s| && i != j ==> s[i] == v
    requires i < |s|
    ensures Filtered(s, i) == v
  {
    if 2 <= i && i + 1 < |s| {
      ConstantFilteredAt(s, j, v, i - 1);
    }
  }

  /** The median of three values lies between the first and the last. */
  lemma MedianBetweenOuter(a: real, b: real, c: real, m: real)
    requires IsMedian(a, b, c, m)
    ensures Between(m, a, c)
  {
  }

  /** Each filtered entry from index 2 to |s| - 2 lies between its filtered
      neighbours, so a second pass finds it already the median. */
  lemma FilteredBetweenNeighbours(s: seq<real>, i: nat)
    requires 2 <= i && i + 1 < |s|
    ensures Between(Filtered(s, i), Filtered(s, i - 1), Filtered(s, i + 1))
  {
    var a, m, c := Filtered(s, i - 1), Filtered(s, i), s[i + 1];
    assert IsMedian(a, s[i], c, m);
    MedianBetweenOuter(a, s[i], c, m);
    if i + 2 < |s| {
      assert IsMedian(m, c, s[i + 2], Filtered(s, i + 1));
    }
  }

  /** Filtering a filtered contour changes nothing. */
  lemma {:induction false} MedianSmoothIdempotent(s: seq<real>)
    ensures MedianSmooth(MedianSmooth(s)) == MedianSmooth(s)
  {
    var r := MedianSmooth(s);
    forall i | 0 <= i < |r|
      ensures Filtered(r, i) == r[i]
    {
      RefilteredAt(s, i);
    }
  }

  lemma {:induction false} RefilteredAt(s: seq<real>, i: nat)
    requires i < |s|
    ensures Filtered(MedianSmooth(s), i) == MedianSmooth(s)[i]
  {
    var r := MedianSmooth(s);
    if 2 <= i && i + 1 < |r| {
      RefilteredAt(s, i - 1);
      FilteredBetweenNeighbours(s, i);
      assert IsMedian(r[i - 1], r[i], r[i + 1], r[i]);
      MedianUnique(r[i - 1], r[i], r[i + 1], r[i], Filtered(r, i));
    }
  }

  /** One pass of the filter loop: the middle of the sorted window at i,
      read after entry i - 1 has been filtered, is the filtered entry i. */
  lemma FilterPass(s: seq<real>, i: nat, prev: real)
    requires 2 <= i && i + 1 < |s|
    requires prev == Filtered(s, i - 1)
    ensures Sort3(prev, s[i], s[i + 1])[1] == Filtered(s, i)
  {
    SortedWindowMiddle(prev, s[i], s[i + 1]);
  }

  /** The filter loop, bounded so that the right neighbour f0[i + 1] exists. */
  method MedianFilter(f0: array<real>)
    modifies f0
    ensures f0[..] == MedianSmooth(old(f0[..]))
  {
    ghost var s := f0[..];
    var i := 2;
    while i + 1 < f0.Length
      invariant 2 <= i && (f0.Length >= 3 ==> i <= f0.Length - 1)
      invariant forall k :: 0 <= k < f0.Length && k < i ==> f0[k] == Filtered(s, k)
      invariant forall k :: i <= k < f0.Length ==> f0[k] == s[k]
    {
      var prev, here, next := f0[i - 1], f0[i], f0[i + 1];
      FilterPass(s, i, prev);
      var window := Sort3(prev, here, next);
      f0[i] := window[1];
      i := i + 1;
    }
    SmoothedEntries(s, f0[..]);
  }

  /** A contour whose every entry is the filtered entry is the smoothed contour. */
  lemma SmoothedEntries(s: seq<real>, t: seq<real>)
    requires |t| == |s|
    requires forall k :: 0 <= k < |s| ==> t[k] == Filtered(s, k)
    ensures t == MedianSmooth(s)
  {
  }

  /** The loop as the program has it, `i < f0.size()`: on its last pass it
      reads f0[size], one past the end, whose value the program does not
      determine and is the parameter pastEnd here. */
  function MedianSmoothAsWritten(s: seq<real>, pastEnd: real): (r: seq<real>)
    ensures |r| == |s|
  {
    MedianSmooth(s + [pastEnd])[..|s|]
  }

  /** The out-of-range read can only change the last entry. */
  lemma AsWrittenDiffersOnlyAtEnd(s: seq<real>, pastEnd: real)
    ensures forall i :: 0 <= i < |s| - 1 ==> MedianSmoothAsWritten(s, pastEnd)[i] == MedianSmooth(s)[i]
  {
    forall i | 0 <= i < |s| - 1
      ensures Filtered(s + [pastEnd], i) == Filtered(s, i)
    {
      ExtendedFilteredAt(s, pastEnd, i);
    }
  }

  lemma {:induction false} ExtendedFilteredAt(s: seq<real>, pastEnd: real, i: nat)
    requires i + 1 < |s|
    ensures Filtered(s + [pastEnd], i) == Filtered(s, i)
  {
    if 2 <= i {
      ExtendedFilteredAt(s, pastEnd, i - 1);
    }
  }

  /** A contour that ends in a voiced estimate, 200 Hz, after three unvoiced
      frames: with a zero read past the end the program overwrites the last
      estimate with 0, where the bounded loop keeps it. */
  lemma PastEndReadLosesLastEstimate()
    ensures MedianSmoothAsWritten([0.0, 0.0, 0.0, 200.0], 0.0)[3] == 0.0
    ensures MedianSmooth([0.0, 0.0, 0.0, 200.0])[3] == 200.0
  {
    var s := [0.0, 0.0, 0.0, 200.0, 0.0];
    assert Filtered(s, 2) == 0.0;
    assert Filtered(s, 3) == Median3(0.0, 200.0, 0.0);
  }

  // ---------------------------------------------------------------------
  // Output and the whole pipeline
  // ---------------------------------------------------------------------

  /** The lines written to the output file: 0, then every estimate, then 0. */
  method WriteContour(f0: array<real>) returns (lines: seq<real>)
    ensures |lines| == f0.Length + 2
    ensures lines[0] == 0.0 && lines[|lines| - 1] == 0.0
    ensures lines[1 .. |lines| - 1] == f0[..]
    ensures lines == [0.0] + f0[..] + [0.0]
  {
    lines := [0.0];
    var i := 0;
    while i < f0.Length
      invariant 0 <= i <= f0.Length
      invariant lines == [0.0] + f0[..i]
    {
      lines := lines + [f0[i]];
      i := i + 1;
    }
    lines := lines + [0.0];
  }

  /** What main computes before writing, with the bounded median filter
      (see MedianSmoothAsWritten for the loop as written): clip the signal in
      place, estimate every frame, filter the estimates and pad them with zeros. */
  method EstimateContour(x: array<real>, len: nat, shift: nat, estimate: seq<real> -> real)
    returns (contour: seq<real>)
    requires shift > 0
    modifies x
    ensures x[..] == ClipAll(old(x[..]), ClipThreshold(old(x[..])))
    ensures contour == [0.0] + MedianSmooth(FrameEstimates(x[..], len, shift, estimate)) + [0.0]
  {
    var threshold := CenterClip(x);
    var f0 := ScheduleFrames(x, len, shift, estimate);
    var filtered := new real[|f0|](i requires 0 <= i < |f0| => f0[i]);
    assert filtered[..] == f0;
    MedianFilter(filtered);
    contour := WriteContour(filtered);
  }

  /** The output has two lines more than there are frames, and every line
      holds 0 or a value some frame's estimate produced. */
  lemma ContourShape(s: seq<real>, len: nat, shift: nat, estimate: seq<real> -> real)
    requires shift > 0
    ensures var c := [0.0] + MedianSmooth(FrameEstimates(s, len, shift, estimate)) + [0.0];
      |c| == FrameCount(|s|, len, shift) + 2 &&
      forall i :: 0 <= i < |c| ==> c[i] == 0.0 || c[i] in FrameEstimates(s, len, shift, estimate)
  {
  }

  /** With the analyzer's estimate on frames of the window's length, every
      frame estimate is 0 (an unvoiced frame) or a pitch between
      rate / (hi - 1) and rate / lo: -1 never occurs, since every frame
      taken has the window's length. */
  lemma EstimatesInPitchRange(s: seq<real>, shift: nat, window: seq<real>,
                              lo: nat, hi: nat, rate: nat, log10: real -> real)
    requires shift > 0 && 0 < |window| && 2 <= lo < hi
    ensures var f0 := FrameEstimates(s, |window|, shift,
                                     frame => PitchOf(frame, window, lo, hi, rate, log10));
      forall k :: 0 <= k < |f0| ==>
        f0[k] == 0.0 || rate as real / (hi - 1) as real <= f0[k] <= rate as real / lo as real
  {
    var estimate := frame => PitchOf(frame, window, lo, hi, rate, log10);
    var f0 := FrameEstimates(s, |window|, shift, estimate);
    forall k | 0 <= k < |f0|
      ensures f0[k] == 0.0 || rate as real / (hi - 1) as real <= f0[k] <= rate as real / lo as real
    {
      assert Taken(k, |s|, |window|, shift);
      var frame := s[k * shift .. k * shift + |window|];
      assert f0[k] == PitchOf(frame, window, lo, hi, rate, log10);
    }
  }

  /** Hence every line of the output is 0 (the padding or an unvoiced frame)
      or a pitch in that range: the median filter never brings back the -1
      of a wrong-length frame or any value outside the range. */
  lemma {:induction false} ContourInPitchRange(s: seq<real>, shift: nat, window: seq<real>,
                                               lo: nat, hi: nat, rate: nat, log10: real -> real)
    requires shift > 0 && 0 < |window| && 2 <= lo < hi
    ensures var f0 := FrameEstimates(s, |window|, shift,
                                     frame => PitchOf(frame, window, lo, hi, rate, log10));
      var c := [0.0] + MedianSmooth(f0) + [0.0];
      forall i :: 0 <= i < |c| ==>
        c[i] == 0.0 || rate as real / (hi - 1) as real <= c[i] <= rate as real / lo as real
  {
    var f0 := FrameEstimates(s, |window|, shift,
                             frame => PitchOf(frame, window, lo, hi, rate, log10));
    EstimatesInPitchRange(s, shift, window, lo, hi, rate, log10);
    var c := [0.0] + MedianSmooth(f0) + [0.0];
    forall i | 0 <= i < |c|
      ensures c[i] == 0.0 || rate as real / (hi - 1) as real <= c[i] <= rate as real / lo as real
    {
      if 0 < i < |c| - 1 {
        assert c[i] == MedianSmooth(f0)[i - 1];
      }
    }
  }
}
