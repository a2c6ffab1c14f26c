/**
 * `calculateVitals`: heart rate and SpO2 from a window of paired IR and red
 * LED readings. The IR channel is mean-removed and inverted, smoothed by a
 * 4-tap moving average, and searched for peaks above a clamped adaptive
 * threshold; the heart rate comes from the mean peak gap, SpO2 from the median
 * ratio-of-ratios over consecutive peak spans looked up in the calibration table.
 */
module Vitals {
  import opened Wrappers
  import opened RealMath
  import Spo2Table
  import Peaks

  const BufferSize: nat := 100
  const Ma4Size: nat := 4
  /** Sampling frequency in Hz. */
  const FreqS: nat := 25
  const ThresholdLow: real := 30.0
  const ThresholdHigh: real := 60.0
  const MinPeakDistance: int := 4
  const MaxPeaks: nat := 15
  /** A span between two peaks yields a ratio only when it is wider than this. */
  const MinSpanGap: int := 3
  const MinRatio: real := 2.0
  const MaxRatio: real := 184.0
  const DefaultHeartRate: int := 86
  const DefaultSpO2: int := 99

  /** The error thrown on mismatched or too short buffers. */
  datatype VitalsError = BufferSizeMismatchOrInsufficientData

  /** The estimate. `spO2` is `None` where the source's value is `undefined`:
      a table read one past its last entry. */
  datatype VitalsResult = VitalsResult(heartRate: int, heartRateValid: bool, spO2: Option<int>, spO2Valid: bool)

  // ---------------------------------------------------------------------------
  // Signal conditioning

  /** DC removal and inversion: `x => -(x - mean)`. */
  function ProcessedIr(ir: seq<real>): seq<real>
    requires |ir| > 0
  {
    seq(|ir|, i requires 0 <= i < |ir| => -(ir[i] - Mean(ir)))
  }

  /** The processed signal keeps the window's length and has zero sum: the DC
      level is removed. */
  lemma {:induction false} ProcessedIrHasZeroSum(ir: seq<real>)
    requires |ir| > 0
    ensures |ProcessedIr(ir)| == |ir|
    ensures Sum(ProcessedIr(ir)) == 0.0
  {
    var m := Mean(ir);
    SumOfDifferences(ir, m);
    assert ProcessedIr(ir) == seq(|ir|, i requires 0 <= i < |ir| => m - ir[i]);
    var n := |ir| as real;
    assert m * n == Sum(ir);
  }

  /** The 4-tap moving average, one entry for each `i < |p| - 4`. */
  function Smoothed(p: seq<real>): seq<real>
    requires |p| >= Ma4Size
  {
    seq(|p| - Ma4Size, i requires 0 <= i < |p| - Ma4Size => (p[i] + p[i + 1] + p[i + 2] + p[i + 3]) / 4.0)
  }

  /** The smoothed signal is four samples shorter than its input (one short of
      the `n - 3` windows a 4-tap average admits), and entry `i` is the mean of
      the four inputs starting at `i`. */
  lemma SmoothedIsWindowMean(p: seq<real>, i: nat)
    requires |p| >= Ma4Size && i < |p| - Ma4Size
    ensures |Smoothed(p)| == |p| - 4
    ensures Smoothed(p)[i] == Mean(p[i..i + 4])
  {
    var w := p[i..i + 4];
    assert w[..3][..2][..1][..0] == [];
    assert Sum(w) == Sum(w[..3]) + w[3];
    assert Sum(w[..3]) == Sum(w[..3][..2]) + w[2];
    assert Sum(w[..3][..2]) == Sum(w[..3][..2][..1]) + w[1];
    assert Sum(w[..3][..2][..1]) == w[0];
  }

  /** The adaptive threshold: the mean of the smoothed signal clamped into
      [30, 60] (`Math.min(Math.max(t, 30), 60)`). */
  function Threshold(s: seq<real>): (t: real)
    requires |s| > 0
    ensures ThresholdLow <= t <= ThresholdHigh
    ensures ThresholdLow <= Mean(s) <= ThresholdHigh ==> t == Mean(s)
    ensures Mean(s) < ThresholdLow ==> t == ThresholdLow
    ensures Mean(s) > ThresholdHigh ==> t == ThresholdHigh
  {
    var atLeast := if Mean(s) > ThresholdLow then Mean(s) else ThresholdLow;
    if atLeast < ThresholdHigh then atLeast else ThresholdHigh
  }

  /** The peaks the estimator finds in an IR window: indices into the smoothed
      signal, increasing, at most 15, at least 4 apart, each at least 1 and
      below `|ir| - 5`, so that every span between two of them lies inside the
      raw window. */
  function WindowPeaks(ir: seq<real>): (peaks: seq<int>)
    requires |ir| > Ma4Size
    ensures Peaks.Increasing(peaks) && |peaks| <= MaxPeaks
    ensures forall k :: 0 <= k < |peaks| ==> 1 <= peaks[k] < |ir| - Ma4Size - 1
    ensures forall a, b :: 0 <= a < b < |peaks| ==> peaks[b] - peaks[a] >= MinPeakDistance
  {
    var smoothed := Smoothed(ProcessedIr(ir));
    Peaks.DetectedPeaks(smoothed, Threshold(smoothed), MinPeakDistance, MaxPeaks)
  }

  // ---------------------------------------------------------------------------
  // Heart rate

  /** Gaps between consecutive peak indices. */
  function Gaps(peaks: seq<int>): seq<real>
    requires |peaks| >= 1
  {
    seq(|peaks| - 1, i requires 0 <= i < |peaks| - 1 => (peaks[i + 1] - peaks[i]) as real)
  }

  /** The gaps up to peak `n - 1` sum to the distance from the first peak to it. */
  lemma {:induction false} GapsTelescope(peaks: seq<int>, n: nat)
    requires 1 <= n <= |peaks|
    ensures Sum(Gaps(peaks)[..n - 1]) == (peaks[n - 1] - peaks[0]) as real
  {
    if n > 1 {
      GapsTelescope(peaks, n - 1);
      SumPrefix(Gaps(peaks), n - 2);
    }
  }

  /** The mean peak gap is the first-to-last span over the number of gaps, and
      is positive for increasing peaks. */
  lemma MeanGap(peaks: seq<int>)
    requires |peaks| >= 2 && Peaks.Increasing(peaks)
    ensures Mean(Gaps(peaks)) == (peaks[|peaks| - 1] - peaks[0]) as real / (|peaks| - 1) as real
    ensures Mean(Gaps(peaks)) > 0.0
  {
    GapsTelescope(peaks, |peaks|);
    assert Gaps(peaks)[..|peaks| - 1] == Gaps(peaks);
  }

  /** Heart rate from the peaks: with at least two peaks, `round(25 * 60 /
      meanGap)`, which is `round(1500 * (k - 1) / (last - first))` for `k`
      peaks; otherwise 86, marked invalid. */
  function HeartRate(peaks: seq<int>): (hr: (int, bool))
    requires Peaks.Increasing(peaks)
    ensures hr.1 <==> |peaks| >= 2
    ensures |peaks| >= 2 ==>
      peaks[|peaks| - 1] > peaks[0] &&
      hr.0 == Round(1500.0 * (|peaks| - 1) as real / (peaks[|peaks| - 1] - peaks[0]) as real)
    ensures |peaks| < 2 ==> hr.0 == DefaultHeartRate
  {
    if |peaks| >= 2 then
      MeanGap(peaks);
      var averageInterval := Mean(Gaps(peaks));
      var k, span := (|peaks| - 1) as real, (peaks[|peaks| - 1] - peaks[0]) as real;
      assert (FreqS * 60) as real / averageInterval == 1500.0 * k / span by {
        assert averageInterval * k == span;
      }
      (Round((FreqS * 60) as real / averageInterval), true)
    else
      (DefaultHeartRate, false)
  }

  /** Peaks at least 4 apart span at least 4 per gap. */
  lemma {:induction false} SpanAtLeast(peaks: seq<int>, n: nat)
    requires 1 <= n <= |peaks|
    requires forall a, b :: 0 <= a < b < |peaks| ==> peaks[b] - peaks[a] >= MinPeakDistance
    ensures peaks[n - 1] - peaks[0] >= MinPeakDistance * (n - 1)
  {
    if n > 1 {
      SpanAtLeast(peaks, n - 1);
      assert peaks[n - 1] - peaks[n - 2] >= MinPeakDistance;
    }
  }

  /** With consecutive peaks at least 4 apart the heart rate is at most 375;
      when every peak lies in `[1, top]` it is at least `round(1500 / (top - 1))`. */
  lemma {:induction false} HeartRateBounds(peaks: seq<int>, top: int)
    requires |peaks| >= 2 && Peaks.Increasing(peaks)
    requires forall a, b :: 0 <= a < b < |peaks| ==> peaks[b] - peaks[a] >= MinPeakDistance
    requires forall k :: 0 <= k < |peaks| ==> 1 <= peaks[k] <= top
    ensures HeartRate(peaks).0 <= 375
    ensures HeartRate(peaks).0 >= Round(1500.0 / (top - 1) as real)
  {
    var n := |peaks|;
    SpanAtLeast(peaks, n);
    assert 1 <= peaks[0] && peaks[n - 1] <= top;
    var k, span := (n - 1) as real, (peaks[n - 1] - peaks[0]) as real;
    assert 4.0 * k <= span && 1.0 <= k && span <= (top - 1) as real;
    var x := 1500.0 * k / span;
    assert HeartRate(peaks).0 == Round(x);
    DivAtMost(1500.0 * k, span, 375.0);
    RoundMonotone(x, 375.0);
    var y := 1500.0 / (top - 1) as real;
    DivAntitone(1500.0, span, (top - 1) as real);
    DivMonotone(1500.0, 1500.0 * k, span);
    RoundMonotone(y, x);
  }

  // ---------------------------------------------------------------------------
  // SpO2

  /** Peak indices usable as slice bounds into a window of length `len`. */
  predicate PeaksInWindow(peaks: seq<int>, len: int)
  {
    Peaks.Increasing(peaks) && forall k :: 0 <= k < |peaks| ==> 0 <= peaks[k] < len
  }

  /** `(redAC * irDC) / (irAC * redDC) * 100` for a non-zero divisor. */
  function RatioOfRatios(irAC: real, redAC: real, irDC: real, redDC: real): real
    requires irAC * redDC != 0.0
  {
    (redAC * irDC) / (irAC * redDC) * 100.0
  }

  /** Ratio-of-ratios over one span, with AC the spread (max - min) and DC the
      maximum of each channel. `None` where the divisor is zero: the source
      then gets Infinity or NaN, which its range test rejects. */
  function SpanRatio(irSpan: seq<real>, redSpan: seq<real>): Option<real>
    requires |irSpan| > 0 && |redSpan| > 0
  {
    var irAC := Max(irSpan) - Min(irSpan);
    var redAC := Max(redSpan) - Min(redSpan);
    var irDC := Max(irSpan);
    var redDC := Max(redSpan);
    if irAC * redDC == 0.0 then None
    else Some(RatioOfRatios(irAC, redAC, irDC, redDC))
  }

  /** The ratio a pair of consecutive peaks contributes: only a span wider than
      3 samples is measured, and only a ratio strictly between 2 and 184 is kept. */
  function PairRatio(ir: seq<real>, red: seq<real>, left: int, right: int): (r: Option<real>)
    requires 0 <= left < right <= |ir| && |red| == |ir|
    ensures r.Some? ==> right - left > MinSpanGap && MinRatio < r.value < MaxRatio
    ensures r.Some? ==> r == SpanRatio(ir[left..right], red[left..right])
    ensures (right - left > MinSpanGap && SpanRatio(ir[left..right], red[left..right]).Some? &&
             MinRatio < SpanRatio(ir[left..right], red[left..right]).value < MaxRatio) ==> r.Some?
  {
    if right - left > MinSpanGap then
      var ratio := SpanRatio(ir[left..right], red[left..right]);
      if ratio.Some? && MinRatio < ratio.value < MaxRatio then ratio else None
    else None
  }

  /** The ratios kept from the first `n` consecutive peak pairs, in pair order. */
  function CollectRatios(ir: seq<real>, red: seq<real>, peaks: seq<int>, n: nat): (ratios: seq<real>)
    requires PeaksInWindow(peaks, |ir|) && |red| == |ir|
    requires n == 0 || n < |peaks|
    ensures |ratios| <= n
    ensures forall k :: 0 <= k < |ratios| ==> MinRatio < ratios[k] < MaxRatio
  {
    if n == 0 then []
    else
      var kept := PairRatio(ir, red, peaks[n - 1], peaks[n]);
      CollectRatios(ir, red, peaks, n - 1) + if kept.Some? then [kept.value] else []
  }

  /** One more peak pair appends its kept ratio, if any. */
  lemma CollectRatiosStep(ir: seq<real>, red: seq<real>, peaks: seq<int>, n: nat)
    requires PeaksInWindow(peaks, |ir|) && |red| == |ir| && n + 1 < |peaks|
    ensures var kept := PairRatio(ir, red, peaks[n], peaks[n + 1]);
      CollectRatios(ir, red, peaks, n + 1) == CollectRatios(ir, red, peaks, n) + if kept.Some? then [kept.value] else []
  {
  }

  /** `sorted[floor(k / 2)]`: the middle of the sorted ratios, the upper of the
      two middle ones when their number is even. It is one of the ratios. */
  function MedianRatio(ratios: seq<real>): (m: real)
    requires |ratios| > 0
    ensures m in ratios
  {
    var sorted := Sort(ratios);
    assert sorted[|ratios| / 2] in multiset(ratios) by {
      assert sorted[|ratios| / 2] in multiset(sorted);
    }
    sorted[|ratios| / 2]
  }

  /** `SPO2_TABLE[index]`: the entry, or `None` (undefined) outside the table. */
  function Lookup(index: int): (v: Option<int>)
    ensures v.Some? <==> 0 <= index < Spo2Table.TableSize
    ensures v.Some? ==> v.value == Spo2Table.Entry(index)
  {
    if 0 <= index < |Spo2Table.Table()| then Some(Spo2Table.Table()[index]) else None
  }

  /** SpO2 from the kept ratios: the table entry at the rounded median, valid;
      or 99, invalid, when no ratio was kept. */
  function Spo2FromRatios(ratios: seq<real>): (s: (Option<int>, bool))
  {
    if |ratios| > 0 then (Lookup(Round(MedianRatio(ratios))), true)
    else (Some(DefaultSpO2), false)
  }

  /** The ratios the SpO2 step keeps for a window and its peaks: none unless
      there are at least two peaks. */
  function Ratios(ir: seq<real>, red: seq<real>, peaks: seq<int>): (ratios: seq<real>)
    requires PeaksInWindow(peaks, |ir|) && |red| == |ir|
    ensures |peaks| < 2 ==> ratios == []
    ensures forall k :: 0 <= k < |ratios| ==> MinRatio < ratios[k] < MaxRatio
  {
    if |peaks| >= 2 then CollectRatios(ir, red, peaks, |peaks| - 1) else []
  }

  /** SpO2 for a window and its peaks. */
  function Spo2(ir: seq<real>, red: seq<real>, peaks: seq<int>): (s: (Option<int>, bool))
    requires PeaksInWindow(peaks, |ir|) && |red| == |ir|
  {
    Spo2FromRatios(Ratios(ir, red, peaks))
  }

  /** What the SpO2 step yields: valid exactly when some ratio was kept; then
      the lookup index is the rounded median, which lies in [2, 184], and the
      value is undefined exactly when that index is 184; otherwise 99. */
  lemma Spo2Outcome(ratios: seq<real>)
    requires forall k :: 0 <= k < |ratios| ==> MinRatio < ratios[k] < MaxRatio
    ensures Spo2FromRatios(ratios).1 <==> |ratios| > 0
    ensures |ratios| > 0 ==>
      var index := Round(MedianRatio(ratios));
      && 2 <= index <= 184
      && (Spo2FromRatios(ratios).0.None? <==> index == 184)
      && (index < 184 ==> Spo2FromRatios(ratios).0 == Some(Spo2Table.Entry(index)))
    ensures |ratios| == 0 ==> Spo2FromRatios(ratios).0 == Some(DefaultSpO2)
  {
    if |ratios| > 0 {
      var m := MedianRatio(ratios);
      var j :| 0 <= j < |ratios| && ratios[j] == m;
    }
  }

  /** A defined SpO2 value lies in [-1, 100] and is never 0. */
  lemma {:induction false} Spo2Range(ratios: seq<real>)
    requires forall k :: 0 <= k < |ratios| ==> MinRatio < ratios[k] < MaxRatio
    requires Spo2FromRatios(ratios).0.Some?
    ensures -1 <= Spo2FromRatios(ratios).0.value <= 100
    ensures Spo2FromRatios(ratios).0.value != 0
  {
    if |ratios| > 0 {
      Spo2Table.TableRange(Round(MedianRatio(ratios)));
    }
  }

  /** The median's rank: at most `k / 2` of the `k` ratios lie below it and at
      most `(k - 1) / 2` above it. For an even `k` this makes it the upper of
      the two middle values, for an odd `k` the middle one. */
  lemma {:induction false} MedianRank(ratios: seq<real>)
    requires |ratios| > 0
    ensures CountWhere(ratios, Below(MedianRatio(ratios))) <= |ratios| / 2
    ensures CountWhere(ratios, Above(MedianRatio(ratios))) <= (|ratios| - 1) / 2
  {
    var t := Sort(ratios);
    var m := MedianRatio(ratios);
    assert m == t[|ratios| / 2];
    CountPermutation(ratios, t, Below(m));
    CountPermutation(ratios, t, Above(m));
    SortedCountBelow(t, |ratios| / 2);
    SortedCountAbove(t, |ratios| / 2);
  }

  /** With an even number of ratios the median is the upper of the two middle
      ones, not their mean: of 10 and 20 it is 20. */
  lemma MedianOfTwoIsUpper()
    ensures MedianRatio([10.0, 20.0]) == 20.0
  {
    assert Sort([20.0]) == [20.0];
    assert Insert(10.0, [20.0]) == [10.0, 20.0];
    assert [10.0, 20.0][1..] == [20.0];
  }

  /** A span whose ratio-of-ratios is 183.75 passes the range test, and rounds
      to 184, one past the last table entry: the SpO2 read is undefined while
      marked valid. */
  lemma UndefinedSpo2Reachable()
    ensures PairRatio([1.0, 2.0, 2.0, 2.0], [0.08125, 1.0, 1.0, 1.0], 0, 4) == Some(183.75)
    ensures Spo2FromRatios([183.75]) == (None, true)
  {
    var ir, red := [1.0, 2.0, 2.0, 2.0], [0.08125, 1.0, 1.0, 1.0];
    assert ir[0..4] == ir && red[0..4] == red;
    assert ir[..3] == [1.0, 2.0, 2.0] && ir[..3][..2] == [1.0, 2.0] && ir[..3][..2][..1] == [1.0];
    assert red[..3] == [0.08125, 1.0, 1.0] && red[..3][..2] == [0.08125, 1.0] && red[..3][..2][..1] == [0.08125];
    assert Max([1.0, 2.0]) == 2.0 && Max([1.0, 2.0, 2.0]) == 2.0 && Max(ir) == 2.0;
    assert Min([1.0, 2.0]) == 1.0 && Min([1.0, 2.0, 2.0]) == 1.0 && Min(ir) == 1.0;
    assert Max([0.08125, 1.0]) == 1.0 && Max([0.08125, 1.0, 1.0]) == 1.0 && Max(red) == 1.0;
    assert Min([0.08125, 1.0]) == 0.08125 && Min([0.08125, 1.0, 1.0]) == 0.08125 && Min(red) == 0.08125;
    assert SpanRatio(ir, red) == Some(183.75);
    assert Sort([183.75]) == [183.75];
    assert Round(183.75) == 184;
  }

  // ---------------------------------------------------------------------------
  // The estimator

  /** `calculateVitals` as a function: an error exactly when the buffers differ
      in length or hold fewer than 100 samples; otherwise the heart rate and
      SpO2 of the window. It never changes its inputs: both are values. */
  function Vitals(ir: seq<real>, red: seq<real>): (r: Result<VitalsResult, VitalsError>)
    ensures r.Err? <==> |ir| != |red| || |ir| < BufferSize
  {
    if |ir| != |red| || |ir| < BufferSize then Err(BufferSizeMismatchOrInsufficientData)
    else
      var peaks := WindowPeaks(ir);
      var hr := HeartRate(peaks);
      var spo2 := Spo2(ir, red, peaks);
      Ok(VitalsResult(hr.0, hr.1, spo2.0, spo2.1))
  }

  /** Peaks found in a 100-sample window give a heart rate in [16, 375]: their
      first-to-last span is at most 93 and each gap at least 4. */
  lemma {:induction false} HeartRateOfFullWindowPeaks(peaks: seq<int>)
    requires |peaks| >= 2 && Peaks.Increasing(peaks)
    requires forall a, b :: 0 <= a < b < |peaks| ==> peaks[b] - peaks[a] >= MinPeakDistance
    requires forall k :: 0 <= k < |peaks| ==> 1 <= peaks[k] <= 94
    ensures 16 <= HeartRate(peaks).0 <= 375
  {
    HeartRateBounds(peaks, 94);
    assert Round(1500.0 / 93.0) == 16;
  }

  /** A full 100-sample window never makes the estimator throw; a valid heart
      rate then lies in [16, 375] and an invalid one is 86. */
  lemma HeartRateOfFullWindow(ir: seq<real>, red: seq<real>)
    requires |ir| == |red| == BufferSize
    ensures Vitals(ir, red).Ok?
    ensures var v := Vitals(ir, red).value;
      && (v.heartRateValid <==> |WindowPeaks(ir)| >= 2)
      && (v.heartRateValid ==> 16 <= v.heartRate <= 375)
      && (!v.heartRateValid ==> v.heartRate == DefaultHeartRate)
  {
    var peaks := WindowPeaks(ir);
    var hr := HeartRate(peaks);
    assert Vitals(ir, red).value.heartRate == hr.0 && Vitals(ir, red).value.heartRateValid == hr.1;
    if |peaks| >= 2 {
      HeartRateOfFullWindowPeaks(peaks);
    }
  }

  /** The SpO2 of any window the estimator accepts: valid exactly when some
      peak pair kept a ratio; a defined value lies in [-1, 100] and is not 0;
      undefined only when valid with lookup index 184; 99 when invalid. */
  lemma Spo2OfWindow(ir: seq<real>, red: seq<real>)
    requires Vitals(ir, red).Ok?
    ensures var v := Vitals(ir, red).value;
      var ratios := Ratios(ir, red, WindowPeaks(ir));
      && (v.spO2Valid <==> |ratios| > 0)
      && (!v.spO2Valid ==> v.spO2 == Some(DefaultSpO2))
      && (v.spO2.None? <==> |ratios| > 0 && Round(MedianRatio(ratios)) == 184)
      && (v.spO2.Some? ==> -1 <= v.spO2.value <= 100 && v.spO2.value != 0)
  {
    var ratios := Ratios(ir, red, WindowPeaks(ir));
    var s := Spo2FromRatios(ratios);
    assert Vitals(ir, red).value.spO2 == s.0 && Vitals(ir, red).value.spO2Valid == s.1;
    Spo2Outcome(ratios);
    if s.0.Some? {
      Spo2Range(ratios);
    }
  }

  /** The smoothing loop of `calculateVitals`: one 4-tap average per index
      below `|p| - 4`. */
  method SmoothingLoop(p: seq<real>) returns (smoothed: seq<real>)
    requires |p| >= Ma4Size
    ensures smoothed == Smoothed(p)
  {
    smoothed := [];
    var i := 0;
    while i < |p| - Ma4Size
      invariant 0 <= i <= |p| - Ma4Size
      invariant smoothed == Smoothed(p)[..i]
    {
      smoothed := smoothed + [(p[i] + p[i + 1] + p[i + 2] + p[i + 3]) / 4.0];
      i := i + 1;
    }
  }

  /** The interval loop of `calculateVitals`: the gap between each peak and
      the one before it. */
  method IntervalLoop(peaks: seq<int>) returns (intervals: seq<real>)
    requires |peaks| >= 1
    ensures intervals == Gaps(peaks)
  {
    intervals := [];
    var j := 1;
    while j < |peaks|
      invariant 1 <= j <= |peaks|
      invariant intervals == Gaps(peaks)[..j - 1]
    {
      intervals := intervals + [(peaks[j] - peaks[j - 1]) as real];
      j := j + 1;
    }
  }

  /** One pass of the ratio loop of `calculateVitals`: for a peak pair whose
      span is wider than 3, the AC and DC levels of both channels over the span
      and their ratio-of-ratios, kept when strictly between 2 and 184. */
  method MeasurePair(irBuffer: seq<real>, redBuffer: seq<real>, leftIdx: int, rightIdx: int) returns (kept: Option<real>)
    requires 0 <= leftIdx < rightIdx <= |irBuffer| && |redBuffer| == |irBuffer|
    ensures kept == PairRatio(irBuffer, redBuffer, leftIdx, rightIdx)
  {
    kept := None;
    if rightIdx - leftIdx > MinSpanGap {
      var irSpan, redSpan := irBuffer[leftIdx..rightIdx], redBuffer[leftIdx..rightIdx];
      var irAC := Max(irSpan) - Min(irSpan);
      var redAC := Max(redSpan) - Min(redSpan);
      var irDC := Max(irSpan);
      var redDC := Max(redSpan);
      // a zero divisor gives Infinity or NaN in the source, which fails the range test
      if irAC * redDC != 0.0 {
        var ratio := RatioOfRatios(irAC, redAC, irDC, redDC);
        if ratio > MinRatio && ratio < MaxRatio {
          kept := Some(ratio);
        }
      }
    }
  }

  /** The ratio loop of `calculateVitals`: the kept ratio of each consecutive
      peak pair, in pair order. */
  method RatioLoop(irBuffer: seq<real>, redBuffer: seq<real>, peaks: seq<int>) returns (ratios: seq<real>)
    requires PeaksInWindow(peaks, |irBuffer|) && |redBuffer| == |irBuffer| && |peaks| >= 2
    ensures ratios == CollectRatios(irBuffer, redBuffer, peaks, |peaks| - 1)
  {
    ratios := [];
    var k := 0;
    while k < |peaks| - 1
      invariant 0 <= k <= |peaks| - 1
      invariant ratios == CollectRatios(irBuffer, redBuffer, peaks, k)
    {
      var kept := MeasurePair(irBuffer, redBuffer, peaks[k], peaks[k + 1]);
      CollectRatiosStep(irBuffer, redBuffer, peaks, k);
      if kept.Some? {
        ratios := ratios + [kept.value];
      }
      k := k + 1;
    }
  }

  /** The heart-rate block of `calculateVitals`: the mean of the peak
      intervals turned into beats per minute, or 86 marked invalid. */
  method HeartRateStep(peaks: seq<int>) returns (heartRate: int, hrValid: bool)
    requires Peaks.Increasing(peaks)
    ensures (heartRate, hrValid) == HeartRate(peaks)
  {
    if |peaks| >= 2 {
      var peakIntervals := IntervalLoop(peaks);
      MeanGap(peaks);
      var averageInterval := Sum(peakIntervals) / |peakIntervals| as real;
      heartRate := Round((FreqS * 60) as real / averageInterval);
      hrValid := true;
    } else {
      heartRate := DefaultHeartRate;
      hrValid := false;
    }
  }

  /** The SpO2 block of `calculateVitals`: the ratio loop, the sort, the median
      and the table lookup, with 99 as the invalid fallback. */
  method Spo2Step(irBuffer: seq<real>, redBuffer: seq<real>, peaks: seq<int>) returns (spO2: Option<int>, spO2Valid: bool)
    requires PeaksInWindow(peaks, |irBuffer|) && |redBuffer| == |irBuffer|
    ensures (spO2, spO2Valid) == Spo2(irBuffer, redBuffer, peaks)
  {
    spO2 := Some(0);
    spO2Valid := false;
    if |peaks| >= 2 {
      var ratios := RatioLoop(irBuffer, redBuffer, peaks);
      if |ratios| > 0 {
        var sorted := Sort(ratios);
        var medianRatio := sorted[|ratios| / 2];
        spO2 := Lookup(Round(medianRatio));
        spO2Valid := true;
      }
    }
    if !spO2Valid {
      spO2 := Some(DefaultSpO2);
    }
  }

  /** `calculateVitals(irBuffer, redBuffer)`: the buffer check, the mean
      removal, the smoothing loop, the threshold, `findPeaks`, then the heart
      rate and SpO2 blocks. */
  method CalculateVitals(irBuffer: seq<real>, redBuffer: seq<real>) returns (r: Result<VitalsResult, VitalsError>)
    ensures r == Vitals(irBuffer, redBuffer)
  {
    if |irBuffer| != |redBuffer| || |irBuffer| < BufferSize {
      return Err(BufferSizeMismatchOrInsufficientData);
    }

    var processedIr := ProcessedIr(irBuffer);
    var smoothedIr := SmoothingLoop(processedIr);
    var threshold := Threshold(smoothedIr);
    var peaks := Peaks.FindPeaks(smoothedIr, threshold, MinPeakDistance, MaxPeaks);
    assert peaks == WindowPeaks(irBuffer);

    var heartRate, hrValid := HeartRateStep(peaks);
    var spO2, spO2Valid := Spo2Step(irBuffer, redBuffer, peaks);
    r := Ok(VitalsResult(heartRate, hrValid, spO2, spO2Valid));
  }
}
