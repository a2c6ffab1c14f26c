/**
 * `findPeaks`: a left-to-right scan for local maxima above a minimum height,
 * treating a flat run as one candidate, stopping at a maximum count, followed
 * by a filter that drops a peak too close to the peak found just before it.
 */
module Peaks {

  /** Indices in strictly increasing order. */
  predicate Increasing(s: seq<int>)
  {
    forall i, j :: 0 <= i < j < |s| ==> s[i] < s[j]
  }

  function Abs(x: int): int
  {
    if x < 0 then -x else x
  }

  /** The index just past the run of values equal to `data[i]`, looking from `j`:
      the first index at or after `j` holding another value, or the length. */
  function PlateauEnd(data: seq<real>, i: nat, j: nat): (e: nat)
    requires i < j <= |data|
    ensures j <= e <= |data|
    decreases |data| - j
  {
    if j < |data| && data[j] == data[i] then PlateauEnd(data, i, j + 1) else j
  }

  /** Every value from `j` up to the plateau end equals `data[i]`, and the value
      at the end, if inside the array, differs from it. */
  lemma {:induction false} PlateauEndIsRunEnd(data: seq<real>, i: nat, j: nat)
    requires i < j <= |data|
    ensures var e := PlateauEnd(data, i, j);
      && (forall k :: j <= k < e ==> data[k] == data[i])
      && (e < |data| ==> data[e] != data[i])
    decreases |data| - j
  {
    if j < |data| && data[j] == data[i] {
      PlateauEndIsRunEnd(data, i, j + 1);
    }
  }

  /** `p` is a peak: an inner index whose value exceeds the minimum height and
      its predecessor, and whose plateau is followed, inside the array, by a
      strictly smaller value. */
  predicate IsPeak(data: seq<real>, minHeight: real, p: int)
  {
    1 <= p < |data| - 1 && data[p] > minHeight && data[p] > data[p - 1] &&
    var e := PlateauEnd(data, p, p + 1);
    e < |data| && data[e] < data[p]
  }

  /** Reference definition: every peak at or after index `i`, in order. */
  function AllPeaks(data: seq<real>, minHeight: real, i: nat): seq<int>
    decreases |data| - i
  {
    if i + 1 >= |data| then []
    else (if IsPeak(data, minHeight, i) then [i] else []) + AllPeaks(data, minHeight, i + 1)
  }

  /** One step of `AllPeaks`: the index itself when it is a peak, then the rest. */
  lemma AllPeaksStep(data: seq<real>, minHeight: real, i: nat)
    requires i + 1 < |data|
    ensures AllPeaks(data, minHeight, i) == (if IsPeak(data, minHeight, i) then [i] else []) + AllPeaks(data, minHeight, i + 1)
  {
  }

  /** `AllPeaks` from `i` is increasing and starts at `i` or later. */
  lemma {:induction false} AllPeaksAscending(data: seq<real>, minHeight: real, i: nat)
    ensures var r := AllPeaks(data, minHeight, i);
      Increasing(r) && forall k :: 0 <= k < |r| ==> i <= r[k]
    decreases |data| - i
  {
    if i + 1 < |data| {
      AllPeaksAscending(data, minHeight, i + 1);
      var rest := AllPeaks(data, minHeight, i + 1);
      var head: seq<int> := if IsPeak(data, minHeight, i) then [i] else [];
      AllPeaksStep(data, minHeight, i);
      var r := head + rest;
      forall a, b | 0 <= a < b < |r| ensures r[a] < r[b] {
        assert r[b] == rest[b - |head|];
        if a >= |head| {
          assert r[a] == rest[a - |head|];
        }
      }
      forall k | 0 <= k < |r| ensures i <= r[k] {
        if k >= |head| {
          assert r[k] == rest[k - |head|];
        }
      }
    }
  }

  /** Everything `AllPeaks` lists is a peak. */
  lemma {:induction false} AllPeaksSound(data: seq<real>, minHeight: real, i: nat)
    ensures var r := AllPeaks(data, minHeight, i);
      forall k :: 0 <= k < |r| ==> IsPeak(data, minHeight, r[k])
    decreases |data| - i
  {
    if i + 1 < |data| {
      AllPeaksSound(data, minHeight, i + 1);
      var rest := AllPeaks(data, minHeight, i + 1);
      var head: seq<int> := if IsPeak(data, minHeight, i) then [i] else [];
      AllPeaksStep(data, minHeight, i);
      var r := head + rest;
      forall k | 0 <= k < |r| ensures IsPeak(data, minHeight, r[k]) {
        if k >= |head| {
          assert r[k] == rest[k - |head|];
        }
      }
    }
  }

  /** Every peak at or after `i` is listed by `AllPeaks`. */
  lemma {:induction false} AllPeaksComplete(data: seq<real>, minHeight: real, i: nat)
    ensures forall p :: i <= p && IsPeak(data, minHeight, p) ==> p in AllPeaks(data, minHeight, i)
    decreases |data| - i
  {
    if i + 1 < |data| {
      AllPeaksComplete(data, minHeight, i + 1);
      AllPeaksStep(data, minHeight, i);
    }
  }

  /** `AllPeaks` lists, in increasing order, exactly the peaks at or after `i`. */
  lemma AllPeaksExactly(data: seq<real>, minHeight: real, i: nat)
    ensures var r := AllPeaks(data, minHeight, i);
      && Increasing(r)
      && (forall k :: 0 <= k < |r| ==> i <= r[k] && IsPeak(data, minHeight, r[k]))
      && (forall p :: i <= p && IsPeak(data, minHeight, p) ==> p in r)
  {
    AllPeaksAscending(data, minHeight, i);
    AllPeaksSound(data, minHeight, i);
    AllPeaksComplete(data, minHeight, i);
  }

  /** The first `n` elements of `s`, or all of it when it is shorter. */
  function Take(s: seq<int>, n: nat): (r: seq<int>)
  {
    if n < |s| then s[..n] else s
  }

  /** The scanning loop as a function of its state: the index `i` and the peaks
      pushed so far. A candidate is a value above `minHeight` and above its
      predecessor; its plateau is measured; it is pushed when the plateau is
      followed by a smaller value and fewer than `maxPeaks` peaks are held, and
      the scan resumes after the plateau (one index further when pushed). */
  function Scan(data: seq<real>, minHeight: real, maxPeaks: nat, i: nat, peaks: seq<int>): seq<int>
    requires 1 <= i
    decreases |data| - i
  {
    if i + 1 >= |data| then peaks
    else if data[i] > minHeight && data[i] > data[i - 1] then
      var e := PlateauEnd(data, i, i + 1);
      if e < |data| && data[i] > data[e] && |peaks| < maxPeaks then
        Scan(data, minHeight, maxPeaks, e + 1, peaks + [i])
      else
        Scan(data, minHeight, maxPeaks, e, peaks)
    else
      Scan(data, minHeight, maxPeaks, i + 1, peaks)
  }

  /** The distance filter over the first `n` raw peaks: the first is kept, and
      a later one is kept when it lies at least `minDistance` from the raw peak
      just before it. */
  function Spaced(peaks: seq<int>, minDistance: int, n: nat): (r: seq<int>)
    requires n <= |peaks|
    ensures |r| <= n
  {
    if n == 0 then []
    else
      Spaced(peaks, minDistance, n - 1) +
      (if n == 1 || Abs(peaks[n - 1] - peaks[n - 2]) >= minDistance then [peaks[n - 1]] else [])
  }

  /** No index strictly inside a plateau can be a peak: it equals its predecessor. */
  lemma {:induction false} NoPeakInside(data: seq<real>, minHeight: real, i: nat, from: nat, to: nat)
    requires i < |data|
    requires i < from <= to <= PlateauEnd(data, i, i + 1)
    ensures AllPeaks(data, minHeight, from) == AllPeaks(data, minHeight, to)
    decreases (to as int) - (from as int)
  {
    if from < to && from + 1 < |data| {
      PlateauEndIsRunEnd(data, i, i + 1);
      assert data[from] == data[i] && data[from - 1] == data[i];
      assert !IsPeak(data, minHeight, from);
      NoPeakInside(data, minHeight, i, from + 1, to);
    }
  }

  /** Pushing `x` and then taking `n` more is taking `n + 1` from `x` and the rest. */
  lemma PushThenTake(peaks: seq<int>, x: int, s: seq<int>, n: nat)
    ensures peaks + [x] + Take(s, n) == peaks + Take([x] + s, n + 1)
  {
    if n < |s| {
      assert ([x] + s)[..n + 1] == [x] + s[..n];
    }
  }

  /** The scan pushes exactly the peaks it meets, in order, up to `maxPeaks`:
      from any state, its result is the peaks held so far followed by the first
      peaks at or after `i`, as many as the cap leaves room for. */
  lemma {:induction false} ScanTakesFirstPeaks(data: seq<real>, minHeight: real, maxPeaks: nat, i: nat, peaks: seq<int>)
    requires 1 <= i
    requires |peaks| <= maxPeaks
    ensures Scan(data, minHeight, maxPeaks, i, peaks) == peaks + Take(AllPeaks(data, minHeight, i), maxPeaks - |peaks|)
    decreases |data| - i, 1
  {
    if i + 1 >= |data| {
      assert AllPeaks(data, minHeight, i) == [];
    } else if data[i] > minHeight && data[i] > data[i - 1] {
      var e := PlateauEnd(data, i, i + 1);
      NoPeakInside(data, minHeight, i, i + 1, e);
      if e < |data| && data[i] > data[e] && |peaks| < maxPeaks {
        ScanPushesPeak(data, minHeight, maxPeaks, i, peaks);
      } else {
        ScanSkipsPlateau(data, minHeight, maxPeaks, i, peaks);
      }
    } else {
      ScanSkipsIndex(data, minHeight, maxPeaks, i, peaks);
    }
  }

  /** A candidate whose plateau ends in a drop is a peak, and the next peak
      comes after the index that ends its plateau. */
  lemma {:induction false} PeakThenAfterPlateau(data: seq<real>, minHeight: real, i: nat)
    requires 1 <= i && i + 1 < |data|
    requires data[i] > minHeight && data[i] > data[i - 1]
    requires PlateauEnd(data, i, i + 1) < |data| && data[i] > data[PlateauEnd(data, i, i + 1)]
    requires AllPeaks(data, minHeight, i + 1) == AllPeaks(data, minHeight, PlateauEnd(data, i, i + 1))
    ensures AllPeaks(data, minHeight, i) == [i] + AllPeaks(data, minHeight, PlateauEnd(data, i, i + 1) + 1)
  {
    var e := PlateauEnd(data, i, i + 1);
    if e + 1 < |data| {
      // the index just past the plateau falls below its predecessor
      PlateauEndIsRunEnd(data, i, i + 1);
      assert data[e - 1] == data[i];
      assert !IsPeak(data, minHeight, e);
    }
    assert AllPeaks(data, minHeight, e) == AllPeaks(data, minHeight, e + 1);
    assert IsPeak(data, minHeight, i);
  }

  /** A candidate whose plateau ends in a drop, with room left: the scan
      pushes it and resumes after the plateau. */
  lemma {:induction false} ScanPushesPeak(data: seq<real>, minHeight: real, maxPeaks: nat, i: nat, peaks: seq<int>)
    requires 1 <= i && i + 1 < |data| && |peaks| < maxPeaks
    requires data[i] > minHeight && data[i] > data[i - 1]
    requires PlateauEnd(data, i, i + 1) < |data| && data[i] > data[PlateauEnd(data, i, i + 1)]
    requires AllPeaks(data, minHeight, i + 1) == AllPeaks(data, minHeight, PlateauEnd(data, i, i + 1))
    ensures Scan(data, minHeight, maxPeaks, i, peaks) == peaks + Take(AllPeaks(data, minHeight, i), maxPeaks - |peaks|)
    decreases |data| - i, 0
  {
    var e := PlateauEnd(data, i, i + 1);
    var after := AllPeaks(data, minHeight, e + 1);
    var room: nat := maxPeaks - |peaks| - 1;
    calc {
      Scan(data, minHeight, maxPeaks, i, peaks);
    ==
      Scan(data, minHeight, maxPeaks, e + 1, peaks + [i]);
    == { ScanTakesFirstPeaks(data, minHeight, maxPeaks, e + 1, peaks + [i]); }
      peaks + [i] + Take(after, room);
    == { PushThenTake(peaks, i, after, room); }
      peaks + Take([i] + after, room + 1);
    == { PeakThenAfterPlateau(data, minHeight, i); }
      peaks + Take(AllPeaks(data, minHeight, i), maxPeaks - |peaks|);
    }
  }

  /** A candidate that is not pushed, for lack of a drop after its plateau or
      of room: the scan resumes at the plateau's end. */
  lemma {:induction false} ScanSkipsPlateau(data: seq<real>, minHeight: real, maxPeaks: nat, i: nat, peaks: seq<int>)
    requires 1 <= i && i + 1 < |data| && |peaks| <= maxPeaks
    requires data[i] > minHeight && data[i] > data[i - 1]
    requires !(PlateauEnd(data, i, i + 1) < |data| && data[i] > data[PlateauEnd(data, i, i + 1)] && |peaks| < maxPeaks)
    requires AllPeaks(data, minHeight, i + 1) == AllPeaks(data, minHeight, PlateauEnd(data, i, i + 1))
    ensures Scan(data, minHeight, maxPeaks, i, peaks) == peaks + Take(AllPeaks(data, minHeight, i), maxPeaks - |peaks|)
    decreases |data| - i, 0
  {
    var e := PlateauEnd(data, i, i + 1);
    ScanTakesFirstPeaks(data, minHeight, maxPeaks, e, peaks);
    if |peaks| < maxPeaks {
      assert !IsPeak(data, minHeight, i);
      assert AllPeaks(data, minHeight, i) == AllPeaks(data, minHeight, e);
    } else {
      assert Take(AllPeaks(data, minHeight, i), maxPeaks - |peaks|) == [];
    }
  }

  /** An index that is not a candidate is not a peak: the scan moves on by one. */
  lemma {:induction false} ScanSkipsIndex(data: seq<real>, minHeight: real, maxPeaks: nat, i: nat, peaks: seq<int>)
    requires 1 <= i && i + 1 < |data| && |peaks| <= maxPeaks
    requires !(data[i] > minHeight && data[i] > data[i - 1])
    ensures Scan(data, minHeight, maxPeaks, i, peaks) == peaks + Take(AllPeaks(data, minHeight, i), maxPeaks - |peaks|)
    decreases |data| - i, 0
  {
    assert !IsPeak(data, minHeight, i);
    assert AllPeaks(data, minHeight, i) == AllPeaks(data, minHeight, i + 1);
    ScanTakesFirstPeaks(data, minHeight, maxPeaks, i + 1, peaks);
  }

  /** One step of the filter: the raw peak `n - 1` is appended when it is the
      first or lies at least `minDistance` from raw peak `n - 2`. */
  lemma SpacedStep(peaks: seq<int>, minDistance: int, n: nat)
    requires 0 < n <= |peaks|
    ensures Spaced(peaks, minDistance, n) == Spaced(peaks, minDistance, n - 1) +
      (if n == 1 || Abs(peaks[n - 1] - peaks[n - 2]) >= minDistance then [peaks[n - 1]] else [])
  {
  }

  /** The filter keeps only raw peaks, and always keeps the first. */
  lemma {:induction false} SpacedKeepsRawPeaks(peaks: seq<int>, minDistance: int, n: nat)
    requires n <= |peaks|
    ensures var r := Spaced(peaks, minDistance, n);
      && (forall k :: 0 <= k < |r| ==> r[k] in peaks[..n])
      && (n > 0 ==> |r| > 0 && r[0] == peaks[0])
  {
    if n > 0 {
      SpacedKeepsRawPeaks(peaks, minDistance, n - 1);
      SpacedStep(peaks, minDistance, n);
      var r' := Spaced(peaks, minDistance, n - 1);
      var r := Spaced(peaks, minDistance, n);
      forall k | 0 <= k < |r| ensures r[k] in peaks[..n] {
        if k < |r'| {
          var j :| 0 <= j < n - 1 && peaks[..n - 1][j] == r'[k];
          assert peaks[..n][j] == r[k];
        } else {
          assert peaks[..n][n - 1] == r[k];
        }
      }
      if n > 1 {
        assert r[0] == r'[0];
      }
    }
  }

  /** Over increasing raw peaks the filter's result is increasing, bounded by
      the last raw peak considered, and consecutive kept peaks lie at least
      `minDistance` apart even though it compares with the raw predecessor. */
  lemma {:induction false} SpacedOrdered(peaks: seq<int>, minDistance: int, n: nat)
    requires n <= |peaks| && Increasing(peaks)
    ensures var r := Spaced(peaks, minDistance, n);
      && Increasing(r)
      && (forall k :: 0 <= k < |r| - 1 ==> r[k + 1] - r[k] >= minDistance)
      && (n > 0 ==> forall k :: 0 <= k < |r| ==> r[k] <= peaks[n - 1])
  {
    if n > 0 {
      SpacedOrdered(peaks, minDistance, n - 1);
      SpacedStep(peaks, minDistance, n);
      var r' := Spaced(peaks, minDistance, n - 1);
      if n > 1 {
        assert peaks[n - 2] < peaks[n - 1];
        assert forall k :: 0 <= k < |r'| ==> r'[k] < peaks[n - 1];
      }
    }
  }

  /** Over increasing raw peaks the filter keeps the first, keeps only raw
      peaks, stays increasing, and leaves consecutive kept peaks at least
      `minDistance` apart even though it compares with the raw predecessor. */
  lemma SpacedKeepsDistance(peaks: seq<int>, minDistance: int, n: nat)
    requires n <= |peaks| && Increasing(peaks)
    ensures var r := Spaced(peaks, minDistance, n);
      && Increasing(r)
      && (forall k :: 0 <= k < |r| ==> r[k] in peaks[..n])
      && (forall k :: 0 <= k < |r| - 1 ==> r[k + 1] - r[k] >= minDistance)
      && (n > 0 ==> |r| > 0 && r[0] == peaks[0])
      && (n > 0 ==> forall k :: 0 <= k < |r| ==> r[k] <= peaks[n - 1])
  {
    SpacedKeepsRawPeaks(peaks, minDistance, n);
    SpacedOrdered(peaks, minDistance, n);
  }

  /** The first `maxPeaks` peaks of `data`, in order. */
  function FirstPeaks(data: seq<real>, minHeight: real, maxPeaks: nat): seq<int>
  {
    Take(AllPeaks(data, minHeight, 1), maxPeaks)
  }

  /** The first `maxPeaks` peaks are increasing, each a peak, and at most `maxPeaks`. */
  lemma FirstPeaksAreOrdered(data: seq<real>, minHeight: real, maxPeaks: nat)
    ensures var raw := FirstPeaks(data, minHeight, maxPeaks);
      && |raw| <= maxPeaks
      && Increasing(raw)
      && forall k :: 0 <= k < |raw| ==> IsPeak(data, minHeight, raw[k])
  {
    AllPeaksExactly(data, minHeight, 1);
  }

  /** Filtering keeps only raw peaks, and any two kept indices lie at least
      `minDistance` apart. */
  lemma SpacedPeaks(data: seq<real>, minHeight: real, raw: seq<int>, minDistance: int)
    requires Increasing(raw)
    requires forall k :: 0 <= k < |raw| ==> IsPeak(data, minHeight, raw[k])
    ensures var r := Spaced(raw, minDistance, |raw|);
      && Increasing(r)
      && (forall k :: 0 <= k < |r| ==> IsPeak(data, minHeight, r[k]))
      && (forall a, b :: 0 <= a < b < |r| ==> r[b] - r[a] >= minDistance)
  {
    SpacedKeepsDistance(raw, minDistance, |raw|);
    var r := Spaced(raw, minDistance, |raw|);
    assert raw[..|raw|] == raw;
    forall k | 0 <= k < |r| ensures IsPeak(data, minHeight, r[k]) {
      var j :| 0 <= j < |raw| && raw[j] == r[k];
    }
    forall a, b | 0 <= a < b < |r| ensures r[b] - r[a] >= minDistance {
      assert r[b] - r[b - 1] >= minDistance;
    }
  }

  /** `findPeaks`, as a function: the distance filter applied to the first
      `maxPeaks` peaks of `data`. Its result is increasing, inside
      `[1, |data| - 2]`, made of peaks only, no longer than `maxPeaks`, and any
      two of its indices lie at least `minDistance` apart. */
  function DetectedPeaks(data: seq<real>, minHeight: real, minDistance: int, maxPeaks: nat): (r: seq<int>)
    ensures |r| <= maxPeaks
    ensures Increasing(r)
    ensures forall k :: 0 <= k < |r| ==> 1 <= r[k] < |data| - 1 && IsPeak(data, minHeight, r[k])
    ensures forall a, b :: 0 <= a < b < |r| ==> r[b] - r[a] >= minDistance
  {
    var raw := FirstPeaks(data, minHeight, maxPeaks);
    FirstPeaksAreOrdered(data, minHeight, maxPeaks);
    SpacedPeaks(data, minHeight, raw, minDistance);
    Spaced(raw, minDistance, |raw|)
  }

  /** `findPeaks(data, minHeight, minDistance, maxPeaks)`: the scanning loop with
      its manual index jumps, then the distance filter. */
  method FindPeaks(data: seq<real>, minHeight: real, minDistance: int, maxPeaks: nat) returns (r: seq<int>)
    ensures r == DetectedPeaks(data, minHeight, minDistance, maxPeaks)
  {
    var peaks: seq<int> := [];
    var i: nat := 1;
    while i + 1 < |data|
      invariant 1 <= i
      invariant Scan(data, minHeight, maxPeaks, i, peaks) == Scan(data, minHeight, maxPeaks, 1, [])
      decreases |data| - i
    {
      if data[i] > minHeight && data[i] > data[i - 1] {
        var width := 1;
        while i + width < |data| && data[i] == data[i + width]
          invariant 1 <= width && i + width <= |data|
          invariant PlateauEnd(data, i, i + width) == PlateauEnd(data, i, i + 1)
          decreases |data| - width
        {
          width := width + 1;
        }
        if i + width < |data| && data[i] > data[i + width] && |peaks| < maxPeaks {
          peaks := peaks + [i];
          i := i + width;
        } else {
          i := i + width - 1;
        }
      }
      i := i + 1;
    }
    ScanTakesFirstPeaks(data, minHeight, maxPeaks, 1, []);
    assert peaks == FirstPeaks(data, minHeight, maxPeaks);
    r := Spaced(peaks, minDistance, |peaks|);
  }
}
