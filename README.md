# Heart rate and SpO2 from a PPG sample window

This project models the core of a pulse-oximetry backend in Dafny and proves
properties of that model. A wearable posts one reading per tick: a step count,
a temperature, an optional time stamp, and one infrared (IR) and one red-LED
light intensity. The server keeps a sliding window of the last samples of
both channels. Once 100 are held, it runs the estimator `calculateVitals`,
which does the following:

- removes the IR mean and inverts the signal;
- smooths it with a 4-tap moving average;
- finds peaks above an adaptive threshold clamped to [30, 60];
- derives the heart rate from the mean peak gap;
- derives SpO2 from the median ratio-of-ratios over consecutive peak spans,
  looked up in a 184-entry calibration table.

After each estimate the oldest sample pair is evicted. A result whose heart
rate and SpO2 are both truthy is queued in a FIFO of at most four entries,
which clients drain one entry at a time.

Modules:

- `Wrappers`: `Option` and `Result`. `None` also stands for JavaScript's
  `undefined`.
- `RealMath`: `Math.round`, the `reduce` sum and mean, `Math.max`/`Math.min`,
  and the ascending sort. All arithmetic is on exact reals.
- `Spo2Table`: the calibration table and its shape.
- `Peaks`: `findPeaks`. The method keeps the source's loop with its manual
  index jumps. It is proved equal to a functional specification. That
  specification is related to an independent reference definition: the list
  of every peak in the data.
- `Vitals`: `calculateVitals`. It is a method with the source's loops, proved
  equal to the function `Vitals`. Lemmas about that function give the error
  condition, the heart-rate range and the SpO2 outcomes.
- `SensorServer`: the server's module-level state `irBuffer`, `redirBuffer` and
  `responseArr`.
  - A class `Server` holds the state. Its methods mirror `processBuffers`,
    `POST /sensor_data`, `GET /sensor_data` and `GET /flush`.
  - Each method is proved equal to a transition function on a `BufferState`
    value.
  - Lemmas about those functions give the buffer discipline: equal lengths,
    never more than 100 samples, a slide by one per estimate, and a queue of
    at most four.

Behaviour the model keeps exactly as the code has it:

- The smoothed signal has `n - 4` entries, one fewer than the `n - 3` windows
  a 4-tap average admits (`Vitals.SmoothedIsWindowMean`).
- The distance filter of `findPeaks` compares each peak with the raw peak
  before it, not with the last kept one. Over increasing raw peaks the kept
  peaks are still at least the minimum distance apart
  (`Peaks.SpacedKeepsDistance`).
- The median of an even number of ratios is the upper of the two middle ones:
  of `k` ratios, at most `k / 2` lie below it and at most `(k - 1) / 2` above
  it (`Vitals.MedianRank`; `Vitals.MedianOfTwoIsUpper` is a worked example).
- A kept ratio in [183.5, 184) rounds to 184, one past the table's last
  index. The SpO2 is then `undefined` while marked valid
  (`Vitals.UndefinedSpo2Reachable`, `Vitals.Spo2OfWindow`). The server has
  already slid the window when it drops that result through its truthiness
  test (`SensorServer.SubmitDropsUndefinedSpo2`).
- Table entry 183 is -1, and there is no clamp on the heart rate. From a full
  window the heart rate lies in [16, 375] (`Vitals.HeartRateOfFullWindow`).
- A zero divisor in the ratio-of-ratios gives Infinity or NaN in the code,
  and the range test rejects it. The model makes that rejection explicit.

In four places the code does not do what a reader might expect, and the
model follows the code in each:

- A 4-tap moving average admits `n - 3` windows; the code computes `n - 4`.
- A spacing filter usually compares with the last kept peak; the code
  compares with the raw peak before.
- The median of an even count is often taken as the lower middle; the code
  takes the upper one.
- A table read is usually guarded to stay inside the table; the code reads
  index 184 of a 184-entry table when the rounded median reaches it.

## Model

| member | source | states |
|---|---|---|
| RealMath.Round | src/hr-spo2-algorithm.ts:100 | `Math.round` yields the integer within half a unit of its argument, halves going up |
| RealMath.MaxIsGreatest | src/hr-spo2-algorithm.ts:120-125 | `Math.max` over a span is one of its values and no value exceeds it |
| RealMath.MinIsLeast | src/hr-spo2-algorithm.ts:120-123 | `Math.min` over a span is one of its values and no value is below it |
| RealMath.Sort | src/hr-spo2-algorithm.ts:136 | the numeric ascending sort returns an ascending permutation of the ratios (same multiset, same length) |
| Spo2Table.TableShape | src/hr-spo2-algorithm.ts:15-17 | the table has 184 entries and starts at 95 |
| Spo2Table.TableDecreasing | src/hr-spo2-algorithm.ts:15-17 | from index 34 on, a larger index never gives a larger SpO2 entry |
| Spo2Table.TableRange | src/hr-spo2-algorithm.ts:15-17 | entries 0..182 lie in [1, 100]; entry 183 is -1 |
| Peaks.PlateauEndIsRunEnd | src/hr-spo2-algorithm.ts:38-41 | the width loop stops at the first index holding a different value, or at the end of the data |
| Peaks.AllPeaksExactly | src/hr-spo2-algorithm.ts:36-48 | the reference list of peaks from `i` is increasing and holds exactly the peaks (above the height, above the predecessor, plateau followed by a drop) at or after `i` |
| Peaks.ScanTakesFirstPeaks | src/hr-spo2-algorithm.ts:33-49 | the scanning loop, with its plateau skips and the cap, pushes exactly the first `maxPeaks` peaks of the data, in order |
| Peaks.FirstPeaksAreOrdered | src/hr-spo2-algorithm.ts:36-49 | the raw peak list is increasing, holds only peaks, and has at most `maxPeaks` entries |
| Peaks.SpacedKeepsDistance | src/hr-spo2-algorithm.ts:52-55 | over increasing raw peaks the filter keeps the first, keeps only raw peaks in order, and leaves consecutive kept peaks at least `minDistance` apart |
| Peaks.SpacedPeaks | src/hr-spo2-algorithm.ts:52-55 | after filtering, every kept index is a peak and any two kept indices lie at least `minDistance` apart |
| Peaks.DetectedPeaks | src/hr-spo2-algorithm.ts:27-56 | `findPeaks` returns increasing peak indices inside `[1, length - 2]`, at most `maxPeaks`, pairwise at least `minDistance` apart |
| Peaks.FindPeaks | src/hr-spo2-algorithm.ts:27-56 | the loop with manual index jumps followed by the filter computes `DetectedPeaks` |
| Vitals.ProcessedIrHasZeroSum | src/hr-spo2-algorithm.ts:71-74 | DC removal keeps the window length and leaves a signal whose sum is zero |
| Vitals.SmoothedIsWindowMean | src/hr-spo2-algorithm.ts:77-81 | the smoothed signal has `n - 4` entries, entry `i` being the mean of the four processed samples from `i` |
| Vitals.Threshold | src/hr-spo2-algorithm.ts:84-85 | the threshold is the smoothed mean clamped into [30, 60]: the mean inside the range, the nearer bound outside it |
| Vitals.WindowPeaks | src/hr-spo2-algorithm.ts:88 | the window's peaks are increasing, at most 15, at least 4 apart, and each lies in `[1, n - 6]`, inside the raw window |
| Vitals.MeanGap | src/hr-spo2-algorithm.ts:95-99 | the mean peak interval is the first-to-last span over the number of gaps, and is positive |
| Vitals.HeartRate | src/hr-spo2-algorithm.ts:94-105 | valid exactly with two or more peaks, and then `round(1500 * gaps / span)`; otherwise 86 |
| Vitals.HeartRateBounds | src/hr-spo2-algorithm.ts:94-105 | peaks at least 4 apart give a heart rate of at most 375, and peaks within `[1, top]` one of at least `round(1500 / (top - 1))` |
| Vitals.PairRatio | src/hr-spo2-algorithm.ts:118-131 | a peak pair yields a ratio only for a span wider than 3 and only strictly between 2 and 184; a kept value is the span's ratio-of-ratios, and every such ratio of a non-degenerate span is kept |
| Vitals.CollectRatios | src/hr-spo2-algorithm.ts:112-132 | the ratios of the first `n` pairs number at most `n` and each lies strictly between 2 and 184 |
| Vitals.Ratios | src/hr-spo2-algorithm.ts:111-132 | fewer than two peaks give no ratio; every kept ratio lies strictly between 2 and 184 |
| Vitals.MedianRatio | src/hr-spo2-algorithm.ts:136-137 | the median taken from the sorted ratios is one of the ratios |
| Vitals.MedianRank | src/hr-spo2-algorithm.ts:136-137 | of `k` ratios at most `k / 2` lie below the median taken and at most `(k - 1) / 2` above it: the middle one, the upper middle for an even `k` |
| Vitals.MedianOfTwoIsUpper | src/hr-spo2-algorithm.ts:137 | a worked example: of two ratios 10 and 20 the median taken is 20 |
| Vitals.Lookup | src/hr-spo2-algorithm.ts:138 | the table read is defined exactly for indices 0..183, and then it is that entry |
| Vitals.Spo2Outcome | src/hr-spo2-algorithm.ts:134-145 | SpO2 is valid exactly when some ratio is kept; the lookup index then lies in [2, 184], and the value is undefined exactly at 184; otherwise 99 |
| Vitals.Spo2Range | src/hr-spo2-algorithm.ts:134-140 | a defined SpO2 value lies in [-1, 100] and is never 0 |
| Vitals.UndefinedSpo2Reachable | src/hr-spo2-algorithm.ts:127-138 | a span with ratio-of-ratios 183.75 is kept, and its lookup yields `undefined` marked valid |
| Vitals.Vitals | src/hr-spo2-algorithm.ts:65-153 | the estimator fails exactly when the buffers differ in length or hold fewer than 100 samples |
| Vitals.HeartRateOfFullWindowPeaks | src/hr-spo2-algorithm.ts:88-101 | peaks within `[1, 94]` at least 4 apart give a heart rate in [16, 375] |
| Vitals.HeartRateOfFullWindow | src/hr-spo2-algorithm.ts:65-105 | on two 100-sample buffers the estimator succeeds; the heart rate is valid exactly with two or more peaks, then in [16, 375], else 86 |
| Vitals.Spo2OfWindow | src/hr-spo2-algorithm.ts:107-145 | for an accepted window SpO2 is valid exactly when a ratio is kept, 99 when invalid, undefined exactly when the rounded median is 184, and otherwise in [-1, 100] and non-zero |
| Vitals.SmoothingLoop | src/hr-spo2-algorithm.ts:77-81 | the smoothing loop computes `Smoothed` |
| Vitals.IntervalLoop | src/hr-spo2-algorithm.ts:95-98 | the interval loop computes the consecutive peak gaps |
| Vitals.MeasurePair | src/hr-spo2-algorithm.ts:115-131 | one pass of the ratio loop keeps exactly the pair's `PairRatio` |
| Vitals.RatioLoop | src/hr-spo2-algorithm.ts:112-132 | the ratio loop collects the kept ratios of all consecutive pairs, in pair order |
| Vitals.HeartRateStep | src/hr-spo2-algorithm.ts:91-105 | the heart-rate block computes `HeartRate` |
| Vitals.Spo2Step | src/hr-spo2-algorithm.ts:107-145 | the SpO2 block computes `Spo2` |
| Vitals.CalculateVitals | src/hr-spo2-algorithm.ts:65-153 | `calculateVitals` computes `Vitals`: the error, or the heart rate and SpO2 with their flags |
| SensorServer.Progress | src/index.ts:169 | the progress is the buffer length capped at 100, below 100 exactly when the length is |
| SensorServer.ResponseOf | src/index.ts:78-86 | a result is returned exactly when heart rate and SpO2 are defined and non-zero, copying steps, time stamp and temperature unchanged |
| SensorServer.Enqueue | src/index.ts:156-160 | after shift-if-more-than-3 and push, the queue is the newest entries of old queue plus the new result, in order, and holds at most four when it held at most four |
| SensorServer.ProcessShiftsOnSuccess | src/index.ts:70-86 | a successful estimate removes exactly the oldest sample of each buffer, even when no result is returned, and leaves the queue alone |
| SensorServer.ProcessClearsOnError | src/index.ts:87-93 | an estimator error empties both buffers and returns no result |
| SensorServer.ProcessWaitsForFullWindow | src/index.ts:70-93 | below 100 samples in either buffer nothing changes and no result is returned |
| SensorServer.ProcessResultNeedsEstimate | src/index.ts:65-94 | a returned result always comes from a successful estimate on two full buffers |
| SensorServer.FullWindowResult | src/index.ts:72-86 | on a 100-sample window the estimator never throws, and the result is dropped exactly when SpO2 is undefined |
| SensorServer.SubmitSlidesWindow | src/index.ts:134-141 | from a reachable state a post appends the pair and reports progress below 100, or makes the estimator see exactly 100 samples and slides the window by one; buffers are never cleared |
| SensorServer.SubmitPreservesInv | src/index.ts:134-160 | every post keeps the buffers equal in length and below 100, and the queue at most four |
| SensorServer.SubmitDropsUndefinedSpo2 | src/index.ts:137-170 | a post completing a window returns a result exactly when SpO2 is defined, and otherwise reports progress 99 |
| SensorServer.FetchPreservesInv | src/index.ts:178-184 | a fetch returns a result exactly when the queue is non-empty, the oldest one, leaving the rest in order |
| SensorServer.Server.constructor | src/index.ts:44-46 | the server starts with all three arrays empty |
| SensorServer.Server.ProcessBuffers | src/index.ts:65-94 | `processBuffers` updates the buffers and returns the result as `Process` says |
| SensorServer.Server.PostSensorData | src/index.ts:116-176 | a posted reading updates the state and answers as `Submit` says, and keeps the invariant |
| SensorServer.Server.GetSensorData | src/index.ts:178-185 | `GET /sensor_data` shifts the oldest queued result, or reports none, as `Fetch` says |
| SensorServer.Server.Flush | src/index.ts:187-192 | `/flush` empties the queue and both buffers |

## Left out

- HTTP routing, CORS, body parsing, environment configuration, logging and the
  `/health` and `/buffer_status` responses: plumbing around the state.
  `progress` is the number before `/100 samples`.
- Database writes through Prisma, the connection retries and the shutdown
  handler. Every write is taken to succeed. So the 500 responses of
  `src/index.ts:172-175` are not modelled, including a failed write of a
  result after the window has slid.
- The clock: the time stamp used for a reading without one is a parameter
  `now`. Parsing time stamps into dates is not modelled.
- Concurrency: each request runs to completion. Interleavings of requests at
  the handler's `await` points are not modelled.
- IEEE-754: numbers are exact reals. Rounding error, NaN and Infinity are not
  modelled, except that a zero divisor in the ratio-of-ratios is rejected as
  the range test would reject its NaN or Infinity. Readings are assumed to be
  numbers.
- `Array.prototype.sort`: modelled as a pure insertion sort on a sequence,
  which yields the same ascending permutation. The engine's in-place
  algorithm is not modelled.
- Vitals.MedianRatio: its own contract states only that the median is one of
  the ratios; its rank among them is stated by `Vitals.MedianRank`.
- `index.js` and `index_old.js` are not part of this model.
