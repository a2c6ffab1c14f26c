/**
 * The sample window of the sensor server. Each submitted reading appends one
 * IR and one red sample to two buffers; once both hold 100 samples the
 * estimator runs on them, the oldest pair is evicted, and a result with a
 * truthy heart rate and SpO2 is queued in a small FIFO that clients drain one
 * entry at a time. An estimator error clears both buffers; a flush clears
 * everything.
 */
module SensorServer {
  import opened Wrappers
  import Vitals

  const BufferSize: nat := 100
  /** The queue is shifted before a push once it holds more than this many. */
  const QueueShiftAbove: nat := 3

  /** A reading as posted by the device; a missing time stamp is `None`. */
  datatype SensorData = SensorData(steps: real, ir: real, redir: real, timeStamp: Option<string>, temperature: real)

  /** A processed result, as queued and returned to clients. */
  datatype ResponseData = ResponseData(bpm: int, spo2: int, stepCount: real, timestamp: string, temperature: real)

  /** The answer to a posted reading: the new result, or the collection
      progress `p` (reported as `p/100 samples`). */
  datatype PostResponse = Processed(data: ResponseData) | Collecting(progress: nat)

  /** The server's mutable state, as a value. */
  datatype BufferState = BufferState(irBuffer: seq<real>, redirBuffer: seq<real>, responseArr: seq<ResponseData>)

  /** The state reachable between requests: buffers of equal length below a
      full window, and at most four queued results. */
  predicate Inv(s: BufferState)
  {
    |s.irBuffer| == |s.redirBuffer| < BufferSize && |s.responseArr| <= QueueShiftAbove + 1
  }

  /** `Math.min(length, 100)`: the collection progress. */
  function Progress(len: nat): (p: nat)
    ensures p <= BufferSize
    ensures p == len || p == BufferSize
    ensures len < BufferSize <==> p < BufferSize
  {
    if len < BufferSize then len else BufferSize
  }

  /** The time stamp a reading is recorded with: its own, unless missing or
      empty, in which case the current time `now` (the clock is a parameter). */
  function EffectiveTimestamp(timeStamp: Option<string>, now: string): string
  {
    if timeStamp.None? || timeStamp.value == "" then now else timeStamp.value
  }

  /** The result `processBuffers` returns for an estimate: present exactly when
      the heart rate and SpO2 are both truthy (defined and non-zero), copying
      the step count, time stamp and temperature unchanged. */
  function ResponseOf(v: Vitals.VitalsResult, steps: real, timestamp: string, temperature: real): (r: Option<ResponseData>)
    ensures r.Some? <==> v.heartRate != 0 && v.spO2.Some? && v.spO2.value != 0
    ensures r.Some? ==> r.value.bpm == v.heartRate && r.value.spo2 == v.spO2.value
    ensures r.Some? ==> r.value.stepCount == steps && r.value.timestamp == timestamp && r.value.temperature == temperature
  {
    if v.heartRate != 0 && v.spO2.Some? && v.spO2.value != 0 then
      Some(ResponseData(v.heartRate, v.spO2.value, steps, timestamp, temperature))
    else None
  }

  /** `processBuffers` on a state: with 100 or more samples in both buffers the
      estimator runs; on success the oldest pair is evicted, on error both
      buffers are emptied; otherwise nothing changes. */
  function Process(s: BufferState, steps: real, timestamp: string, temperature: real): (BufferState, Option<ResponseData>)
  {
    if |s.irBuffer| >= BufferSize && |s.redirBuffer| >= BufferSize then
      match Vitals.Vitals(s.irBuffer, s.redirBuffer)
      case Ok(v) =>
        (s.(irBuffer := s.irBuffer[1..], redirBuffer := s.redirBuffer[1..]), ResponseOf(v, steps, timestamp, temperature))
      case Err(_) =>
        (s.(irBuffer := [], redirBuffer := []), None)
    else (s, None)
  }

  /** Queue a result: drop the oldest when more than three are queued, then
      append. The queue keeps the newest entries in arrival order. */
  function Enqueue(queue: seq<ResponseData>, d: ResponseData): (r: seq<ResponseData>)
    ensures |r| == if |queue| > QueueShiftAbove then |queue| else |queue| + 1
    ensures |queue| <= QueueShiftAbove + 1 ==> |r| <= QueueShiftAbove + 1
    ensures r == (queue + [d])[|queue| + 1 - |r|..]
  {
    var kept := if |queue| > QueueShiftAbove then queue[1..] else queue;
    assert kept + [d] == (queue + [d])[|queue| + 1 - |kept + [d]|..];
    kept + [d]
  }

  /** `POST /sensor_data` on a state, the database write assumed to succeed. */
  function Submit(s: BufferState, data: SensorData, now: string): (BufferState, PostResponse)
  {
    var timestamp := EffectiveTimestamp(data.timeStamp, now);
    var pushed := s.(irBuffer := s.irBuffer + [data.ir], redirBuffer := s.redirBuffer + [data.redir]);
    var (after, result) := Process(pushed, data.steps, timestamp, data.temperature);
    if result.Some? then
      (after.(responseArr := Enqueue(after.responseArr, result.value)), Processed(result.value))
    else
      (after, Collecting(Progress(|after.irBuffer|)))
  }

  /** `GET /sensor_data` on a state: the oldest queued result, removed, or
      `None` (not found) on an empty queue. */
  function Fetch(s: BufferState): (BufferState, Option<ResponseData>)
  {
    if |s.responseArr| > 0 then (s.(responseArr := s.responseArr[1..]), Some(s.responseArr[0]))
    else (s, None)
  }

  // ---------------------------------------------------------------------------
  // Properties of the buffer discipline

  /** A successful estimate evicts exactly the oldest sample of each buffer,
      keeping the rest in order, whether or not a result is returned; the
      queue is untouched. */
  lemma {:induction false} ProcessShiftsOnSuccess(s: BufferState, steps: real, timestamp: string, temperature: real)
    requires |s.irBuffer| >= BufferSize && |s.redirBuffer| >= BufferSize
    requires Vitals.Vitals(s.irBuffer, s.redirBuffer).Ok?
    ensures var (s', _) := Process(s, steps, timestamp, temperature);
      && s'.irBuffer == s.irBuffer[1..] && s'.redirBuffer == s.redirBuffer[1..]
      && |s'.irBuffer| == |s.irBuffer| - 1
      && s'.responseArr == s.responseArr
    ensures Process(s, steps, timestamp, temperature).1 ==
      ResponseOf(Vitals.Vitals(s.irBuffer, s.redirBuffer).value, steps, timestamp, temperature)
  {
    var v := Vitals.Vitals(s.irBuffer, s.redirBuffer).value;
    assert Process(s, steps, timestamp, temperature) ==
      (s.(irBuffer := s.irBuffer[1..], redirBuffer := s.redirBuffer[1..]), ResponseOf(v, steps, timestamp, temperature));
  }

  /** When the estimator throws, both buffers are emptied and no result is
      returned; the queue is untouched. */
  lemma {:induction false} ProcessClearsOnError(s: BufferState, steps: real, timestamp: string, temperature: real)
    requires |s.irBuffer| >= BufferSize && |s.redirBuffer| >= BufferSize
    requires Vitals.Vitals(s.irBuffer, s.redirBuffer).Err?
    ensures Process(s, steps, timestamp, temperature) == (BufferState([], [], s.responseArr), None)
  {
    assert |s.irBuffer| != |s.redirBuffer|;
  }

  /** Below a full window in either buffer nothing happens. */
  lemma ProcessWaitsForFullWindow(s: BufferState, steps: real, timestamp: string, temperature: real)
    requires |s.irBuffer| < BufferSize || |s.redirBuffer| < BufferSize
    ensures Process(s, steps, timestamp, temperature) == (s, None)
  {
  }

  /** A result is returned only from a successful estimate on two full
      buffers. */
  lemma {:induction false} ProcessResultNeedsEstimate(s: BufferState, steps: real, timestamp: string, temperature: real)
    requires Process(s, steps, timestamp, temperature).1.Some?
    ensures |s.irBuffer| >= BufferSize && |s.redirBuffer| >= BufferSize
    ensures Vitals.Vitals(s.irBuffer, s.redirBuffer).Ok?
  {
    if |s.irBuffer| >= BufferSize && |s.redirBuffer| >= BufferSize && Vitals.Vitals(s.irBuffer, s.redirBuffer).Err? {
      ProcessClearsOnError(s, steps, timestamp, temperature);
    }
  }

  /** A full window of 100 equal-length samples never makes the estimator
      throw, its heart rate is never 0, and a defined SpO2 is never 0; so the
      result is dropped exactly when SpO2 is undefined. */
  lemma {:induction false} FullWindowResult(ir: seq<real>, red: seq<real>, steps: real, timestamp: string, temperature: real)
    requires |ir| == |red| == BufferSize
    ensures Vitals.Vitals(ir, red).Ok?
    ensures ResponseOf(Vitals.Vitals(ir, red).value, steps, timestamp, temperature).None? <==>
      Vitals.Vitals(ir, red).value.spO2.None?
  {
    Vitals.HeartRateOfFullWindow(ir, red);
    Vitals.Spo2OfWindow(ir, red);
  }

  /** One posted reading from a reachable state: below a full window the
      sample pair is appended and the progress is the new buffer length;
      otherwise the estimator sees exactly 100 samples, does not throw, and
      the window slides by one. The buffers are never cleared. */
  lemma {:induction false} SubmitSlidesWindow(s: BufferState, data: SensorData, now: string)
    requires Inv(s)
    ensures var (s', response) := Submit(s, data, now);
      && (|s.irBuffer| + 1 < BufferSize ==>
            s'.irBuffer == s.irBuffer + [data.ir] && s'.redirBuffer == s.redirBuffer + [data.redir]
            && response == Collecting(|s.irBuffer| + 1))
      && (|s.irBuffer| + 1 == BufferSize ==>
            Vitals.Vitals(s.irBuffer + [data.ir], s.redirBuffer + [data.redir]).Ok?
            && s'.irBuffer == (s.irBuffer + [data.ir])[1..] && s'.redirBuffer == (s.redirBuffer + [data.redir])[1..])
  {
    var ir, red := s.irBuffer + [data.ir], s.redirBuffer + [data.redir];
    var pushed := s.(irBuffer := ir, redirBuffer := red);
    var timestamp := EffectiveTimestamp(data.timeStamp, now);
    if |ir| == BufferSize {
      FullWindowResult(ir, red, data.steps, timestamp, data.temperature);
      ProcessShiftsOnSuccess(pushed, data.steps, timestamp, data.temperature);
    }
  }

  /** Every posted reading keeps the state reachable: equal buffer lengths,
      below 100 samples, and at most four queued results. */
  lemma {:induction false} SubmitPreservesInv(s: BufferState, data: SensorData, now: string)
    requires Inv(s)
    ensures Inv(Submit(s, data, now).0)
  {
    SubmitSlidesWindow(s, data, now);
  }

  /** A posted reading that completes a window is answered with a result
      exactly when the estimate's SpO2 is defined; otherwise with the progress
      99: the window has already slid. */
  lemma {:induction false} SubmitDropsUndefinedSpo2(s: BufferState, data: SensorData, now: string)
    requires Inv(s) && |s.irBuffer| + 1 == BufferSize
    ensures var v := Vitals.Vitals(s.irBuffer + [data.ir], s.redirBuffer + [data.redir]);
      && v.Ok?
      && (Submit(s, data, now).1.Processed? <==> v.value.spO2.Some?)
      && (Submit(s, data, now).1.Collecting? ==> Submit(s, data, now).1.progress == BufferSize - 1)
  {
    var ir, red := s.irBuffer + [data.ir], s.redirBuffer + [data.redir];
    var pushed := s.(irBuffer := ir, redirBuffer := red);
    var timestamp := EffectiveTimestamp(data.timeStamp, now);
    FullWindowResult(ir, red, data.steps, timestamp, data.temperature);
    ProcessShiftsOnSuccess(pushed, data.steps, timestamp, data.temperature);
  }

  /** Fetching from a reachable state keeps it reachable. */
  lemma FetchPreservesInv(s: BufferState)
    requires Inv(s)
    ensures Inv(Fetch(s).0)
    ensures Fetch(s).1.Some? <==> |s.responseArr| > 0
    ensures Fetch(s).1.Some? ==> [Fetch(s).1.value] + Fetch(s).0.responseArr == s.responseArr
  {
  }

  /** The server: the two sample buffers and the result queue, updated in
      place by the request handlers. */
  class Server {
    var irBuffer: seq<real>
    var redirBuffer: seq<real>
    var responseArr: seq<ResponseData>

    function State(): BufferState
      reads this
    {
      BufferState(irBuffer, redirBuffer, responseArr)
    }

    ghost predicate Valid()
      reads this
    {
      Inv(State())
    }

    /** Start-up: all three arrays empty. */
    constructor()
      ensures State() == BufferState([], [], [])
      ensures Valid()
    {
      irBuffer := [];
      redirBuffer := [];
      responseArr := [];
    }

    /** `processBuffers(steps, timestamp, temperature)`. */
    method ProcessBuffers(steps: real, timestamp: string, temperature: real) returns (result: Option<ResponseData>)
      modifies this
      ensures (State(), result) == Process(old(State()), steps, timestamp, temperature)
    {
      result := None;
      if |irBuffer| >= BufferSize && |redirBuffer| >= BufferSize {
        var vitals := Vitals.CalculateVitals(irBuffer, redirBuffer);
        if vitals.Ok? {
          irBuffer := irBuffer[1..];
          redirBuffer := redirBuffer[1..];
          result := ResponseOf(vitals.value, steps, timestamp, temperature);
        } else {
          irBuffer := [];
          redirBuffer := [];
        }
      }
    }

    /** `POST /sensor_data`: record the time stamp, push the sample pair, run
        `processBuffers`, and queue a returned result. */
    method PostSensorData(data: SensorData, now: string) returns (response: PostResponse)
      modifies this
      ensures (State(), response) == Submit(old(State()), data, now)
      ensures old(Valid()) ==> Valid()
    {
      ghost var s := State();
      var timestamp := EffectiveTimestamp(data.timeStamp, now);
      irBuffer := irBuffer + [data.ir];
      redirBuffer := redirBuffer + [data.redir];
      var processedData := ProcessBuffers(data.steps, timestamp, data.temperature);
      if processedData.Some? {
        if |responseArr| > QueueShiftAbove {
          responseArr := responseArr[1..];
        }
        responseArr := responseArr + [processedData.value];
        response := Processed(processedData.value);
      } else {
        response := Collecting(Progress(|irBuffer|));
      }
      if Inv(s) {
        SubmitPreservesInv(s, data, now);
      }
    }

    /** `GET /sensor_data`: shift the oldest queued result, or `None` (404). */
    method GetSensorData() returns (data: Option<ResponseData>)
      modifies this
      ensures (State(), data) == Fetch(old(State()))
      ensures old(Valid()) ==> Valid()
    {
      if |responseArr| > 0 {
        data := Some(responseArr[0]);
        responseArr := responseArr[1..];
      } else {
        data := None;
      }
    }

    /** `GET /flush`: empty the queue and both buffers. */
    method Flush()
      modifies this
      ensures State() == BufferState([], [], [])
      ensures Valid()
    {
      responseArr := [];
      irBuffer := [];
      redirBuffer := [];
    }
  }
}
