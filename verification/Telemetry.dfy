/** The telemetry sampler: what it records, how it computes CPU rates, and the log it leaves. */
module Telemetry {
  import opened Machine
  import opened Phases

  datatype ProcessSample = ProcessSample(cpuTicks: u64, startTimeTicks: u64)

  datatype TimedSample = TimedSample(elapsedMs: u64, process: ProcessSample)

  datatype Traffic = Traffic(
    ingressPackets: u64, ingressPayloadBytes: u64, egressPackets: u64, egressPayloadBytes: u64,
    forwardedPackets: u64, forwardedPayloadBytes: u64)

  datatype Worker = Worker(mediaWorkerId: nat, egressBitrateBps: u64)

  /** The four answers one capture waits for, each of which may fail. */
  datatype Scrape = Scrape(
    server: Result<Option<ProcessSample>>, rtc: Result<Option<ProcessSample>>, traffic: Result<Traffic>,
    workers: Result<seq<Worker>>)

  datatype Outcome =
    | Sample(clockTicksPerSecond: u64, serverCpu: Option<u64>, rtcCpu: Option<u64>, server: ProcessSample,
             rtc: Option<ProcessSample>, traffic: Traffic, workers: seq<Worker>)
    | Error
    | Phase(phase: ScenarioPhase)

  datatype Record = Record(elapsedMs: u64, finalSample: bool, outcome: Outcome)

  /** A u128 value narrowed to u64, at the maximum where it does not fit. */
  function Clamped(n: nat): u64 {
    Sat(n)
  }

  /** Thousandths of a percent of one processor, rounded down; the u128 products cannot overflow. */
  function CpuRate(ticks: u64, clockTicksPerSecond: u64, elapsedMs: u64): u64
    requires clockTicksPerSecond > 0 && elapsedMs > 0
  {
    Clamped(Scaled(ticks) / Product(clockTicksPerSecond, elapsedMs))
  }

  function Scaled(ticks: nat): nat {
    ticks * 100_000_000
  }

  function Product(a: nat, b: nat): (p: nat)
    ensures a > 0 && b > 0 ==> p > 0
  {
    a * b
  }

  function CpuPercentMilli(previous: Option<TimedSample>, elapsedMs: u64, process: ProcessSample,
                           clockTicksPerSecond: u64): Result<Option<u64>>
  {
    if previous.None? then Ok(None)
    else if previous.value.process.startTimeTicks != process.startTimeTicks then Err
    else
      var elapsed :- CheckedSub(elapsedMs, previous.value.elapsedMs);
      if elapsed == 0 then Ok(None)
      else
        var ticks :- CheckedSub(process.cpuTicks, previous.value.process.cpuTicks);
        if clockTicksPerSecond == 0 then Err else Ok(Some(CpuRate(ticks, clockTicksPerSecond, elapsed)))
  }

  function AdvancedSample(previous: Option<TimedSample>, elapsedMs: u64, process: ProcessSample): Option<TimedSample> {
    if previous.None? || elapsedMs > previous.value.elapsedMs then Some(TimedSample(elapsedMs, process)) else previous
  }

  /** The sampler's fields as a value. */
  datatype Sampler = Sampler(
    clockTicksPerSecond: u64, serverStartTime: Option<u64>, rtcStartTime: Option<u64>,
    previousServer: Option<TimedSample>, previousRtc: Option<TimedSample>, sampleCount: u64, errorCount: u64,
    phaseCount: nat, output: seq<Record>)

  function NewSampler(clockTicksPerSecond: u64): Sampler {
    Sampler(clockTicksPerSecond, None, None, None, None, 0, 0, 0, [])
  }

  /** A start time seen before must be seen again. */
  predicate StartTimeHolds(expected: Option<u64>, sample: ProcessSample) {
    expected.None? || expected.value == sample.startTimeTicks
  }

  /** The start times a capture remembers, even when a later part of it fails; `None` when one does not hold. */
  function StartTimesAfter(s: Sampler, finalSample: bool, scrape: Scrape): (Option<u64>, Option<u64>, bool) {
    if scrape.server.Err? || scrape.server.value.None? || !StartTimeHolds(s.serverStartTime, scrape.server.value.value)
    then (s.serverStartTime, s.rtcStartTime, false)
    else
      var serverStart := Some(scrape.server.value.value.startTimeTicks);
      if scrape.rtc.Err? then (serverStart, s.rtcStartTime, false)
      else if scrape.rtc.value.None? then (serverStart, s.rtcStartTime, finalSample)
      else if !StartTimeHolds(s.rtcStartTime, scrape.rtc.value.value) then (serverStart, s.rtcStartTime, false)
      else (serverStart, Some(scrape.rtc.value.value.startTimeTicks), true)
  }

  /** The sample a capture yields, given that both processes are there. */
  function CapturedSample(s: Sampler, elapsedMs: u64, scrape: Scrape): Result<Outcome>
    requires scrape.server.Ok? && scrape.server.value.Some? && scrape.rtc.Ok?
  {
    var server, rtc := scrape.server.value.value, scrape.rtc.value;
    var traffic :- scrape.traffic;
    var workers :- scrape.workers;
    var serverCpu :- CpuPercentMilli(s.previousServer, elapsedMs, server, s.clockTicksPerSecond);
    var rtcCpu :- if rtc.None? then Ok(None)
      else CpuPercentMilli(s.previousRtc, elapsedMs, rtc.value, s.clockTicksPerSecond);
    Ok(Sample(s.clockTicksPerSecond, serverCpu, rtcCpu, server, rtc, traffic, workers))
  }

  function CaptureResult(s: Sampler, finalSample: bool, elapsedMs: u64, scrape: Scrape): Result<Outcome> {
    if StartTimesAfter(s, finalSample, scrape).2 then CapturedSample(s, elapsedMs, scrape) else Err
  }

  function AfterCapture(s: Sampler, finalSample: bool, elapsedMs: u64, scrape: Scrape): Sampler {
    var (serverStart, rtcStart, _) := StartTimesAfter(s, finalSample, scrape);
    var result := CaptureResult(s, finalSample, elapsedMs, scrape);
    var kept := s.(serverStartTime := serverStart, rtcStartTime := rtcStart);
    if result.Err? || !result.value.Sample? then kept
    else kept.(previousServer := AdvancedSample(s.previousServer, elapsedMs, result.value.server),
               previousRtc := if result.value.rtc.None? then s.previousRtc
                              else AdvancedSample(s.previousRtc, elapsedMs, result.value.rtc.value))
  }

  function AfterRecord(s: Sampler, finalSample: bool, elapsedMs: u64, scrape: Scrape): Sampler {
    var result, s' := CaptureResult(s, finalSample, elapsedMs, scrape), AfterCapture(s, finalSample, elapsedMs, scrape);
    if result.Ok? then
      var written := Record(elapsedMs, finalSample, result.value);
      s'.(sampleCount := SaturatingAdd(s.sampleCount, 1), output := s.output + [written])
    else
      s'.(errorCount := SaturatingAdd(s.errorCount, 1), output := s.output + [Record(elapsedMs, finalSample, Error)])
  }

  function AfterPhase(s: Sampler, phase: ScenarioPhase, elapsedMs: u64): Result<Sampler> {
    var count :- Advanced(s.phaseCount, phase);
    Ok(s.(phaseCount := count, output := s.output + [Record(elapsedMs, false, Phase(phase))]))
  }

  class SamplerState {
    const clockTicksPerSecond: u64
    var serverStartTime: Option<u64>
    var rtcStartTime: Option<u64>
    var previousServer: Option<TimedSample>
    var previousRtc: Option<TimedSample>
    var sampleCount: u64
    var errorCount: u64
    const phases: PhaseSequence
    var output: seq<Record>

    function Value(): Sampler
      reads this, phases
    {
      Sampler(clockTicksPerSecond, serverStartTime, rtcStartTime, previousServer, previousRtc, sampleCount, errorCount,
              phases.count, output)
    }

    constructor (clockTicksPerSecond: u64)
      ensures Value() == NewSampler(clockTicksPerSecond) && fresh(phases)
    {
      this.clockTicksPerSecond := clockTicksPerSecond;
      serverStartTime, rtcStartTime, previousServer, previousRtc := None, None, None, None;
      sampleCount, errorCount, output := 0, 0, [];
      phases := new PhaseSequence();
    }

    method VerifyStartTimes(finalSample: bool, scrape: Scrape) returns (ok: bool)
      modifies this
      ensures var (serverStart, rtcStart, holds) := StartTimesAfter(old(Value()), finalSample, scrape);
        ok == holds && Value() == old(Value()).(serverStartTime := serverStart, rtcStartTime := rtcStart)
    {
      if scrape.server.Err? || scrape.server.value.None? {
        return false;
      }
      var server := scrape.server.value.value;
      if serverStartTime.Some? {
        if server.startTimeTicks != serverStartTime.value {
          return false;
        }
      } else {
        serverStartTime := Some(server.startTimeTicks);
      }
      if scrape.rtc.Err? {
        return false;
      }
      if scrape.rtc.value.None? {
        return finalSample;
      }
      var rtc := scrape.rtc.value.value;
      if rtcStartTime.Some? {
        if rtc.startTimeTicks != rtcStartTime.value {
          return false;
        }
      } else {
        rtcStartTime := Some(rtc.startTimeTicks);
      }
      return true;
    }

    method Capture(finalSample: bool, elapsedMs: u64, scrape: Scrape) returns (result: Result<Outcome>)
      modifies this
      ensures result == CaptureResult(old(Value()), finalSample, elapsedMs, scrape)
      ensures Value() == AfterCapture(old(Value()), finalSample, elapsedMs, scrape)
    {
      hide CpuPercentMilli, AdvancedSample;
      var ok := VerifyStartTimes(finalSample, scrape);
      if !ok || scrape.traffic.Err? || scrape.workers.Err? {
        return Err;
      }
      var server, rtc := scrape.server.value.value, scrape.rtc.value;
      var serverCpu := CpuPercentMilli(previousServer, elapsedMs, server, clockTicksPerSecond);
      if serverCpu.Err? {
        return Err;
      }
      var rtcCpu: Result<Option<u64>> := Ok(None);
      if rtc.Some? {
        rtcCpu := CpuPercentMilli(previousRtc, elapsedMs, rtc.value, clockTicksPerSecond);
        if rtcCpu.Err? {
          return Err;
        }
      }
      previousServer := AdvancedSample(previousServer, elapsedMs, server);
      if rtc.Some? {
        previousRtc := AdvancedSample(previousRtc, elapsedMs, rtc.value);
      }
      return Ok(Sample(clockTicksPerSecond, serverCpu.value, rtcCpu.value, server, rtc, scrape.traffic.value,
                       scrape.workers.value));
    }

    method RecordSample(finalSample: bool, elapsedMs: u64, scrape: Scrape)
      modifies this
      ensures Value() == AfterRecord(old(Value()), finalSample, elapsedMs, scrape)
    {
      hide CaptureResult, AfterCapture;
      OutputIsUntouched(Value(), finalSample, elapsedMs, scrape);
      var result := Capture(finalSample, elapsedMs, scrape);
      var outcome;
      if result.Ok? {
        sampleCount := SaturatingAdd(sampleCount, 1);
        outcome := result.value;
      } else {
        errorCount := SaturatingAdd(errorCount, 1);
        outcome := Error;
      }
      output := output + [Record(elapsedMs, finalSample, outcome)];
    }

    method RecordPhase(phase: ScenarioPhase, elapsedMs: u64) returns (ok: bool)
      modifies this, phases
      ensures ok <==> AfterPhase(old(Value()), phase, elapsedMs).Ok?
      ensures Value() == if ok then AfterPhase(old(Value()), phase, elapsedMs).value else old(Value())
    {
      ok := phases.Advance(phase);
      if ok {
        output := output + [Record(elapsedMs, false, Phase(phase))];
      }
    }
  }

  lemma OutputIsUntouched(s: Sampler, finalSample: bool, elapsedMs: u64, scrape: Scrape)
    ensures var s' := AfterCapture(s, finalSample, elapsedMs, scrape);
      && s'.output == s.output && s'.phaseCount == s.phaseCount
      && s'.sampleCount == s.sampleCount && s'.errorCount == s.errorCount
      && s'.clockTicksPerSecond == s.clockTicksPerSecond
  {}

  /** What the sampler loop reacts to: its interval, phase commands, and the command to finish. */
  datatype SamplerEvent = Interval(elapsedMs: u64, scrape: Scrape) | Mark(phase: ScenarioPhase, elapsedMs: u64)

  /** The sampler after its first record and some events; an error ends it. */
  function AfterEvents(s: Sampler, events: seq<SamplerEvent>): Result<Sampler> {
    if events == [] then Ok(s)
    else
      var before :- AfterEvents(s, events[..|events| - 1]);
      match events[|events| - 1]
      case Interval(elapsedMs, scrape) => Ok(AfterRecord(before, false, elapsedMs, scrape))
      case Mark(phase, elapsedMs) => AfterPhase(before, phase, elapsedMs)
  }

  /** A whole sampler run: the record at the start, the loop, the final record, and the phase check at the end. */
  function SamplerRun(clockTicksPerSecond: u64, first: SamplerEvent, events: seq<SamplerEvent>, last: SamplerEvent)
    : Result<Sampler>
    requires first.Interval? && last.Interval?
  {
    var s :- AfterEvents(AfterRecord(NewSampler(clockTicksPerSecond), false, first.elapsedMs, first.scrape), events);
    var done := AfterRecord(s, true, last.elapsedMs, last.scrape);
    if done.phaseCount == |ORDERED| then Ok(done) else Err
  }

  datatype TelemetrySummary = TelemetrySummary(sampleCount: u64, errorCount: u64)

  method RunSampler(clockTicksPerSecond: u64, first: SamplerEvent, events: seq<SamplerEvent>, last: SamplerEvent)
    returns (log: seq<Record>, summary: Result<TelemetrySummary>)
    requires first.Interval? && last.Interval?
    ensures var run := SamplerRun(clockTicksPerSecond, first, events, last);
      && (summary.Ok? <==> run.Ok?)
      && (run.Ok? ==>
           log == run.value.output && summary.value == TelemetrySummary(run.value.sampleCount, run.value.errorCount))
  {
    hide AfterRecord, Advanced;
    var state := new SamplerState(clockTicksPerSecond);
    state.RecordSample(false, first.elapsedMs, first.scrape);
    ghost var start := state.Value();
    for i := 0 to |events|
      invariant fresh(state) && fresh(state.phases)
      invariant AfterEvents(start, events[..i]) == Ok(state.Value())
    {
      assert events[..i + 1][..i] == events[..i];
      match events[i]
      case Interval(elapsedMs, scrape) => state.RecordSample(false, elapsedMs, scrape);
      case Mark(phase, elapsedMs) =>
        var ok := state.RecordPhase(phase, elapsedMs);
        if !ok {
          ErrorStays(start, events, i + 1);
          return state.output, Err;
        }
    }
    assert events[..|events|] == events;
    state.RecordSample(true, last.elapsedMs, last.scrape);
    var complete := state.phases.Finish();
    log := state.output;
    summary := if complete then Ok(TelemetrySummary(state.sampleCount, state.errorCount)) else Err;
  }

  lemma {:induction false} ErrorStays(s: Sampler, events: seq<SamplerEvent>, n: nat)
    requires n <= |events| && AfterEvents(s, events[..n]).Err?
    ensures AfterEvents(s, events).Err?
    decreases |events|
  {
    if n == |events| {
      assert events[..n] == events;
    } else {
      assert events[..|events| - 1][..n] == events[..n];
      ErrorStays(s, events[..|events| - 1], n);
    }
  }
}
