/**
 * Which logs a sampler can leave: any log of a run can be written again with any other processor time that does not run
 * backwards. So what a log shows apart from processor time says nothing about that time.
 */
module Replay {
  import opened Machine
  import opened Phases
  import opened Telemetry
  import opened TelemetryReader
  import opened CpuAverage
  import opened CpuBound

  // ---- the shape of a log ----

  /** A record with its processor time erased: ticks and rates of both processes. */
  function WithoutCpu(record: Record): Record {
    match record.outcome
    case Sample(hz, _, _, server, rtc, traffic, workers) =>
      var rtc' := if rtc.None? then None else Some(rtc.value.(cpuTicks := 0));
      record.(outcome := Sample(hz, None, None, server.(cpuTicks := 0), rtc', traffic, workers))
    case _ => record
  }

  /** Two logs that differ in processor time at most. */
  predicate SameShape(log: seq<Record>, other: seq<Record>) {
    |log| == |other| && forall i | 0 <= i < |log| :: WithoutCpu(log[i]) == WithoutCpu(other[i])
  }

  lemma ShapeFacts(x: Record, y: Record, process: Process)
    requires WithoutCpu(x) == WithoutCpu(y)
    ensures x.elapsedMs == y.elapsedMs && x.finalSample == y.finalSample
    ensures x.outcome.Phase? == y.outcome.Phase? && x.outcome.Sample? == y.outcome.Sample?
    ensures Refused(x) == Refused(y) && Usable(x, process) == Usable(y, process)
    ensures CapturedIn(x, process).Some? == CapturedIn(y, process).Some?
  {
    hide WorkersValid;
    var a, b := WithoutCpu(x), WithoutCpu(y);
    assert a.outcome.Sample? ==> a.outcome.workers == b.outcome.workers && a.outcome.rtc == b.outcome.rtc;
  }

  lemma {:induction false} SameBase(log: seq<Record>, other: seq<Record>, process: Process)
    requires SameShape(log, other)
    ensures BaseOf(log, process) == BaseOf(other, process)
  {
    hide WithoutCpu, CapturedIn;
    if log != [] {
      var init, init' := log[..|log| - 1], other[..|log| - 1];
      SameBase(init, init', process);
      ShapeFacts(log[|log| - 1], other[|log| - 1], process);
      var b := BaseOf(init, process);
      if b.Some? {
        ShapeFacts(init[b.value], init'[b.value], process);
      }
    }
  }

  lemma SameRefusedBases(log: seq<Record>, other: seq<Record>, process: Process)
    requires SameShape(log, other) && NoRefusedBase(log, process)
    ensures NoRefusedBase(other, process)
  {
    hide WithoutCpu, BaseOf, Refused, Usable;
    forall i | 0 <= i < |other| ensures BaseIsRead(other, process, i) {
      assert BaseIsRead(log, process, i);
      SameBase(log[..i], other[..i], process);
      ShapeFacts(log[i], other[i], process);
      var b := BaseOf(log[..i], process);
      if b.Some? {
        ShapeFacts(log[b.value], other[b.value], process);
      }
    }
  }

  // ---- what every written log is like ----

  /** Each process keeps one start time over a log. */
  predicate StartsAgree(log: seq<Record>) {
    forall i, j | 0 <= i < |log| && 0 <= j < |log| :: SameStarts(log[i], log[j])
  }

  predicate SameStarts(x: Record, y: Record) {
    x.outcome.Sample? && y.outcome.Sample? ==>
      && x.outcome.server.startTimeTicks == y.outcome.server.startTimeTicks
      && (x.outcome.rtc.Some? && y.outcome.rtc.Some? ==>
            x.outcome.rtc.value.startTimeTicks == y.outcome.rtc.value.startTimeTicks)
  }

  /** The sampler remembers the start times of what it has captured. */
  predicate StartsKept(s: Sampler) {
    forall i | 0 <= i < |s.output| :: StartKept(s, s.output[i])
  }

  predicate StartKept(s: Sampler, record: Record) {
    record.outcome.Sample? ==>
      && s.serverStartTime == Some(record.outcome.server.startTimeTicks)
      && (record.outcome.rtc.Some? ==> s.rtcStartTime == Some(record.outcome.rtc.value.startTimeTicks))
  }

  lemma StartsStay(s: Sampler, finalSample: bool, elapsedMs: u64, scrape: Scrape)
    requires StartsKept(s)
    ensures StartsKept(AfterRecord(s, finalSample, elapsedMs, scrape))
  {
    hide CpuPercentMilli, AdvancedSample;
    OutputIsUntouched(s, finalSample, elapsedMs, scrape);
    var s' := AfterRecord(s, finalSample, elapsedMs, scrape);
    StartTimesStay(s, finalSample, scrape);
    forall i | 0 <= i < |s'.output| ensures StartKept(s', s'.output[i]) {
      assert i < |s.output| ==> s'.output[i] == s.output[i] && StartKept(s, s.output[i]);
    }
  }

  /** A remembered start time is never replaced by another one. */
  lemma StartTimesStay(s: Sampler, finalSample: bool, scrape: Scrape)
    ensures var (server, rtc, _) := StartTimesAfter(s, finalSample, scrape);
      (s.serverStartTime.Some? ==> server == s.serverStartTime) && (s.rtcStartTime.Some? ==> rtc == s.rtcStartTime)
  {}

  lemma {:induction false} EventsKeepStarts(s: Sampler, events: seq<SamplerEvent>)
    requires StartsKept(s)
    ensures AfterEvents(s, events).Ok? ==> StartsKept(AfterEvents(s, events).value)
  {
    hide AfterRecord, StartsKept, Advanced;
    if events != [] && AfterEvents(s, events).Ok? {
      EventsKeepStarts(s, events[..|events| - 1]);
      var before := AfterEvents(s, events[..|events| - 1]).value;
      match events[|events| - 1]
      case Interval(elapsedMs, scrape) => StartsStay(before, false, elapsedMs, scrape);
      case Mark(phase, elapsedMs) => StartsStayAtPhase(before, phase, elapsedMs);
    }
  }

  lemma StartsStayAtPhase(s: Sampler, phase: ScenarioPhase, elapsedMs: u64)
    requires StartsKept(s)
    ensures AfterPhase(s, phase, elapsedMs).Ok? ==> StartsKept(AfterPhase(s, phase, elapsedMs).value)
  {
    var next := AfterPhase(s, phase, elapsedMs);
    if next.Ok? {
      forall i | 0 <= i < |next.value.output| ensures StartKept(next.value, next.value.output[i]) {
        assert i < |s.output| ==> next.value.output[i] == s.output[i] && StartKept(s, s.output[i]);
      }
    }
  }

  /** What a log must be like to be written by a run: complete, on one clock, with one start time per process. */
  predicate Writable(hz: u64, log: seq<Record>) {
    && CompleteLog(log) && RecordsInOrder(log) && StartsAgree(log)
    && forall i | 0 <= i < |log| :: RecordFits(log[i], hz)
  }

  /** A sampler run, on one clock and within the reader's record limit, that ends without error and leaves a log. */
  predicate Writes(hz: u64, first: SamplerEvent, events: seq<SamplerEvent>, last: SamplerEvent, log: seq<Record>) {
    && first.Interval? && last.Interval? && SamplerRun(hz, first, events, last).Ok?
    && SamplerRun(hz, first, events, last).value.output == log
    && |events| + 2 <= MAX_TELEMETRY_SAMPLES && ClockGoesOn([first] + events + [last])
  }

  lemma WrittenLog(hz: u64, first: SamplerEvent, events: seq<SamplerEvent>, last: SamplerEvent, log: seq<Record>,
                   process: Process)
    requires Writes(hz, first, events, last, log)
    ensures Writable(hz, log) && |log| == |events| + 2
    ensures Parsed(Lines(log)).samples == ReadSamples(log) && InTimeOrder(ReadSamples(log))
    ensures Chained(hz, Captures(log, process))
  {
    hide SamplerRun, Parsed, Lines, UsableCount, RefusedRecords, CountsAgree, PhasesProceed, CompleteLog, ReadSamples,
         InTimeOrder, Chained, RecordFits;
    WriterAndReaderAgree(hz, first, events, last);
    RunIsClocked(hz, first, events, last);
    RunKeepsChain(hz, first, events, last);
    FinishedLogIsComplete(hz, first, events, last);
    RunIsOrdered(hz, first, events, last);
    RunKeepsStarts(hz, first, events, last);
  }

  lemma RunIsOrdered(hz: u64, first: SamplerEvent, events: seq<SamplerEvent>, last: SamplerEvent)
    requires first.Interval? && last.Interval? && SamplerRun(hz, first, events, last).Ok?
    requires ClockGoesOn([first] + events + [last])
    ensures RecordsInOrder(SamplerRun(hz, first, events, last).value.output)
  {
    hide SamplerRun;
    RunFollowsEvents(hz, first, events, last);
    var log, all := SamplerRun(hz, first, events, last).value.output, [first] + events + [last];
    forall i, j | 0 <= i < j < |log| && log[i].outcome.Phase? == log[j].outcome.Phase?
      ensures log[i].elapsedMs <= log[j].elapsedMs
    {
      assert log[i].elapsedMs == all[i].elapsedMs && log[j].elapsedMs == all[j].elapsedMs;
    }
  }

  lemma RunKeepsStarts(hz: u64, first: SamplerEvent, events: seq<SamplerEvent>, last: SamplerEvent)
    requires first.Interval? && last.Interval? && SamplerRun(hz, first, events, last).Ok?
    ensures StartsAgree(SamplerRun(hz, first, events, last).value.output)
  {
    hide AfterRecord, StartKept;
    var start := AfterRecord(NewSampler(hz), false, first.elapsedMs, first.scrape);
    StartsStay(NewSampler(hz), false, first.elapsedMs, first.scrape);
    EventsKeepStarts(start, events);
    var s := AfterEvents(start, events).value;
    StartsStay(s, true, last.elapsedMs, last.scrape);
    var done := AfterRecord(s, true, last.elapsedMs, last.scrape);
    assert StartsKept(done);
    KeptStartsAgree(done);
  }

  lemma KeptStartsAgree(s: Sampler)
    requires StartsKept(s)
    ensures StartsAgree(s.output)
  {
    forall i, j | 0 <= i < |s.output| && 0 <= j < |s.output| ensures SameStarts(s.output[i], s.output[j]) {
      assert StartKept(s, s.output[i]) && StartKept(s, s.output[j]);
    }
  }

  // ---- writing a log again ----

  /** The event that leaves a record once more, with the given ticks for both processes. */
  function Replayed(record: Record, ticks: u64): SamplerEvent {
    match record.outcome
    case Phase(phase) => Mark(phase, record.elapsedMs)
    case Error => Interval(record.elapsedMs, Scrape(Err, Err, Err, Err))
    case Sample(_, _, _, server, rtc, traffic, workers) =>
      var rtc' := if rtc.None? then None else Some(rtc.value.(cpuTicks := ticks));
      Interval(record.elapsedMs, Scrape(Ok(Some(server.(cpuTicks := ticks))), Ok(rtc'), Ok(traffic), Ok(workers)))
  }

  predicate NotBackwards(ticks: seq<u64>) {
    forall i, j | 0 <= i <= j < |ticks| :: ticks[i] <= ticks[j]
  }

  predicate HasTicks(record: Record, ticks: u64) {
    record.outcome.Sample? ==>
      && record.outcome.server.cpuTicks == ticks
      && (record.outcome.rtc.Some? ==> record.outcome.rtc.value.cpuTicks == ticks)
  }

  function ProcessOf(record: Record, process: Process): Option<ProcessSample> {
    if !record.outcome.Sample? then None
    else if process == Server then Some(record.outcome.server)
    else record.outcome.rtc
  }

  /** The sample a process rate is measured from next is the base record's, with its ticks. */
  predicate RemembersBase(s: Sampler, log: seq<Record>, ticks: seq<u64>, n: nat, process: Process)
    requires n <= |log| == |ticks|
  {
    var base, previous := BaseOf(log[..n], process), Previous(s, process);
    && (base.None? <==> previous.None?)
    && (base.Some? ==>
          && previous.value.elapsedMs == log[base.value].elapsedMs
          && previous.value.process.cpuTicks == ticks[base.value]
          && ProcessOf(log[base.value], process).Some?
          && previous.value.process.startTimeTicks == ProcessOf(log[base.value], process).value.startTimeTicks)
  }

  predicate StartsFit(s: Sampler, log: seq<Record>) {
    forall i | 0 <= i < |log| :: StartFits(s, log[i])
  }

  predicate StartFits(s: Sampler, record: Record) {
    record.outcome.Sample? ==>
      && StartTimeHolds(s.serverStartTime, record.outcome.server)
      && (record.outcome.rtc.Some? ==> StartTimeHolds(s.rtcStartTime, record.outcome.rtc.value))
  }

  predicate Rewritten(record: Record, again: Record, ticks: u64) {
    WithoutCpu(again) == WithoutCpu(record) && HasTicks(again, ticks)
  }

  /** The sampler after the first n records of a log have been written again. */
  predicate Replaying(hz: u64, s: Sampler, log: seq<Record>, ticks: seq<u64>, n: nat)
    requires n <= |log| == |ticks|
  {
    && s.clockTicksPerSecond == hz && |s.output| == n && s.phaseCount == |PhaseRecords(log[..n])|
    && (forall i | 0 <= i < n :: Rewritten(log[i], s.output[i], ticks[i]))
    && StartsFit(s, log)
    && RemembersBase(s, log, ticks, n, Server) && RemembersBase(s, log, ticks, n, RtcGenerator)
  }

  lemma RateIsComputed(previous: Option<TimedSample>, elapsedMs: u64, sample: ProcessSample, hz: u64)
    requires hz > 0
    requires previous.Some? ==>
      && previous.value.process.startTimeTicks == sample.startTimeTicks && previous.value.elapsedMs <= elapsedMs
      && previous.value.process.cpuTicks <= sample.cpuTicks
    ensures CpuPercentMilli(previous, elapsedMs, sample, hz).Ok?
  {
    hide CpuRate;
  }

  lemma BaseSnoc(log: seq<Record>, n: nat, process: Process)
    requires n < |log|
    ensures var before := BaseOf(log[..n], process);
      BaseOf(log[..n + 1], process)
      == if ProcessOf(log[n], process).None? then before
         else if before.None? || log[before.value].elapsedMs < log[n].elapsedMs then Some(n)
         else before
  {
    assert log[..n + 1][..n] == log[..n];
  }

  /** The process's next capture succeeds. */
  lemma RateAgain(hz: u64, s: Sampler, log: seq<Record>, ticks: seq<u64>, n: nat, process: Process)
    requires hz > 0 && n < |log| == |ticks| && NotBackwards(ticks) && RecordsInOrder(log) && StartsAgree(log)
    requires RemembersBase(s, log, ticks, n, process) && ProcessOf(log[n], process).Some?
    ensures CpuPercentMilli(Previous(s, process), log[n].elapsedMs,
                            ProcessOf(log[n], process).value.(cpuTicks := ticks[n]), hz).Ok?
  {
    hide CpuPercentMilli, BaseOf, CapturedIn;
    var base, sample := BaseOf(log[..n], process), ProcessOf(log[n], process).value.(cpuTicks := ticks[n]);
    if base.Some? {
      assert SameStarts(log[base.value], log[n]);
    }
    RateIsComputed(Previous(s, process), log[n].elapsedMs, sample, hz);
  }

  /** The sampler's base moves exactly where the log's base moves. */
  lemma BaseMoves(s: Sampler, s': Sampler, log: seq<Record>, ticks: seq<u64>, n: nat, process: Process)
    requires n < |log| == |ticks|
    requires RemembersBase(s, log, ticks, n, process) && ProcessOf(log[n], process).Some?
    requires Previous(s', process)
          == AdvancedSample(Previous(s, process), log[n].elapsedMs,
                            ProcessOf(log[n], process).value.(cpuTicks := ticks[n]))
    ensures RemembersBase(s', log, ticks, n + 1, process)
  {
    hide BaseOf, CapturedIn;
    BaseSnoc(log, n, process);
  }

  lemma BaseRests(s: Sampler, s': Sampler, log: seq<Record>, ticks: seq<u64>, n: nat, process: Process)
    requires n < |log| == |ticks| && RemembersBase(s, log, ticks, n, process) && ProcessOf(log[n], process).None?
    requires Previous(s', process) == Previous(s, process)
    ensures RemembersBase(s', log, ticks, n + 1, process)
  {
    hide BaseOf, ProcessOf;
    BaseSnoc(log, n, process);
  }

  /** What one more capture of a recorded sample does, its rates being whatever they are. */
  lemma CapturedAgain(hz: u64, s: Sampler, record: Record, ticks: u64)
    requires record.outcome.Sample? && RecordFits(record, hz) && s.clockTicksPerSecond == hz && StartFits(s, record)
    requires var server, rtc := record.outcome.server.(cpuTicks := ticks), record.outcome.rtc;
      && CpuPercentMilli(s.previousServer, record.elapsedMs, server, hz).Ok?
      && (rtc.Some? ==> CpuPercentMilli(s.previousRtc, record.elapsedMs, rtc.value.(cpuTicks := ticks), hz).Ok?)
    ensures var server, rtc := record.outcome.server.(cpuTicks := ticks), record.outcome.rtc;
      var s' := AfterRecord(s, record.finalSample, record.elapsedMs, Replayed(record, ticks).scrape);
      && s'.clockTicksPerSecond == hz && s'.phaseCount == s.phaseCount && |s'.output| == |s.output| + 1
      && s'.output[..|s.output|] == s.output && Rewritten(record, s'.output[|s.output|], ticks)
      && s'.serverStartTime == Some(server.startTimeTicks)
      && s'.rtcStartTime == (if rtc.Some? then Some(rtc.value.startTimeTicks) else s.rtcStartTime)
      && s'.previousServer == AdvancedSample(s.previousServer, record.elapsedMs, server)
      && s'.previousRtc == (if rtc.None? then s.previousRtc
                            else AdvancedSample(s.previousRtc, record.elapsedMs, rtc.value.(cpuTicks := ticks)))
  {
    hide CpuPercentMilli, AdvancedSample;
  }

  /** Writing a captured sample again. */
  lemma ReplaysSample(hz: u64, s: Sampler, log: seq<Record>, ticks: seq<u64>, n: nat)
    requires hz > 0 && n < |log| == |ticks| && NotBackwards(ticks) && Writable(hz, log)
      && Replaying(hz, s, log, ticks, n)
    requires log[n].outcome.Sample?
    ensures Replaying(hz, AfterRecord(s, log[n].finalSample, log[n].elapsedMs, Replayed(log[n], ticks[n]).scrape), log,
                      ticks, n + 1)
  {
    hide CpuPercentMilli, AdvancedSample, BaseOf, RemembersBase, CompleteLog, PhaseRecords, AfterRecord, Rewritten,
         RecordFits;
    var record, c := log[n], ticks[n];
    var s' := AfterRecord(s, record.finalSample, record.elapsedMs, Replayed(record, c).scrape);
    assert StartFits(s, record) && RecordFits(record, hz);
    RateAgain(hz, s, log, ticks, n, Server);
    if record.outcome.rtc.Some? {
      RateAgain(hz, s, log, ticks, n, RtcGenerator);
    }
    CapturedAgain(hz, s, record, c);
    BaseMoves(s, s', log, ticks, n, Server);
    if record.outcome.rtc.Some? {
      BaseMoves(s, s', log, ticks, n, RtcGenerator);
    } else {
      BaseRests(s, s', log, ticks, n, RtcGenerator);
    }
    PhasesRest(log, n);
    forall i | 0 <= i < |log| ensures StartFits(s', log[i]) {
      assert SameStarts(log[i], record) && StartFits(s, log[i]);
    }
    forall i | 0 <= i < n + 1 ensures Rewritten(log[i], s'.output[i], ticks[i]) {
      assert i < n ==> s'.output[i] == s.output[i] && Rewritten(log[i], s.output[i], ticks[i]);
    }
  }

  /** Writing a failed capture again: every one of its answers fails. */
  lemma ReplaysError(hz: u64, s: Sampler, log: seq<Record>, ticks: seq<u64>, n: nat)
    requires n < |log| == |ticks| && Replaying(hz, s, log, ticks, n) && log[n].outcome.Error?
    ensures Replaying(hz, AfterRecord(s, log[n].finalSample, log[n].elapsedMs, Replayed(log[n], ticks[n]).scrape), log,
                      ticks, n + 1)
  {
    hide BaseOf, RemembersBase, PhaseRecords, StartFits;
    var record := log[n];
    var s' := AfterRecord(s, record.finalSample, record.elapsedMs, Replayed(record, ticks[n]).scrape);
    var written := Record(record.elapsedMs, record.finalSample, Error);
    assert s' == s.(errorCount := s'.errorCount, output := s.output + [written]);
    BaseRests(s, s', log, ticks, n, Server);
    BaseRests(s, s', log, ticks, n, RtcGenerator);
    PhasesRest(log, n);
    SameStartFits(s, s', log);
  }

  lemma SameStartFits(s: Sampler, s': Sampler, log: seq<Record>)
    requires StartsFit(s, log) && s'.serverStartTime == s.serverStartTime && s'.rtcStartTime == s.rtcStartTime
    ensures StartsFit(s', log)
  {
    forall i | 0 <= i < |log| ensures StartFits(s', log[i]) {
      assert StartFits(s, log[i]);
    }
  }

  /** Writing a phase again: it is the next one in order. */
  lemma ReplaysPhase(hz: u64, s: Sampler, log: seq<Record>, ticks: seq<u64>, n: nat)
    requires n < |log| == |ticks| && Writable(hz, log) && Replaying(hz, s, log, ticks, n) && log[n].outcome.Phase?
    ensures AfterPhase(s, log[n].outcome.phase, log[n].elapsedMs).Ok?
    ensures Replaying(hz, AfterPhase(s, log[n].outcome.phase, log[n].elapsedMs).value, log, ticks, n + 1)
  {
    hide BaseOf, RemembersBase, StartFits, RecordFits;
    NextPhase(log, n);
    hide PhaseRecords;
    var s' := AfterPhase(s, log[n].outcome.phase, log[n].elapsedMs).value;
    BaseRests(s, s', log, ticks, n, Server);
    BaseRests(s, s', log, ticks, n, RtcGenerator);
    PhasesRest(log, n);
    SameStartFits(s, s', log);
  }

  lemma {:induction false} PhasesSoFar(log: seq<Record>, n: nat)
    requires n <= |log|
    ensures PhaseRecords(log[..n]) <= PhaseRecords(log)
    decreases |log| - n
  {
    if n == |log| {
      assert log[..n] == log;
    } else {
      PhasesSoFar(log, n + 1);
      assert log[..n + 1][..n] == log[..n];
    }
  }

  lemma NextPhase(log: seq<Record>, n: nat)
    requires CompleteLog(log) && n < |log| && log[n].outcome.Phase?
    ensures |PhaseRecords(log[..n])| < |ORDERED| && log[n].outcome.phase == ORDERED[|PhaseRecords(log[..n])|]
    ensures !log[n].finalSample
  {
    PhasesSoFar(log, n + 1);
    assert log[..n + 1][..n] == log[..n];
    var k := |PhaseRecords(log[..n])|;
    assert PhaseRecords(log)[k] == PhaseRecords(log[..n + 1])[k];
  }

  lemma PhasesRest(log: seq<Record>, n: nat)
    requires n < |log|
    ensures |PhaseRecords(log[..n + 1])| == |PhaseRecords(log[..n])| + if log[n].outcome.Phase? then 1 else 0
  {
    assert log[..n + 1][..n] == log[..n];
  }

  function ReplayEvents(log: seq<Record>, ticks: seq<u64>): (events: seq<SamplerEvent>)
    requires |log| == |ticks|
    ensures |events| == |log|
  {
    seq(|log|, i requires 0 <= i < |log| => Replayed(log[i], ticks[i]))
  }

  lemma EventsStep(start: Sampler, events: seq<SamplerEvent>, n: nat, before: Sampler)
    requires 1 < n <= |events| && AfterEvents(start, events[1..n - 1]) == Ok(before)
    ensures AfterEvents(start, events[1..n]) ==
      match events[n - 1]
      case Interval(elapsedMs, scrape) => Ok(AfterRecord(before, false, elapsedMs, scrape))
      case Mark(phase, elapsedMs) => AfterPhase(before, phase, elapsedMs)
  {
    hide AfterRecord, AfterPhase;
    assert events[1..n][..n - 2] == events[1..n - 1] && events[1..n][n - 2] == events[n - 1];
  }

  lemma NoEventsYet(start: Sampler, events: seq<SamplerEvent>)
    requires events != []
    ensures AfterEvents(start, events[1..1]) == Ok(start)
  {
    hide AfterRecord, AfterPhase;
    assert events[1..1] == [];
  }

  lemma FirstIsObservation(hz: u64, log: seq<Record>)
    requires Writable(hz, log)
    ensures log != [] && !log[0].outcome.Phase?
  {
    hide RecordsInOrder, StartsAgree, RecordFits, PhaseRecords;
  }

  /** The loop has written the first n records again. */
  lemma {:induction false} ReplaysEvents(hz: u64, log: seq<Record>, ticks: seq<u64>, n: nat) returns (s: Sampler)
    requires hz > 0 && 1 <= n < |log| == |ticks| && NotBackwards(ticks) && Writable(hz, log)
    ensures var events := ReplayEvents(log, ticks);
      && events[0].Interval?
      && AfterEvents(AfterRecord(NewSampler(hz), false, events[0].elapsedMs, events[0].scrape), events[1..n]) == Ok(s)
    ensures Replaying(hz, s, log, ticks, n)
  {
    hide AfterRecord, AfterPhase, AfterEvents, Replaying, NewSampler, Writable, NotBackwards;
    var events := ReplayEvents(log, ticks);
    FirstIsObservation(hz, log);
    if n == 1 {
      ReplayBegins(hz, log, ticks);
      s := AfterRecord(NewSampler(hz), false, events[0].elapsedMs, events[0].scrape);
      ReplaysObservation(hz, NewSampler(hz), log, ticks, 0);
      NoEventsYet(s, events);
    } else {
      var before := ReplaysEvents(hz, log, ticks, n - 1);
      EventsStep(AfterRecord(NewSampler(hz), false, events[0].elapsedMs, events[0].scrape), events, n, before);
      if log[n - 1].outcome.Phase? {
        ReplaysPhase(hz, before, log, ticks, n - 1);
        s := AfterPhase(before, log[n - 1].outcome.phase, log[n - 1].elapsedMs).value;
      } else {
        ReplaysObservation(hz, before, log, ticks, n - 1);
        s := AfterRecord(before, false, log[n - 1].elapsedMs, events[n - 1].scrape);
      }
    }
  }

  lemma ReplayBegins(hz: u64, log: seq<Record>, ticks: seq<u64>)
    requires |log| == |ticks|
    ensures Replaying(hz, NewSampler(hz), log, ticks, 0)
  {}

  lemma ReplaysObservation(hz: u64, s: Sampler, log: seq<Record>, ticks: seq<u64>, n: nat)
    requires hz > 0 && n < |log| == |ticks| && NotBackwards(ticks) && Writable(hz, log)
      && Replaying(hz, s, log, ticks, n)
    requires !log[n].outcome.Phase?
    ensures var event := Replayed(log[n], ticks[n]);
      && event.Interval? && event.elapsedMs == log[n].elapsedMs
      && Replaying(hz, AfterRecord(s, n == |log| - 1, log[n].elapsedMs, event.scrape), log, ticks, n + 1)
  {
    hide AfterRecord, Replaying, PhaseRecords;
    if log[n].outcome.Sample? {
      ReplaysSample(hz, s, log, ticks, n);
    } else {
      ReplaysError(hz, s, log, ticks, n);
    }
  }

  /**
   * Every log a run leaves can be left with any other processor time that does not run backwards: there is a run that
   * writes the same log but for ticks and rates, with the given ticks.
   */
  lemma AnyTicksCanBeWritten(hz: u64, log: seq<Record>, ticks: seq<u64>)
    returns (first: SamplerEvent, events: seq<SamplerEvent>, last: SamplerEvent, again: seq<Record>)
    requires hz > 0 && Writable(hz, log) && |log| == |ticks| && NotBackwards(ticks) && |log| <= MAX_TELEMETRY_SAMPLES
    ensures Writes(hz, first, events, last, again) && SameShape(log, again)
    ensures forall i | 0 <= i < |again| :: HasTicks(again[i], ticks[i])
  {
    hide AfterRecord, AfterEvents, Replaying, PhaseRecords;
    var all, m := ReplayEvents(log, ticks), |log| - 1;
    first, events, last := all[0], all[1..m], all[m];
    var s := ReplaysEvents(hz, log, ticks, m);
    ReplaysObservation(hz, s, log, ticks, m);
    var done := AfterRecord(s, true, last.elapsedMs, last.scrape);
    again := done.output;
    ReplayIsComplete(hz, done, log, ticks);
    assert [first] + events + [last] == all;
    ReplayIsClocked(log, ticks);
  }

  lemma ReplayIsComplete(hz: u64, s: Sampler, log: seq<Record>, ticks: seq<u64>)
    requires CompleteLog(log) && |log| == |ticks| && Replaying(hz, s, log, ticks, |log|)
    ensures s.phaseCount == |ORDERED| && SameShape(log, s.output)
    ensures forall i | 0 <= i < |s.output| :: HasTicks(s.output[i], ticks[i])
  {
    hide BaseOf, RemembersBase, WithoutCpu, HasTicks, PhaseRecords;
    assert log[..|log|] == log;
    forall i | 0 <= i < |log| ensures WithoutCpu(log[i]) == WithoutCpu(s.output[i]) && HasTicks(s.output[i], ticks[i]) {
      assert Rewritten(log[i], s.output[i], ticks[i]);
    }
  }

  lemma ReplayIsClocked(log: seq<Record>, ticks: seq<u64>)
    requires RecordsInOrder(log) && |log| == |ticks|
    ensures ClockGoesOn(ReplayEvents(log, ticks))
  {
    var events := ReplayEvents(log, ticks);
    forall i, j | 0 <= i < j < |events| && events[i].Mark? == events[j].Mark?
      ensures events[i].elapsedMs <= events[j].elapsedMs
    {
      assert log[i].outcome.Phase? == log[j].outcome.Phase?;
    }
  }
}
