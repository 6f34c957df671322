/** Reading a telemetry log back, and its agreement with the sampler that wrote it. */
module TelemetryReader {
  import opened Machine
  import opened Phases
  import opened Telemetry

  const MAX_TELEMETRY_SAMPLES: nat := 10_000
  const MAX_TELEMETRY_WORKERS: nat := 64

  const TELEMETRY_SCHEMA_VERSION: u32 := 2

  /** One non-empty line of the log after JSON decoding; a gap is what could still be read of an unusable line. */
  datatype Line =
    | Malformed                                                                      // no JSON
    | Legacy(sample: Option<TelemetrySample>, gap: Option<TelemetrySample>)          // JSON without a status
    | Undecodable(gap: Option<TelemetrySample>)                                      // a status, but no record
    | Current(record: Record, schemaVersion: u32, finalSample: Option<bool>)

  datatype TelemetrySample = TelemetrySample(
    elapsedMs: u64, isGap: bool, finalSample: Option<bool>, clockTicksPerSecond: Option<u64>,
    serverCpuTicks: Option<u64>, serverStartTimeTicks: Option<u64>, rtcCpuTicks: Option<u64>,
    serverCpuPercentMilli: Option<u64>, rtcCpuPercentMilli: Option<u64>,
    ingressPackets: Option<u64>, ingressPayloadBytes: Option<u64>, egressPackets: Option<u64>,
    egressPayloadBytes: Option<u64>, forwardedPackets: Option<u64>, forwardedPayloadBytes: Option<u64>,
    workers: seq<Worker>)

  datatype PhaseMarker = PhaseMarker(elapsedMs: u64, phase: ScenarioPhase)

  function Gap(elapsedMs: u64, finalSample: Option<bool>): TelemetrySample {
    TelemetrySample(elapsedMs, true, finalSample, None, None, None, None, None, None, None, None, None, None, None,
                    None, [])
  }

  /** Few enough workers, small identities, and none of them twice. */
  predicate WorkersValid(workers: seq<Worker>) {
    && |workers| <= MAX_TELEMETRY_WORKERS
    && (forall w | w in workers :: w.mediaWorkerId < MAX_TELEMETRY_WORKERS)
    && |(set w | w in workers :: w.mediaWorkerId)| == |workers|
  }

  function FromCurrent(elapsedMs: u64, finalSample: Option<bool>, outcome: Outcome): Option<TelemetrySample> {
    if !outcome.Sample? || !WorkersValid(outcome.workers) then None
    else Some(TelemetrySample(
      elapsedMs, false, finalSample, Some(outcome.clockTicksPerSecond), Some(outcome.server.cpuTicks),
      Some(outcome.server.startTimeTicks), if outcome.rtc.Some? then Some(outcome.rtc.value.cpuTicks) else None,
      outcome.serverCpu, outcome.rtcCpu,
      Some(outcome.traffic.ingressPackets), Some(outcome.traffic.ingressPayloadBytes),
      Some(outcome.traffic.egressPackets), Some(outcome.traffic.egressPayloadBytes),
      Some(outcome.traffic.forwardedPackets), Some(outcome.traffic.forwardedPayloadBytes), outcome.workers))
  }

  function PhaseOrdinal(phase: ScenarioPhase): nat {
    match phase case Setup => 0 case Warmup => 1 case Measured => 2 case Drain => 3
  }

  function NewMarker(elapsedMs: u64, phase: ScenarioPhase, previous: Option<PhaseMarker>): Result<PhaseMarker> {
    var ordinal := if previous.Some? then PhaseOrdinal(previous.value.phase) + 1 else 0;
    if ordinal >= |ORDERED| || phase != ORDERED[ordinal] then Err
    else if previous.Some? && elapsedMs < previous.value.elapsedMs then Err
    else Ok(PhaseMarker(elapsedMs, phase))
  }

  datatype ReaderState = ReaderState(
    samples: seq<TelemetrySample>, phases: seq<PhaseMarker>, unavailable: u64, records: nat, phasesRequired: bool)

  const EMPTY_READER := ReaderState([], [], 0, 0, false)

  function Last<T>(s: seq<T>): Option<T> {
    if s == [] then None else Some(s[|s| - 1])
  }

  function Unavailable(r: ReaderState): ReaderState {
    r.(unavailable := SaturatingAdd(r.unavailable, 1))
  }

  function WithSample(r: ReaderState, sample: Option<TelemetrySample>): ReaderState {
    if sample.Some? then r.(samples := r.samples + [sample.value]) else r
  }

  function AfterCurrent(r: ReaderState, record: Record, schemaVersion: u32, finalSample: Option<bool>): ReaderState {
    var seen := r.(phasesRequired := r.phasesRequired || schemaVersion >= TELEMETRY_SCHEMA_VERSION);
    var gap := Some(Gap(record.elapsedMs, finalSample));
    match record.outcome
    case Phase(phase) =>
      var marker := NewMarker(record.elapsedMs, phase, Last(r.phases));
      if marker.Ok? then seen.(phases := r.phases + [marker.value]) else Unavailable(seen)
    case Error => WithSample(Unavailable(seen), gap)
    case Sample(_, _, _, _, _, _, _) =>
      var sample := FromCurrent(record.elapsedMs, finalSample, record.outcome);
      if sample.Some? then WithSample(seen, sample) else WithSample(Unavailable(seen), gap)
  }

  function AfterLine(r: ReaderState, line: Line): ReaderState {
    if r.records >= MAX_TELEMETRY_SAMPLES then Unavailable(r)
    else
      var counted := r.(records := r.records + 1);
      match line
      case Malformed => Unavailable(counted)
      case Legacy(sample, gap) =>
        if sample.Some? then WithSample(counted, sample) else WithSample(Unavailable(counted), gap)
      case Undecodable(gap) => WithSample(Unavailable(counted), gap)
      case Current(record, schemaVersion, finalSample) => AfterCurrent(counted, record, schemaVersion, finalSample)
  }

  function AfterLines(lines: seq<Line>): ReaderState {
    if lines == [] then EMPTY_READER else AfterLine(AfterLines(lines[..|lines| - 1]), lines[|lines| - 1])
  }

  datatype SampleSet = SampleSet(samples: seq<TelemetrySample>, phases: seq<PhaseMarker>, unavailable: u64)

  function Parsed(lines: seq<Line>): SampleSet {
    var r := AfterLines(lines);
    var incomplete := (r.phasesRequired || r.phases != []) && |r.phases| != |ORDERED|;
    SampleSet(SortedByTime(r.samples), r.phases, if incomplete then SaturatingAdd(r.unavailable, 1) else r.unavailable)
  }

  // ---- the stable sort by elapsed time ----

  function InsertedByTime(sorted: seq<TelemetrySample>, x: TelemetrySample): seq<TelemetrySample> {
    if sorted == [] || sorted[|sorted| - 1].elapsedMs <= x.elapsedMs then sorted + [x]
    else InsertedByTime(sorted[..|sorted| - 1], x) + [sorted[|sorted| - 1]]
  }

  function SortedByTime(samples: seq<TelemetrySample>): seq<TelemetrySample> {
    if samples == [] then [] else InsertedByTime(SortedByTime(samples[..|samples| - 1]), samples[|samples| - 1])
  }

  /** The samples taken at one time, in order. */
  function AtTime(samples: seq<TelemetrySample>, time: u64): seq<TelemetrySample> {
    if samples == [] then []
    else
      var rest, last := AtTime(samples[..|samples| - 1], time), samples[|samples| - 1];
      if last.elapsedMs == time then rest + [last] else rest
  }

  lemma AtTimeSnoc(samples: seq<TelemetrySample>, x: TelemetrySample, time: u64)
    ensures AtTime(samples + [x], time) == AtTime(samples, time) + if x.elapsedMs == time then [x] else []
  {
    assert (samples + [x])[..|samples|] == samples;
  }

  /** An inserted sample goes behind those of its own time and passes only later ones. */
  lemma {:induction false} InsertIsStable(sorted: seq<TelemetrySample>, x: TelemetrySample, time: u64)
    ensures AtTime(InsertedByTime(sorted, x), time) == AtTime(sorted + [x], time)
  {
    hide AtTime;
    if sorted != [] && sorted[|sorted| - 1].elapsedMs > x.elapsedMs {
      var init, last := sorted[..|sorted| - 1], sorted[|sorted| - 1];
      InsertIsStable(init, x, time);
      AtTimeSnoc(InsertedByTime(init, x), last, time);
      AtTimeSnoc(init, x, time);
      AtTimeSnoc(init, last, time);
      AtTimeSnoc(sorted, x, time);
      assert sorted == init + [last];
    }
  }

  predicate InTimeOrder(samples: seq<TelemetrySample>) {
    forall i, j | 0 <= i < j < |samples| :: samples[i].elapsedMs <= samples[j].elapsedMs
  }

  lemma {:induction false} InsertKeeps(sorted: seq<TelemetrySample>, x: TelemetrySample)
    requires InTimeOrder(sorted)
    ensures InTimeOrder(InsertedByTime(sorted, x))
    ensures multiset(InsertedByTime(sorted, x)) == multiset(sorted + [x])
  {
    if sorted != [] && sorted[|sorted| - 1].elapsedMs > x.elapsedMs {
      var init, last := sorted[..|sorted| - 1], sorted[|sorted| - 1];
      OrderedBefore(sorted);
      InsertKeeps(init, x);
      assert sorted == init + [last];
      var r := InsertedByTime(init, x);
      hide InsertedByTime;
      SameMembers(r, init, x, last);
      hide InTimeOrder;
      assert InTimeOrder(r + [last]) by { AppendLast(r, last); }
    }
  }

  lemma AppendLast(r: seq<TelemetrySample>, last: TelemetrySample)
    requires InTimeOrder(r) && forall y | y in r :: y.elapsedMs <= last.elapsedMs
    ensures InTimeOrder(r + [last])
  {}

  lemma SameMembers(r: seq<TelemetrySample>, init: seq<TelemetrySample>, x: TelemetrySample, last: TelemetrySample)
    requires multiset(r) == multiset(init + [x]) && InTimeOrder(init + [last]) && x.elapsedMs < last.elapsedMs
    ensures multiset(r + [last]) == multiset(init + [last] + [x])
    ensures forall y | y in r :: y.elapsedMs <= last.elapsedMs
  {
    assert multiset(init + [last] + [x]) == multiset(init + [x]) + multiset{last};
    forall y | y in r ensures y.elapsedMs <= last.elapsedMs {
      assert y in multiset(r);
      assert y in init + [x];
      var s := init + [last];
      if y in init {
        var i :| 0 <= i < |init| && init[i] == y;
        assert s[i] == y && s[|init|] == last;
      }
    }
  }

  lemma InsertLast(sorted: seq<TelemetrySample>, x: TelemetrySample)
    requires InTimeOrder(sorted + [x])
    ensures InsertedByTime(sorted, x) == sorted + [x]
  {
    var s := sorted + [x];
    assert sorted != [] ==> s[|sorted| - 1].elapsedMs <= s[|sorted|].elapsedMs;
  }

  lemma NoDisorder()
    ensures InTimeOrder([])
  {}

  lemma OrderedBefore(samples: seq<TelemetrySample>)
    requires samples != [] && InTimeOrder(samples)
    ensures InTimeOrder(samples[..|samples| - 1])
  {}

  /**
   * Sorting reorders the samples by time, loses none, keeps those of any one time in their order, and leaves a log
   * written in time order as it is.
   */
  lemma {:induction false} SortIsStable(samples: seq<TelemetrySample>)
    ensures InTimeOrder(SortedByTime(samples)) && multiset(SortedByTime(samples)) == multiset(samples)
    ensures forall time :: AtTime(SortedByTime(samples), time) == AtTime(samples, time)
    ensures InTimeOrder(samples) ==> SortedByTime(samples) == samples
  {
    hide InTimeOrder, InsertedByTime, AtTime;
    if samples == [] {
      assert InTimeOrder([]) by { NoDisorder(); }
    } else {
      var init, last := samples[..|samples| - 1], samples[|samples| - 1];
      SortIsStable(init);
      InsertKeeps(SortedByTime(init), last);
      assert samples == init + [last];
      if InTimeOrder(samples) {
        OrderedBefore(samples);
        InsertLast(init, last);
      }
      assert multiset(SortedByTime(init) + [last]) == multiset(init) + multiset{last};
      forall time ensures AtTime(SortedByTime(samples), time) == AtTime(samples, time) {
        InsertIsStable(SortedByTime(init), last, time);
        AtTimeSnoc(SortedByTime(init), last, time);
        AtTimeSnoc(init, last, time);
      }
    }
  }

  method ParseCurrentRecord(r: ReaderState, record: Record, schemaVersion: u32, finalSample: Option<bool>)
    returns (r': ReaderState)
    ensures r' == AfterCurrent(r, record, schemaVersion, finalSample)
  {
    var samples, phases, unavailable := r.samples, r.phases, r.unavailable;
    if record.outcome.Phase? {
      var marker := NewMarker(record.elapsedMs, record.outcome.phase, Last(phases));
      if marker.Ok? {
        phases := phases + [marker.value];
      } else {
        unavailable := SaturatingAdd(unavailable, 1);
      }
    } else {
      var sample := FromCurrent(record.elapsedMs, finalSample, record.outcome);
      if sample.Some? {
        samples := samples + [sample.value];
      } else {
        unavailable := SaturatingAdd(unavailable, 1);
        samples := samples + [Gap(record.elapsedMs, finalSample)];
      }
    }
    r' := ReaderState(samples, phases, unavailable, r.records,
                      r.phasesRequired || schemaVersion >= TELEMETRY_SCHEMA_VERSION);
  }

  method ParseSamples(lines: seq<Line>) returns (parsed: SampleSet)
    ensures parsed == Parsed(lines)
  {
    hide AfterCurrent, SaturatingAdd, SortedByTime;
    var r := EMPTY_READER;
    for i := 0 to |lines|
      invariant r == AfterLines(lines[..i])
    {
      assert lines[..i + 1][..i] == lines[..i];
      if r.records >= MAX_TELEMETRY_SAMPLES {
        r := r.(unavailable := SaturatingAdd(r.unavailable, 1));
        continue;
      }
      r := r.(records := r.records + 1);
      match lines[i]
      case Malformed => r := r.(unavailable := SaturatingAdd(r.unavailable, 1));
      case Legacy(sample, gap) =>
        if sample.Some? {
          r := r.(samples := r.samples + [sample.value]);
        } else {
          r := r.(unavailable := SaturatingAdd(r.unavailable, 1));
          r := WithSample(r, gap);
        }
      case Undecodable(gap) =>
        r := r.(unavailable := SaturatingAdd(r.unavailable, 1));
        r := WithSample(r, gap);
      case Current(record, schemaVersion, finalSample) =>
        r := ParseCurrentRecord(r, record, schemaVersion, finalSample);
    }
    assert lines[..|lines|] == lines;
    var unavailable := r.unavailable;
    if (r.phasesRequired || r.phases != []) && |r.phases| != |ORDERED| {
      unavailable := SaturatingAdd(unavailable, 1);
    }
    parsed := SampleSet(SortedByTime(r.samples), r.phases, unavailable);
  }

  // ---- agreement with the writer ----

  /** The lines a log is read as: the writer spells out every field, in the current schema. */
  function Lines(log: seq<Record>): (r: seq<Line>)
    ensures |r| == |log|
  {
    seq(|log|, i requires 0 <= i < |log| => Current(log[i], TELEMETRY_SCHEMA_VERSION, Some(log[i].finalSample)))
  }

  /** Phase records of a log, in order. */
  function PhaseRecords(log: seq<Record>): seq<PhaseMarker> {
    if log == [] then []
    else
      var rest, last := PhaseRecords(log[..|log| - 1]), log[|log| - 1];
      if last.outcome.Phase? then rest + [PhaseMarker(last.elapsedMs, last.outcome.phase)] else rest
  }

  /** Sample and error records of a log, as the reader keeps them. */
  function ReadSamples(log: seq<Record>): seq<TelemetrySample> {
    if log == [] then []
    else
      var rest, last := ReadSamples(log[..|log| - 1]), log[|log| - 1];
      if last.outcome.Phase? then rest else rest + [ReadSample(last)]
  }

  function ReadSample(record: Record): TelemetrySample {
    var sample := FromCurrent(record.elapsedMs, Some(record.finalSample), record.outcome);
    if sample.Some? then sample.value else Gap(record.elapsedMs, Some(record.finalSample))
  }

  /** Nothing is lost or mixed up on the way: what a sample's record held can be read back off the sample. */
  lemma RecordReadsBack(record: Record)
    requires record.outcome.Sample? && WorkersValid(record.outcome.workers)
    ensures var x, o := ReadSample(record), record.outcome;
      && !x.isGap && x.elapsedMs == record.elapsedMs && x.finalSample == Some(record.finalSample)
      && Some(o.clockTicksPerSecond) == x.clockTicksPerSecond
      && Some(o.server.cpuTicks) == x.serverCpuTicks && Some(o.server.startTimeTicks) == x.serverStartTimeTicks
      && o.serverCpu == x.serverCpuPercentMilli && o.rtcCpu == x.rtcCpuPercentMilli && o.workers == x.workers
      && (if o.rtc.Some? then Some(o.rtc.value.cpuTicks) == x.rtcCpuTicks else x.rtcCpuTicks == None)
      && TrafficOf(x) == Some(o.traffic)
  {
    hide WorkersValid;
  }

  /** Six counters, each under its own name. */
  function TrafficOf(x: TelemetrySample): Option<Traffic> {
    var ingressPackets :- x.ingressPackets;
    var ingressPayloadBytes :- x.ingressPayloadBytes;
    var egressPackets :- x.egressPackets;
    var egressPayloadBytes :- x.egressPayloadBytes;
    var forwardedPackets :- x.forwardedPackets;
    var forwardedPayloadBytes :- x.forwardedPayloadBytes;
    Some(Traffic(ingressPackets, ingressPayloadBytes, egressPackets, egressPayloadBytes, forwardedPackets,
                 forwardedPayloadBytes))
  }

  /** Any other record that is no phase is read as a gap at its time. */
  lemma RecordReadsAsGap(record: Record)
    requires !record.outcome.Phase? && (record.outcome.Error? || !WorkersValid(record.outcome.workers))
    ensures ReadSample(record).isGap && ReadSample(record).elapsedMs == record.elapsedMs
    ensures ReadSample(record).finalSample == Some(record.finalSample) && TrafficOf(ReadSample(record)).None?
  {
    hide WorkersValid;
  }

  /** Worker data is valid if it names at most 64 workers, numbered below 64, none of them at two places. */
  lemma ValidWorkers(workers: seq<Worker>)
    ensures WorkersValid(workers) <==>
      && |workers| <= 64
      && (forall i | 0 <= i < |workers| :: workers[i].mediaWorkerId < 64)
      && forall i, j | 0 <= i < j < |workers| :: workers[i].mediaWorkerId != workers[j].mediaWorkerId
  {
    DistinctIds(workers);
    if forall i | 0 <= i < |workers| :: workers[i].mediaWorkerId < 64 {
      assert forall w | w in workers :: w.mediaWorkerId < 64;
    }
  }

  function Ids(workers: seq<Worker>): set<nat> {
    set w | w in workers :: w.mediaWorkerId
  }

  lemma {:induction false} DistinctIds(workers: seq<Worker>)
    ensures |Ids(workers)| <= |workers|
    ensures |Ids(workers)| == |workers| <==>
      forall i, j | 0 <= i < j < |workers| :: workers[i].mediaWorkerId != workers[j].mediaWorkerId
  {
    if workers != [] {
      var init, last := workers[..|workers| - 1], workers[|workers| - 1];
      DistinctIds(init);
      IdsSnoc(init, last);
      assert workers == init + [last];
      hide Ids;
      if i :| 0 <= i < |init| && init[i].mediaWorkerId == last.mediaWorkerId {
        assert workers[i].mediaWorkerId == workers[|workers| - 1].mediaWorkerId;
      }
    }
  }

  lemma IdsSnoc(init: seq<Worker>, last: Worker)
    ensures var again := exists i :: 0 <= i < |init| && init[i].mediaWorkerId == last.mediaWorkerId;
      |Ids(init + [last])| == |Ids(init)| + if again then 0 else 1
  {
    assert Ids(init + [last]) == Ids(init) + {last.mediaWorkerId};
    if i :| 0 <= i < |init| && init[i].mediaWorkerId == last.mediaWorkerId {
      assert init[i] in init;
      assert last.mediaWorkerId in Ids(init);
      assert Ids(init + [last]) == Ids(init);
    } else {
      assert last.mediaWorkerId !in Ids(init);
    }
  }

  function SampleRecords(log: seq<Record>): nat {
    if log == [] then 0 else SampleRecords(log[..|log| - 1]) + if log[|log| - 1].outcome.Sample? then 1 else 0
  }

  function ErrorRecords(log: seq<Record>): nat {
    if log == [] then 0 else ErrorRecords(log[..|log| - 1]) + if log[|log| - 1].outcome.Error? then 1 else 0
  }

  /** Samples that the writer counted and the reader refuses for their worker data. */
  function RefusedRecords(log: seq<Record>): nat {
    if log == [] then 0 else RefusedRecords(log[..|log| - 1]) + if Refused(log[|log| - 1]) then 1 else 0
  }

  predicate Refused(record: Record) {
    record.outcome.Sample? && !WorkersValid(record.outcome.workers)
  }

  function UsableCount(samples: seq<TelemetrySample>): nat {
    if samples == [] then 0 else UsableCount(samples[..|samples| - 1]) + if samples[|samples| - 1].isGap then 0 else 1
  }

  /** The phases so far are the ordered ones, at times that do not go back. */
  predicate PhasesProceed(markers: seq<PhaseMarker>) {
    && |markers| <= |ORDERED|
    && (forall i | 0 <= i < |markers| :: markers[i].phase == ORDERED[i])
    && forall i, j | 0 <= i < j < |markers| :: markers[i].elapsedMs <= markers[j].elapsedMs
  }

  lemma ReadSampleIsGap(record: Record)
    ensures ReadSample(record).isGap <==> !record.outcome.Sample? || Refused(record)
    ensures Refused(record) ==> record.outcome.Sample?
  {
    hide WorkersValid;
  }

  /** Decoding gives samples that are no gaps, and gaps that are. */
  predicate Decoded(line: Line) {
    match line
    case Malformed => true
    case Legacy(sample, gap) => (sample.Some? ==> !sample.value.isGap) && (gap.Some? ==> gap.value.isGap)
    case Undecodable(gap) => gap.Some? ==> gap.value.isGap
    case Current(_, _, _) => true
  }

  lemma UsableSnoc(samples: seq<TelemetrySample>, x: TelemetrySample)
    ensures UsableCount(samples + [x]) == UsableCount(samples) + if x.isGap then 0 else 1
  {
    assert (samples + [x])[..|samples|] == samples;
  }

  /** Whatever the lines are, each of them is a sample that is no gap, an accepted phase, or counted as unavailable. */
  lemma {:induction false} EveryLineIsAccounted(lines: seq<Line>)
    requires forall line | line in lines :: Decoded(line)
    ensures var r := AfterLines(lines);
      && UsableCount(r.samples) + |r.phases| <= |lines|
      && r.unavailable == Sat(|lines| - UsableCount(r.samples) - |r.phases|)
      && r.records == if |lines| < MAX_TELEMETRY_SAMPLES then |lines| else MAX_TELEMETRY_SAMPLES
  {
    hide Decoded, UsableCount, AfterLine, SaturatingAdd;
    if lines == [] {
      NoLines();
    } else {
      var init, last := lines[..|lines| - 1], lines[|lines| - 1];
      assert lines == init + [last] && last in lines;
      EveryLineIsAccounted(init);
      LineIsAccounted(AfterLines(init), last);
      var r := AfterLines(init);
      SaturatingSum(|init| - UsableCount(r.samples) - |r.phases|, 1);
    }
  }

  lemma NoLines()
    ensures UsableCount([]) == 0 && Sat(0) == 0
  {}

  lemma LineIsAccounted(r: ReaderState, line: Line)
    requires Decoded(line)
    ensures var r' := AfterLine(r, line);
      && r'.records == (if r.records >= MAX_TELEMETRY_SAMPLES then r.records else r.records + 1)
      && if r'.unavailable == r.unavailable then
           UsableCount(r'.samples) + |r'.phases| == UsableCount(r.samples) + |r.phases| + 1
           || (UsableCount(r'.samples) + |r'.phases| == UsableCount(r.samples) + |r.phases|
               && SaturatingAdd(r.unavailable, 1) == r.unavailable)
         else
           UsableCount(r'.samples) + |r'.phases| == UsableCount(r.samples) + |r.phases|
           && r'.unavailable == SaturatingAdd(r.unavailable, 1)
  {
    hide UsableCount, WorkersValid, SaturatingAdd;
    forall x: TelemetrySample
      ensures UsableCount(r.samples + [x]) == UsableCount(r.samples) + if x.isGap then 0 else 1
    {
      UsableSnoc(r.samples, x);
    }
  }

  /** Whatever the lines are, the phases read are the ordered ones from the first on, at times that do not go back. */
  lemma {:induction false} PhasesReadInOrder(lines: seq<Line>)
    ensures PhasesProceed(AfterLines(lines).phases)
  {
    hide AfterLine, PhasesProceed;
    if lines == [] {
      assert PhasesProceed([]) by { NoPhaseYet(); }
    } else {
      PhasesReadInOrder(lines[..|lines| - 1]);
      LineKeepsPhases(AfterLines(lines[..|lines| - 1]), lines[|lines| - 1]);
    }
  }

  lemma NoPhaseYet()
    ensures PhasesProceed([])
  {}

  lemma LineKeepsPhases(r: ReaderState, line: Line)
    requires PhasesProceed(r.phases)
    ensures PhasesProceed(AfterLine(r, line).phases)
  {
    hide FromCurrent, SaturatingAdd;
    var phases := AfterLine(r, line).phases;
    assert phases == r.phases || (|r.phases| < |ORDERED| && phases == r.phases + [phases[|r.phases|]]);
  }

  lemma {:induction false} UsableAndRefused(log: seq<Record>)
    ensures UsableCount(ReadSamples(log)) + RefusedRecords(log) == SampleRecords(log)
    ensures SampleRecords(log) + ErrorRecords(log) <= |log|
  {
    hide ReadSample, Refused;
    if log != [] {
      UsableAndRefused(log[..|log| - 1]);
      ReadSampleIsGap(log[|log| - 1]);
    }
  }

  /** Within the record limit, reading keeps every sample, every phase, and counts what it cannot use. */
  lemma {:induction false} ReadingIsFaithful(log: seq<Record>)
    requires |log| <= MAX_TELEMETRY_SAMPLES && PhasesProceed(PhaseRecords(log))
    ensures AfterLines(Lines(log)) == ReaderState(
      ReadSamples(log), PhaseRecords(log), Sat(ErrorRecords(log) + RefusedRecords(log)), |log|, log != [])
  {
    NothingRead();
    hide AfterLine, PhasesProceed, ReadSamples, PhaseRecords, ErrorRecords, RefusedRecords, NewMarker, Last, Sat;
    if log == [] {
      assert Lines(log) == [];
    } else {
      var init, last := log[..|log| - 1], log[|log| - 1];
      assert Lines(log)[..|log| - 1] == Lines(init);
      PhasesProceedBefore(log);
      ReadingIsFaithful(init);
      ReadsOneMore(AfterLines(Lines(init)), log);
    }
  }

  lemma NothingRead()
    ensures ReadSamples([]) == [] && PhaseRecords([]) == [] && Sat(ErrorRecords([]) + RefusedRecords([])) == 0
    ensures AfterLines([]) == EMPTY_READER
  {}

  lemma {:induction false} PhasesProceedBefore(log: seq<Record>)
    requires log != [] && PhasesProceed(PhaseRecords(log))
    ensures PhasesProceed(PhaseRecords(log[..|log| - 1]))
    ensures log[|log| - 1].outcome.Phase? ==>
      NewMarker(log[|log| - 1].elapsedMs, log[|log| - 1].outcome.phase, Last(PhaseRecords(log[..|log| - 1]))).Ok?
  {
    var before, markers := PhaseRecords(log[..|log| - 1]), PhaseRecords(log);
    if log[|log| - 1].outcome.Phase? {
      assert markers[..|before|] == before && markers[|before|].phase == ORDERED[|before|];
      assert before != [] ==> before[|before| - 1] == markers[|before| - 1];
    }
  }

  lemma ReadsOneMore(r: ReaderState, log: seq<Record>)
    requires 0 < |log| <= MAX_TELEMETRY_SAMPLES
    requires var init := log[..|log| - 1];
      var errors := Sat(ErrorRecords(init) + RefusedRecords(init));
      r == ReaderState(ReadSamples(init), PhaseRecords(init), errors, |init|, init != [])
    requires var last := log[|log| - 1];
      last.outcome.Phase? ==> NewMarker(last.elapsedMs, last.outcome.phase, Last(r.phases)).Ok?
    ensures AfterLine(r, Lines(log)[|log| - 1]) == ReaderState(
      ReadSamples(log), PhaseRecords(log), Sat(ErrorRecords(log) + RefusedRecords(log)), |log|, true)
  {
    hide Sat, SaturatingAdd, WorkersValid, FromCurrent;
    SaturatingSum(ErrorRecords(log[..|log| - 1]) + RefusedRecords(log[..|log| - 1]), 1);
    FromCurrentNeedsWorkers(log[|log| - 1]);
  }

  lemma FromCurrentNeedsWorkers(record: Record)
    ensures FromCurrent(record.elapsedMs, Some(record.finalSample), record.outcome).Some?
       <==> record.outcome.Sample? && WorkersValid(record.outcome.workers)
  {}

  /** A log is complete when its first record is an observation, only its last is final, and all phases are in it. */
  predicate CompleteLog(log: seq<Record>) {
    && |log| >= 2 && !log[0].outcome.Phase? && !log[|log| - 1].outcome.Phase?
    && (forall i | 0 <= i < |log| :: log[i].finalSample <==> i == |log| - 1)
    && |PhaseRecords(log)| == |ORDERED| && (forall i | 0 <= i < |ORDERED| :: PhaseRecords(log)[i].phase == ORDERED[i])
  }

  /** What the sampler's counters say about the log it has written so far. */
  predicate CountsAgree(s: Sampler) {
    && s.sampleCount == Sat(SampleRecords(s.output)) && s.errorCount == Sat(ErrorRecords(s.output))
    && s.phaseCount == |PhaseRecords(s.output)| <= |ORDERED|
    && forall i | 0 <= i < s.phaseCount :: PhaseRecords(s.output)[i].phase == ORDERED[i]
  }

  lemma SnocRecord(log: seq<Record>, record: Record)
    ensures SampleRecords(log + [record]) == SampleRecords(log) + if record.outcome.Sample? then 1 else 0
    ensures ErrorRecords(log + [record]) == ErrorRecords(log) + if record.outcome.Error? then 1 else 0
    ensures PhaseRecords(log + [record])
         == PhaseRecords(log)
            + if record.outcome.Phase? then [PhaseMarker(record.elapsedMs, record.outcome.phase)] else []
    ensures ReadSamples(log + [record]) == ReadSamples(log) + if record.outcome.Phase? then [] else [ReadSample(record)]
  {
    assert (log + [record])[..|log|] == log;
  }

  lemma CapturedIsSample(s: Sampler, finalSample: bool, elapsedMs: u64, scrape: Scrape)
    ensures CaptureResult(s, finalSample, elapsedMs, scrape).Ok? ==>
      CaptureResult(s, finalSample, elapsedMs, scrape).value.Sample?
  {
    hide CpuPercentMilli;
  }

  lemma CountsStay(s: Sampler, finalSample: bool, elapsedMs: u64, scrape: Scrape)
    requires CountsAgree(s)
    ensures CountsAgree(AfterRecord(s, finalSample, elapsedMs, scrape))
  {
    hide CaptureResult, AfterCapture, Sat, SaturatingAdd;
    OutputIsUntouched(s, finalSample, elapsedMs, scrape);
    CapturedIsSample(s, finalSample, elapsedMs, scrape);
    var result := CaptureResult(s, finalSample, elapsedMs, scrape);
    SnocRecord(s.output, Record(elapsedMs, finalSample, if result.Ok? then result.value else Error));
    SaturatingSum(SampleRecords(s.output), 1);
    SaturatingSum(ErrorRecords(s.output), 1);
  }

  lemma CountsStayAtPhase(s: Sampler, phase: ScenarioPhase, elapsedMs: u64)
    requires CountsAgree(s)
    ensures AfterPhase(s, phase, elapsedMs).Ok? ==> CountsAgree(AfterPhase(s, phase, elapsedMs).value)
  {
    SnocRecord(s.output, Record(elapsedMs, false, Phase(phase)));
  }

  lemma {:induction false} LogUnderWay(s: Sampler, events: seq<SamplerEvent>)
    requires CountsAgree(s) && s.output != [] && !s.output[0].outcome.Phase?
    requires forall i | 0 <= i < |s.output| :: !s.output[i].finalSample
    ensures AfterEvents(s, events).Ok? ==>
      var log := AfterEvents(s, events).value.output;
      && CountsAgree(AfterEvents(s, events).value)
      && s.output <= log && forall i | 0 <= i < |log| :: !log[i].finalSample
  {
    hide AfterRecord, CountsAgree;
    if events != [] && AfterEvents(s, events).Ok? {
      LogUnderWay(s, events[..|events| - 1]);
      var before := AfterEvents(s, events[..|events| - 1]).value;
      match events[|events| - 1]
      case Interval(elapsedMs, scrape) =>
        CountsStay(before, false, elapsedMs, scrape);
        OneRecordMore(before, false, elapsedMs, scrape);
      case Mark(phase, elapsedMs) => CountsStayAtPhase(before, phase, elapsedMs);
    }
  }

  lemma OneRecordMore(s: Sampler, finalSample: bool, elapsedMs: u64, scrape: Scrape)
    ensures var log := AfterRecord(s, finalSample, elapsedMs, scrape).output;
      && |log| == |s.output| + 1 && log[..|s.output|] == s.output
      && log[|s.output|].elapsedMs == elapsedMs && log[|s.output|].finalSample == finalSample
      && !log[|s.output|].outcome.Phase?
  {
    hide CaptureResult, AfterCapture;
    OutputIsUntouched(s, finalSample, elapsedMs, scrape);
    CapturedIsSample(s, finalSample, elapsedMs, scrape);
  }

  /** Every sampler run that ends without error leaves a complete log, and its counters count it. */
  lemma FinishedLogIsComplete(hz: u64, first: SamplerEvent, events: seq<SamplerEvent>, last: SamplerEvent)
    requires first.Interval? && last.Interval? && SamplerRun(hz, first, events, last).Ok?
    ensures var run := SamplerRun(hz, first, events, last).value;
      CompleteLog(run.output) && CountsAgree(run)
  {
    hide AfterRecord;
    var start := AfterRecord(NewSampler(hz), false, first.elapsedMs, first.scrape);
    assert CountsAgree(NewSampler(hz)) by { SaturatingSum(0, 0); }
    CountsStay(NewSampler(hz), false, first.elapsedMs, first.scrape);
    OneRecordMore(NewSampler(hz), false, first.elapsedMs, first.scrape);
    LogUnderWay(start, events);
    var s := AfterEvents(start, events).value;
    CountsStay(s, true, last.elapsedMs, last.scrape);
    OneRecordMore(s, true, last.elapsedMs, last.scrape);
    assert s.output[0] == start.output[0];
  }

  predicate Clocked(log: seq<Record>) {
    InTimeOrder(ReadSamples(log))
    && forall i, j | 0 <= i < j < |PhaseRecords(log)| ::
       PhaseRecords(log)[i].elapsedMs <= PhaseRecords(log)[j].elapsedMs
  }

  /**
   * One monotonic clock stamps observations when they begin and phases when they are requested, so each kind's times do
   * not go back; a phase may still be written behind an observation that began after it.
   */
  predicate ClockGoesOn(events: seq<SamplerEvent>) {
    forall i, j | 0 <= i < j < |events| && events[i].Mark? == events[j].Mark? ::
      events[i].elapsedMs <= events[j].elapsedMs
  }

  /** Record k is what event k left. */
  predicate Follows(log: seq<Record>, events: seq<SamplerEvent>) {
    |log| == |events|
    && forall k | 0 <= k < |log| ::
       log[k].elapsedMs == events[k].elapsedMs && (log[k].outcome.Phase? <==> events[k].Mark?)
  }

  lemma {:induction false} LogFollowsEvents(s: Sampler, before: seq<SamplerEvent>, events: seq<SamplerEvent>)
    requires Follows(s.output, before) && AfterEvents(s, events).Ok?
    ensures Follows(AfterEvents(s, events).value.output, before + events)
  {
    hide AfterRecord;
    if events == [] {
      assert before + events == before;
    } else {
      var init, last := events[..|events| - 1], events[|events| - 1];
      LogFollowsEvents(s, before, init);
      assert before + events == before + init + [last];
      if last.Interval? {
        OneRecordMore(AfterEvents(s, init).value, false, last.elapsedMs, last.scrape);
      }
    }
  }

  lemma RunFollowsEvents(hz: u64, first: SamplerEvent, events: seq<SamplerEvent>, last: SamplerEvent)
    requires first.Interval? && last.Interval? && SamplerRun(hz, first, events, last).Ok?
    ensures Follows(SamplerRun(hz, first, events, last).value.output, [first] + events + [last])
  {
    hide AfterRecord;
    var start := AfterRecord(NewSampler(hz), false, first.elapsedMs, first.scrape);
    OneRecordMore(NewSampler(hz), false, first.elapsedMs, first.scrape);
    LogFollowsEvents(start, [first], events);
    OneRecordMore(AfterEvents(start, events).value, true, last.elapsedMs, last.scrape);
  }

  predicate RecordsInOrder(log: seq<Record>) {
    forall i, j | 0 <= i < j < |log| && log[i].outcome.Phase? == log[j].outcome.Phase? ::
      log[i].elapsedMs <= log[j].elapsedMs
  }

  lemma {:induction false} OriginOfSample(log: seq<Record>, x: TelemetrySample)
    requires x in ReadSamples(log)
    ensures exists i :: 0 <= i < |log| && !log[i].outcome.Phase? && log[i].elapsedMs == x.elapsedMs
  {
    hide ReadSample;
    var init, last := log[..|log| - 1], log[|log| - 1];
    ReadSampleTime(last);
    if x in ReadSamples(init) {
      OriginOfSample(init, x);
      var i :| 0 <= i < |init| && !init[i].outcome.Phase? && init[i].elapsedMs == x.elapsedMs;
      assert log[i] == init[i];
    } else {
      assert !log[|log| - 1].outcome.Phase? && log[|log| - 1].elapsedMs == x.elapsedMs;
    }
  }

  lemma ReadSampleTime(record: Record)
    ensures ReadSample(record).elapsedMs == record.elapsedMs
  {
    hide WorkersValid;
  }

  lemma {:induction false} OriginOfMarker(log: seq<Record>, x: PhaseMarker)
    requires x in PhaseRecords(log)
    ensures exists i :: 0 <= i < |log| && log[i].outcome.Phase? && log[i].elapsedMs == x.elapsedMs
  {
    var init, last := log[..|log| - 1], log[|log| - 1];
    if x in PhaseRecords(init) {
      OriginOfMarker(init, x);
      var i :| 0 <= i < |init| && init[i].outcome.Phase? && init[i].elapsedMs == x.elapsedMs;
      assert log[i] == init[i];
    } else {
      assert log[|log| - 1].outcome.Phase? && log[|log| - 1].elapsedMs == x.elapsedMs;
    }
  }

  lemma {:induction false} OrderedRecordsAreClocked(log: seq<Record>)
    requires RecordsInOrder(log)
    ensures Clocked(log)
  {
    hide InTimeOrder, ReadSample;
    if log == [] {
      NoDisorder();
    } else {
      var init, last := log[..|log| - 1], log[|log| - 1];
      assert forall i | 0 <= i < |init| :: init[i] == log[i];
      OrderedRecordsAreClocked(init);
      forall y | y in ReadSamples(init) && !last.outcome.Phase? ensures y.elapsedMs <= last.elapsedMs {
        OriginOfSample(init, y);
      }
      forall y | y in PhaseRecords(init) && last.outcome.Phase? ensures y.elapsedMs <= last.elapsedMs {
        OriginOfMarker(init, y);
      }
      ReadSampleTime(last);
      if !last.outcome.Phase? {
        AppendLast(ReadSamples(init), ReadSample(last));
      }
    }
  }

  lemma RunIsClocked(hz: u64, first: SamplerEvent, events: seq<SamplerEvent>, last: SamplerEvent)
    requires first.Interval? && last.Interval? && SamplerRun(hz, first, events, last).Ok?
    requires ClockGoesOn([first] + events + [last])
    ensures Clocked(SamplerRun(hz, first, events, last).value.output)
    ensures |SamplerRun(hz, first, events, last).value.output| == |events| + 2
  {
    hide SamplerRun, Clocked;
    RunFollowsEvents(hz, first, events, last);
    var log, all := SamplerRun(hz, first, events, last).value.output, [first] + events + [last];
    forall i, j | 0 <= i < j < |log| && log[i].outcome.Phase? == log[j].outcome.Phase?
      ensures log[i].elapsedMs <= log[j].elapsedMs
    {
      assert log[i].elapsedMs == all[i].elapsedMs && log[j].elapsedMs == all[j].elapsedMs;
    }
    OrderedRecordsAreClocked(log);
  }

  /**
   * Writer and reader agree: what a sampler run leaves is read back in the order written, with all four phases, and
   * with exactly the samples refused for their worker data moved from the usable to the unavailable ones.
   */
  lemma WriterAndReaderAgree(hz: u64, first: SamplerEvent, events: seq<SamplerEvent>, last: SamplerEvent)
    requires first.Interval? && last.Interval? && SamplerRun(hz, first, events, last).Ok?
    requires |events| + 2 <= MAX_TELEMETRY_SAMPLES && ClockGoesOn([first] + events + [last])
    ensures var run := SamplerRun(hz, first, events, last).value;
      var parsed := Parsed(Lines(run.output));
      && parsed.samples == ReadSamples(run.output)
      && |parsed.phases| == |ORDERED| && PhasesProceed(parsed.phases)
      && UsableCount(parsed.samples) + RefusedRecords(run.output) == run.sampleCount
      && parsed.unavailable == run.errorCount + RefusedRecords(run.output)
  {
    hide SamplerRun, AfterLines, ReadSamples, SortedByTime, InTimeOrder, Sat, SaturatingAdd;
    FinishedLogIsComplete(hz, first, events, last);
    RunIsClocked(hz, first, events, last);
    var run := SamplerRun(hz, first, events, last).value;
    ReadingIsFaithful(run.output);
    SortIsStable(ReadSamples(run.output));
    UsableAndRefused(run.output);
    SmallCounts(SampleRecords(run.output));
    SmallCounts(ErrorRecords(run.output));
    SmallCounts(ErrorRecords(run.output) + RefusedRecords(run.output));
  }

  lemma SmallCounts(n: nat)
    requires n <= 2 * MAX_TELEMETRY_SAMPLES
    ensures Sat(n) == n
  {
  }
}
