/** How far the whole-window CPU average can be from the processor time really used, over any sampler run. */
module CpuBound {
  import opened Machine
  import opened Telemetry
  import opened TelemetryReader
  import opened CpuAverage

  // ---- refused samples ----

  /** The record the next rate of a process is measured from: the first capture at the latest time so far. */
  function BaseOf(log: seq<Record>, process: Process): (base: Option<nat>)
    ensures base.Some? ==> base.value < |log| && CapturedIn(log[base.value], process).Some?
  {
    if log == [] then None
    else
      var before, last := BaseOf(log[..|log| - 1], process), log[|log| - 1];
      if CapturedIn(last, process).None? then before
      else if before.None? || log[before.value].elapsedMs < last.elapsedMs then Some(|log| - 1)
      else before
  }

  /** A sample the reader keeps, in which the process was captured. */
  predicate Usable(record: Record, process: Process) {
    record.outcome.Sample? && !Refused(record) && CapturedIn(record, process).Some?
  }

  predicate BaseIsRead(log: seq<Record>, process: Process, i: nat)
    requires i < |log|
  {
    var base := BaseOf(log[..i], process);
    Usable(log[i], process) && base.Some? ==> !Refused(log[base.value])
  }

  /** No sample that the reader refuses for its worker data is the base of a later usable one. */
  predicate NoRefusedBase(log: seq<Record>, process: Process) {
    forall i | 0 <= i < |log| :: BaseIsRead(log, process, i)
  }

  lemma {:induction false} RefusedRecordIsCounted(log: seq<Record>, i: nat)
    requires i < |log| && Refused(log[i])
    ensures RefusedRecords(log) > 0
  {
    hide Refused;
    if i < |log| - 1 {
      RefusedRecordIsCounted(log[..|log| - 1], i);
    }
  }

  lemma NoneRefused(log: seq<Record>, process: Process)
    requires RefusedRecords(log) == 0
    ensures NoRefusedBase(log, process)
  {
    hide RefusedRecords, Refused;
    forall i | 0 <= i < |log| ensures BaseIsRead(log, process, i) {
      var base := BaseOf(log[..i], process);
      if base.Some? && Refused(log[base.value]) {
        RefusedRecordIsCounted(log, base.value);
      }
    }
  }

  /** To the reader, a refused sample is as good as a failed capture. */
  function AsRead(log: seq<Record>): (read: seq<Record>)
    ensures |read| == |log|
  {
    seq(|log|, i requires 0 <= i < |log| => RecordAsRead(log[i]))
  }

  function RecordAsRead(record: Record): Record {
    if Refused(record) then record.(outcome := Error) else record
  }

  lemma RefusedReadsAsGap(record: Record)
    ensures ReadSample(RecordAsRead(record)) == ReadSample(record) && !Refused(RecordAsRead(record))
    ensures RecordAsRead(record).outcome.Phase? <==> record.outcome.Phase?
    ensures RecordAsRead(record).elapsedMs == record.elapsedMs
  {
    hide WorkersValid;
  }

  lemma {:induction false} ReadsAlike(log: seq<Record>)
    ensures ReadSamples(AsRead(log)) == ReadSamples(log) && RefusedRecords(AsRead(log)) == 0
  {
    hide ReadSample, RecordAsRead, Refused;
    if log != [] {
      var init := log[..|log| - 1];
      ReadsAlike(init);
      RefusedReadsAsGap(log[|log| - 1]);
      assert AsRead(log)[..|log| - 1] == AsRead(init);
    }
  }

  lemma CapturedAsRead(record: Record, process: Process)
    ensures CapturedIn(RecordAsRead(record), process)
         == if Usable(record, process) then CapturedIn(record, process) else None
    ensures CapturedIn(record, process).Some? ==> CapturedIn(record, process).value.elapsedMs == record.elapsedMs
  {
    hide WorkersValid;
  }

  /** The base record and the base of the captures are the same capture. */
  lemma {:induction false} BaseIsCaptured(log: seq<Record>, process: Process)
    ensures BaseOf(log, process).None? <==> Captures(log, process) == []
    ensures BaseOf(log, process).Some? ==>
      var caps := Captures(log, process);
      caps[Base(caps, |caps|)] == CapturedIn(log[BaseOf(log, process).value], process).value
  {
    hide CapturedIn, RecordAsRead;
    if log != [] {
      var init, last := log[..|log| - 1], log[|log| - 1];
      BaseIsCaptured(init, process);
      CapturedAsRead(last, process);
      if CapturedIn(last, process).Some? && BaseOf(init, process).Some? {
        CapturedAsRead(init[BaseOf(init, process).value], process);
        BasePrefix(Captures(init, process), CapturedIn(last, process).value, |Captures(init, process)|);
      }
    }
  }

  /** No capture is later than the base. */
  lemma {:induction false} BaseIsLast(log: seq<Record>, process: Process, i: nat)
    requires i < |log| && CapturedIn(log[i], process).Some?
    ensures BaseOf(log, process).Some? && log[i].elapsedMs <= log[BaseOf(log, process).value].elapsedMs
  {
    if i < |log| - 1 {
      BaseIsLast(log[..|log| - 1], process, i);
    }
  }

  /** Where the base is not refused, it is the base among the samples that are read, too. */
  lemma {:induction false} ReadBase(log: seq<Record>, process: Process)
    requires BaseOf(log, process).Some? && !Refused(log[BaseOf(log, process).value])
    ensures BaseOf(AsRead(log), process) == BaseOf(log, process)
  {
    hide CapturedIn, Refused;
    var init, last, read := log[..|log| - 1], log[|log| - 1], AsRead(log);
    assert read[..|log| - 1] == AsRead(init);
    CapturedAsRead(last, process);
    var before := BaseOf(AsRead(init), process);
    if before.Some? {
      CapturedAsRead(init[before.value], process);
      assert AsRead(init)[before.value] == RecordAsRead(init[before.value]);
      BaseIsLast(init, process, before.value);
      RefusedReadsAsGap(init[before.value]);
    }
    if BaseOf(log, process) == BaseOf(init, process) {
      ReadBase(init, process);
    }
    RefusedIsSample(last, process);
  }

  lemma RefusedIsSample(record: Record, process: Process)
    ensures !Refused(record) && CapturedIn(record, process).Some? ==> Usable(record, process)
  {
    hide WorkersValid;
  }

  /** A capture carries the rate since the base of the captures before it. */
  predicate LinksTo(hz: u64, caps: seq<Captured>, c: Captured) {
    if caps == [] then c.rate == None
    else
      var base := caps[Base(caps, |caps|)];
      && base.elapsedMs <= c.elapsedMs
      && if base.elapsedMs == c.elapsedMs then c.rate == None
         else base.ticks <= c.ticks && hz > 0
              && c.rate == Some(CpuRate(c.ticks - base.ticks, hz, c.elapsedMs - base.elapsedMs))
  }

  /** What a chain says about its last capture. */
  lemma ChainLast(hz: u64, caps: seq<Captured>, c: Captured)
    requires Chained(hz, caps + [c])
    ensures Chained(hz, caps) && LinksTo(hz, caps, c)
  {
    hide CpuRate, Linked, LinksTo;
    var all := caps + [c];
    LinkedLast(hz, caps, c);
    assert all[0] == if caps == [] then c else caps[0];
    forall i | 1 <= i < |caps| ensures Linked(hz, caps, i) {
      assert Linked(hz, all, i);
      LinkedPrefix(hz, caps, c, i);
    }
  }

  lemma LinkedLast(hz: u64, caps: seq<Captured>, c: Captured)
    ensures caps == [] ==> (LinksTo(hz, caps, c) <==> c.rate == None)
    ensures caps != [] ==> (LinksTo(hz, caps, c) <==> Linked(hz, caps + [c], |caps|))
  {
    hide CpuRate;
    if caps != [] {
      BasePrefix(caps, c, |caps|);
    }
  }

  lemma LinkedPrefix(hz: u64, caps: seq<Captured>, c: Captured, i: nat)
    requires 1 <= i < |caps|
    ensures Linked(hz, caps + [c], i) <==> Linked(hz, caps, i)
  {
    hide CpuRate;
    BasePrefix(caps, c, i);
  }

  /** The samples that are read form a chain of their own as long as none of their bases is refused. */
  lemma {:induction false} ReadSamplesChain(hz: u64, log: seq<Record>, process: Process)
    requires Chained(hz, Captures(log, process)) && NoRefusedBase(log, process)
    ensures Chained(hz, Captures(AsRead(log), process))
  {
    hide CpuRate, CapturedIn, Refused, Chained, Base, Usable, BaseOf, RecordAsRead;
    if log == [] {
      assert AsRead(log) == [];
      EmptyChain(hz);
    } else {
      var init, last := log[..|log| - 1], log[|log| - 1];
      var caps, read := Captures(init, process), AsRead(init);
      assert AsRead(log)[..|log| - 1] == read;
      CapturedAsRead(last, process);
      UsableIsCaptured(last, process);
      if CapturedIn(last, process).Some? {
        ChainLast(hz, caps, CapturedIn(last, process).value);
      }
      NoRefusedBaseBefore(log, process);
      ReadSamplesChain(hz, init, process);
      if Usable(last, process) {
        assert BaseIsRead(log, process, |log| - 1);
        ReadBaseIsCaptured(init, process);
        ChainSnoc(hz, Captures(read, process), CapturedIn(last, process).value);
      }
    }
  }

  lemma UsableIsCaptured(record: Record, process: Process)
    ensures Usable(record, process) ==> CapturedIn(record, process).Some?
  {}

  lemma EmptyChain(hz: u64)
    ensures Chained(hz, [])
  {}

  lemma NoRefusedBaseBefore(log: seq<Record>, process: Process)
    requires log != [] && NoRefusedBase(log, process)
    ensures NoRefusedBase(log[..|log| - 1], process)
  {
    hide Refused, Usable, BaseOf;
    var init := log[..|log| - 1];
    forall i | 0 <= i < |init| ensures BaseIsRead(init, process, i) {
      assert BaseIsRead(log, process, i);
      assert init[..i] == log[..i];
    }
  }

  /** An unrefused base is the base of the captures that are read. */
  lemma ReadBaseIsCaptured(log: seq<Record>, process: Process)
    requires BaseOf(log, process).Some? ==> !Refused(log[BaseOf(log, process).value])
    ensures var caps, read := Captures(log, process), Captures(AsRead(log), process);
      && (caps == [] <==> read == [])
      && (caps != [] ==> caps[Base(caps, |caps|)] == read[Base(read, |read|)])
  {
    hide CapturedIn, Refused, Base;
    BaseIsCaptured(log, process);
    BaseIsCaptured(AsRead(log), process);
    if BaseOf(log, process).Some? {
      var b := BaseOf(log, process).value;
      ReadBase(log, process);
      CapturedAsRead(log[b], process);
      RefusedIsSample(log[b], process);
    } else if BaseOf(AsRead(log), process).Some? {
      var b := BaseOf(AsRead(log), process).value;
      CapturedAsRead(log[b], process);
      BaseIsLast(log, process, b);
    }
  }

  // ---- the bound over runs ----

  /** The average of a process over a log, as the reader gives it. */
  function LogAverage(log: seq<Record>, process: Process): Option<u64> {
    WindowAverage(Parsed(Lines(log)).samples, process)
  }

  /** If the log has an average, it is close to what the process used between its first and its last record. */
  predicate BoundHolds(hz: u64, log: seq<Record>, process: Process) {
    var average, caps := LogAverage(log, process), Captures(AsRead(log), process);
    average.Some? ==>
      && caps != [] && caps[0].ticks <= caps[|caps| - 1].ticks && caps[0].elapsedMs < caps[|caps| - 1].elapsedMs
      && WithinBounds(average.value, hz, caps[|caps| - 1].ticks - caps[0].ticks,
                      caps[|caps| - 1].elapsedMs - caps[0].elapsedMs, Unclamped(caps, |caps|))
  }

  /**
   * Over any sampler run, with failed scrapes and repeated timestamps, an average that is given lies within the bound
   * of the processor time used between the first and the last record, provided no refused sample is the base of a
   * usable one; and it is given whenever both ends are usable.
   */
  lemma CpuAverageIsClose(
    hz: u64, first: SamplerEvent, events: seq<SamplerEvent>, last: SamplerEvent, process: Process)
    requires first.Interval? && last.Interval? && SamplerRun(hz, first, events, last).Ok?
    requires |events| + 2 <= MAX_TELEMETRY_SAMPLES && ClockGoesOn([first] + events + [last])
    requires NoRefusedBase(SamplerRun(hz, first, events, last).value.output, process)
    ensures var log := SamplerRun(hz, first, events, last).value.output;
      && BoundHolds(hz, log, process)
      && (LogAverage(log, process).None? <==> !EndpointsUsable(Parsed(Lines(log)).samples, process))
  {
    hide SamplerRun, Parsed, ReadSamples, Points, Captures, InTimeOrder, WithinBounds, Chained, Same, Lines,
         NoRefusedBase, UsableCount, RefusedRecords, CountsAgree, PhasesProceed, CompleteLog, AsRead, RecordAsRead,
         CapturedIn;
    WriterAndReaderAgree(hz, first, events, last);
    RunIsClocked(hz, first, events, last);
    RunKeepsChain(hz, first, events, last);
    FinishedLogIsComplete(hz, first, events, last);
    var run := SamplerRun(hz, first, events, last).value;
    var samples, read := ReadSamples(run.output), AsRead(run.output);
    ReadsAlike(run.output);
    if EndpointsUsable(samples, process) {
      NothingWentMissing(run, process);
      ReadIsCaptured(run.output, process);
      PointsAreCaptures(read, process);
      ReadSamplesChain(hz, run.output, process);
      ChainedAverageIsClose(hz, samples, Captures(read, process), process);
    }
  }

  lemma ReadIsCaptured(log: seq<Record>, process: Process)
    requires forall i | 0 <= i < |log| && log[i].outcome.Sample? :: CapturedIn(log[i], process).Some?
    ensures forall i | 0 <= i < |log| && AsRead(log)[i].outcome.Sample? :: CapturedIn(AsRead(log)[i], process).Some?
  {
    hide WorkersValid;
  }
}
