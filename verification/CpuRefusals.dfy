/**
 * Where the CPU error bound stops: a sample the reader refuses for its worker data has already moved the sampler's
 * base, so the ticks up to it are lost to the average while its time is not.
 */
module CpuRefusals {
  import opened Machine
  import Sums
  import opened Phases
  import opened Telemetry
  import opened TelemetryReader
  import opened CpuAverage
  import opened CpuBound
  import opened Replay

  // ---- whether an average is given depends on the shape of a log alone ----

  lemma CapturesBefore(log: seq<Record>, n: nat, process: Process)
    requires n < |log|
    ensures var c := CapturedIn(log[n], process);
      Captures(log[..n + 1], process) == Captures(log[..n], process) + (if c.Some? then [c.value] else [])
  {
    assert log[..n + 1][..n] == log[..n];
  }

  lemma {:induction false} ChainBefore(hz: u64, log: seq<Record>, n: nat, process: Process)
    requires n <= |log| && Chained(hz, Captures(log, process))
    ensures Chained(hz, Captures(log[..n], process))
    decreases |log| - n
  {
    hide Chained, Captures, LinksTo, CapturedIn;
    if n == |log| {
      assert log[..n] == log;
    } else {
      ChainBefore(hz, log, n + 1, process);
      CapturesBefore(log, n, process);
      var c := CapturedIn(log[n], process);
      if c.Some? {
        ChainLast(hz, Captures(log[..n], process), c.value);
      } else {
        assert Captures(log[..n], process) + [] == Captures(log[..n], process);
      }
    }
  }

  /** The rate of a record of a chained log, as its base record determines it. */
  predicate RateFromBase(hz: u64, log: seq<Record>, j: nat, process: Process)
    requires j < |log| && CapturedIn(log[j], process).Some?
  {
    var base, c := BaseOf(log[..j], process), CapturedIn(log[j], process).value;
    if base.None? || log[base.value].elapsedMs == log[j].elapsedMs then c.rate == None
    else
      var from := CapturedIn(log[base.value], process).value;
      && from.ticks <= c.ticks && hz > 0 && log[base.value].elapsedMs < log[j].elapsedMs
      && c.rate == Some(CpuRate(c.ticks - from.ticks, hz, log[j].elapsedMs - log[base.value].elapsedMs))
  }

  lemma RateOfRecord(hz: u64, log: seq<Record>, j: nat, process: Process)
    requires Chained(hz, Captures(log, process)) && j < |log| && CapturedIn(log[j], process).Some?
    ensures RateFromBase(hz, log, j, process)
  {
    hide Chained, Captures, BaseOf, CpuRate, Base, CapturedIn;
    var init, c := log[..j], CapturedIn(log[j], process).value;
    ChainBefore(hz, log, j + 1, process);
    CapturesBefore(log, j, process);
    ChainLast(hz, Captures(init, process), c);
    BaseIsCaptured(init, process);
    CapturedAsRead(log[j], process);
    if BaseOf(init, process).Some? {
      CapturedAsRead(init[BaseOf(init, process).value], process);
    }
  }

  lemma SameRateKnown(hz: u64, log: seq<Record>, other: seq<Record>, j: nat, process: Process)
    requires SameShape(log, other) && j < |log| && CapturedIn(log[j], process).Some?
    requires Chained(hz, Captures(log, process)) && Chained(hz, Captures(other, process))
    ensures CapturedIn(other[j], process).Some?
    ensures CapturedIn(log[j], process).value.rate.Some? == CapturedIn(other[j], process).value.rate.Some?
  {
    hide Chained, Captures, BaseOf, CpuRate, CapturedIn, WithoutCpu;
    ShapeFacts(log[j], other[j], process);
    RateOfRecord(hz, log, j, process);
    RateOfRecord(hz, other, j, process);
    SameBase(log[..j], other[..j], process);
    var base := BaseOf(log[..j], process);
    if base.Some? {
      ShapeFacts(log[base.value], other[base.value], process);
    }
  }

  /** Two samples alike but for the amount of processor time. */
  predicate Alike(x: TelemetrySample, y: TelemetrySample, process: Process) {
    && x.elapsedMs == y.elapsedMs && x.isGap == y.isGap && x.finalSample == y.finalSample
    && Ticks(x, process).Some? == Ticks(y, process).Some? && Rate(x, process).Some? == Rate(y, process).Some?
  }

  predicate AllAlike(samples: seq<TelemetrySample>, others: seq<TelemetrySample>, process: Process) {
    |samples| == |others| && forall i | 0 <= i < |samples| :: Alike(samples[i], others[i], process)
  }

  lemma ReadAlike(hz: u64, x: Record, y: Record, process: Process)
    requires WithoutCpu(x) == WithoutCpu(y)
    requires CapturedIn(x, process).Some? && CapturedIn(y, process).Some? ==>
      CapturedIn(x, process).value.rate.Some? == CapturedIn(y, process).value.rate.Some?
    requires RecordFits(x, hz) && RecordFits(y, hz)
    ensures Alike(ReadSample(x), ReadSample(y), process)
  {
    hide WorkersValid;
    ShapeFacts(x, y, process);
    var a, b := WithoutCpu(x), WithoutCpu(y);
    assert a.outcome.Sample? ==> a.outcome.workers == b.outcome.workers && a.outcome.rtc == b.outcome.rtc;
  }

  lemma {:induction false} ReadsAllAlike(hz: u64, log: seq<Record>, other: seq<Record>, process: Process)
    requires SameShape(log, other) && Chained(hz, Captures(log, process)) && Chained(hz, Captures(other, process))
    requires forall i | 0 <= i < |log| :: RecordFits(log[i], hz) && RecordFits(other[i], hz)
    ensures AllAlike(ReadSamples(log), ReadSamples(other), process)
  {
    hide Chained, Captures, CapturedIn, WithoutCpu, ReadSample, RecordFits, Alike;
    if log != [] {
      var n := |log| - 1;
      ChainBefore(hz, log, n, process);
      ChainBefore(hz, other, n, process);
      ReadsAllAlike(hz, log[..n], other[..n], process);
      ShapeFacts(log[n], other[n], process);
      if CapturedIn(log[n], process).Some? {
        SameRateKnown(hz, log, other, n, process);
      }
      ReadAlike(hz, log[n], other[n], process);
    }
  }

  lemma {:induction false} PointsAlike(samples: seq<TelemetrySample>, others: seq<TelemetrySample>, process: Process)
    requires AllAlike(samples, others, process)
    ensures AllAlike(Points(samples), Points(others), process)
  {
    hide Alike;
    if samples != [] {
      var n := |samples| - 1;
      PointsAlike(samples[..n], others[..n], process);
      assert Alike(samples[n], others[n], process);
      AlikeGaps(samples[n], others[n], process);
    }
  }

  lemma AlikeGaps(x: TelemetrySample, y: TelemetrySample, process: Process)
    requires Alike(x, y, process)
    ensures x.isGap == y.isGap
  {}

  lemma KnownAlike(points: seq<TelemetrySample>, others: seq<TelemetrySample>, process: Process)
    requires AllAlike(points, others, process)
    ensures AllIntervalsKnown(points, process, |points|) ==> AllIntervalsKnown(others, process, |others|)
  {
    forall i | 1 <= i < |others| && AllIntervalsKnown(points, process, |points|)
      ensures Weight(others, i) > 0 ==> Rate(others[i], process).Some?
    {
      assert Alike(points[i], others[i], process) && Alike(points[i - 1], others[i - 1], process);
      assert Weight(points, i) > 0 ==> Rate(points[i], process).Some?;
    }
  }

  lemma EndsAlike(samples: seq<TelemetrySample>, others: seq<TelemetrySample>, process: Process)
    requires AllAlike(samples, others, process)
    ensures EndpointsUsable(samples, process) ==> EndpointsUsable(others, process)
  {
    if samples != [] {
      assert Alike(samples[0], others[0], process);
      assert Alike(samples[|samples| - 1], others[|samples| - 1], process);
    }
  }

  lemma AverageAlike(samples: seq<TelemetrySample>, others: seq<TelemetrySample>, process: Process)
    requires AllAlike(samples, others, process) && InTimeOrder(samples) && InTimeOrder(others)
    ensures WindowAverage(samples, process).Some? ==> WindowAverage(others, process).Some?
  {
    hide InTimeOrder, AllIntervalsKnown, EndpointsUsable, WindowAverage, Points, AllAlike;
    WithheldExactlyWhen(samples, process);
    WithheldExactlyWhen(others, process);
    PointsAlike(samples, others, process);
    KnownAlike(Points(samples), Points(others), process);
    EndsAlike(samples, others, process);
  }

  /** Two runs whose logs differ in processor time at most both have an average, or neither has. */
  lemma AverageByShape(hz: u64, log: seq<Record>, other: seq<Record>, process: Process)
    requires Written(hz, log) && Written(hz, other) && SameShape(log, other)
    ensures LogAverage(log, process).Some? ==> LogAverage(other, process).Some?
  {
    hide Writes, Parsed, Lines, ReadSamples, SameShape, WindowAverage, Chained, Captures, InTimeOrder, AllAlike,
         RecordsInOrder, StartsAgree, CompleteLog, RecordFits;
    WrittenFacts(hz, log, process);
    WrittenFacts(hz, other, process);
    SameLength(log, other);
    ReadsAllAlike(hz, log, other, process);
    AverageAlike(ReadSamples(log), ReadSamples(other), process);
  }

  lemma SameLength(log: seq<Record>, other: seq<Record>)
    requires SameShape(log, other)
    ensures |log| == |other|
  {}

  /** Some sampler run leaves this log. */
  ghost predicate Written(hz: u64, log: seq<Record>) {
    exists first, events, last :: Writes(hz, first, events, last, log)
  }

  lemma WrittenFacts(hz: u64, log: seq<Record>, process: Process)
    requires Written(hz, log)
    ensures Writable(hz, log) && |log| <= MAX_TELEMETRY_SAMPLES
    ensures Parsed(Lines(log)).samples == ReadSamples(log) && InTimeOrder(ReadSamples(log))
    ensures Chained(hz, Captures(log, process))
    ensures NoRefusedBase(log, process) ==> BoundHolds(hz, log, process)
  {
    hide SamplerRun, Parsed, Lines, ReadSamples, Chained, Captures, InTimeOrder, Writable, BoundHolds, NoRefusedBase,
         ClockGoesOn;
    var first, events, last :| Writes(hz, first, events, last, log);
    WrittenLog(hz, first, events, last, log, process);
    if NoRefusedBase(log, process) {
      CpuAverageIsClose(hz, first, events, last, process);
    }
  }

  // ---- the family of runs that breaks the bound ----

  /** No processor time at all, but for a burst between the record before k and record k. */
  function BurstAt(n: nat, k: nat, burst: u64): (ticks: seq<u64>)
    ensures |ticks| == n && NotBackwards(ticks)
  {
    seq(n, i requires 0 <= i < n => if i < k then 0 else burst)
  }

  /** A base stays at or behind where it has been. */
  lemma {:induction false} BaseStaysBehind(log: seq<Record>, k: nat, n: nat, process: Process)
    requires k < n <= |log| && BaseOf(log[..k + 1], process) == Some(k)
    ensures BaseOf(log[..n], process).Some? && k <= BaseOf(log[..n], process).value
  {
    if n > k + 1 {
      BaseStaysBehind(log, k, n - 1, process);
      assert log[..n][..n - 1] == log[..n - 1];
    }
  }

  /** A base was the base as soon as it was captured. */
  lemma {:induction false} BaseFromTheStart(log: seq<Record>, process: Process)
    requires BaseOf(log, process).Some?
    ensures BaseOf(log[..BaseOf(log, process).value + 1], process) == BaseOf(log, process)
  {
    var b, n := BaseOf(log, process).value, |log| - 1;
    if b == n {
      assert log[..b + 1] == log;
    } else {
      BaseFromTheStart(log[..n], process);
      assert log[..n][..b + 1] == log[..b + 1];
    }
  }

  /** The ticks of a record's capture of a process. */
  lemma CapturedTicks(record: Record, ticks: u64, process: Process)
    requires HasTicks(record, ticks) && CapturedIn(record, process).Some?
    ensures CapturedIn(record, process).value.ticks == ticks
    ensures CapturedIn(record, process).value.elapsedMs == record.elapsedMs
  {}

  lemma IdleRate(hz: u64, elapsedMs: u64)
    requires hz > 0 && elapsedMs > 0
    ensures CpuRate(0, hz, elapsedMs) == 0
  {}

  /** With a burst up to a base, every other capture carries no rate or an idle one. */
  lemma OthersAreIdle(hz: u64, log: seq<Record>, k: nat, burst: u64, j: nat, process: Process)
    requires Chained(hz, Captures(log, process)) && k < |log| && j < |log| && j != k
    requires forall i | 0 <= i < |log| :: HasTicks(log[i], BurstAt(|log|, k, burst)[i])
    requires BaseOf(log[..k + 1], process) == Some(k) && CapturedIn(log[j], process).Some?
    ensures CapturedIn(log[j], process).value.rate in {None, Some(0)}
  {
    hide Chained, Captures, BaseOf, CpuRate, CapturedIn, HasTicks;
    RateOfRecord(hz, log, j, process);
    var base := BaseOf(log[..j], process);
    if base.Some? {
      if j > k {
        BaseStaysBehind(log, k, j, process);
      }
      CapturedTicks(log[j], BurstAt(|log|, k, burst)[j], process);
      CapturedTicks(log[base.value], BurstAt(|log|, k, burst)[base.value], process);
      if log[base.value].elapsedMs < log[j].elapsedMs {
        IdleRate(hz, log[j].elapsedMs - log[base.value].elapsedMs);
      }
    }
  }

  lemma {:induction false} SampleFromRecord(log: seq<Record>, x: TelemetrySample) returns (j: nat)
    requires x in ReadSamples(log)
    ensures j < |log| && ReadSample(log[j]) == x && !log[j].outcome.Phase?
  {
    hide ReadSample;
    if x in ReadSamples(log[..|log| - 1]) {
      j := SampleFromRecord(log[..|log| - 1], x);
    } else {
      j := |log| - 1;
    }
  }

  lemma {:induction false} CaptureFromRecord(log: seq<Record>, c: Captured, process: Process) returns (j: nat)
    requires c in Captures(log, process)
    ensures j < |log| && CapturedIn(log[j], process) == Some(c)
  {
    hide CapturedIn;
    if c in Captures(log[..|log| - 1], process) {
      j := CaptureFromRecord(log[..|log| - 1], c, process);
    } else {
      j := |log| - 1;
    }
  }

  lemma {:induction false} IdleSums(points: seq<TelemetrySample>, process: Process, n: nat)
    requires n <= |points|
    requires forall i | 1 <= i < n :: Counts(points, process, i) ==> Rate(points[i], process) == Some(0)
    ensures WeightedSum(points, process, n) == 0
  {
    if n > 1 {
      IdleSums(points, process, n - 1);
    }
  }

  /** A sample's rate is the rate of the capture it was read from. */
  lemma RateAsRead(hz: u64, record: Record, process: Process)
    requires RecordFits(record, hz) && Rate(ReadSample(record), process).Some?
    ensures Usable(record, process)
    ensures CapturedIn(record, process).value.rate == Rate(ReadSample(record), process)
  {
    hide WorkersValid;
  }

  /** A log of a run whose processor time is one burst up to a refused base. */
  predicate BurstLog(log: seq<Record>, k: nat, burst: u64, process: Process) {
    && k < |log| && Refused(log[k]) && BaseOf(log[..k + 1], process) == Some(k)
    && forall i | 0 <= i < |log| :: HasTicks(log[i], BurstAt(|log|, k, burst)[i])
  }

  lemma BurstReadsIdle(hz: u64, log: seq<Record>, k: nat, burst: u64, x: TelemetrySample, process: Process)
    requires BurstLog(log, k, burst, process) && Chained(hz, Captures(log, process)) && Writable(hz, log)
    requires x in ReadSamples(log)
    ensures Rate(x, process) in {None, Some(0)}
  {
    hide Chained, Captures, ReadSample, ReadSamples, BaseOf, CapturedIn, HasTicks, Refused, Rate, CompleteLog;
    var j := SampleFromRecord(log, x);
    if Rate(x, process).Some? {
      assert RecordFits(log[j], hz);
      RateAsRead(hz, log[j], process);
      OthersAreIdle(hz, log, k, burst, j, process);
    }
  }

  /** The ends of a log that has an average are usable, and it is read as their ticks and times. */
  lemma EndsAreUsable(log: seq<Record>, process: Process)
    requires CompleteLog(log) && EndpointsUsable(ReadSamples(log), process)
    ensures Usable(log[0], process) && Usable(log[|log| - 1], process)
    ensures Rate(ReadSample(log[|log| - 1]), process).Some? && log[0].elapsedMs < log[|log| - 1].elapsedMs
    ensures var caps := Captures(AsRead(log), process);
      caps != [] && Some(caps[0]) == CapturedIn(log[0], process)
      && Some(caps[|caps| - 1]) == CapturedIn(log[|log| - 1], process)
  {
    hide WorkersValid, PhaseRecords;
    FirstIsRead(log);
    var n := |log| - 1;
    assert ReadSamples(log)[|ReadSamples(log)| - 1] == ReadSample(log[n]);
    CapturedAsRead(log[0], process);
    CapturedAsRead(log[n], process);
    CaptureEnds(AsRead(log), process);
  }

  lemma {:induction false} FirstIsRead(log: seq<Record>)
    requires log != [] && !log[0].outcome.Phase?
    ensures ReadSamples(log) != [] && ReadSamples(log)[0] == ReadSample(log[0])
  {
    hide ReadSample;
    if |log| > 1 {
      FirstIsRead(log[..|log| - 1]);
    }
  }

  /** The burst disappears: the average is zero although the process was busy. */
  lemma BurstIsLost(hz: u64, log: seq<Record>, k: nat, burst: u64, process: Process)
    requires Written(hz, log) && BurstLog(log, k, burst, process) && LogAverage(log, process).Some?
    ensures LogAverage(log, process) == Some(0)
    ensures var caps := Captures(AsRead(log), process);
      && caps != [] && caps[|caps| - 1].ticks == caps[0].ticks + burst && Unclamped(caps, |caps|)
      && caps[|caps| - 1].elapsedMs == log[|log| - 1].elapsedMs && caps[0].elapsedMs == log[0].elapsedMs
  {
    hide Written, Parsed, Lines, ReadSamples, WindowAverage, Chained, Captures, InTimeOrder, EndpointsUsable, Refused,
         BaseOf, Usable, CapturedIn, HasTicks, AsRead, Writable, BurstLog, BurstAt, ReadSample;
    WrittenFacts(hz, log, process);
    var samples, caps := ReadSamples(log), Captures(AsRead(log), process);
    WithheldExactlyWhen(samples, process);
    WritableIsComplete(hz, log);
    EndsAreUsable(log, process);
    BurstEnds(log, k, burst, process);
    CapturedAsRead(log[0], process);
    CapturedAsRead(log[|log| - 1], process);
    forall x | x in samples ensures Rate(x, process) in {None, Some(0)} {
      BurstReadsIdle(hz, log, k, burst, x, process);
    }
    IdleAverage(samples, process);
    ReadCapturesAreIdle(hz, log, k, burst, process);
  }

  lemma WritableIsComplete(hz: u64, log: seq<Record>)
    requires Writable(hz, log)
    ensures CompleteLog(log) && forall i | 0 <= i < |log| :: RecordFits(log[i], hz)
  {}

  /** The first and the last record are read, so neither is the refused one between them. */
  lemma BurstEnds(log: seq<Record>, k: nat, burst: u64, process: Process)
    requires log != [] && BurstLog(log, k, burst, process)
    requires Usable(log[0], process) && Usable(log[|log| - 1], process)
    ensures CapturedIn(log[0], process).Some? && CapturedIn(log[|log| - 1], process).Some?
    ensures CapturedIn(log[0], process).value.ticks == 0
    ensures CapturedIn(log[|log| - 1], process).value.ticks == burst
  {
    hide WorkersValid, BaseOf;
    assert HasTicks(log[0], BurstAt(|log|, k, burst)[0]);
    assert HasTicks(log[|log| - 1], BurstAt(|log|, k, burst)[|log| - 1]);
  }

  lemma IdleAverage(samples: seq<TelemetrySample>, process: Process)
    requires InTimeOrder(samples) && WindowAverage(samples, process).Some?
    requires forall x | x in samples :: Rate(x, process) in {None, Some(0)}
    ensures WindowAverage(samples, process) == Some(0)
  {
    hide InTimeOrder, Points, TotalWeight, WeightedSum, WindowAverage, Weight, Rate;
    var points := Points(samples);
    PointsAreSamples(samples);
    forall i | 1 <= i < |points| ensures Counts(points, process, i) ==> Rate(points[i], process) == Some(0) {
      assert points[i] in points;
    }
    IdleSums(points, process, |points|);
    ZeroOverWindow(samples, process);
  }

  lemma ZeroOverWindow(samples: seq<TelemetrySample>, process: Process)
    requires WindowAverage(samples, process).Some?
    requires WeightedSum(Points(samples), process, |Points(samples)|) == 0
    ensures WindowAverage(samples, process) == Some(0)
  {
    hide Points, TotalWeight, WeightedSum, Ascending, Ticks, Rate;
    ZeroQuotient(samples[|samples| - 1].elapsedMs - samples[0].elapsedMs);
  }

  lemma ZeroQuotient(n: nat)
    requires n > 0
    ensures 0 / n == 0 && Clamped(0) == 0
  {}

  lemma ReadCapturesAreIdle(hz: u64, log: seq<Record>, k: nat, burst: u64, process: Process)
    requires Chained(hz, Captures(log, process)) && BurstLog(log, k, burst, process)
    ensures var caps := Captures(AsRead(log), process); Unclamped(caps, |caps|)
  {
    hide Chained, Captures, CapturedIn, BaseOf, HasTicks, Refused;
    var caps := Captures(AsRead(log), process);
    forall i | 0 <= i < |caps| ensures caps[i].rate in {None, Some(0)} {
      var j := CaptureFromRecord(AsRead(log), caps[i], process);
      CapturedAsRead(log[j], process);
      OthersAreIdle(hz, log, k, burst, j, process);
    }
  }

  // ---- the exact condition ----

  /** Milliseconds from the first to the last record. */
  function Span(log: seq<Record>): nat {
    if log != [] && log[0].elapsedMs < log[|log| - 1].elapsedMs then log[|log| - 1].elapsedMs - log[0].elapsedMs else 0
  }

  /** Two units of the average over the whole log are no more than what 64 bits of ticks can amount to. */
  predicate TicksReach(hz: u64, log: seq<Record>) {
    Product(2, Product(hz, Span(log))) <= Scaled(U64_MAX)
  }

  /** With up to fifty million clock ticks per second, they reach over every span 64 bits of milliseconds can hold. */
  lemma SlowClocksReach(hz: u64, log: seq<Record>)
    requires hz <= 50_000_000
    ensures TicksReach(hz, log)
  {
    ProductIs(hz, Span(log));
    ProductIs(2, Product(hz, Span(log)));
    Sums.MulMonotone(hz, 50_000_000, Span(log));
  }

  lemma ProductIs(a: nat, b: nat)
    ensures Product(a, b) == a * b
  {}

  /** A refused base of a usable sample is an earlier record that advanced the sampler. */
  lemma RefusedBase(log: seq<Record>, process: Process) returns (k: nat)
    requires !NoRefusedBase(log, process)
    ensures k < |log| && Refused(log[k]) && BaseOf(log[..k + 1], process) == Some(k)
  {
    hide Refused, BaseOf, Usable;
    var i :| 0 <= i < |log| && !BaseIsRead(log, process, i);
    k := BaseOf(log[..i], process).value;
    BaseFromTheStart(log[..i], process);
    assert log[..i][..k + 1] == log[..k + 1];
  }

  lemma AverageNeedsClock(hz: u64, log: seq<Record>, process: Process)
    requires Written(hz, log) && LogAverage(log, process).Some?
    ensures hz > 0 && EndpointsUsable(ReadSamples(log), process)
  {
    hide Written, Parsed, Lines, ReadSamples, WindowAverage, Chained, Captures, InTimeOrder, EndpointsUsable, Refused,
         BaseOf, CapturedIn, Writable, ReadSample, Usable;
    WrittenFacts(hz, log, process);
    WithheldExactlyWhen(ReadSamples(log), process);
    WritableIsComplete(hz, log);
    EndsAreUsable(log, process);
    var n := |log| - 1;
    RateAsRead(hz, log[n], process);
    UsableIsCaptured(log[n], process);
    RateOfRecord(hz, log, n, process);
  }

  /** Where a refused sample is the base of a usable one, some run of the same shape leaves the bound. */
  lemma RefusedBaseBreaksBound(hz: u64, log: seq<Record>, process: Process) returns (other: seq<Record>)
    requires Written(hz, log) && TicksReach(hz, log)
    requires LogAverage(log, process).Some? && !NoRefusedBase(log, process)
    ensures Written(hz, other) && SameShape(log, other) && !BoundHolds(hz, other, process)
  {
    hide Writes, LogAverage, NoRefusedBase, WithoutCpu, HasTicks, Refused, BaseOf, Writable, BurstAt, WithinBounds,
         Captures, Unclamped;
    WrittenFacts(hz, log, process);
    AverageNeedsClock(hz, log, process);
    var k := RefusedBase(log, process);
    var first, events, last;
    first, events, last, other := AnyTicksCanBeWritten(hz, log, BurstAt(|log|, k, U64_MAX));
    assert Written(hz, other);
    AverageByShape(hz, log, other, process);
    ShapeFacts(log[k], other[k], process);
    SameBase(log[..k + 1], other[..k + 1], process);
    BurstIsLost(hz, other, k, U64_MAX, process);
    ShapeFacts(log[0], other[0], process);
    ShapeFacts(log[|log| - 1], other[|log| - 1], process);
    BurstLeavesBound(hz, other, Captures(AsRead(other), process));
  }

  lemma BurstLeavesBound(hz: u64, log: seq<Record>, caps: seq<Captured>)
    requires TicksReach(hz, log) && log != [] && caps != []
    requires caps[|caps| - 1].ticks == caps[0].ticks + U64_MAX
    requires caps[|caps| - 1].elapsedMs == log[|log| - 1].elapsedMs && caps[0].elapsedMs == log[0].elapsedMs
    ensures caps[0].elapsedMs < caps[|caps| - 1].elapsedMs ==>
      !WithinBounds(0, hz, caps[|caps| - 1].ticks - caps[0].ticks, caps[|caps| - 1].elapsedMs - caps[0].elapsedMs, true)
  {
    hide Product, Scaled, WithinBounds;
    if caps[0].elapsedMs < caps[|caps| - 1].elapsedMs {
      BoundsAreProducts(0, hz, U64_MAX, caps[|caps| - 1].elapsedMs - caps[0].elapsedMs, true);
    }
  }

  /**
   * The exact condition for the bound, over runs: whatever processor time the run of a log takes, an average is
   * within the bound, if and only if the log has no average at all or no sample refused for its worker data is the
   * base of a usable one. Refused samples that repeat a timestamp, or that no usable sample follows, do no harm.
   */
  lemma BoundExactlyWhenNoRefusedBase(hz: u64, log: seq<Record>, process: Process)
    requires Written(hz, log) && TicksReach(hz, log)
    ensures (forall other | Written(hz, other) && SameShape(log, other) :: BoundHolds(hz, other, process))
       <==> LogAverage(log, process).None? || NoRefusedBase(log, process)
  {
    hide Written, SameShape, BoundHolds, LogAverage, NoRefusedBase;
    if NoRefusedBase(log, process) {
      forall other | Written(hz, other) && SameShape(log, other) ensures BoundHolds(hz, other, process) {
        SameRefusedBases(log, other, process);
        WrittenFacts(hz, other, process);
      }
    } else if LogAverage(log, process).None? {
      forall other | Written(hz, other) && SameShape(log, other) ensures BoundHolds(hz, other, process) {
        ShapeIsSymmetric(log, other);
        if LogAverage(other, process).Some? {
          AverageByShape(hz, other, log, process);
        }
        NoAverageNoBound(hz, other, process);
      }
    } else {
      var other := RefusedBaseBreaksBound(hz, log, process);
    }
  }

  lemma ShapeIsSymmetric(log: seq<Record>, other: seq<Record>)
    requires SameShape(log, other)
    ensures SameShape(other, log)
  {}

  lemma NoAverageNoBound(hz: u64, log: seq<Record>, process: Process)
    ensures LogAverage(log, process).None? ==> BoundHolds(hz, log, process)
  {}

  // ---- one such run ----

  function ScrapeOf(ticks: u64, workers: seq<Worker>): Scrape {
    var process := ProcessSample(ticks, 7);
    Scrape(Ok(Some(process)), Ok(Some(process)), Ok(Traffic(0, 0, 0, 0, 0, 0)), Ok(workers))
  }

  function SampleOf(ticks: u64, workers: seq<Worker>, rate: Option<u64>): Outcome {
    var process := ProcessSample(ticks, 7);
    Sample(100, rate, rate, process, Some(process), Traffic(0, 0, 0, 0, 0, 0), workers)
  }

  const FIRST := Interval(0, ScrapeOf(0, []))
  const BUSY := Interval(1_000, ScrapeOf(100, [Worker(64, 0)]))
  const LAST := Interval(2_000, ScrapeOf(100, []))
  const EVENTS: seq<SamplerEvent> := [Mark(Setup, 0), Mark(Warmup, 0), Mark(Measured, 0), BUSY, Mark(Drain, 1_000)]

  const BROKEN_LOG: seq<Record> := [
    Record(0, false, SampleOf(0, [], None)),
    Record(0, false, Phase(Setup)), Record(0, false, Phase(Warmup)), Record(0, false, Phase(Measured)),
    Record(1_000, false, SampleOf(100, [Worker(64, 0)], Some(100_000))),
    Record(1_000, false, Phase(Drain)),
    Record(2_000, true, SampleOf(100, [], Some(0)))]

  /** The sampler of this run once n records are written. */
  function SamplerAt(n: nat): Sampler
    requires 1 <= n <= 7
  {
    var base := if n < 5 then TimedSample(0, ProcessSample(0, 7))
                else if n < 7 then TimedSample(1_000, ProcessSample(100, 7))
                else TimedSample(2_000, ProcessSample(100, 7));
    Sampler(100, Some(7), Some(7), Some(base), Some(base), if n < 5 then 1 else if n < 7 then 2 else 3, 0,
            if n < 5 then n - 1 else if n == 5 then 3 else 4, BROKEN_LOG[..n])
  }

  lemma BrokenStart()
    ensures AfterRecord(NewSampler(100), false, 0, FIRST.scrape) == SamplerAt(1)
  {
    assert BROKEN_LOG[..1] == [BROKEN_LOG[0]];
  }

  lemma BrokenPhase(n: nat)
    requires n in {1, 2, 3, 5}
    ensures EVENTS[n - 1].Mark?
    ensures AfterPhase(SamplerAt(n), EVENTS[n - 1].phase, EVENTS[n - 1].elapsedMs) == Ok(SamplerAt(n + 1))
  {
    assert BROKEN_LOG[..n + 1] == BROKEN_LOG[..n] + [BROKEN_LOG[n]];
  }

  lemma BrokenBusy()
    ensures AfterRecord(SamplerAt(4), false, 1_000, BUSY.scrape) == SamplerAt(5)
  {
    assert BROKEN_LOG[..5] == BROKEN_LOG[..4] + [BROKEN_LOG[4]];
    assert CpuRate(100, 100, 1_000) == 100_000 by { RateIs(100, 100_000); }
  }

  lemma BrokenEnd()
    ensures AfterRecord(SamplerAt(6), true, 2_000, LAST.scrape) == SamplerAt(7)
  {
    assert BROKEN_LOG[..7] == BROKEN_LOG[..6] + [BROKEN_LOG[6]];
    assert CpuRate(0, 100, 1_000) == 0 by { RateIs(0, 0); }
  }

  lemma RateIs(ticks: u64, rate: u64)
    requires ticks in {0, 100} && rate == 1_000 * ticks
    ensures CpuRate(ticks, 100, 1_000) == rate
  {
    ProductIs(100, 1_000);
  }

  lemma {:induction false} BrokenEvents(n: nat)
    requires 1 <= n <= 6
    ensures AfterEvents(SamplerAt(1), EVENTS[..n - 1]) == Ok(SamplerAt(n))
  {
    hide AfterRecord, AfterPhase, SamplerAt;
    if n > 1 {
      BrokenEvents(n - 1);
      assert EVENTS[..n - 1][..n - 2] == EVENTS[..n - 2];
      if n == 5 {
        BrokenBusy();
      } else {
        BrokenPhase(n - 1);
      }
    }
  }

  lemma BrokenRun()
    ensures SamplerRun(100, FIRST, EVENTS, LAST) == Ok(SamplerAt(7))
    ensures Writes(100, FIRST, EVENTS, LAST, BROKEN_LOG)
  {
    hide AfterRecord;
    BrokenStart();
    BrokenEvents(6);
    BrokenEnd();
    assert EVENTS[..5] == EVENTS && BROKEN_LOG[..7] == BROKEN_LOG;
  }

  lemma BrokenWorkers()
    ensures WorkersValid([]) && !WorkersValid([Worker(64, 0)])
  {
    assert (set w: Worker | w in [] :: w.mediaWorkerId) == {};
    assert Worker(64, 0) in [Worker(64, 0)];
  }

  lemma BrokenSnoc(n: nat)
    requires n < 7
    ensures ReadSamples(BROKEN_LOG[..n + 1])
         == ReadSamples(BROKEN_LOG[..n]) + if n in {0, 4, 6} then [ReadSample(BROKEN_LOG[n])] else []
  {
    SnocRecord(BROKEN_LOG[..n], BROKEN_LOG[n]);
    assert BROKEN_LOG[..n + 1] == BROKEN_LOG[..n] + [BROKEN_LOG[n]];
  }

  lemma BrokenReads()
    ensures ReadSamples(BROKEN_LOG)
         == [ReadSample(BROKEN_LOG[0]), ReadSample(BROKEN_LOG[4]), ReadSample(BROKEN_LOG[6])]
  {
    hide ReadSample;
    BrokenSnoc(0);
    BrokenSnoc(1);
    BrokenSnoc(2);
    BrokenSnoc(3);
    BrokenSnoc(4);
    BrokenSnoc(5);
    BrokenSnoc(6);
    assert BROKEN_LOG[..0] == [] && BROKEN_LOG[..7] == BROKEN_LOG;
    hide ReadSamples;
  }

  lemma BrokenSample(n: nat)
    requires n in {0, 6}
    ensures var x := ReadSample(BROKEN_LOG[n]);
      && !x.isGap && x.elapsedMs == BROKEN_LOG[n].elapsedMs && x.finalSample == Some(n == 6)
      && Ticks(x, Server).Some? && Ticks(x, RtcGenerator).Some?
      && Rate(x, Server).Some? == Rate(x, RtcGenerator).Some? == (n == 6)
  {
    BrokenWorkers();
    hide WorkersValid;
  }

  lemma BrokenRefusal()
    ensures Refused(BROKEN_LOG[4]) && ReadSample(BROKEN_LOG[4]).isGap
  {
    BrokenWorkers();
    hide WorkersValid;
  }

  lemma BrokenPoints()
    ensures Points(ReadSamples(BROKEN_LOG)) == [ReadSample(BROKEN_LOG[0]), ReadSample(BROKEN_LOG[6])]
  {
    hide ReadSample, ReadSamples;
    BrokenReads();
    BrokenSample(0);
    BrokenSample(6);
    BrokenRefusal();
    var samples := ReadSamples(BROKEN_LOG);
    PointsSnoc(samples, 0);
    PointsSnoc(samples, 1);
    PointsSnoc(samples, 2);
    assert samples[..0] == [] && samples[..3] == samples;
  }

  lemma BrokenAverage(process: Process)
    ensures LogAverage(BROKEN_LOG, process).Some?
  {
    hide Parsed, Lines, ReadSample, ReadSamples, Points, SamplerRun, InTimeOrder, Chained, Writable, WindowAverage;
    BrokenRun();
    WrittenLog(100, FIRST, EVENTS, LAST, BROKEN_LOG, process);
    var samples := ReadSamples(BROKEN_LOG);
    BrokenReads();
    BrokenSample(0);
    BrokenSample(6);
    BrokenPoints();
    WithheldExactlyWhen(samples, process);
  }

  lemma BrokenBase(process: Process)
    ensures BurstLog(BROKEN_LOG, 4, 100, process)
  {
    BrokenRefusal();
    hide Refused;
    var log := BROKEN_LOG;
    assert log[..1][..0] == [] && log[..2][..1] == log[..1] && log[..3][..2] == log[..2] && log[..4][..3] == log[..3];
    assert log[..5][..4] == log[..4];
    assert BaseOf(log[..1], process) == Some(0);
    assert BaseOf(log[..4], process) == BaseOf(log[..3], process) == BaseOf(log[..2], process) == Some(0);
  }

  /**
   * A run of two seconds in which each process uses one second: the reader refuses the second sample for its
   * worker number 64, and gives an average of zero for both.
   */
  lemma OneRefusalHidesASecond(process: Process)
    ensures Writes(100, FIRST, EVENTS, LAST, BROKEN_LOG)
    ensures LogAverage(BROKEN_LOG, process) == Some(0) && !BoundHolds(100, BROKEN_LOG, process)
    ensures var caps := Captures(AsRead(BROKEN_LOG), process);
      caps != [] && caps[|caps| - 1].ticks == caps[0].ticks + 100
  {
    hide Writes, LogAverage, BurstLog, Captures, AsRead, WithinBounds, Unclamped, CompleteLog;
    BrokenRun();
    assert Written(100, BROKEN_LOG);
    BrokenAverage(process);
    BrokenBase(process);
    BurstIsLost(100, BROKEN_LOG, 4, 100, process);
    BrokenWindow(process);
    OneSecondIsOut();
  }

  lemma BrokenWindow(process: Process)
    ensures var caps := Captures(AsRead(BROKEN_LOG), process);
      caps != [] && caps[|caps| - 1].elapsedMs - caps[0].elapsedMs == 2_000
  {
    BrokenWorkers();
    hide WorkersValid;
    CapturedAsRead(BROKEN_LOG[0], process);
    CapturedAsRead(BROKEN_LOG[6], process);
    CaptureEnds(AsRead(BROKEN_LOG), process);
  }

  lemma OneSecondIsOut()
    ensures !WithinBounds(0, 100, 100, 2_000, true)
  {}
}
