/** The whole-window CPU average, and how far it can be from the processor time really used. */
module CpuAverage {
  import opened Machine
  import opened Sums
  import opened Phases
  import opened Telemetry
  import opened TelemetryReader

  datatype Process = Server | RtcGenerator

  function Ticks(sample: TelemetrySample, process: Process): Option<u64> {
    if process == Server then sample.serverCpuTicks else sample.rtcCpuTicks
  }

  function Rate(sample: TelemetrySample, process: Process): Option<u64> {
    if process == Server then sample.serverCpuPercentMilli else sample.rtcCpuPercentMilli
  }

  /** First and last sample, when they bound a window: both usable, and only the last one final. */
  function WholeWindowEndpoints(samples: seq<TelemetrySample>): Option<(TelemetrySample, TelemetrySample)> {
    if samples == [] then None
    else
      var first, last := samples[0], samples[|samples| - 1];
      if !first.isGap && first.finalSample == Some(false) && !last.isGap && last.finalSample == Some(true)
         && last.elapsedMs > first.elapsedMs
      then Some((first, last)) else None
  }

  /** The samples that are no gaps. */
  function Points(samples: seq<TelemetrySample>): seq<TelemetrySample> {
    if samples == [] then []
    else
      var rest, last := Points(samples[..|samples| - 1]), samples[|samples| - 1];
      if last.isGap then rest else rest + [last]
  }

  predicate Ascending(points: seq<TelemetrySample>) {
    forall i | 1 <= i < |points| :: points[i - 1].elapsedMs <= points[i].elapsedMs
  }

  /** Length of the interval that ends in point i. */
  function Weight(points: seq<TelemetrySample>, i: nat): nat
    requires 1 <= i < |points|
  {
    if points[i - 1].elapsedMs <= points[i].elapsedMs then points[i].elapsedMs - points[i - 1].elapsedMs else 0
  }

  /** An interval counts when it is not empty and its rate is known. */
  predicate Counts(points: seq<TelemetrySample>, process: Process, i: nat)
    requires 1 <= i < |points|
  {
    Weight(points, i) > 0 && Rate(points[i], process).Some?
  }

  function WeightedSum(points: seq<TelemetrySample>, process: Process, n: nat): nat
    requires n <= |points|
  {
    if n <= 1 then 0
    else WeightedSum(points, process, n - 1)
         + if Counts(points, process, n - 1) then Product(Rate(points[n - 1], process).value, Weight(points, n - 1))
           else 0
  }

  function TotalWeight(points: seq<TelemetrySample>, process: Process, n: nat): nat
    requires n <= |points|
  {
    if n <= 1 then 0
    else TotalWeight(points, process, n - 1) + if Counts(points, process, n - 1) then Weight(points, n - 1) else 0
  }

  predicate EndpointsUsable(samples: seq<TelemetrySample>, process: Process) {
    var ends := WholeWindowEndpoints(samples);
    && ends.Some? && Ticks(ends.value.0, process).Some?
    && Ticks(ends.value.1, process).Some? && Rate(ends.value.1, process).Some?
  }

  /** The average of a window whose endpoints are usable and whose intervals are all known. */
  function WindowAverage(samples: seq<TelemetrySample>, process: Process): Option<u64> {
    var points := Points(samples);
    if !EndpointsUsable(samples, process) || !Ascending(points) then None
    else
      var elapsed := samples[|samples| - 1].elapsedMs - samples[0].elapsedMs;
      if TotalWeight(points, process, |points|) != elapsed then None
      else Some(Clamped(WeightedSum(points, process, |points|) / elapsed))
  }

  lemma PointsSnoc(samples: seq<TelemetrySample>, i: nat)
    requires i < |samples|
    ensures Points(samples[..i + 1]) == Points(samples[..i]) + if samples[i].isGap then [] else [samples[i]]
  {
    assert samples[..i + 1][..i] == samples[..i];
  }

  lemma {:induction false} PrefixSums(
    points: seq<TelemetrySample>, more: seq<TelemetrySample>, process: Process, n: nat)
    requires n <= |points|
    ensures WeightedSum(points + more, process, n) == WeightedSum(points, process, n)
    ensures TotalWeight(points + more, process, n) == TotalWeight(points, process, n)
  {
    if n > 1 {
      PrefixSums(points, more, process, n - 1);
      assert (points + more)[n - 1] == points[n - 1] && (points + more)[n - 2] == points[n - 2];
    }
  }

  /** A weighted sum of 64-bit rates over less than 2^64 milliseconds never reaches the 128-bit maximum. */
  lemma {:induction false} SumsAreBounded(points: seq<TelemetrySample>, process: Process, n: nat)
    requires 1 <= n <= |points| && forall i | 1 <= i < n :: points[i - 1].elapsedMs <= points[i].elapsedMs
    ensures TotalWeight(points, process, n) <= points[n - 1].elapsedMs - points[0].elapsedMs
    ensures WeightedSum(points, process, n) <= U64_MAX * TotalWeight(points, process, n)
    ensures points[0].elapsedMs <= points[n - 1].elapsedMs
  {
    if n > 1 {
      SumsAreBounded(points, process, n - 1);
      if Counts(points, process, n - 1) {
        MulMonotone(Rate(points[n - 1], process).value, U64_MAX, Weight(points, n - 1));
      }
    }
  }

  lemma {:induction false} DescentStays(samples: seq<TelemetrySample>, i: nat)
    requires i <= |samples| && !Ascending(Points(samples[..i]))
    ensures !Ascending(Points(samples))
    decreases |samples| - i
  {
    if i == |samples| {
      assert samples[..i] == samples;
    } else {
      PointsSnoc(samples, i);
      var before, after := Points(samples[..i]), Points(samples[..i + 1]);
      var k :| 1 <= k < |before| && before[k - 1].elapsedMs > before[k].elapsedMs;
      assert after[k - 1].elapsedMs > after[k].elapsedMs;
      DescentStays(samples, i + 1);
    }
  }

  /** What one more point adds to the sums. */
  lemma SumsGrow(points: seq<TelemetrySample>, sample: TelemetrySample, process: Process)
    requires points != [] && points[|points| - 1].elapsedMs <= sample.elapsedMs
    ensures var all, weight := points + [sample], sample.elapsedMs - points[|points| - 1].elapsedMs;
      var counts := weight > 0 && Rate(sample, process).Some?;
      && WeightedSum(all, process, |all|)
         == WeightedSum(points, process, |points|)
           + (if counts then Product(Rate(sample, process).value, weight) else 0)
      && TotalWeight(all, process, |all|) == TotalWeight(points, process, |points|) + (if counts then weight else 0)
  {
    var all := points + [sample];
    PrefixSums(points, [sample], process, |points|);
    assert all[|all| - 1] == sample && all[|all| - 2] == points[|points| - 1];
    assert Weight(all, |points|) == sample.elapsedMs - points[|points| - 1].elapsedMs;
  }

  lemma AscendingSnoc(points: seq<TelemetrySample>, sample: TelemetrySample)
    requires points != [] && Ascending(points)
    ensures Ascending(points + [sample]) <==> points[|points| - 1].elapsedMs <= sample.elapsedMs
  {
    var all := points + [sample];
    assert all[|points|] == sample && all[|points| - 1] == points[|points| - 1];
  }

  lemma NoSums(point: TelemetrySample, process: Process)
    ensures WeightedSum([point], process, 1) == TotalWeight([point], process, 1) == 0 && Ascending([point])
  {}

  method WholeWindowAverage(samples: seq<TelemetrySample>, process: Process) returns (average: Option<u64>)
    ensures average == WindowAverage(samples, process)
  {
    hide Ascending, WeightedSum, TotalWeight, Product, Points;
    if !EndpointsUsable(samples, process) {
      return None;
    }
    var elapsed: u64 := samples[|samples| - 1].elapsedMs - samples[0].elapsedMs;
    var previous: u64 := samples[0].elapsedMs;
    var weightedSum: nat, totalWeight: nat := 0, 0;
    PointsSnoc(samples, 0);
    NoPoints();
    NoSums(samples[0], process);
    assert samples[..0] == [] && Points(samples[..1]) == [] + [samples[0]] == [samples[0]];
    for i := 1 to |samples|
      invariant Begun(samples, i) && Ascending(Points(samples[..i]))
      invariant previous == Latest(Points(samples[..i]))
      invariant weightedSum == WeightedSum(Points(samples[..i]), process, |Points(samples[..i])|)
      invariant totalWeight == TotalWeight(Points(samples[..i]), process, |Points(samples[..i])|)
    {
      ghost var points := Points(samples[..i]);
      PointsSnoc(samples, i);
      if samples[i].isGap {
        assert points + [] == points;
        continue;
      }
      AscendingSnoc(points, samples[i]);
      if samples[i].elapsedMs < previous {
        DescentStays(samples, i + 1);
        return None;
      }
      SumsGrow(points, samples[i], process);
      NoOverflow(points + [samples[i]], process);
      var weight := samples[i].elapsedMs - previous;
      if weight > 0 && Rate(samples[i], process).Some? {
        weightedSum := SaturatingAdd128(weightedSum, Product(Rate(samples[i], process).value, weight));
        totalWeight := SaturatingAdd128(totalWeight, weight);
      }
      previous := samples[i].elapsedMs;
    }
    assert samples[..|samples|] == samples;
    if totalWeight != elapsed {
      return None;
    }
    NoOverflow(Points(samples), process);
    return Some(Clamped(weightedSum / totalWeight));
  }

  predicate Begun(samples: seq<TelemetrySample>, i: nat)
    requires i <= |samples|
  {
    samples != [] && Points(samples[..i]) != [] && Points(samples[..i])[0] == samples[0]
  }

  function Latest(points: seq<TelemetrySample>): nat {
    if points == [] then 0 else points[|points| - 1].elapsedMs
  }

  lemma NoPoints()
    ensures Points([]) == []
  {}

  lemma NoOverflow(points: seq<TelemetrySample>, process: Process)
    requires points != [] && Ascending(points)
    ensures WeightedSum(points, process, |points|) <= U128_MAX && TotalWeight(points, process, |points|) <= U128_MAX
  {
    SumsAreBounded(points, process, |points|);
  }

  // ---- when the average is withheld ----

  /** Every interval that is not empty has a rate. */
  predicate AllIntervalsKnown(points: seq<TelemetrySample>, process: Process, n: nat)
    requires n <= |points|
  {
    forall i | 1 <= i < n :: Weight(points, i) > 0 ==> Rate(points[i], process).Some?
  }

  lemma {:induction false} FullWeight(points: seq<TelemetrySample>, process: Process, n: nat)
    requires 1 <= n <= |points| && Ascending(points)
    ensures TotalWeight(points, process, n) <= points[n - 1].elapsedMs - points[0].elapsedMs
    ensures TotalWeight(points, process, n) == points[n - 1].elapsedMs - points[0].elapsedMs
       <==> AllIntervalsKnown(points, process, n)
  {
    if n > 1 {
      FullWeight(points, process, n - 1);
    }
  }

  lemma {:induction false} PointsEnds(samples: seq<TelemetrySample>)
    requires samples != [] && !samples[0].isGap
    ensures Points(samples) != [] && Points(samples)[0] == samples[0]
    ensures !samples[|samples| - 1].isGap ==> Points(samples)[|Points(samples)| - 1] == samples[|samples| - 1]
  {
    if |samples| > 1 {
      PointsEnds(samples[..|samples| - 1]);
    }
  }

  lemma {:induction false} PointsAreSamples(samples: seq<TelemetrySample>)
    ensures forall p | p in Points(samples) :: p in samples
  {
    if samples != [] {
      PointsAreSamples(samples[..|samples| - 1]);
    }
  }

  lemma OrderedIsAscending(points: seq<TelemetrySample>)
    requires InTimeOrder(points)
    ensures Ascending(points)
  {}

  lemma LastIsLatest(init: seq<TelemetrySample>, last: TelemetrySample)
    requires InTimeOrder(init + [last])
    ensures forall p | p in init :: p.elapsedMs <= last.elapsedMs
  {
    var all := init + [last];
    forall p | p in init ensures p.elapsedMs <= last.elapsedMs {
      var i :| 0 <= i < |init| && init[i] == p;
      assert all[i] == p && all[|init|] == last;
    }
  }

  lemma {:induction false} PointsAreOrdered(samples: seq<TelemetrySample>)
    requires InTimeOrder(samples)
    ensures InTimeOrder(Points(samples)) && Ascending(Points(samples))
  {
    hide InTimeOrder, Ascending;
    if samples == [] {
      NoDisorder();
    } else {
      var init, last := samples[..|samples| - 1], samples[|samples| - 1];
      OrderedBefore(samples);
      PointsAreOrdered(init);
      assert samples == init + [last];
      LastIsLatest(init, last);
      PointsAreSamples(init);
      if !last.isGap {
        AppendLast(Points(init), last);
      }
    }
    OrderedIsAscending(Points(samples));
  }

  /** The average is withheld exactly when an endpoint is unusable or a non-empty interval lacks its rate. */
  lemma WithheldExactlyWhen(samples: seq<TelemetrySample>, process: Process)
    requires InTimeOrder(samples)
    ensures WindowAverage(samples, process).None? <==>
      !EndpointsUsable(samples, process) || !AllIntervalsKnown(Points(samples), process, |Points(samples)|)
  {
    hide InTimeOrder, Ascending, AllIntervalsKnown, TotalWeight, WeightedSum, Points;
    if EndpointsUsable(samples, process) {
      PointsEnds(samples);
      PointsAreOrdered(samples);
      FullWeight(Points(samples), process, |Points(samples)|);
    }
  }

  /** What the ends of a window must show of a process: ticks at both, a rate at the last, which alone is final. */
  predicate EndsShow(samples: seq<TelemetrySample>, process: Process) {
    && samples != []
    && var first, last := samples[0], samples[|samples| - 1];
      && !first.isGap && !last.isGap && first.elapsedMs < last.elapsedMs
      && first.finalSample == Some(false) && last.finalSample == Some(true)
      && match process
         case Server =>
           first.serverCpuTicks.Some? && last.serverCpuTicks.Some? && last.serverCpuPercentMilli.Some?
         case RtcGenerator => first.rtcCpuTicks.Some? && last.rtcCpuTicks.Some? && last.rtcCpuPercentMilli.Some?
  }

  /** Every interval that is not empty, from one point to the next, must show its rate at its end. */
  predicate IntervalsShow(points: seq<TelemetrySample>, process: Process) {
    forall i | 1 <= i < |points| && points[i - 1].elapsedMs < points[i].elapsedMs ::
      match process
      case Server => points[i].serverCpuPercentMilli.Some?
      case RtcGenerator => points[i].rtcCpuPercentMilli.Some?
  }

  /** The same in the terms of the samples alone. */
  lemma WithheldByFields(samples: seq<TelemetrySample>, process: Process)
    requires InTimeOrder(samples)
    ensures WindowAverage(samples, process).None? <==>
      !EndsShow(samples, process) || !IntervalsShow(Points(samples), process)
  {
    hide WindowAverage, Points, InTimeOrder;
    WithheldExactlyWhen(samples, process);
    if IntervalsShow(Points(samples), process) {
      KnownWhereShown(Points(samples), process);
    } else {
      ShownWhereKnown(Points(samples), process);
    }
  }

  lemma KnownWhereShown(points: seq<TelemetrySample>, process: Process)
    requires IntervalsShow(points, process)
    ensures AllIntervalsKnown(points, process, |points|)
  {}

  lemma ShownWhereKnown(points: seq<TelemetrySample>, process: Process)
    requires !IntervalsShow(points, process)
    ensures !AllIntervalsKnown(points, process, |points|)
  {
    var i :| 1 <= i < |points| && points[i - 1].elapsedMs < points[i].elapsedMs && Rate(points[i], process).None?;
    assert Weight(points, i) > 0;
  }

  // ---- the sampler's chain of rates ----

  /** One successful capture of one process: when, how many ticks so far, and the rate recorded with it. */
  datatype Captured = Captured(elapsedMs: u64, ticks: u64, rate: Option<u64>)

  /** The capture the next rate is measured from: the first one at the latest time so far. */
  function Base(caps: seq<Captured>, n: nat): (b: nat)
    requires 1 <= n <= |caps|
    ensures b < n
  {
    if n == 1 then 0 else if caps[n - 1].elapsedMs > caps[Base(caps, n - 1)].elapsedMs then n - 1 else Base(caps, n - 1)
  }

  /** Capture i carries the rate since its base, or none when no time has passed. */
  predicate Linked(hz: u64, caps: seq<Captured>, i: nat)
    requires 1 <= i < |caps|
  {
    var base := caps[Base(caps, i)];
    && base.elapsedMs <= caps[i].elapsedMs
    && if base.elapsedMs == caps[i].elapsedMs then caps[i].rate == None
       else base.ticks <= caps[i].ticks && hz > 0
            && caps[i].rate == Some(CpuRate(caps[i].ticks - base.ticks, hz, caps[i].elapsedMs - base.elapsedMs))
  }

  predicate Chained(hz: u64, caps: seq<Captured>) {
    && (caps != [] ==> caps[0].rate == None)
    && forall i | 1 <= i < |caps| :: Linked(hz, caps, i)
  }

  function CapturedIn(record: Record, process: Process): Option<Captured> {
    if !record.outcome.Sample? then None
    else match process
      case Server => Some(Captured(record.elapsedMs, record.outcome.server.cpuTicks, record.outcome.serverCpu))
      case RtcGenerator =>
        if record.outcome.rtc.None? then None
        else Some(Captured(record.elapsedMs, record.outcome.rtc.value.cpuTicks, record.outcome.rtcCpu))
  }

  function Captures(log: seq<Record>, process: Process): seq<Captured> {
    if log == [] then []
    else
      var rest, last := Captures(log[..|log| - 1], process), CapturedIn(log[|log| - 1], process);
      if last.None? then rest else rest + [last.value]
  }

  function Previous(s: Sampler, process: Process): Option<TimedSample> {
    if process == Server then s.previousServer else s.previousRtc
  }

  /** The sampler's remembered sample is the base of the next rate, and the rates so far form a chain. */
  predicate ChainKept(s: Sampler, process: Process) {
    var caps, previous := Captures(s.output, process), Previous(s, process);
    && Chained(s.clockTicksPerSecond, caps)
    && (previous.None? <==> caps == [])
    && (previous.Some? ==>
          var base := caps[Base(caps, |caps|)];
          previous.value.elapsedMs == base.elapsedMs && previous.value.process.cpuTicks == base.ticks)
  }

  lemma {:induction false} BasePrefix(caps: seq<Captured>, more: Captured, n: nat)
    requires 1 <= n <= |caps|
    ensures Base(caps + [more], n) == Base(caps, n)
  {
    if n > 1 {
      BasePrefix(caps, more, n - 1);
      assert (caps + [more])[n - 1] == caps[n - 1];
    }
  }

  lemma ChainSnoc(hz: u64, caps: seq<Captured>, c: Captured)
    requires Chained(hz, caps)
    requires if caps == [] then c.rate == None else
      var base := caps[Base(caps, |caps|)];
      base.elapsedMs <= c.elapsedMs
      && (if base.elapsedMs == c.elapsedMs then c.rate == None
          else base.ticks <= c.ticks && hz > 0
               && c.rate == Some(CpuRate(c.ticks - base.ticks, hz, c.elapsedMs - base.elapsedMs)))
    ensures Chained(hz, caps + [c])
    ensures caps == [] ==> Base(caps + [c], |caps| + 1) == 0
    ensures caps != [] ==>
      Base(caps + [c], |caps| + 1)
      == if c.elapsedMs > caps[Base(caps, |caps|)].elapsedMs then |caps| else Base(caps, |caps|)
  {
    hide CpuRate;
    var all := caps + [c];
    forall i | 1 <= i < |all| ensures Linked(hz, all, i) {
      BasePrefix(caps, c, i);
      if i < |caps| {
        assert Linked(hz, caps, i);
      }
    }
    if caps != [] {
      BasePrefix(caps, c, |caps|);
    }
  }

  lemma CapturesSnoc(log: seq<Record>, record: Record, process: Process)
    ensures Captures(log + [record], process)
      == Captures(log, process)
        + (if CapturedIn(record, process).Some? then [CapturedIn(record, process).value] else [])
  {
    assert (log + [record])[..|log|] == log;
  }

  lemma CaptureFits(s: Sampler, finalSample: bool, elapsedMs: u64, scrape: Scrape)
    requires CaptureResult(s, finalSample, elapsedMs, scrape).Ok?
    ensures RecordFits(Record(elapsedMs, finalSample, CaptureResult(s, finalSample, elapsedMs, scrape).value),
                       s.clockTicksPerSecond)
  {
    hide CpuPercentMilli;
  }

  /** What a successful capture says about one process. */
  lemma CaptureLinks(s: Sampler, finalSample: bool, elapsedMs: u64, scrape: Scrape, process: Process)
    requires CaptureResult(s, finalSample, elapsedMs, scrape).Ok?
    ensures var outcome, s' := CaptureResult(s, finalSample, elapsedMs, scrape).value,
                               AfterCapture(s, finalSample, elapsedMs, scrape);
      var c := CapturedIn(Record(elapsedMs, finalSample, outcome), process);
      && outcome.Sample?
      && (c.None? ==> Previous(s', process) == Previous(s, process))
      && (c.Some? ==>
            exists sample: ProcessSample :: sample.cpuTicks == c.value.ticks
              && CpuPercentMilli(Previous(s, process), elapsedMs, sample, s.clockTicksPerSecond) == Ok(c.value.rate)
              && Previous(s', process) == AdvancedSample(Previous(s, process), elapsedMs, sample))
  {
    hide CpuPercentMilli, AdvancedSample;
    var outcome := CaptureResult(s, finalSample, elapsedMs, scrape).value;
    if process == Server {
      assert CpuPercentMilli(Previous(s, process), elapsedMs, outcome.server, s.clockTicksPerSecond)
        == Ok(outcome.serverCpu);
    } else if outcome.rtc.Some? {
      assert CpuPercentMilli(Previous(s, process), elapsedMs, outcome.rtc.value, s.clockTicksPerSecond)
        == Ok(outcome.rtcCpu);
    }
  }

  lemma FailedCapture(s: Sampler, finalSample: bool, elapsedMs: u64, scrape: Scrape)
    requires CaptureResult(s, finalSample, elapsedMs, scrape).Err?
    ensures var s' := AfterCapture(s, finalSample, elapsedMs, scrape);
      s'.previousServer == s.previousServer && s'.previousRtc == s.previousRtc
  {}

  lemma PercentLinks(previous: Option<TimedSample>, elapsedMs: u64, sample: ProcessSample, hz: u64, rate: Option<u64>)
    requires CpuPercentMilli(previous, elapsedMs, sample, hz) == Ok(rate)
    ensures previous.None? ==> rate == None
    ensures previous.Some? ==>
      && previous.value.elapsedMs <= elapsedMs
      && (if previous.value.elapsedMs == elapsedMs then rate == None
          else previous.value.process.cpuTicks <= sample.cpuTicks && hz > 0
               && rate == Some(CpuRate(sample.cpuTicks - previous.value.process.cpuTicks, hz,
                                       elapsedMs - previous.value.elapsedMs)))
  {
    hide CpuRate;
  }

  lemma ChainGrows(s: Sampler, s': Sampler, process: Process, c: Captured, sample: ProcessSample)
    requires ChainKept(s, process) && s'.clockTicksPerSecond == s.clockTicksPerSecond
    requires Captures(s'.output, process) == Captures(s.output, process) + [c] && sample.cpuTicks == c.ticks
    requires CpuPercentMilli(Previous(s, process), c.elapsedMs, sample, s.clockTicksPerSecond) == Ok(c.rate)
    requires Previous(s', process) == AdvancedSample(Previous(s, process), c.elapsedMs, sample)
    ensures ChainKept(s', process)
  {
    PercentLinks(Previous(s, process), c.elapsedMs, sample, s.clockTicksPerSecond, c.rate);
    hide CpuPercentMilli, CpuRate, Chained, Captures;
    ChainSnoc(s.clockTicksPerSecond, Captures(s.output, process), c);
  }

  lemma ChainStays(s: Sampler, finalSample: bool, elapsedMs: u64, scrape: Scrape, process: Process)
    requires ChainKept(s, process)
    ensures ChainKept(AfterRecord(s, finalSample, elapsedMs, scrape), process)
  {
    hide CaptureResult, AfterCapture, CpuPercentMilli, AdvancedSample, Chained, Base;
    OutputIsUntouched(s, finalSample, elapsedMs, scrape);
    var result, s' := CaptureResult(s, finalSample, elapsedMs, scrape), AfterRecord(s, finalSample, elapsedMs, scrape);
    var record := Record(elapsedMs, finalSample, if result.Ok? then result.value else Error);
    CapturesSnoc(s.output, record, process);
    if result.Err? {
      FailedCapture(s, finalSample, elapsedMs, scrape);
      assert Captures(s'.output, process) == Captures(s.output, process) + [] == Captures(s.output, process);
    } else {
      CaptureLinks(s, finalSample, elapsedMs, scrape, process);
      var c := CapturedIn(record, process);
      if c.Some? {
        var sample: ProcessSample :| sample.cpuTicks == c.value.ticks
          && CpuPercentMilli(Previous(s, process), elapsedMs, sample, s.clockTicksPerSecond) == Ok(c.value.rate)
          && Previous(s', process) == AdvancedSample(Previous(s, process), elapsedMs, sample);
        ChainGrows(s, s', process, c.value, sample);
      } else {
        assert Captures(s'.output, process) == Captures(s.output, process) + [] == Captures(s.output, process);
      }
    }
  }

  /**
   * Every log a sampler writes chains its rates, for both processes, and only a final sample can lack the generator.
   */
  predicate LogChained(s: Sampler) {
    && ChainKept(s, Server) && ChainKept(s, RtcGenerator)
    && forall i | 0 <= i < |s.output| :: RecordFits(s.output[i], s.clockTicksPerSecond)
  }

  predicate RecordFits(record: Record, hz: u64) {
    record.outcome.Sample? ==>
      && record.outcome.clockTicksPerSecond == hz
      && (record.outcome.rtc.None? ==> record.finalSample && record.outcome.rtcCpu.None?)
  }

  lemma ErrorFits(record: Record, hz: u64)
    requires !record.outcome.Sample?
    ensures RecordFits(record, hz)
  {}

  lemma RecordsFit(s: Sampler, finalSample: bool, elapsedMs: u64, scrape: Scrape)
    requires forall i | 0 <= i < |s.output| :: RecordFits(s.output[i], s.clockTicksPerSecond)
    ensures var s' := AfterRecord(s, finalSample, elapsedMs, scrape);
      forall i | 0 <= i < |s'.output| :: RecordFits(s'.output[i], s'.clockTicksPerSecond)
  {
    hide CaptureResult, AfterCapture, RecordFits;
    OutputIsUntouched(s, finalSample, elapsedMs, scrape);
    ErrorFits(Record(elapsedMs, finalSample, Error), s.clockTicksPerSecond);
    if CaptureResult(s, finalSample, elapsedMs, scrape).Ok? {
      CaptureFits(s, finalSample, elapsedMs, scrape);
    }
  }

  lemma LogChainedStays(s: Sampler, finalSample: bool, elapsedMs: u64, scrape: Scrape)
    requires LogChained(s)
    ensures LogChained(AfterRecord(s, finalSample, elapsedMs, scrape))
  {
    hide ChainKept, AfterRecord, RecordFits;
    ChainStays(s, finalSample, elapsedMs, scrape, Server);
    ChainStays(s, finalSample, elapsedMs, scrape, RtcGenerator);
    RecordsFit(s, finalSample, elapsedMs, scrape);
  }

  lemma LogChainedAtPhase(s: Sampler, phase: ScenarioPhase, elapsedMs: u64)
    requires LogChained(s)
    ensures AfterPhase(s, phase, elapsedMs).Ok? ==> LogChained(AfterPhase(s, phase, elapsedMs).value)
  {
    hide Chained, Base;
    CapturesSnoc(s.output, Record(elapsedMs, false, Phase(phase)), Server);
    CapturesSnoc(s.output, Record(elapsedMs, false, Phase(phase)), RtcGenerator);
    assert Captures(s.output, Server) + [] == Captures(s.output, Server);
    assert Captures(s.output, RtcGenerator) + [] == Captures(s.output, RtcGenerator);
  }

  lemma {:induction false} EventsKeepChain(s: Sampler, events: seq<SamplerEvent>)
    requires LogChained(s)
    ensures AfterEvents(s, events).Ok? ==> LogChained(AfterEvents(s, events).value)
  {
    hide AfterRecord, LogChained, Advanced;
    if events != [] && AfterEvents(s, events).Ok? {
      EventsKeepChain(s, events[..|events| - 1]);
      var before := AfterEvents(s, events[..|events| - 1]).value;
      match events[|events| - 1]
      case Interval(elapsedMs, scrape) => LogChainedStays(before, false, elapsedMs, scrape);
      case Mark(phase, elapsedMs) => LogChainedAtPhase(before, phase, elapsedMs);
    }
  }

  lemma RunKeepsChain(hz: u64, first: SamplerEvent, events: seq<SamplerEvent>, last: SamplerEvent)
    requires first.Interval? && last.Interval? && SamplerRun(hz, first, events, last).Ok?
    ensures LogChained(SamplerRun(hz, first, events, last).value)
    ensures SamplerRun(hz, first, events, last).value.clockTicksPerSecond == hz
  {
    hide AfterRecord, LogChained;
    var start := AfterRecord(NewSampler(hz), false, first.elapsedMs, first.scrape);
    assert LogChained(NewSampler(hz)) by { NewIsChained(hz); }
    LogChainedStays(NewSampler(hz), false, first.elapsedMs, first.scrape);
    EventsKeepChain(start, events);
    LogChainedStays(AfterEvents(start, events).value, true, last.elapsedMs, last.scrape);
    SameClock(NewSampler(hz), false, first.elapsedMs, first.scrape);
    SameClockThroughout(start, events);
    SameClock(AfterEvents(start, events).value, true, last.elapsedMs, last.scrape);
  }

  lemma NewIsChained(hz: u64)
    ensures LogChained(NewSampler(hz))
  {}

  lemma SameClock(s: Sampler, finalSample: bool, elapsedMs: u64, scrape: Scrape)
    ensures AfterRecord(s, finalSample, elapsedMs, scrape).clockTicksPerSecond == s.clockTicksPerSecond
  {
    hide CaptureResult, AfterCapture;
    OutputIsUntouched(s, finalSample, elapsedMs, scrape);
  }

  lemma {:induction false} SameClockThroughout(s: Sampler, events: seq<SamplerEvent>)
    ensures AfterEvents(s, events).Ok? ==> AfterEvents(s, events).value.clockTicksPerSecond == s.clockTicksPerSecond
  {
    hide AfterRecord;
    if events != [] && AfterEvents(s, events).Ok? {
      SameClockThroughout(s, events[..|events| - 1]);
      match events[|events| - 1]
      case Interval(elapsedMs, scrape) =>
        SameClock(AfterEvents(s, events[..|events| - 1]).value, false, elapsedMs, scrape);
      case Mark(_, _) =>
    }
  }

  // ---- the error bound ----

  /** The points of a log and the captures of a process say the same, one by one. */
  predicate Same(points: seq<TelemetrySample>, caps: seq<Captured>, process: Process) {
    && |points| == |caps|
    && forall i | 0 <= i < |points| :: SameAt(points[i], caps[i], process)
  }

  predicate SameAt(point: TelemetrySample, c: Captured, process: Process) {
    point.elapsedMs == c.elapsedMs && Ticks(point, process) == Some(c.ticks) && Rate(point, process) == c.rate
  }

  /** In a chain, the base of the next rate is at the latest time. */
  lemma {:induction false} BaseIsLatest(hz: u64, caps: seq<Captured>, n: nat)
    requires Chained(hz, caps) && 1 <= n <= |caps|
    ensures caps[Base(caps, n)].elapsedMs == caps[n - 1].elapsedMs
    ensures n > 1 ==> caps[n - 2].elapsedMs <= caps[n - 1].elapsedMs
    ensures caps[0].elapsedMs <= caps[n - 1].elapsedMs
  {
    hide CpuRate;
    if n > 1 {
      BaseIsLatest(hz, caps, n - 1);
      assert Linked(hz, caps, n - 1);
    }
  }

  /** One floored rate against its ticks. */
  lemma RateBounds(ticks: u64, hz: u64, elapsedMs: u64)
    requires hz > 0 && elapsedMs > 0
    ensures Product(CpuRate(ticks, hz, elapsedMs), Product(hz, elapsedMs)) <= Scaled(ticks)
    ensures CpuRate(ticks, hz, elapsedMs) < U64_MAX ==>
      Scaled(ticks) < Product(CpuRate(ticks, hz, elapsedMs) + 1, Product(hz, elapsedMs))
  {
    var d, q := Product(hz, elapsedMs), Scaled(ticks) / Product(hz, elapsedMs);
    assert q * d <= Scaled(ticks) < q * d + d;
    MulMonotone(CpuRate(ticks, hz, elapsedMs), q, d);
    assert (q + 1) * d == q * d + d;
  }

  /** In full: a rate is the whole number of thousandths of a percent of one processor, as far as 64 bits go. */
  lemma RateIsFloor(ticks: u64, hz: u64, elapsedMs: u64)
    requires hz > 0 && elapsedMs > 0
    ensures var r := CpuRate(ticks, hz, elapsedMs);
      && r * (hz * elapsedMs) <= ticks * 100_000_000
      && (r == U64_MAX || ticks * 100_000_000 < (r + 1) * (hz * elapsedMs))
  {
    hide CpuRate;
    RateBounds(ticks, hz, elapsedMs);
  }

  lemma ProductSum(a: nat, b: nat, c: nat)
    ensures Product(a, b + c) == Product(a, b) + Product(a, c)
    ensures Product(b + c, a) == Product(b, a) + Product(c, a)
    ensures Product(a, b) == Product(b, a) && Product(1, a) == a
  {}

  lemma ProductSwap(a: nat, b: nat, c: nat)
    ensures Product(a, Product(b, c)) == Product(b, Product(a, c))
  {}

  lemma ProductMonotone(a: nat, b: nat, c: nat)
    requires a <= b
    ensures Product(a, c) <= Product(b, c) && Product(c, a) <= Product(c, b)
  {
    MulMonotone(a, b, c);
  }

  predicate Unclamped(caps: seq<Captured>, n: nat)
    requires n <= |caps|
  {
    forall i | 0 <= i < n :: caps[i].rate.Some? ==> caps[i].rate.value < U64_MAX
  }

  /** One interval: what it adds to the weighted sum brackets the ticks it adds. */
  lemma IntervalBounds(hz: u64, base: Captured, c: Captured)
    requires hz > 0 && base.elapsedMs < c.elapsedMs && base.ticks <= c.ticks
    requires c.rate == Some(CpuRate(c.ticks - base.ticks, hz, c.elapsedMs - base.elapsedMs))
    ensures var w := c.elapsedMs - base.elapsedMs;
      && Product(hz, Product(c.rate.value, w)) <= Scaled(c.ticks - base.ticks)
      && (c.rate.value < U64_MAX ==> Scaled(c.ticks - base.ticks) < Product(hz, Product(c.rate.value, w) + w))
  {
    var w := c.elapsedMs - base.elapsedMs;
    RateBounds(c.ticks - base.ticks, hz, w);
    hide Product, Scaled, CpuRate;
    ProductSwap(hz, c.rate.value, w);
    ProductSwap(hz, c.rate.value + 1, w);
    ProductSum(w, c.rate.value, 1);
  }

  /** The ticks of a stretch lie between its weighted sum and that sum with one more unit for each millisecond. */
  predicate Brackets(hz: nat, sum: nat, total: nat, ticks: nat, unclamped: bool) {
    && Product(hz, sum) <= Scaled(ticks)
    && (unclamped ==> Scaled(ticks) <= Product(hz, sum + total))
    && (unclamped && total > 0 ==> Scaled(ticks) < Product(hz, sum + total))
  }

  lemma EmptyBrackets(hz: nat, unclamped: bool)
    ensures Brackets(hz, 0, 0, 0, unclamped)
  {}

  /** Adding one bracketed interval to a bracketed stretch. */
  lemma BracketsAdd(hz: nat, sum: nat, total: nat, ticks: nat, unclamped: bool, more: nat, w: nat, moreTicks: nat,
                    within: bool, both: bool)
    requires Brackets(hz, sum, total, ticks, unclamped) && Product(hz, more) <= Scaled(moreTicks)
    requires within ==> Scaled(moreTicks) < Product(hz, more + w)
    requires both ==> unclamped && within
    ensures Brackets(hz, sum + more, total + w, ticks + moreTicks, both)
  {
    hide Product, Scaled;
    ProductSum(hz, sum, more);
    ProductSum(hz, sum + total, more + w);
    ScaledSum(ticks, moreTicks);
    assert sum + total + (more + w) == sum + more + (total + w);
  }

  /** What the n-th point adds to the sums of a chain. */
  lemma ChainStep(hz: u64, points: seq<TelemetrySample>, caps: seq<Captured>, process: Process, n: nat)
    requires Chained(hz, caps) && Same(points, caps, process) && 2 <= n <= |caps|
    ensures var base, c := caps[Base(caps, n - 1)], caps[n - 1];
      && base.elapsedMs == caps[n - 2].elapsedMs <= c.elapsedMs
      && (if base.elapsedMs < c.elapsedMs then
            && hz > 0 && base.ticks <= c.ticks && Base(caps, n) == n - 1
            && c.rate == Some(CpuRate(c.ticks - base.ticks, hz, c.elapsedMs - base.elapsedMs))
            && WeightedSum(points, process, n)
               == WeightedSum(points, process, n - 1) + Product(c.rate.value, c.elapsedMs - base.elapsedMs)
            && TotalWeight(points, process, n) == TotalWeight(points, process, n - 1) + (c.elapsedMs - base.elapsedMs)
          else
            && Base(caps, n) == Base(caps, n - 1)
            && WeightedSum(points, process, n) == WeightedSum(points, process, n - 1)
            && TotalWeight(points, process, n) == TotalWeight(points, process, n - 1))
  {
    hide CpuRate, Product;
    BaseIsLatest(hz, caps, n - 1);
    assert Linked(hz, caps, n - 1) && SameAt(points[n - 1], caps[n - 1], process)
      && SameAt(points[n - 2], caps[n - 2], process);
  }

  /**
   * Sampler intervals and report intervals telescope identically, whatever captures failed and whatever times repeat.
   */
  lemma {:induction false} Telescopes(
    hz: u64, points: seq<TelemetrySample>, caps: seq<Captured>, process: Process, n: nat)
    requires Chained(hz, caps) && Same(points, caps, process) && 1 <= n <= |caps| == |points|
    ensures caps[0].ticks <= caps[Base(caps, n)].ticks
    ensures TotalWeight(points, process, n) == caps[n - 1].elapsedMs - caps[0].elapsedMs
    ensures Brackets(hz, WeightedSum(points, process, n), TotalWeight(points, process, n),
                     caps[Base(caps, n)].ticks - caps[0].ticks, Unclamped(caps, n))
  {
    hide CpuRate, Product, Scaled, Brackets, Chained, Same;
    if n == 1 {
      EmptyBrackets(hz, Unclamped(caps, 1));
    } else {
      Telescopes(hz, points, caps, process, n - 1);
      ChainStep(hz, points, caps, process, n);
      hide WeightedSum, TotalWeight;
      var base, c, sum, total :=
        caps[Base(caps, n - 1)], caps[n - 1], WeightedSum(points, process, n - 1), TotalWeight(points, process, n - 1);
      if base.elapsedMs < c.elapsedMs {
        IntervalBounds(hz, base, c);
        var w := c.elapsedMs - base.elapsedMs;
        BracketsAdd(hz, sum, total, base.ticks - caps[0].ticks, Unclamped(caps, n - 1), Product(c.rate.value, w), w,
                    c.ticks - base.ticks, c.rate.value < U64_MAX, Unclamped(caps, n));
      } else {
        Weaken(hz, sum, total, base.ticks - caps[0].ticks, Unclamped(caps, n - 1), Unclamped(caps, n));
      }
    }
  }

  lemma Weaken(hz: nat, sum: nat, total: nat, ticks: nat, unclamped: bool, fewer: bool)
    requires Brackets(hz, sum, total, ticks, unclamped) && (fewer ==> unclamped)
    ensures Brackets(hz, sum, total, ticks, fewer)
  {}

  lemma ScaledSum(a: nat, b: nat)
    ensures Scaled(a + b) == Scaled(a) + Scaled(b)
  {}

  /** From the weighted sum to its floored average. */
  lemma AverageBounds(hz: nat, sum: nat, window: nat)
    requires window > 0 && hz > 0
    ensures Product(sum / window, Product(hz, window)) <= Product(hz, sum)
    ensures Product(hz, sum + window) <= Product(sum / window + 2, Product(hz, window))
  {
    var a := sum / window;
    assert a * window <= sum < a * window + window;
    ProductMonotone(Product(a, window), sum, hz);
    ProductMonotone(sum + window, Product(a + 2, window), hz) by {
      assert (a + 2) * window == a * window + window + window;
    }
    ProductSwap(hz, a, window);
    ProductSwap(hz, a + 2, window);
  }

  /**
   * The error bound over the captures of one process: the average never overstates the processor time, and understates
   * it by less than two thousandths of a percent, unless a rate did not fit its 64 bits.
   */
  predicate WithinBounds(average: nat, hz: nat, ticks: nat, window: nat, unclamped: bool) {
    && average * (hz * window) <= ticks * 100_000_000
    && (unclamped ==> ticks * 100_000_000 < (average + 2) * (hz * window))
  }

  lemma BoundsAreProducts(average: nat, hz: nat, ticks: nat, window: nat, unclamped: bool)
    ensures WithinBounds(average, hz, ticks, window, unclamped) <==>
      && Product(average, Product(hz, window)) <= Scaled(ticks)
      && (unclamped ==> Scaled(ticks) < Product(average + 2, Product(hz, window)))
  {}

  lemma ChainedAverageIsClose(hz: u64, samples: seq<TelemetrySample>, caps: seq<Captured>, process: Process)
    requires Chained(hz, caps) && Same(Points(samples), caps, process) && InTimeOrder(samples)
    requires EndpointsUsable(samples, process)
    ensures caps != [] && hz > 0
    ensures caps[0].ticks <= caps[|caps| - 1].ticks && caps[0].elapsedMs < caps[|caps| - 1].elapsedMs
    ensures WindowAverage(samples, process).Some?
    ensures WithinBounds(WindowAverage(samples, process).value, hz, caps[|caps| - 1].ticks - caps[0].ticks,
                         caps[|caps| - 1].elapsedMs - caps[0].elapsedMs, Unclamped(caps, |caps|))
  {
    hide InTimeOrder, Ascending, Product, Scaled, WeightedSum, TotalWeight, Points, CpuRate, WithinBounds;
    PointsEnds(samples);
    PointsAreOrdered(samples);
    var points, n := Points(samples), |caps|;
    Telescopes(hz, points, caps, process, n);
    assert SameAt(points[0], caps[0], process) && SameAt(points[n - 1], caps[n - 1], process);
    assert n > 1;
    BaseIsLatest(hz, caps, n);
    BaseIsLatest(hz, caps, n - 1);
    assert Linked(hz, caps, n - 1);
    var sum, window := WeightedSum(points, process, n), caps[n - 1].elapsedMs - caps[0].elapsedMs;
    AverageBounds(hz, sum, window);
    AverageFits(points, process);
    BoundsAreProducts(WindowAverage(samples, process).value, hz, caps[n - 1].ticks - caps[0].ticks, window,
                      Unclamped(caps, n));
  }

  lemma AverageFits(points: seq<TelemetrySample>, process: Process)
    requires points != [] && Ascending(points) && TotalWeight(points, process, |points|) > 0
    ensures WeightedSum(points, process, |points|) / TotalWeight(points, process, |points|) <= U64_MAX
  {
    var sum, total := WeightedSum(points, process, |points|), TotalWeight(points, process, |points|);
    SumsAreBounded(points, process, |points|);
    hide WeightedSum, TotalWeight;
    QuotientAtMost(sum, total, U64_MAX);
  }

  lemma QuotientAtMost(a: nat, b: nat, q: nat)
    requires b > 0 && a <= q * b
    ensures a / b <= q
  {
    assert (q + 1) * b == q * b + b;
    if q + 1 <= a / b {
      MulMonotone(q + 1, a / b, b);
    }
  }

  /** Without refused samples, the reader's points are the sampler's captures of a process that never went missing. */
  lemma {:induction false} PointsAreCaptures(log: seq<Record>, process: Process)
    requires RefusedRecords(log) == 0
    requires forall i | 0 <= i < |log| && log[i].outcome.Sample? :: CapturedIn(log[i], process).Some?
    ensures Same(Points(ReadSamples(log)), Captures(log, process), process)
  {
    hide ReadSample, CapturedIn, Refused, SameAt;
    if log != [] {
      var init, last := log[..|log| - 1], log[|log| - 1];
      forall i | 0 <= i < |init| && init[i].outcome.Sample? ensures CapturedIn(init[i], process).Some? {
        assert init[i] == log[i];
      }
      PointsAreCaptures(init, process);
      PointOf(last, process);
      if !last.outcome.Phase? {
        assert log == init + [last];
        ReadPoints(init, last);
      }
    }
  }

  lemma PointOf(record: Record, process: Process)
    ensures record.outcome.Sample? && !Refused(record) && CapturedIn(record, process).Some? ==>
      !ReadSample(record).isGap && SameAt(ReadSample(record), CapturedIn(record, process).value, process)
    ensures !record.outcome.Sample? ==> ReadSample(record).isGap && CapturedIn(record, process).None?
  {
    hide WorkersValid;
  }

  lemma ReadPoints(init: seq<Record>, last: Record)
    requires !last.outcome.Phase?
    ensures Points(ReadSamples(init + [last]))
         == Points(ReadSamples(init)) + if ReadSample(last).isGap then [] else [ReadSample(last)]
  {
    hide ReadSample;
    SnocRecord(init, last);
    var all := ReadSamples(init) + [ReadSample(last)];
    assert all[..|all| - 1] == ReadSamples(init);
  }

  /** A usable final sample of a complete log is one of which the process was captured, so no capture lacks it. */
  lemma NothingWentMissing(s: Sampler, process: Process)
    requires LogChained(s) && CompleteLog(s.output) && EndpointsUsable(ReadSamples(s.output), process)
    ensures forall i | 0 <= i < |s.output| && s.output[i].outcome.Sample? :: CapturedIn(s.output[i], process).Some?
  {
    hide ChainKept, WorkersValid, PhaseRecords;
    var log, n := s.output, |s.output| - 1;
    forall i | 0 <= i < |log| && log[i].outcome.Sample? ensures CapturedIn(log[i], process).Some? {
      assert RecordFits(log[i], s.clockTicksPerSecond);
      if i == n && process == RtcGenerator {
        assert ReadSamples(log)[|ReadSamples(log)| - 1] == ReadSample(log[n]);
      }
    }
  }

  /** Captures of the whole window: the first and the last record's. */
  lemma {:induction false} CaptureEnds(log: seq<Record>, process: Process)
    requires log != [] && CapturedIn(log[0], process).Some?
    ensures Captures(log, process) != [] && Captures(log, process)[0] == CapturedIn(log[0], process).value
    ensures CapturedIn(log[|log| - 1], process).Some? ==>
      Captures(log, process)[|Captures(log, process)| - 1] == CapturedIn(log[|log| - 1], process).value
  {
    if |log| > 1 {
      CaptureEnds(log[..|log| - 1], process);
    }
  }
}
