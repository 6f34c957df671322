/** Chart series over telemetry samples, and the gaps that keep them from being drawn across a phase transition. */
module PhaseGaps {
  import opened Machine
  import opened Telemetry
  import opened TelemetryReader
  import opened Smoothing
  import opened Phases

  datatype Series = Series(values: seq<Slot>, rawValues: Option<seq<Slot>>, intervalStarts: Option<seq<Option<u64>>>)

  type Reading = TelemetrySample -> Option<u64>

  // ---- gauges ----

  function DirectValues(samples: seq<TelemetrySample>, value: Reading): (values: seq<Slot>)
    ensures |values| == |samples|
  {
    seq(|samples|, i requires 0 <= i < |samples| =>
      var v := value(samples[i]); if v.Some? then Some(Point(samples[i].elapsedMs, v.value)) else None)
  }

  /** Time of the last defined slot among the first n. */
  function LastTime(values: seq<Slot>, n: nat): Option<u64>
    requires n <= |values|
  {
    if n == 0 then None
    else if values[n - 1].Some? then Some(values[n - 1].value.elapsedMs)
    else LastTime(values, n - 1)
  }

  function StartsOf(values: seq<Slot>): (starts: seq<Option<u64>>)
    ensures |starts| == |values|
  {
    seq(|values|, i requires 0 <= i < |values| => if values[i].Some? then LastTime(values, i) else None)
  }

  method PreviousValueStarts(values: seq<Slot>) returns (starts: seq<Option<u64>>)
    ensures starts == StartsOf(values)
  {
    starts := [];
    var previous: Option<u64> := None;
    for i := 0 to |values|
      invariant starts == StartsOf(values)[..i] && previous == LastTime(values, i)
    {
      if values[i].Some? {
        starts := starts + [previous];
        previous := Some(values[i].value.elapsedMs);
      } else {
        starts := starts + [None];
      }
    }
  }

  method DirectSeries(samples: seq<TelemetrySample>, value: Reading, smooth: bool) returns (series: Series)
    ensures var values := DirectValues(samples, value);
      series == Series(values, None, if smooth then Some(StartsOf(values)) else None)
  {
    var values := DirectValues(samples, value);
    var starts := PreviousValueStarts(values);
    series := Series(values, None, if smooth then Some(starts) else None);
  }

  // ---- counters ----

  /** The rate between two readings of a counter, if time passed and the counter did not fall. */
  function CounterPoint(prior: Slot, current: Slot, scale: u64): Slot {
    if prior.None? || current.None? || current.value.elapsedMs <= prior.value.elapsedMs
       || current.value.value < prior.value.value then None
    else
      var delta: nat, elapsed: nat :=
        current.value.value - prior.value.value, current.value.elapsedMs - prior.value.elapsedMs;
      Some(Point(current.value.elapsedMs, Mean(delta * scale, elapsed)))
  }

  function CounterAt(readings: seq<Slot>, scale: u64, i: nat): Slot
    requires i < |readings|
  {
    if i == 0 then None else CounterPoint(readings[i - 1], readings[i], scale)
  }

  function CounterStartAt(readings: seq<Slot>, scale: u64, i: nat): Option<u64>
    requires i < |readings|
  {
    if i > 0 && readings[i - 1].Some? && CounterAt(readings, scale, i).Some? then Some(readings[i - 1].value.elapsedMs)
    else None
  }

  function CounterValues(readings: seq<Slot>, scale: u64): (values: seq<Slot>)
    ensures |values| == |readings| && forall i | 0 <= i < |values| :: values[i] == CounterAt(readings, scale, i)
  {
    seq(|readings|, i requires 0 <= i < |readings| => CounterAt(readings, scale, i))
  }

  function CounterStarts(readings: seq<Slot>, scale: u64): (starts: seq<Option<u64>>)
    ensures |starts| == |readings| && forall i | 0 <= i < |starts| :: starts[i] == CounterStartAt(readings, scale, i)
  {
    seq(|readings|, i requires 0 <= i < |readings| => CounterStartAt(readings, scale, i))
  }

  /** One turn of the counter loop. */
  lemma CounterTurn(readings: seq<Slot>, scale: u64, i: nat)
    requires i < |readings|
    ensures var prior := if i == 0 then None else readings[i - 1];
      var point := CounterPoint(prior, readings[i], scale);
      && (point.Some? ==> prior.Some?)
      && point == CounterAt(readings, scale, i)
      && (if point.Some? then Some(prior.value.elapsedMs) else None) == CounterStartAt(readings, scale, i)
  {
    hide Mean;
  }

  method CounterSeries(samples: seq<TelemetrySample>, value: Reading, scale: u64) returns (series: Series)
    ensures var readings := DirectValues(samples, value);
      series == Series(CounterValues(readings, scale), None, Some(CounterStarts(readings, scale)))
  {
    hide CounterPoint, CounterAt, CounterStartAt;
    ghost var readings := DirectValues(samples, value);
    var previous: Slot := None;
    var values: seq<Slot>, starts: seq<Option<u64>> := [], [];
    for i := 0 to |samples|
      invariant |values| == |starts| == i
      invariant forall k | 0 <= k < i :: values[k] == CounterAt(readings, scale, k)
      invariant forall k | 0 <= k < i :: starts[k] == CounterStartAt(readings, scale, k)
      invariant previous == if i == 0 then None else readings[i - 1]
    {
      var v := value(samples[i]);
      var current := if v.Some? then Some(Point(samples[i].elapsedMs, v.value)) else None;
      CounterTurn(readings, scale, i);
      var prior := previous;
      previous := current;
      var point := CounterPoint(prior, current, scale);
      starts := starts + [if point.Some? then Some(prior.value.elapsedMs) else None];
      values := values + [point];
    }
    assert values == CounterValues(readings, scale) && starts == CounterStarts(readings, scale);
    series := Series(values, None, Some(starts));
  }

  /**
   * A counter's slot is there if and only if both readings are, time has passed and the counter has not fallen; then it
   * is the whole part of the scaled difference over the elapsed time, at the later time.
   */
  lemma CounterIsRate(samples: seq<TelemetrySample>, value: Reading, scale: u64, i: nat)
    requires 0 < i < |samples|
    ensures var prior, current := samples[i - 1], samples[i];
      var slot := CounterValues(DirectValues(samples, value), scale)[i];
      && (slot.Some? <==>
            value(prior).Some? && value(current).Some? && prior.elapsedMs < current.elapsedMs
            && value(prior).value <= value(current).value)
      && (slot.Some? ==>
            && slot.value.elapsedMs == current.elapsedMs
            && IsFloor(slot.value.value, (value(current).value - value(prior).value) * scale,
                       current.elapsedMs - prior.elapsedMs))
  {
    hide Mean, IsFloor;
    var prior, current := samples[i - 1], samples[i];
    if value(prior).Some? && value(current).Some? && prior.elapsedMs < current.elapsedMs
       && value(prior).value <= value(current).value {
      MeanIsFloor((value(current).value - value(prior).value) * scale, current.elapsedMs - prior.elapsedMs);
    }
  }

  // ---- the fan-out ratio ----

  /** The two counters a fan-out ratio is taken from. */
  datatype Counters = Counters(ingress: Reading, forwarded: Reading)
  {
    predicate Both(sample: TelemetrySample) {
      ingress(sample).Some? && forwarded(sample).Some?
    }

    /** The last of the first n samples that has both counters. */
    function LastBoth(samples: seq<TelemetrySample>, n: nat): (last: Option<nat>)
      requires n <= |samples|
      ensures last.Some? ==> last.value < n && Both(samples[last.value])
      ensures forall k | (if last.Some? then last.value + 1 else 0) <= k < n :: !Both(samples[k])
    {
      if n == 0 then None else if Both(samples[n - 1]) then Some(n - 1) else LastBoth(samples, n - 1)
    }

    /** Forwarded packets per thousand received ones between two samples, if time passed and packets came in. */
    function Ratio(prior: TelemetrySample, sample: TelemetrySample): (point: Slot)
      requires Both(prior) && Both(sample)
      ensures point.Some? ==> prior.elapsedMs < sample.elapsedMs == point.value.elapsedMs
    {
      if sample.elapsedMs <= prior.elapsedMs || ingress(sample).value <= ingress(prior).value
         || forwarded(sample).value < forwarded(prior).value then None
      else
        var out: nat, received: nat := forwarded(sample).value - forwarded(prior).value,
                                       ingress(sample).value - ingress(prior).value;
        Some(Point(sample.elapsedMs, Mean(out * 1_000, received)))
    }

    function ValueAt(samples: seq<TelemetrySample>, i: nat): (point: Slot)
      requires i < |samples|
      ensures point.Some? ==> Both(samples[i]) && LastBoth(samples, i).Some?
    {
      var last := LastBoth(samples, i);
      if !Both(samples[i]) || last.None? then None else Ratio(samples[last.value], samples[i])
    }

    /** Where the interval of a sample's ratio really starts. */
    function OwnStart(samples: seq<TelemetrySample>, i: nat): Option<u64>
      requires i < |samples|
    {
      if ValueAt(samples, i).Some? then Some(samples[LastBoth(samples, i).value].elapsedMs) else None
    }

    /** The starts pushed for the first n samples: one for each sample with both counters, none for the others. */
    function StartsBefore(samples: seq<TelemetrySample>, n: nat): seq<Option<u64>>
      requires n <= |samples|
    {
      if n == 0 then []
      else StartsBefore(samples, n - 1) + if Both(samples[n - 1]) then [OwnStart(samples, n - 1)] else []
    }

    function Values(samples: seq<TelemetrySample>): (values: seq<Slot>)
      ensures |values| == |samples| && forall i | 0 <= i < |values| :: values[i] == ValueAt(samples, i)
    {
      seq(|samples|, i requires 0 <= i < |samples| => ValueAt(samples, i))
    }

    function Starts(samples: seq<TelemetrySample>): seq<Option<u64>> {
      StartsBefore(samples, |samples|)
    }
  }

  /** A sample without a counter yields a gap, but no interval start, and stays out of the next ratio. */
  method FanoutSeries(samples: seq<TelemetrySample>, counters: Counters) returns (series: Series)
    ensures series == Series(counters.Values(samples), None, Some(counters.Starts(samples)))
  {
    hide Counters.Ratio;
    var previous: Option<nat> := None;
    var values: seq<Slot>, starts: seq<Option<u64>> := [], [];
    for i := 0 to |samples|
      invariant |values| == i && forall k | 0 <= k < i :: values[k] == counters.ValueAt(samples, k)
      invariant starts == counters.StartsBefore(samples, i) && previous == counters.LastBoth(samples, i)
    {
      if counters.ingress(samples[i]).None? || counters.forwarded(samples[i]).None? {
        values := values + [None];
        continue;
      }
      var prior := previous;
      previous := Some(i);
      if prior.Some? {
        var point := counters.Ratio(samples[prior.value], samples[i]);
        starts := starts + [if point.Some? then Some(samples[prior.value].elapsedMs) else None];
        values := values + [point];
      } else {
        starts := starts + [None];
        values := values + [None];
      }
    }
    assert values == counters.Values(samples);
    series := Series(values, None, Some(starts));
  }

  /** The sample a ratio is taken against: the last one before it with both counters. */
  predicate IsLastBoth(counters: Counters, samples: seq<TelemetrySample>, i: nat, last: nat)
    requires i <= |samples|
  {
    last < i && counters.Both(samples[last]) && forall k | last < k < i :: !counters.Both(samples[k])
  }

  /**
   * A ratio is there if and only if the sample and an earlier one have both counters, and since the last such one time
   * has passed, packets have come in and forwarding has not fallen; then it is the whole part of a thousand times the
   * forwarded over the received packets.
   */
  lemma FanoutIsRatio(counters: Counters, samples: seq<TelemetrySample>, i: nat, last: nat)
    requires i < |samples| && IsLastBoth(counters, samples, i, last)
    ensures var prior, sample, slot := samples[last], samples[i], counters.Values(samples)[i];
      && (slot.Some? <==>
            && counters.Both(sample) && prior.elapsedMs < sample.elapsedMs
            && counters.ingress(prior).value < counters.ingress(sample).value
            && counters.forwarded(prior).value <= counters.forwarded(sample).value)
      && (slot.Some? ==>
            && slot.value.elapsedMs == sample.elapsedMs
            && IsFloor(slot.value.value,
                       (counters.forwarded(sample).value - counters.forwarded(prior).value) * 1_000,
                       counters.ingress(sample).value - counters.ingress(prior).value))
  {
    hide Mean, IsFloor;
    var prior, sample := samples[last], samples[i];
    assert counters.LastBoth(samples, i) == Some(last);
    if counters.Both(sample) && counters.ingress(prior).value < counters.ingress(sample).value
       && counters.forwarded(prior).value <= counters.forwarded(sample).value {
      MeanIsFloor((counters.forwarded(sample).value - counters.forwarded(prior).value) * 1_000,
                  counters.ingress(sample).value - counters.ingress(prior).value);
    }
  }

  /** And there is none before a second sample with both counters. */
  lemma NoRatioYet(counters: Counters, samples: seq<TelemetrySample>, i: nat)
    requires i < |samples| && forall last | 0 <= last < i :: !counters.Both(samples[last])
    ensures counters.Values(samples)[i].None?
  {}

  lemma {:induction false} StartsCount(counters: Counters, samples: seq<TelemetrySample>, n: nat)
    requires n <= |samples|
    ensures |counters.StartsBefore(samples, n)| <= n
    ensures |counters.StartsBefore(samples, n)| == n <==> forall k | 0 <= k < n :: counters.Both(samples[k])
    ensures (forall k | 0 <= k < n :: counters.Both(samples[k])) ==>
      forall k | 0 <= k < n :: counters.StartsBefore(samples, n)[k] == counters.OwnStart(samples, k)
  {
    hide Counters.Both, Counters.OwnStart;
    if n > 0 {
      StartsCount(counters, samples, n - 1);
    }
  }

  lemma {:induction false} StartsGrow(counters: Counters, samples: seq<TelemetrySample>, m: nat, n: nat)
    requires m <= n <= |samples|
    ensures counters.StartsBefore(samples, m) <= counters.StartsBefore(samples, n)
  {
    if m < n {
      StartsGrow(counters, samples, m, n - 1);
    }
  }

  lemma {:induction false} LastIsNoEarlier(counters: Counters, samples: seq<TelemetrySample>, i: nat, n: nat)
    requires n <= |samples|
    ensures i < n && counters.Both(samples[i]) ==>
      counters.LastBoth(samples, n).Some? && i <= counters.LastBoth(samples, n).value
  {
    if n > 0 {
      LastIsNoEarlier(counters, samples, i, n - 1);
    }
  }

  /** Starts pushed behind sample i start at sample i or later. */
  lemma {:induction false} LaterStarts(counters: Counters, samples: seq<TelemetrySample>, i: nat, n: nat, q: nat)
    requires InTimeOrder(samples) && i < n <= |samples| && counters.Both(samples[i])
    requires |counters.StartsBefore(samples, i + 1)| <= q < |counters.StartsBefore(samples, n)|
    ensures var start := counters.StartsBefore(samples, n)[q]; start.Some? ==> samples[i].elapsedMs <= start.value
  {
    hide Counters.Both, Counters.ValueAt;
    if q < |counters.StartsBefore(samples, n - 1)| {
      LaterStarts(counters, samples, i, n - 1, q);
    } else {
      LastIsNoEarlier(counters, samples, i, n - 1);
    }
  }

  /** Starts and values are aligned if and only if every sample has both counters; then they link like a counter's. */
  lemma FanoutAligned(counters: Counters, samples: seq<TelemetrySample>)
    ensures |counters.Starts(samples)| == |counters.Values(samples)| <==> forall x | x in samples :: counters.Both(x)
    ensures (forall x | x in samples :: counters.Both(x)) ==>
      StartsLink(counters.Values(samples), counters.Starts(samples))
  {
    hide Counters.Ratio;
    var values, starts := counters.Values(samples), counters.Starts(samples);
    StartsCount(counters, samples, |samples|);
    if forall x | x in samples :: counters.Both(x) {
      forall k | 0 <= k < |samples| ensures counters.Both(samples[k]) {
        assert samples[k] in samples;
      }
      forall i | 0 < i < |values| ensures LinkedAt(values, starts, i) {
        assert counters.LastBoth(samples, i) == Some(i - 1);
      }
      assert forall i | 0 <= i < |values| :: StartsAt(values, starts, i);
    }
  }

  /** Gapping reads a slot's own start only where the value stands at its start's index. */
  predicate ReadsOwnStart(counters: Counters, samples: seq<TelemetrySample>, i: nat)
    requires i < |samples|
  {
    i < |counters.Starts(samples)| && counters.Starts(samples)[i] == counters.OwnStart(samples, i)
  }

  /**
   * Exactly when gapping reads the right start for every ratio: when no sample before a ratio lacks a counter. Behind
   * the first sample that does, it reads the start of a later interval, or none.
   */
  lemma FanoutReadsOwnStarts(counters: Counters, samples: seq<TelemetrySample>)
    requires InTimeOrder(samples)
    ensures (forall i | 0 <= i < |samples| && counters.ValueAt(samples, i).Some? :: ReadsOwnStart(counters, samples, i))
       <==> forall i, k | 0 <= k < i < |samples| && counters.ValueAt(samples, i).Some? :: counters.Both(samples[k])
  {
    hide Counters.Ratio, Counters.ValueAt, Counters.StartsBefore;
    forall i | 0 <= i < |samples| && counters.ValueAt(samples, i).Some?
      ensures ReadsOwnStart(counters, samples, i) <==> forall k | 0 <= k < i :: counters.Both(samples[k])
    {
      ReadsOwnStartWhen(counters, samples, i);
    }
  }

  lemma ReadsOwnStartWhen(counters: Counters, samples: seq<TelemetrySample>, i: nat)
    requires InTimeOrder(samples) && i < |samples| && counters.ValueAt(samples, i).Some?
    ensures ReadsOwnStart(counters, samples, i) <==> forall k | 0 <= k < i :: counters.Both(samples[k])
  {
    hide Counters.StartsBefore, InTimeOrder;
    var n, starts := |samples|, counters.Starts(samples);
    StartsCount(counters, samples, i + 1);
    StartsGrow(counters, samples, i + 1, n);
    if forall k | 0 <= k < i :: counters.Both(samples[k]) {
      assert starts[i] == counters.StartsBefore(samples, i + 1)[i];
    } else if i < |starts| {
      LaterStarts(counters, samples, i, n, i);
    }
  }

  // ---- gapping at phase transitions ----

  predicate Crosses(markers: seq<PhaseMarker>, start: u64, end: u64) {
    exists m | 0 <= m < |markers| :: start < markers[m].elapsedMs && markers[m].elapsedMs <= end
  }

  predicate CrossesAt(values: seq<Slot>, starts: seq<Option<u64>>, markers: seq<PhaseMarker>, i: nat)
    requires i < |values|
  {
    i < |starts| && values[i].Some? && starts[i].Some? && Crosses(markers, starts[i].value, values[i].value.elapsedMs)
  }

  function Gapped(values: seq<Slot>, starts: seq<Option<u64>>, markers: seq<PhaseMarker>): (gapped: seq<Slot>)
    ensures |gapped| == |values|
    ensures forall i | 0 <= i < |values| ::
      gapped[i] == if CrossesAt(values, starts, markers, i) then None else values[i]
  {
    seq(|values|, i requires 0 <= i < |values| => if CrossesAt(values, starts, markers, i) then None else values[i])
  }

  method AnyMarker(markers: seq<PhaseMarker>, start: u64, end: u64) returns (crosses: bool)
    ensures crosses == Crosses(markers, start, end)
  {
    crosses := false;
    for m := 0 to |markers|
      invariant crosses <==> exists k | 0 <= k < m :: start < markers[k].elapsedMs && markers[k].elapsedMs <= end
    {
      crosses := crosses || (start < markers[m].elapsedMs && markers[m].elapsedMs <= end);
    }
  }

  method GapPhaseCrossings(series: Series, markers: seq<PhaseMarker>) returns (gapped: Series)
    ensures series.intervalStarts.None? ==> gapped == series
    ensures series.intervalStarts.Some? ==>
      && gapped.intervalStarts == series.intervalStarts
      && gapped.values == Gapped(series.values, series.intervalStarts.value, markers)
      && (gapped.rawValues == series.rawValues || (series.rawValues.None? && gapped.rawValues == Some(series.values)))
      && (gapped.values != series.values && series.rawValues.None? ==> gapped.rawValues == Some(series.values))
  {
    if series.intervalStarts.None? {
      return series;
    }
    var values, starts := series.values, series.intervalStarts.value;
    var crossings: seq<nat> := [];
    var result := values;
    for i := 0 to |values|
      invariant |result| == |values|
      invariant forall k | 0 <= k < i :: result[k] == Gapped(values, starts, markers)[k]
      invariant forall k | i <= k < |values| :: result[k] == values[k]
      invariant crossings == [] ==> result == values
    {
      if i < |starts| && values[i].Some? && starts[i].Some? {
        var crosses := AnyMarker(markers, starts[i].value, values[i].value.elapsedMs);
        if crosses {
          crossings := crossings + [i];
          result := result[i := None];
        }
      }
    }
    assert result == Gapped(values, starts, markers);
    if crossings == [] {
      return series;
    }
    gapped := series.(values := result, rawValues := if series.rawValues.Some? then series.rawValues else Some(values));
  }

  // ---- no phase is blended with another ----

  /** Where two neighbouring slots are defined, the later one's interval starts at the earlier one's time. */
  predicate LinkedAt(values: seq<Slot>, starts: seq<Option<u64>>, i: nat)
    requires 0 < i < |values| == |starts|
  {
    values[i - 1].Some? && values[i].Some? ==> starts[i] == Some(values[i - 1].value.elapsedMs)
  }

  /** A slot without a start is the first reading there is: nothing is averaged over an interval there. */
  predicate StartsAt(values: seq<Slot>, starts: seq<Option<u64>>, i: nat)
    requires i < |values| == |starts|
  {
    starts[i].Some? ==> values[i].Some?
  }

  predicate StartsLink(values: seq<Slot>, starts: seq<Option<u64>>) {
    && |starts| == |values|
    && (forall i | 0 < i < |values| :: LinkedAt(values, starts, i))
    && forall i | 0 <= i < |values| :: StartsAt(values, starts, i)
  }

  /** Gauges, and the per-worker series built like them, link their starts. */
  lemma GaugeStartsLink(values: seq<Slot>)
    ensures StartsLink(values, StartsOf(values))
  {
    forall i | 0 < i < |values| ensures LinkedAt(values, StartsOf(values), i) {}
  }

  /** So do counters, on every input. */
  lemma CounterStartsLink(readings: seq<Slot>, scale: u64)
    ensures StartsLink(CounterValues(readings, scale), CounterStarts(readings, scale))
  {
    hide Mean;
    var values, starts := CounterValues(readings, scale), CounterStarts(readings, scale);
    forall i | 0 < i < |values| ensures LinkedAt(values, starts, i) {
      assert values[i - 1].Some? ==> values[i - 1].value.elapsedMs == readings[i - 1].value.elapsedMs;
    }
  }

  /** A counter point needs both neighbouring readings, so its whole interval lies between them. */
  lemma CounterIntervals(readings: seq<Slot>, scale: u64, i: nat)
    requires i < |readings| && CounterValues(readings, scale)[i].Some?
    ensures i > 0 && readings[i - 1].Some? && readings[i].Some?
    ensures CounterStarts(readings, scale)[i] == Some(readings[i - 1].value.elapsedMs)
    ensures readings[i - 1].value.elapsedMs < CounterValues(readings, scale)[i].value.elapsedMs
      == readings[i].value.elapsedMs
  {
    hide Mean;
  }

  /** Times of the defined slots do not go back. */
  predicate SlotsInOrder(values: seq<Slot>) {
    forall i, j | 0 <= i < j < |values| && values[i].Some? && values[j].Some? ::
      values[i].value.elapsedMs <= values[j].value.elapsedMs
  }

  /** Number of phases that have begun by a time. */
  function PhasesBegun(markers: seq<PhaseMarker>, time: u64): nat {
    if markers == [] then 0
    else PhasesBegun(markers[..|markers| - 1], time) + if markers[|markers| - 1].elapsedMs <= time then 1 else 0
  }

  lemma {:induction false} SamePhase(markers: seq<PhaseMarker>, start: u64, end: u64)
    requires start <= end
    ensures PhasesBegun(markers, start) <= PhasesBegun(markers, end)
    ensures Crosses(markers, start, end) <==> PhasesBegun(markers, start) < PhasesBegun(markers, end)
  {
    if markers != [] {
      var init, last := markers[..|markers| - 1], markers[|markers| - 1];
      SamePhase(init, start, end);
      if Crosses(init, start, end) {
        var m :| 0 <= m < |init| && start < init[m].elapsedMs && init[m].elapsedMs <= end;
        assert markers[m] == init[m];
      }
      if Crosses(markers, start, end) && !(start < last.elapsedMs && last.elapsedMs <= end) {
        var m :| 0 <= m < |markers| && start < markers[m].elapsedMs && markers[m].elapsedMs <= end;
        assert init[m] == markers[m];
      }
    }
  }

  /** After gapping, neighbouring defined slots lie in one phase. */
  lemma NeighboursShareAPhase(values: seq<Slot>, starts: seq<Option<u64>>, markers: seq<PhaseMarker>, i: nat)
    requires StartsLink(values, starts) && SlotsInOrder(values) && 0 < i < |values|
    ensures var gapped := Gapped(values, starts, markers);
      gapped[i - 1].Some? && gapped[i].Some? ==>
        PhasesBegun(markers, gapped[i - 1].value.elapsedMs) == PhasesBegun(markers, gapped[i].value.elapsedMs)
  {
    var gapped := Gapped(values, starts, markers);
    if gapped[i - 1].Some? && gapped[i].Some? {
      assert LinkedAt(values, starts, i);
      SamePhase(markers, values[i - 1].value.elapsedMs, values[i].value.elapsedMs);
    }
  }

  lemma {:induction false} RunSharesAPhase(
    values: seq<Slot>, starts: seq<Option<u64>>, markers: seq<PhaseMarker>, i: nat, j: nat)
    requires StartsLink(values, starts) && SlotsInOrder(values) && i <= j < |values|
    requires forall k | i <= k <= j :: Gapped(values, starts, markers)[k].Some?
    ensures var gapped := Gapped(values, starts, markers);
      PhasesBegun(markers, gapped[i].value.elapsedMs) == PhasesBegun(markers, gapped[j].value.elapsedMs)
    decreases j
  {
    if i < j {
      RunSharesAPhase(values, starts, markers, i, j - 1);
      NeighboursShareAPhase(values, starts, markers, j);
    }
  }

  /**
   * Smoothing never mixes phases: every slot that a gapped series averages into another one lies in the same phase, and
   * so does the whole interval of every rate that remains.
   */
  lemma SmoothingStaysInPhase(
    values: seq<Slot>, starts: seq<Option<u64>>, markers: seq<PhaseMarker>, radius: nat, i: nat, j: nat)
    requires StartsLink(values, starts) && SlotsInOrder(values) && i < |values|
    requires var gapped := Gapped(values, starts, markers); gapped[i].Some? && InWindow(gapped, radius, i, j)
    ensures var gapped := Gapped(values, starts, markers);
      && gapped[j].Some?
      && PhasesBegun(markers, gapped[i].value.elapsedMs) == PhasesBegun(markers, gapped[j].value.elapsedMs)
      && (starts[j].Some? ==> !Crosses(markers, starts[j].value, gapped[j].value.elapsedMs))
  {
    hide Gapped, StartsLink, SlotsInOrder, PhasesBegun, Crosses;
    if i <= j {
      RunSharesAPhase(values, starts, markers, i, j);
    } else {
      RunSharesAPhase(values, starts, markers, j, i);
    }
    StartsHaveLength(values, starts);
    assert !CrossesAt(values, starts, markers, j);
  }

  lemma StartsHaveLength(values: seq<Slot>, starts: seq<Option<u64>>)
    requires StartsLink(values, starts)
    ensures |starts| == |values|
  {}

  /** Sorted samples give slots in time order, for gauges, counters and workers alike. */
  lemma SortedSamplesGiveOrderedSlots(samples: seq<TelemetrySample>, value: Reading, scale: u64, id: nat)
    requires InTimeOrder(samples)
    ensures SlotsInOrder(DirectValues(samples, value))
    ensures SlotsInOrder(CounterValues(DirectValues(samples, value), scale))
    ensures SlotsInOrder(WorkerValues(samples, id))
  {
    hide Mean;
    forall i | 0 <= i < |samples|
      ensures WorkerValues(samples, id)[i].Some?
        ==> WorkerValues(samples, id)[i].value.elapsedMs == samples[i].elapsedMs
    {
      WorkerTime(samples[i].elapsedMs, samples[i].workers, id);
    }
    var readings := DirectValues(samples, value);
    forall i | 0 <= i < |samples|
      ensures CounterAt(readings, scale, i).Some?
        ==> CounterAt(readings, scale, i).value.elapsedMs == samples[i].elapsedMs
    {}
    hide CounterAt;
  }

  lemma {:induction false} WorkerTime(elapsedMs: u64, workers: seq<Worker>, id: nat)
    ensures WorkerIn(elapsedMs, workers, id).Some? ==> WorkerIn(elapsedMs, workers, id).value.elapsedMs == elapsedMs
  {
    if workers != [] {
      WorkerTime(elapsedMs, workers[..|workers| - 1], id);
    }
  }

  /** Gapping removes exactly the slots whose interval crosses a transition, and nothing is removed when none does. */
  lemma GapsExactlyCrossings(values: seq<Slot>, starts: seq<Option<u64>>, markers: seq<PhaseMarker>)
    ensures Gapped(values, starts, markers) == values <==>
      forall i | 0 <= i < |values| :: !CrossesAt(values, starts, markers, i)
  {
    var gapped := Gapped(values, starts, markers);
    forall i | 0 <= i < |values| ensures CrossesAt(values, starts, markers, i) ==> gapped[i] != values[i] {}
  }

  // ---- a ratio across a phase transition that gapping keeps ----

  function SampleWith(elapsedMs: u64, packets: Option<u64>): TelemetrySample {
    Gap(elapsedMs, Some(false)).(isGap := false, ingressPackets := packets, forwardedPackets := packets)
  }

  const FANOUT := Counters((x: TelemetrySample) => x.ingressPackets, (x: TelemetrySample) => x.forwardedPackets)

  /** The second of four samples lacks its counters. */
  const EXAMPLE: seq<TelemetrySample> :=
    [SampleWith(0, Some(0)), SampleWith(10, None), SampleWith(20, Some(10)), SampleWith(30, Some(20))]

  lemma ExampleSeries()
    ensures FANOUT.ValueAt(EXAMPLE, 2).Some? && FANOUT.ValueAt(EXAMPLE, 2).value.elapsedMs == 20
    ensures FANOUT.OwnStart(EXAMPLE, 2) == Some(0)
    ensures FANOUT.Starts(EXAMPLE) == [None, Some(0), Some(20)]
  {
    var c, s := FANOUT, EXAMPLE;
    assert c.LastBoth(s, 1) == Some(0) && c.LastBoth(s, 2) == Some(0) && c.LastBoth(s, 3) == Some(2);
    assert c.StartsBefore(s, 1) == [None] && c.StartsBefore(s, 2) == [None];
    assert c.StartsBefore(s, 3) == [None, Some(0)] && c.StartsBefore(s, 4) == [None, Some(0), Some(20)];
  }

  /** A phase begins inside the third sample's interval, but gapping reads the fourth's start and keeps the ratio. */
  lemma FanoutBlendsPhases()
    ensures var values, starts := FANOUT.Values(EXAMPLE), FANOUT.Starts(EXAMPLE);
      var markers, start := [PhaseMarker(5, Measured)], FANOUT.OwnStart(EXAMPLE, 2);
      && start.Some? && values[2].Some? && Crosses(markers, start.value, values[2].value.elapsedMs)
      && Gapped(values, starts, markers)[2] == values[2]
  {
    hide Counters.ValueAt, Counters.OwnStart, Counters.StartsBefore;
    ExampleSeries();
    var markers := [PhaseMarker(5, Measured)];
    assert markers[0].elapsedMs == 5;
  }

  // ---- the per-worker series ----

  /** What one sample says about one worker. */
  function WorkerAt(sample: TelemetrySample, id: nat): Slot {
    WorkerIn(sample.elapsedMs, sample.workers, id)
  }

  function WorkerIn(elapsedMs: u64, workers: seq<Worker>, id: nat): Slot {
    if workers == [] then None
    else
      var last := workers[|workers| - 1];
      if last.mediaWorkerId == id then Some(Point(elapsedMs, last.egressBitrateBps))
      else WorkerIn(elapsedMs, workers[..|workers| - 1], id)
  }

  function WorkerValues(samples: seq<TelemetrySample>, id: nat): (values: seq<Slot>)
    ensures |values| == |samples|
  {
    seq(|samples|, i requires 0 <= i < |samples| => WorkerAt(samples[i], id))
  }

  /** The policy accounts for every worker a sample shows. */
  predicate WithinPolicy(workers: seq<Worker>, mediaWorkers: nat) {
    && |workers| <= mediaWorkers
    && (forall k | 0 <= k < |workers| :: workers[k].mediaWorkerId < mediaWorkers)
    && forall j, k | 0 <= j < k < |workers| :: workers[j].mediaWorkerId != workers[k].mediaWorkerId
  }

  predicate PolicyFits(samples: seq<TelemetrySample>, mediaWorkers: nat) {
    && 0 < mediaWorkers <= MAX_TELEMETRY_WORKERS
    && forall i | 0 <= i < |samples| :: WithinPolicy(samples[i].workers, mediaWorkers)
  }

  /** The column of one worker after the first n samples: absent until the worker is first seen. */
  function Column(samples: seq<TelemetrySample>, n: nat, id: nat): Option<seq<Slot>>
    requires n <= |samples|
  {
    var values := WorkerValues(samples[..n], id);
    if forall i | 0 <= i < n :: values[i].None? then None else Some(values)
  }

  /** The columns with one more sample begun, of whose workers the first k have been entered. */
  function Entered(
    columns: seq<Option<seq<Slot>>>, elapsedMs: u64, workers: seq<Worker>, n: nat): (r: seq<Option<seq<Slot>>>)
    ensures |r| == |columns|
  {
    seq(|columns|, id requires 0 <= id < |columns| =>
      var slot := WorkerIn(elapsedMs, workers, id);
      if columns[id].Some? then Some(columns[id].value + [slot])
      else if slot.Some? then Some(seq(n, _ => None) + [slot]) else None)
  }

  method EnterSample(columns: seq<Option<seq<Slot>>>, elapsedMs: u64, workers: seq<Worker>, n: nat)
    returns (result: Result<seq<Option<seq<Slot>>>>)
    requires forall id | 0 <= id < |columns| && columns[id].Some? :: |columns[id].value| == n
    ensures result == if WithinPolicy(workers, |columns|) then Ok(Entered(columns, elapsedMs, workers, n)) else Err
  {
    if |workers| > |columns| {
      return Err;
    }
    var current := Entered(columns, elapsedMs, [], n);
    for k := 0 to |workers|
      invariant current == Entered(columns, elapsedMs, workers[..k], n)
      invariant forall j | 0 <= j < k :: workers[j].mediaWorkerId < |columns|
      invariant forall i, j | 0 <= i < j < k :: workers[i].mediaWorkerId != workers[j].mediaWorkerId
    {
      var id := workers[k].mediaWorkerId;
      if id >= |current| {
        return Err;
      }
      SeenBefore(elapsedMs, workers[..k], id);
      var column := if current[id].Some? then current[id].value else seq(n, _ => None) + [None];
      if column[n].Some? {
        return Err;
      }
      EntersOne(columns, elapsedMs, workers, n, k);
      current := current[id := Some(column[n := Some(Point(elapsedMs, workers[k].egressBitrateBps))])];
    }
    assert workers[..|workers|] == workers;
    return Ok(current);
  }

  lemma {:induction false} SeenBefore(elapsedMs: u64, workers: seq<Worker>, id: nat)
    ensures WorkerIn(elapsedMs, workers, id).Some? <==> exists k | 0 <= k < |workers| :: workers[k].mediaWorkerId == id
  {
    if workers != [] {
      SeenBefore(elapsedMs, workers[..|workers| - 1], id);
    }
  }

  lemma EntersOne(columns: seq<Option<seq<Slot>>>, elapsedMs: u64, workers: seq<Worker>, n: nat, k: nat)
    requires forall id | 0 <= id < |columns| && columns[id].Some? :: |columns[id].value| == n
    requires k < |workers| && workers[k].mediaWorkerId < |columns|
    requires WorkerIn(elapsedMs, workers[..k], workers[k].mediaWorkerId).None?
    ensures var id, before := workers[k].mediaWorkerId, Entered(columns, elapsedMs, workers[..k], n);
      var column := if before[id].Some? then before[id].value else seq(n, _ => None) + [None];
      && |column| == n + 1
      && Entered(columns, elapsedMs, workers[..k + 1], n)
         == before[id := Some(column[n := Some(Point(elapsedMs, workers[k].egressBitrateBps))])]
  {
    assert workers[..k + 1][..k] == workers[..k];
    var id, before, after := workers[k].mediaWorkerId, Entered(columns, elapsedMs, workers[..k], n),
                             Entered(columns, elapsedMs, workers[..k + 1], n);
    var slot := Some(Point(elapsedMs, workers[k].egressBitrateBps));
    var column := if before[id].Some? then before[id].value else seq(n, _ => None) + [None];
    assert WorkerIn(elapsedMs, workers[..k + 1], id) == slot;
    assert after[id] == Some(column[n := slot]) by {
      if columns[id].Some? {
        assert (columns[id].value + [None])[n := slot] == columns[id].value + [slot];
      } else {
        assert (seq(n, _ => None) + [None])[n := slot] == seq(n, _ => None) + [slot];
      }
    }
    forall other | 0 <= other < |columns| && other != id ensures after[other] == before[other] {}
  }

  lemma ColumnsGrow(samples: seq<TelemetrySample>, n: nat, mediaWorkers: nat)
    requires n < |samples|
    ensures var columns := seq(mediaWorkers, id requires 0 <= id < mediaWorkers => Column(samples, n, id));
      Entered(columns, samples[n].elapsedMs, samples[n].workers, n)
      == seq(mediaWorkers, id requires 0 <= id < mediaWorkers => Column(samples, n + 1, id))
  {
    var columns := seq(mediaWorkers, id requires 0 <= id < mediaWorkers => Column(samples, n, id));
    var entered := Entered(columns, samples[n].elapsedMs, samples[n].workers, n);
    forall id | 0 <= id < mediaWorkers ensures entered[id] == Column(samples, n + 1, id) {
      ColumnGrows(samples, n, id);
    }
  }

  lemma ColumnGrows(samples: seq<TelemetrySample>, n: nat, id: nat)
    requires n < |samples|
    ensures var slot := WorkerAt(samples[n], id);
      Column(samples, n + 1, id)
      == if Column(samples, n, id).Some? then Some(Column(samples, n, id).value + [slot])
         else if slot.Some? then Some(seq(n, _ => None) + [slot]) else None
  {
    var before, after, slot :=
      WorkerValues(samples[..n], id), WorkerValues(samples[..n + 1], id), WorkerAt(samples[n], id);
    assert after == before + [slot];
    assert (forall i | 0 <= i < n + 1 :: after[i].None?)
      <==> (forall i | 0 <= i < n :: before[i].None?) && slot.None? by {
      assert after[n] == slot && forall i | 0 <= i < n :: after[i] == before[i];
    }
    assert (forall i | 0 <= i < n :: before[i].None?) ==> before == seq(n, _ => None);
  }

  /** The series of one worker that appears in the samples. */
  function WorkerSeriesOf(samples: seq<TelemetrySample>, id: nat): Option<Series> {
    var column := Column(samples, |samples|, id);
    if column.None? then None else Some(Series(column.value, None, Some(StartsOf(column.value))))
  }

  /** One series per worker that appears, aligned with the samples; an error exactly when the policy does not fit. */
  method WorkerSeries(samples: seq<TelemetrySample>, mediaWorkers: nat) returns (result: Result<seq<Option<Series>>>)
    ensures result.Ok? <==> PolicyFits(samples, mediaWorkers)
    ensures result.Ok? ==>
      |result.value| == mediaWorkers
      && forall id | 0 <= id < mediaWorkers :: result.value[id] == WorkerSeriesOf(samples, id)
  {
    if mediaWorkers == 0 || mediaWorkers > MAX_TELEMETRY_WORKERS {
      return Err;
    }
    var columns: seq<Option<seq<Slot>>> := seq(mediaWorkers, _ => None);
    for n := 0 to |samples|
      invariant columns == seq(mediaWorkers, id requires 0 <= id < mediaWorkers => Column(samples, n, id))
      invariant forall i | 0 <= i < n :: WithinPolicy(samples[i].workers, mediaWorkers)
    {
      var entered := EnterSample(columns, samples[n].elapsedMs, samples[n].workers, n);
      if entered.Err? {
        return Err;
      }
      ColumnsGrow(samples, n, mediaWorkers);
      columns := entered.value;
    }
    var series: seq<Option<Series>> := [];
    for id := 0 to mediaWorkers
      invariant |series| == id && forall k | 0 <= k < id :: series[k] == WorkerSeriesOf(samples, k)
    {
      if columns[id].None? {
        series := series + [None];
      } else {
        var starts := PreviousValueStarts(columns[id].value);
        series := series + [Some(Series(columns[id].value, None, Some(starts)))];
      }
    }
    return Ok(series);
  }
}
