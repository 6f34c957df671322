/** The per-receiver packet ledger: how one arrival sequence is classified and counted. */
module Ledger {
  import opened Machine
  import opened Codec
  import opened Sums

  datatype StreamKey = StreamKey(source: u16, kind: PayloadKind, layer: Option<VideoLayer>)

  datatype ExpectedStream = ExpectedStream(key: StreamKey, seen: seq<bool>, nextOrdinal: nat)
  {
    predicate IsComplete() {
      nextOrdinal == |seen|
    }

    predicate Valid() {
      nextOrdinal == LeastUnseen(seen, 0)
    }
  }

  function NewStream(key: StreamKey, packets: u32): Result<ExpectedStream> {
    if packets == 0 then Err else Ok(FreshStream(key, packets))
  }

  function FreshStream(key: StreamKey, packets: nat): ExpectedStream {
    ExpectedStream(key, seq(packets, _ => false), 0)
  }

  /** Least index from `from` on that has not been seen, or the length. */
  function LeastUnseen(seen: seq<bool>, from: nat): (r: nat)
    requires from <= |seen|
    ensures from <= r <= |seen| && (r < |seen| ==> !seen[r])
    ensures forall i | from <= i < r :: seen[i]
    decreases |seen| - from
  {
    if from < |seen| && seen[from] then LeastUnseen(seen, from + 1) else from
  }

  datatype CorrectnessSummary = CorrectnessSummary(
    missing: u64, duplicate: u64, outOfOrder: u64, unexpected: u64, mismatches: u64)
  {
    function DiscrepancyCount(): u64 {
      SaturatingAdd(SaturatingAdd(SaturatingAdd(SaturatingAdd(missing, duplicate), outOfOrder), unexpected), mismatches)
    }
  }

  datatype LedgerState = LedgerState(
    streams: seq<ExpectedStream>, deliveredPackets: u64, deliveredPayloadBytes: u64, correctness: CorrectnessSummary)

  function FindStream(streams: seq<ExpectedStream>, key: StreamKey): (r: Option<nat>)
    ensures r.Some? ==> r.value < |streams| && streams[r.value].key == key
    ensures forall i | 0 <= i < (if r.Some? then r.value else |streams|) :: streams[i].key != key
  {
    if streams == [] then None
    else if streams[0].key == key then Some(0)
    else
      var rest := FindStream(streams[1..], key);
      if rest.None? then None else Some(rest.value + 1)
  }

  function KeyOf(identity: PacketIdentity): StreamKey {
    StreamKey(identity.source, identity.kind, identity.layer)
  }

  /** What an arrival is to a receiver, before any counting. */
  datatype Event = Stray | Ignored | Routed(stream: nat, arrival: Arrival)

  datatype Arrival = Arrival(ordinal: nat, matches: bool, bytes: nat)

  function Classify(streams: seq<ExpectedStream>, payload: seq<u8>): (e: Event)
    ensures e.Routed? ==> e.stream < |streams|
  {
    var inspection := InspectPayload(payload);
    if inspection.Err? then Stray
    else if inspection.value.identity.phase == Warmup then Ignored
    else
      var at := FindStream(streams, KeyOf(inspection.value.identity));
      if at.None? then Stray
      else Routed(at.value, Arrival(inspection.value.identity.ordinal, inspection.value.payloadMatches, |payload|))
  }

  /** One stream's counters as true, unbounded counts. */
  datatype Tally = Tally(
    seen: seq<bool>, delivered: nat, outOfRange: nat, duplicates: nat, outOfOrder: nat, mismatches: nat, bytes: nat)

  function FreshTally(n: nat): Tally {
    Tally(seq(n, _ => false), 0, 0, 0, 0, 0, 0)
  }

  function Feed(t: Tally, a: Arrival): Tally {
    if a.ordinal >= |t.seen| then t.(outOfRange := t.outOfRange + 1)
    else if t.seen[a.ordinal] then t.(duplicates := t.duplicates + 1)
    else t.(seen := t.seen[a.ordinal := true],
            delivered := t.delivered + 1,
            bytes := t.bytes + a.bytes,
            mismatches := t.mismatches + (if a.matches then 0 else 1),
            outOfOrder := t.outOfOrder + (if a.ordinal == LeastUnseen(t.seen, 0) then 0 else 1))
  }

  function TallyOf(n: nat, arrivals: seq<Arrival>): (t: Tally)
    ensures |t.seen| == n
  {
    if arrivals == [] then FreshTally(n)
    else Feed(TallyOf(n, arrivals[..|arrivals| - 1]), arrivals[|arrivals| - 1])
  }

  /** Arrivals routed to stream k, in arrival order. */
  function ArrivalsAt(events: seq<Event>, k: nat): seq<Arrival> {
    if events == [] then []
    else
      var rest, last := ArrivalsAt(events[..|events| - 1], k), events[|events| - 1];
      if last.Routed? && last.stream == k then rest + [last.arrival] else rest
  }

  function StrayCount(events: seq<Event>): nat {
    if events == [] then 0
    else StrayCount(events[..|events| - 1]) + (if events[|events| - 1].Stray? then 1 else 0)
  }

  function IgnoredCount(events: seq<Event>): nat {
    if events == [] then 0
    else IgnoredCount(events[..|events| - 1]) + (if events[|events| - 1].Ignored? then 1 else 0)
  }

  function Tallies(sizes: seq<nat>, events: seq<Event>): (ts: seq<Tally>)
    ensures |ts| == |sizes|
  {
    seq(|sizes|, k requires 0 <= k < |sizes| => TallyOf(sizes[k], ArrivalsAt(events, k)))
  }

  function Values(ts: seq<Tally>, f: Tally -> nat): seq<nat> {
    seq(|ts|, i requires 0 <= i < |ts| => f(ts[i]))
  }

  function Total(ts: seq<Tally>, f: Tally -> nat): nat {
    Sum(Values(ts, f))
  }

  function Delivered(t: Tally): nat { t.delivered }
  function OutOfRange(t: Tally): nat { t.outOfRange }
  function Duplicates(t: Tally): nat { t.duplicates }
  function OutOfOrder(t: Tally): nat { t.outOfOrder }
  function Mismatches(t: Tally): nat { t.mismatches }
  function Bytes(t: Tally): nat { t.bytes }
  function Missing(t: Tally): nat { Unseen(t.seen) }

  /** The ledger a receiver must hold after `events`, put together stream by stream. */
  function Assembled(keys: seq<StreamKey>, sizes: seq<nat>, events: seq<Event>): LedgerState
    requires |keys| == |sizes|
  {
    var ts := Tallies(sizes, events);
    LedgerState(
      seq(|keys|, k requires 0 <= k < |keys| => ExpectedStream(keys[k], ts[k].seen, LeastUnseen(ts[k].seen, 0))),
      Sat(Total(ts, Delivered)), Sat(Total(ts, Bytes)),
      CorrectnessSummary(0, Sat(Total(ts, Duplicates)), Sat(Total(ts, OutOfOrder)),
                         Sat(StrayCount(events) + Total(ts, OutOfRange)), Sat(Total(ts, Mismatches))))
  }

  /** How one event changes a ledger: the counters saturate, a first sight marks the stream. */
  function Applied(st: LedgerState, e: Event): LedgerState
    requires e.Routed? ==> e.stream < |st.streams|
  {
    match e
    case Ignored => st
    case Stray => st.(correctness := Unexpected(st.correctness))
    case Routed(k, a) =>
      var stream := st.streams[k];
      if a.ordinal >= |stream.seen| then st.(correctness := Unexpected(st.correctness))
      else if stream.seen[a.ordinal] then
        st.(correctness := st.correctness.(duplicate := SaturatingAdd(st.correctness.duplicate, 1)))
      else
        var seen := stream.seen[a.ordinal := true];
        var c := st.correctness;
        LedgerState(
          st.streams[k := stream.(seen := seen, nextOrdinal := LeastUnseen(seen, 0))],
          SaturatingAdd(st.deliveredPackets, 1),
          SaturatingAdd(st.deliveredPayloadBytes, Sat(a.bytes)),
          c.(mismatches := if a.matches then c.mismatches else SaturatingAdd(c.mismatches, 1),
             outOfOrder := if a.ordinal == stream.nextOrdinal then c.outOfOrder else SaturatingAdd(c.outOfOrder, 1)))
  }

  function Unexpected(c: CorrectnessSummary): CorrectnessSummary {
    c.(unexpected := SaturatingAdd(c.unexpected, 1))
  }

  class PacketLedger {
    var streams: seq<ExpectedStream>
    var deliveredPackets: u64
    var deliveredPayloadBytes: u64
    var correctness: CorrectnessSummary

    ghost predicate Valid()
      reads this
    {
      forall k | 0 <= k < |streams| :: streams[k].Valid()
    }

    ghost function State(): LedgerState
      reads this
    {
      LedgerState(streams, deliveredPackets, deliveredPayloadBytes, correctness)
    }

    constructor (streams: seq<ExpectedStream>)
      requires forall k | 0 <= k < |streams| :: streams[k].Valid()
      ensures Valid() && State() == LedgerState(streams, 0, 0, CorrectnessSummary(0, 0, 0, 0, 0))
    {
      this.streams, deliveredPackets, deliveredPayloadBytes := streams, 0, 0;
      correctness := CorrectnessSummary(0, 0, 0, 0, 0);
    }

    method Observe(payload: seq<u8>)
      requires Valid()
      modifies this
      ensures Valid() && State() == Applied(old(State()), Classify(old(streams), payload))
    {
      var inspection := InspectPayload(payload);
      if inspection.Err? {
        correctness := correctness.(unexpected := SaturatingAdd(correctness.unexpected, 1));
        return;
      }
      var identity := inspection.value.identity;
      if identity.phase == Warmup {
        return;
      }
      var at := FindStream(streams, KeyOf(identity));
      if at.None? {
        correctness := correctness.(unexpected := SaturatingAdd(correctness.unexpected, 1));
        return;
      }
      Record(at.value, identity.ordinal, inspection.value.payloadMatches, |payload|);
    }

    /** The part of `observe` after the stream is known. */
    method Record(k: nat, ordinal: nat, matches: bool, bytes: nat)
      requires Valid() && k < |streams|
      modifies this
      ensures Valid() && State() == Applied(old(State()), Routed(k, Arrival(ordinal, matches, bytes)))
    {
      hide Sat, SaturatingAdd;
      var all, stream := streams, streams[k];
      if ordinal >= |stream.seen| {
        correctness := correctness.(unexpected := SaturatingAdd(correctness.unexpected, 1));
        return;
      }
      if stream.seen[ordinal] {
        correctness := correctness.(duplicate := SaturatingAdd(correctness.duplicate, 1));
        return;
      }
      if !matches {
        correctness := correctness.(mismatches := SaturatingAdd(correctness.mismatches, 1));
      }
      if ordinal != stream.nextOrdinal {
        correctness := correctness.(outOfOrder := SaturatingAdd(correctness.outOfOrder, 1));
      }
      var seen := stream.seen[ordinal := true];
      deliveredPackets := SaturatingAdd(deliveredPackets, 1);
      deliveredPayloadBytes := SaturatingAdd(deliveredPayloadBytes, Sat(bytes));
      var next := AdvanceOrdinal(seen, stream.nextOrdinal);
      streams := all[k := stream.(seen := seen, nextOrdinal := next)];
    }

    method IsComplete() returns (complete: bool)
      requires Valid()
      ensures complete <==> forall k | 0 <= k < |streams| :: streams[k].IsComplete()
    {
      complete := true;
      for k := 0 to |streams|
        invariant complete <==> forall i | 0 <= i < k :: streams[i].IsComplete()
      {
        complete := complete && streams[k].IsComplete();
      }
    }

    method Finish() returns (summary: CorrectnessSummary)
      ensures summary == Finished(State())
    {
      ghost var all := MissingPerStream(streams);
      var missing: u64 := 0;
      for k := 0 to |streams|
        invariant missing == Sat(Sum(all[..k]))
      {
        var unseen := CountUnseen(streams[k].seen);
        missing := SaturatingAdd(missing, Sat(unseen));
        SumTake(all, k);
      }
      assert all[..|streams|] == all;
      summary := correctness.(missing := missing);
    }
  }

  /** The loop at the end of `observe`: skips what has already been seen. */
  method AdvanceOrdinal(seen: seq<bool>, start: nat) returns (next: nat)
    requires start <= |seen| && forall i | 0 <= i < start :: seen[i]
    ensures next == LeastUnseen(seen, 0)
  {
    next := start;
    while next < |seen| && seen[next]
      invariant next <= |seen| && forall i | 0 <= i < next :: seen[i]
    {
      next := next + 1;
    }
    LeastUnseenIs(seen, 0, next);
  }

  method CountUnseen(seen: seq<bool>) returns (unseen: nat)
    ensures unseen == Unseen(seen)
  {
    unseen := 0;
    for i := 0 to |seen|
      invariant unseen + Count(seen[..i]) == i
    {
      CountTake(seen, i);
      unseen := unseen + if seen[i] then 0 else 1;
    }
    assert seen[..|seen|] == seen;
  }

  function MissingPerStream(streams: seq<ExpectedStream>): (s: seq<nat>)
    ensures |s| == |streams|
  {
    seq(|streams|, k requires 0 <= k < |streams| => Unseen(streams[k].seen))
  }

  function Unseen(seen: seq<bool>): (n: nat)
    ensures n + Count(seen) == |seen|
  {
    CountBounds(seen);
    |seen| - Count(seen)
  }

  function Finished(st: LedgerState): CorrectnessSummary {
    st.correctness.(missing := Sat(Sum(MissingPerStream(st.streams))))
  }

  lemma {:induction false} LeastUnseenIs(seen: seq<bool>, from: nat, r: nat)
    requires from <= r <= |seen| && (r < |seen| ==> !seen[r]) && forall i | from <= i < r :: seen[i]
    ensures LeastUnseen(seen, from) == r
    decreases r - from
  {
    if from < r {
      LeastUnseenIs(seen, from + 1, r);
    }
  }
}
