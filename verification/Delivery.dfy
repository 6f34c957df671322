/** Exact delivery at one receiver, stated about the payloads themselves, and the ledger's verdict on it. */
module Delivery {
  import opened Machine
  import opened Codec
  import opened Sums
  import opened Ledger
  import opened LedgerFacts

  /** The measured payloads of one stream, in the order they arrived. */
  function RouteOf(payloads: seq<seq<u8>>, key: StreamKey): seq<seq<u8>> {
    if payloads == [] then []
    else
      var rest, last := RouteOf(payloads[..|payloads| - 1], key), payloads[|payloads| - 1];
      if OnRoute(last, key) then rest + [last] else rest
  }

  predicate OnRoute(payload: seq<u8>, key: StreamKey) {
    var r := InspectPayload(payload);
    r.Ok? && r.value.identity.phase == Measured && KeyOf(r.value.identity) == key
  }

  /** A payload some route or the warmup accounts for. */
  predicate Accounted(payload: seq<u8>, keys: seq<StreamKey>) {
    var r := InspectPayload(payload);
    r.Ok? && (r.value.identity.phase == Measured ==> KeyOf(r.value.identity) in keys)
  }

  /** Payload i of a route carries ordinal i and an intact body. */
  predicate RouteExact(route: seq<seq<u8>>, n: nat) {
    |route| == n && forall i | 0 <= i < n :: IntactAt(route[i], i)
  }

  predicate IntactAt(payload: seq<u8>, ordinal: nat) {
    var r := InspectPayload(payload);
    r.Ok? && r.value.identity.ordinal == ordinal && r.value.payloadMatches
  }

  /** The planned packets, each once, in order within its stream, uncorrupted, and nothing else but warmup. */
  predicate ExactDelivery(keys: seq<StreamKey>, sizes: seq<nat>, payloads: seq<seq<u8>>)
    requires |keys| == |sizes|
  {
    && (forall p | p in payloads :: Accounted(p, keys))
    && forall k | 0 <= k < |keys| :: RouteExact(RouteOf(payloads, keys[k]), sizes[k])
  }

  predicate Distinct<T(==)>(s: seq<T>) {
    forall i, j | 0 <= i < j < |s| :: s[i] != s[j]
  }

  function Keys(streams: seq<ExpectedStream>): seq<StreamKey> {
    seq(|streams|, k requires 0 <= k < |streams| => streams[k].key)
  }

  function FreshStreams(keys: seq<StreamKey>, sizes: seq<nat>): (s: seq<ExpectedStream>)
    requires |keys| == |sizes|
    ensures Keys(s) == keys
  {
    seq(|keys|, k requires 0 <= k < |keys| => FreshStream(keys[k], sizes[k]))
  }

  /** Ledger state after the payloads, observed one by one. */
  function ObservedPayloads(keys: seq<StreamKey>, sizes: seq<nat>, payloads: seq<seq<u8>>): LedgerState
    requires |keys| == |sizes|
  {
    if payloads == [] then LedgerState(FreshStreams(keys, sizes), 0, 0, CorrectnessSummary(0, 0, 0, 0, 0))
    else
      var st := ObservedPayloads(keys, sizes, payloads[..|payloads| - 1]);
      Applied(st, Classify(st.streams, payloads[|payloads| - 1]))
  }

  function Events(keys: seq<StreamKey>, payloads: seq<seq<u8>>): (es: seq<Event>)
    ensures |es| == |payloads| && EventsFit(|keys|, es)
  {
    var streams := FreshStreams(keys, seq(|keys|, _ => 0));
    seq(|payloads|, i requires 0 <= i < |payloads| => Classify(streams, payloads[i]))
  }

  /** A stream is found by its key alone, so progress on the streams does not change how a payload is classified. */
  lemma {:induction false} FindByKeys(one: seq<ExpectedStream>, other: seq<ExpectedStream>, key: StreamKey)
    requires Keys(one) == Keys(other)
    ensures FindStream(one, key) == FindStream(other, key)
  {
    if one != [] {
      assert |one| == |Keys(one)| == |other|;
      assert one[0].key == Keys(one)[0] == other[0].key;
      assert Keys(one[1..]) == Keys(one)[1..] == Keys(other[1..]);
      FindByKeys(one[1..], other[1..], key);
    }
  }

  lemma ClassifyByKeys(one: seq<ExpectedStream>, other: seq<ExpectedStream>, payload: seq<u8>)
    requires Keys(one) == Keys(other)
    ensures Classify(one, payload) == Classify(other, payload)
  {
    hide InspectPayload;
    var r := InspectPayload(payload);
    if r.Ok? {
      FindByKeys(one, other, KeyOf(r.value.identity));
    }
  }

  lemma AppliedKeepsKeys(st: LedgerState, e: Event)
    requires e.Routed? ==> e.stream < |st.streams|
    ensures Keys(Applied(st, e).streams) == Keys(st.streams)
  {}

  lemma {:induction false} ObservedByEvents(keys: seq<StreamKey>, sizes: seq<nat>, payloads: seq<seq<u8>>)
    requires |keys| == |sizes|
    ensures ObservedPayloads(keys, sizes, payloads) == Observed(keys, sizes, Events(keys, payloads))
    ensures Keys(ObservedPayloads(keys, sizes, payloads).streams) == keys
  {
    hide Classify, Applied;
    if payloads != [] {
      var init, last := payloads[..|payloads| - 1], payloads[|payloads| - 1];
      ObservedByEvents(keys, sizes, init);
      var st := ObservedPayloads(keys, sizes, init);
      ClassifyByKeys(st.streams, FreshStreams(keys, seq(|keys|, _ => 0)), last);
      AppliedKeepsKeys(st, Classify(st.streams, last));
      assert Events(keys, payloads)[..|payloads| - 1] == Events(keys, init);
    }
  }

  function ArrivalOf(payload: seq<u8>): Arrival
    requires InspectPayload(payload).Ok?
  {
    var i := InspectPayload(payload).value;
    Arrival(i.identity.ordinal, i.payloadMatches, |payload|)
  }

  lemma ClassifyFinds(streams: seq<ExpectedStream>, payload: seq<u8>, k: nat)
    requires Distinct(Keys(streams)) && k < |streams|
    ensures OnRoute(payload, streams[k].key)
       <==> Classify(streams, payload).Routed? && Classify(streams, payload).stream == k
    ensures OnRoute(payload, streams[k].key) ==> Classify(streams, payload).arrival == ArrivalOf(payload)
  {
    hide InspectPayload, FindStream;
    var keys := Keys(streams);
    assert forall i | 0 <= i < |streams| :: keys[i] == streams[i].key;
    var r := InspectPayload(payload);
    if r.Ok? {
      var at := FindStream(streams, KeyOf(r.value.identity));
      assert at.Some? && at.value != k ==> keys[at.value] != keys[k];
    }
  }

  /** With distinct keys, the arrivals the ledger routes to stream k are the payloads of that route. */
  lemma {:induction false} RouteArrivals(keys: seq<StreamKey>, payloads: seq<seq<u8>>, k: nat)
    requires Distinct(keys) && k < |keys|
    ensures var route, arrivals := RouteOf(payloads, keys[k]), ArrivalsAt(Events(keys, payloads), k);
      && |route| == |arrivals|
      && forall i | 0 <= i < |route| :: OnRoute(route[i], keys[k]) && arrivals[i] == ArrivalOf(route[i])
  {
    hide InspectPayload, Classify;
    if payloads != [] {
      var init, last := payloads[..|payloads| - 1], payloads[|payloads| - 1];
      RouteArrivals(keys, init, k);
      var streams := FreshStreams(keys, seq(|keys|, _ => 0));
      ClassifyFinds(streams, last, k);
      assert Events(keys, payloads)[..|init|] == Events(keys, init);
    }
  }

  lemma AccountedIsNoStray(keys: seq<StreamKey>, streams: seq<ExpectedStream>, payload: seq<u8>)
    requires Keys(streams) == keys
    ensures Accounted(payload, keys) <==> !Classify(streams, payload).Stray?
  {
    hide InspectPayload, FindStream;
    var r := InspectPayload(payload);
    if r.Ok? {
      var key := KeyOf(r.value.identity);
      assert forall i | 0 <= i < |streams| :: keys[i] == streams[i].key;
      var at := FindStream(streams, key);
      assert at.Some? ==> keys[at.value] in keys;
    }
  }

  lemma {:induction false} StraysAreUnaccounted(keys: seq<StreamKey>, payloads: seq<seq<u8>>)
    ensures StrayCount(Events(keys, payloads)) == 0 <==> forall p | p in payloads :: Accounted(p, keys)
  {
    hide Accounted, Classify;
    if payloads != [] {
      var init, last := payloads[..|payloads| - 1], payloads[|payloads| - 1];
      StraysAreUnaccounted(keys, init);
      AccountedIsNoStray(keys, FreshStreams(keys, seq(|keys|, _ => 0)), last);
      assert Events(keys, payloads)[..|init|] == Events(keys, init);
      assert payloads == init + [last];
      assert forall p :: p in payloads <==> p in init || p == last;
    }
  }

  /** An intact payload of a stream has the length its kind and layer fix. */
  lemma IntactLength(payload: seq<u8>, key: StreamKey, ordinal: nat)
    requires OnRoute(payload, key) && IntactAt(payload, ordinal)
    ensures ExpectedLen(key.kind, key.layer) == Some(|payload|)
  {
    hide FindMagic, ParseHeader, BodyMatches;
  }

  lemma RouteExactByArrivals(keys: seq<StreamKey>, sizes: seq<nat>, payloads: seq<seq<u8>>, k: nat)
    requires |keys| == |sizes| && Distinct(keys) && k < |keys|
    ensures RouteExact(RouteOf(payloads, keys[k]), sizes[k]) <==> StreamExact(sizes, Events(keys, payloads), k)
  {
    hide InspectPayload, RouteOf, Events, ArrivalsAt;
    RouteArrivals(keys, payloads, k);
    var route, arrivals := RouteOf(payloads, keys[k]), ArrivalsAt(Events(keys, payloads), k);
    assert forall i | 0 <= i < |route| :: arrivals[i] == ArrivalOf(route[i]);
  }

  /** The ledger's summary is free of discrepancies exactly when delivery was exact. */
  lemma LedgerVerdict(keys: seq<StreamKey>, sizes: seq<nat>, payloads: seq<seq<u8>>)
    requires |keys| == |sizes| && Distinct(keys)
    ensures Finished(ObservedPayloads(keys, sizes, payloads)).DiscrepancyCount() == 0
       <==> ExactDelivery(keys, sizes, payloads)
  {
    hide RouteExact, StreamExact, Finished, ObservedPayloads, Events, Accounted, Observed;
    var events := Events(keys, payloads);
    ObservedByEvents(keys, sizes, payloads);
    SummaryIsExact(keys, sizes, events);
    StraysAreUnaccounted(keys, payloads);
    forall k | 0 <= k < |keys|
      ensures RouteExact(RouteOf(payloads, keys[k]), sizes[k]) <==> StreamExact(sizes, events, k)
    {
      RouteExactByArrivals(keys, sizes, payloads, k);
    }
  }

  /** An exact receiver has counted its planned packets and their fixed payload sizes. */
  lemma ExactReceiverTotals(keys: seq<StreamKey>, sizes: seq<nat>, lengths: seq<nat>, payloads: seq<seq<u8>>)
    requires |keys| == |sizes| == |lengths| && Distinct(keys) && ExactDelivery(keys, sizes, payloads)
    requires forall k | 0 <= k < |keys| :: ExpectedLen(keys[k].kind, keys[k].layer) == Some(lengths[k])
    ensures var st := ObservedPayloads(keys, sizes, payloads);
      && st.deliveredPackets == Sat(Sum(sizes))
      && st.deliveredPayloadBytes == Sat(Sum(seq(|sizes|, k requires 0 <= k < |sizes| => sizes[k] * lengths[k])))
  {
    hide InspectPayload, ObservedPayloads, Observed, Events, ArrivalsAt, StreamExact, Sum, ExpectedLen;
    var events := Events(keys, payloads);
    ObservedByEvents(keys, sizes, payloads);
    forall k | 0 <= k < |keys|
      ensures StreamExact(sizes, events, k)
      ensures forall a | a in ArrivalsAt(events, k) :: a.bytes == lengths[k]
    {
      RouteExactByArrivals(keys, sizes, payloads, k);
      RouteArrivals(keys, payloads, k);
      var route := RouteOf(payloads, keys[k]);
      forall i | 0 <= i < |route| ensures |route[i]| == lengths[k] {
        IntactLength(route[i], keys[k], i);
      }
    }
    ExactTotals(keys, sizes, events, lengths);
  }

  /**
   * What a receiver counts depends only on each route's own arrival order: two arrival sequences with the same routes
   * and as many unaccounted payloads leave the same ledger, however the routes interleave.
   */
  lemma OnlyRoutesMatter(keys: seq<StreamKey>, sizes: seq<nat>, one: seq<seq<u8>>, other: seq<seq<u8>>)
    requires |keys| == |sizes| && Distinct(keys)
    requires StrayCount(Events(keys, one)) == StrayCount(Events(keys, other))
    requires forall k | 0 <= k < |keys| :: RouteOf(one, keys[k]) == RouteOf(other, keys[k])
    ensures ObservedPayloads(keys, sizes, one) == ObservedPayloads(keys, sizes, other)
  {
    hide InspectPayload, ObservedPayloads, Observed, Events, ArrivalsAt, RouteOf;
    ObservedByEvents(keys, sizes, one);
    ObservedByEvents(keys, sizes, other);
    forall k | 0 <= k < |keys|
      ensures ArrivalsAt(Events(keys, one), k) == ArrivalsAt(Events(keys, other), k)
    {
      RouteArrivals(keys, one, k);
      RouteArrivals(keys, other, k);
      assert RouteOf(one, keys[k]) == RouteOf(other, keys[k]);
    }
    InterleavingInvariance(keys, sizes, Events(keys, one), Events(keys, other));
  }
}
