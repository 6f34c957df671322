/** The gate itself: merged peer observations validate exactly when every receiver got exactly its planned packets. */
module Gate {
  import opened Machine
  import opened Codec
  import opened Sums
  import opened Ledger
  import opened Delivery
  import opened Workload
  import opened Expectations
  import opened PlanAgreement

  // ---- merging in the order tasks finish ----

  /** An observation counter that merging adds up, saturating. */
  ghost predicate Additive(f: Observation -> nat) {
    f(NO_OBSERVATION) == 0 && forall a, b :: f(Merged(a, b)) == Sat(f(a) + f(b))
  }

  lemma SatAbsorbs(a: nat, b: nat)
    ensures Sat(Sat(a) + b) == Sat(a + b) && Sat(a + Sat(b)) == Sat(a + b)
  {}

  lemma {:induction false} MergedCounts(s: seq<Observation>, f: Observation -> nat)
    requires Additive(f)
    ensures f(MergedAll(s)) == Sat(SumOf(s, f))
  {
    hide Merged;
    if s == [] {
      SumOfNone(f);
    } else {
      var init, last := s[..|s| - 1], s[|s| - 1];
      MergedCounts(init, f);
      assert s == init + [last];
      SumOfAppend(init, [last], f);
      SumOfOne(last, f);
      SatAbsorbs(SumOf(init, f), f(last));
    }
  }

  lemma TakeOut<T>(init: seq<T>, x: T, before: seq<T>, after: seq<T>)
    requires multiset(init + [x]) == multiset(before + [x] + after)
    ensures multiset(init) == multiset(before + after)
  {
    assert multiset(init + [x]) == multiset(init) + multiset{x};
    assert multiset(before + [x] + after) == multiset(before + after) + multiset{x};
    var m, n := multiset(init), multiset(before + after);
    assert m == (m + multiset{x}) - multiset{x};
    assert n == (n + multiset{x}) - multiset{x};
  }

  lemma {:induction false} SumIgnoresOrder<T>(a: seq<T>, b: seq<T>, f: T -> nat)
    requires multiset(a) == multiset(b)
    ensures SumOf(a, f) == SumOf(b, f)
  {
    hide SumOf;
    if a == [] {
      assert |multiset(b)| == |b|;
    } else {
      var init, last := a[..|a| - 1], a[|a| - 1];
      assert a == init + [last];
      assert last in multiset(a);
      var i :| 0 <= i < |b| && b[i] == last;
      var before, after := b[..i], b[i + 1..];
      assert b == before + [last] + after;
      TakeOut(init, last, before, after);
      SumIgnoresOrder(init, before + after, f);
      SumOfAppend(init, [last], f);
      SumOfAppend(before + [last], after, f);
      SumOfAppend(before, [last], f);
      SumOfAppend(before, after, f);
    }
  }

  function Upto(n: nat): seq<nat> {
    seq(n, i requires 0 <= i < n => i)
  }

  function Over<T>(order: seq<nat>, g: nat -> T): (r: seq<T>)
    ensures |r| == |order| && forall i | 0 <= i < |order| :: r[i] == g(order[i])
  {
    seq(|order|, i requires 0 <= i < |order| => g(order[i]))
  }

  /** A finishing order of the tasks 0..n-1: each of them once. */
  predicate Finishes(order: seq<nat>, n: nat) {
    multiset(order) == multiset(Upto(n))
  }

  lemma SumOverOrder<T>(order: seq<nat>, n: nat, g: nat -> T, f: T -> nat, h: nat -> nat)
    requires Finishes(order, n)
    requires forall i | 0 <= i < n :: h(i) == f(g(i))
    ensures SumOf(Over(order, g), f) == SumTo(n, h)
  {
    hide Sum, SumTo;
    var fg: nat -> nat := i => f(g(i));
    assert Each(Over(order, g), f) == Each(order, fg);
    SumIgnoresOrder(order, Upto(n), fg);
    SumToIsSum(n, h, Each(Upto(n), fg));
  }

  lemma {:induction false} SumToSat(n: nat, f: nat -> nat, g: nat -> nat)
    requires forall i | 0 <= i < n :: g(i) == Sat(f(i))
    ensures Sat(SumTo(n, g)) == Sat(SumTo(n, f))
  {
    if n > 0 {
      SumToSat(n - 1, f, g);
      SatAbsorbs(SumTo(n - 1, f), f(n - 1));
      SatAbsorbs(SumTo(n - 1, f), g(n - 1));
      SatAbsorbs(SumTo(n - 1, g), g(n - 1));
    }
  }

  lemma {:induction false} SumToZero(n: nat, f: nat -> nat)
    ensures SumTo(n, f) == 0 <==> forall i | 0 <= i < n :: f(i) == 0
  {
    if n > 0 {
      SumToZero(n - 1, f);
    }
  }

  /** In which order the rooms, and the peers of each room, hand in their observations. */
  datatype Order = Order(rooms: seq<nat>, peers: nat -> seq<nat>)

  ghost predicate CompleteOrder(order: Order, rooms: nat, peers: nat) {
    Finishes(order.rooms, rooms) && forall room :: Finishes(order.peers(room), peers)
  }

  function RoomMerged(obs: (nat, nat) -> Observation, order: Order, room: nat): Observation {
    MergedAll(Over(order.peers(room), peer => obs(room, peer)))
  }

  function RunMerged(obs: (nat, nat) -> Observation, order: Order): Observation {
    MergedAll(Over(order.rooms, room => RoomMerged(obs, order, room)))
  }

  function Row(f: (nat, nat) -> nat, room: nat): nat -> nat {
    (peer: nat) => f(room, peer)
  }

  function RowSums(peers: nat, f: (nat, nat) -> nat): nat -> nat {
    (room: nat) => SumTo(peers, Row(f, room))
  }

  function DoubleSum(rooms: nat, peers: nat, f: (nat, nat) -> nat): nat {
    SumTo(rooms, RowSums(peers, f))
  }

  function CountAt(obs: (nat, nat) -> Observation, f: Observation -> nat): (nat, nat) -> nat {
    (room: nat, peer: nat) => f(obs(room, peer))
  }

  /**
   * A merged counter is the true total over all rooms and peers, cut off at the maximum: finishing order is
   * immaterial.
   */
  lemma MergingIsOrderless(obs: (nat, nat) -> Observation, order: Order, rooms: nat, peers: nat, f: Observation -> nat)
    requires Additive(f) && CompleteOrder(order, rooms, peers)
    ensures f(RunMerged(obs, order)) == Sat(DoubleSum(rooms, peers, CountAt(obs, f)))
  {
    hide MergedAll, Merged, SumTo, SumOf, Sat, Finishes, Over, Row;
    var total := RowSums(peers, CountAt(obs, f));
    var merged: nat -> Observation := (room: nat) => RoomMerged(obs, order, room);
    var satTotal: nat -> nat := (room: nat) => Sat(total(room));
    forall room: nat ensures f(merged(room)) == satTotal(room) {
      RoomCount(obs, order, room, peers, f);
    }
    assert RunMerged(obs, order) == MergedAll(Over(order.rooms, merged));
    MergedCounts(Over(order.rooms, merged), f);
    SumOverOrder(order.rooms, rooms, merged, f, satTotal);
    SumToSat(rooms, total, satTotal);
  }

  lemma RoomCount(obs: (nat, nat) -> Observation, order: Order, room: nat, peers: nat, f: Observation -> nat)
    requires Additive(f) && Finishes(order.peers(room), peers)
    ensures f(RoomMerged(obs, order, room)) == Sat(SumTo(peers, Row(CountAt(obs, f), room)))
  {
    hide MergedAll, Merged, SumTo, SumOf, Sat, Finishes;
    var at: nat -> Observation := (peer: nat) => obs(room, peer);
    MergedCounts(Over(order.peers(room), at), f);
    SumOverOrder(order.peers(room), peers, at, f, Row(CountAt(obs, f), room));
    assert Over(order.peers(room), at) == Over(order.peers(room), peer => obs(room, peer));
  }

  // ---- what one peer hands in ----

  /** One peer's run as the gate sees it: what it offered, which payloads reached it, and its timings. */
  datatype PeerRun = PeerRun(
    offeredPackets: u64, offeredPayloadBytes: u64, payloads: seq<seq<u8>>, elapsedMs: u64, maxSendLagMs: u64)

  function KeysAt(spec: ScenarioSpec, room: nat, peer: nat): seq<StreamKey> {
    Keys(StreamsAt(spec, room, peer))
  }

  function SizesAt(spec: ScenarioSpec, room: nat, peer: nat): (r: seq<nat>)
    ensures |r| == |KeysAt(spec, room, peer)|
  {
    Each(StreamsAt(spec, room, peer), PacketsOf)
  }

  function LedgerAt(spec: ScenarioSpec, room: nat, peer: nat, payloads: seq<seq<u8>>): LedgerState {
    ObservedPayloads(KeysAt(spec, room, peer), SizesAt(spec, room, peer), payloads)
  }

  function PeerObservation(spec: ScenarioSpec, room: nat, peer: nat, run: PeerRun): Observation {
    var st := LedgerAt(spec, room, peer, run.payloads);
    Observation(run.offeredPackets, run.offeredPayloadBytes, st.deliveredPackets, st.deliveredPayloadBytes,
                Finished(st), run.elapsedMs, run.maxSendLagMs)
  }

  /** The receiving side of one peer: its ledger, fed with every payload, then finished. */
  method RunReceiver(spec: ScenarioSpec, room: u32, peer: nat, run: PeerRun) returns (observation: Observation)
    requires spec.InBounds() && room < spec.RoomCount()
    ensures observation == PeerObservation(spec, room, peer, run)
  {
    hide InspectPayload, Applied, Classify, KeysAt, SizesAt, Sat, SaturatingAdd;
    StreamsAreFresh(spec, room, peer);
    ghost var keys, sizes := KeysAt(spec, room, peer), SizesAt(spec, room, peer);
    var expected := ExpectedAt(spec, room, peer).value;
    FreshStreamsAreValid(keys, sizes);
    var ledger := new PacketLedger(expected);
    for i := 0 to |run.payloads|
      invariant ledger.Valid() && ledger.State() == ObservedPayloads(keys, sizes, run.payloads[..i])
    {
      ledger.Observe(run.payloads[i]);
      assert run.payloads[..i + 1][..i] == run.payloads[..i];
    }
    assert run.payloads[..|run.payloads|] == run.payloads;
    var correctness := ledger.Finish();
    observation := Observation(run.offeredPackets, run.offeredPayloadBytes, ledger.deliveredPackets,
                               ledger.deliveredPayloadBytes, correctness, run.elapsedMs, run.maxSendLagMs);
  }

  lemma FreshStreamsAreValid(keys: seq<StreamKey>, sizes: seq<nat>)
    requires |keys| == |sizes|
    ensures forall k | 0 <= k < |keys| :: FreshStreams(keys, sizes)[k].Valid()
  {}

  lemma StreamsAreFresh(spec: ScenarioSpec, room: u32, peer: nat)
    requires spec.InBounds() && room < spec.RoomCount()
    ensures ExpectedAt(spec, room, peer) == Ok(FreshStreams(KeysAt(spec, room, peer), SizesAt(spec, room, peer)))
  {
    hide ExpectedAt, TopologyOf, RoutesAt, PacketsAt, BytesAt, SumOf, FreshAndSized, FreshStreams, Distinct;
    ExpectedTotals(spec, room, peer);
    FreshStreamsAgain(StreamsAt(spec, room, peer));
  }

  lemma FreshStreamsAgain(streams: seq<ExpectedStream>)
    requires forall s | s in streams :: FreshAndSized(s)
    ensures streams == FreshStreams(Keys(streams), Each(streams, PacketsOf))
  {
    hide ExpectedLen, FreshStream;
    forall k | 0 <= k < |streams| ensures streams[k] == FreshStreams(Keys(streams), Each(streams, PacketsOf))[k] {
      assert FreshAndSized(streams[k]);
    }
  }

  predicate ReceivedExactly(spec: ScenarioSpec, room: nat, peer: nat, run: PeerRun) {
    ExactDelivery(KeysAt(spec, room, peer), SizesAt(spec, room, peer), run.payloads)
  }

  // ---- the counters of an observation ----

  function Discrepancies(o: Observation): nat { o.correctness.DiscrepancyCount() }
  function DeliveredPackets(o: Observation): nat { o.deliveredPackets }
  function DeliveredBytes(o: Observation): nat { o.deliveredPayloadBytes }
  function OfferedPackets(o: Observation): nat { o.offeredPackets }
  function OfferedBytes(o: Observation): nat { o.offeredPayloadBytes }

  lemma DiscrepancyIs(c: CorrectnessSummary)
    ensures c.DiscrepancyCount() == Sat(c.missing + c.duplicate + c.outOfOrder + c.unexpected + c.mismatches)
  {}

  lemma SatOfFive(a: nat, b: nat, c: nat, d: nat, e: nat)
    ensures Sat(Sat(a) + Sat(b) + Sat(c) + Sat(d) + Sat(e)) == Sat(a + b + c + d + e)
  {}

  lemma MergedDiscrepancies(c: CorrectnessSummary, d: CorrectnessSummary)
    ensures MergedSummary(c, d).DiscrepancyCount() == Sat(c.DiscrepancyCount() + d.DiscrepancyCount())
  {
    DiscrepancyIs(c);
    DiscrepancyIs(d);
    DiscrepancyIs(MergedSummary(c, d));
    hide Sat;
    SatOfFive(c.missing + d.missing, c.duplicate + d.duplicate, c.outOfOrder + d.outOfOrder,
              c.unexpected + d.unexpected, c.mismatches + d.mismatches);
    var m, n := c.missing + c.duplicate + c.outOfOrder + c.unexpected + c.mismatches,
                d.missing + d.duplicate + d.outOfOrder + d.unexpected + d.mismatches;
    SatAbsorbs(m, n);
    SatAbsorbs(Sat(m), n);
  }

  lemma MergedFields(a: Observation, b: Observation)
    ensures DeliveredPackets(Merged(a, b)) == Sat(DeliveredPackets(a) + DeliveredPackets(b))
    ensures DeliveredBytes(Merged(a, b)) == Sat(DeliveredBytes(a) + DeliveredBytes(b))
    ensures OfferedPackets(Merged(a, b)) == Sat(OfferedPackets(a) + OfferedPackets(b))
    ensures OfferedBytes(Merged(a, b)) == Sat(OfferedBytes(a) + OfferedBytes(b))
    ensures Discrepancies(Merged(a, b)) == Sat(Discrepancies(a) + Discrepancies(b))
  {
    hide Sat, CorrectnessSummary.DiscrepancyCount, MergedSummary;
    MergedDiscrepancies(a.correctness, b.correctness);
  }

  lemma NothingObserved()
    ensures Discrepancies(NO_OBSERVATION) == DeliveredPackets(NO_OBSERVATION) == DeliveredBytes(NO_OBSERVATION) == 0
    ensures OfferedPackets(NO_OBSERVATION) == OfferedBytes(NO_OBSERVATION) == 0
  {
    hide Sat, SaturatingAdd, CorrectnessSummary.DiscrepancyCount;
    DiscrepancyIs(NO_OBSERVATION.correctness);
    SaturatingSum(0, 0);
  }

  /** Merging loses no discrepancy, whatever its kind, and no packet or byte, up to the counters' maximum. */
  lemma CountersAreAdditive()
    ensures Additive(Discrepancies) && Additive(DeliveredPackets) && Additive(DeliveredBytes)
    ensures Additive(OfferedPackets) && Additive(OfferedBytes)
  {
    hide Merged, Sat, Discrepancies, DeliveredPackets, DeliveredBytes, OfferedPackets, OfferedBytes;
    NothingObserved();
    forall a, b
      ensures DeliveredPackets(Merged(a, b)) == Sat(DeliveredPackets(a) + DeliveredPackets(b))
      ensures DeliveredBytes(Merged(a, b)) == Sat(DeliveredBytes(a) + DeliveredBytes(b))
      ensures OfferedPackets(Merged(a, b)) == Sat(OfferedPackets(a) + OfferedPackets(b))
      ensures OfferedBytes(Merged(a, b)) == Sat(OfferedBytes(a) + OfferedBytes(b))
      ensures Discrepancies(Merged(a, b)) == Sat(Discrepancies(a) + Discrepancies(b))
    {
      MergedFields(a, b);
    }
  }

  // ---- the offered side ----

  /** What a peer with a finished schedule has offered: its audio packets and both layers of its video. */
  function OfferedAt(spec: ScenarioSpec, peer: nat): nat
    requires spec.InBounds()
  {
    var t := TopologyOf(spec);
    (if peer < t.audio then t.audioPackets else 0) + (if peer < t.video then t.low + t.high else 0)
  }

  function OfferedBytesAt(spec: ScenarioSpec, peer: nat): nat
    requires spec.InBounds()
  {
    var t := TopologyOf(spec);
    (if peer < t.audio then Times(t.audioPackets, AUDIO_BYTES) else 0)
    + (if peer < t.video then Times(t.low, LOW_BYTES) + Times(t.high, HIGH_BYTES) else 0)
  }

  /** Every sender finished its schedule. */
  ghost predicate SendersFinished(spec: ScenarioSpec, run: (nat, nat) -> PeerRun)
    requires spec.InBounds()
  {
    forall room, peer | 0 <= room < spec.RoomCount() && 0 <= peer < spec.PeersPerRoom() ::
      run(room, peer).offeredPackets == Sat(OfferedAt(spec, peer))
      && run(room, peer).offeredPayloadBytes == Sat(OfferedBytesAt(spec, peer))
  }

  lemma {:induction false} SumFirst(n: nat, k: nat, c: nat)
    ensures SumTo(n, peer => if peer < k then c else 0) == Times(if n < k then n else k, c)
  {
    var f: nat -> nat := peer => if peer < k then c else 0;
    if n > 0 {
      SumFirst(n - 1, k, c);
      SumToSame(n - 1, f, peer => if peer < k then c else 0);
      var m := if n - 1 < k then n - 1 else k;
      TimesPair(m, 1, c);
      TimesOne(c);
    }
    SumToSame(n, f, peer => if peer < k then c else 0);
  }

  /** The planned offer is the sum over rooms and peers of what each publisher sends. */
  lemma OfferedTotals(spec: ScenarioSpec)
    requires spec.InBounds()
    ensures spec.Plan().Ok?
    ensures SumTo(spec.RoomCount(), room => SumTo(spec.PeersPerRoom(), peer => OfferedAt(spec, peer)))
         == spec.Plan().value.offeredPackets
    ensures SumTo(spec.RoomCount(), room => SumTo(spec.PeersPerRoom(), peer => OfferedBytesAt(spec, peer)))
         == spec.Plan().value.offeredPayloadBytes
  {
    hide TopologyOf, Times, SumTo, RoomDeliveries, RoomDeliveryBytes;
    PlanOfTopology(spec);
    TopologyCounts(spec);
    var t, n := TopologyOf(spec), spec.PeersPerRoom();
    SumFirst(n, t.audio, t.audioPackets);
    SumFirst(n, t.video, t.low + t.high);
    SumFirst(n, t.audio, Times(t.audioPackets, AUDIO_BYTES));
    SumFirst(n, t.video, Times(t.low, LOW_BYTES) + Times(t.high, HIGH_BYTES));
    var packets: nat -> nat, bytes: nat -> nat := peer => OfferedAt(spec, peer), peer => OfferedBytesAt(spec, peer);
    SumToAdds(n, peer => if peer < t.audio then t.audioPackets else 0,
              peer => if peer < t.video then t.low + t.high else 0, packets);
    SumToAdds(n, peer => if peer < t.audio then Times(t.audioPackets, AUDIO_BYTES) else 0,
              peer => if peer < t.video then Times(t.low, LOW_BYTES) + Times(t.high, HIGH_BYTES) else 0, bytes);
    TimesSum(t.video, t.low, t.high);
    TimesSum(t.video, Times(t.low, LOW_BYTES), Times(t.high, HIGH_BYTES));
    Associates(t.audio, t.audioPackets, AUDIO_BYTES);
    Associates(t.video, t.low, LOW_BYTES);
    Associates(t.video, t.high, HIGH_BYTES);
    SumToConstant(t.rooms, room => SumTo(n, packets), RoomOffered(t));
    SumToConstant(t.rooms, room => SumTo(n, bytes), RoomOfferedBytes(t));
    TimesIs(t.rooms, RoomOffered(t));
    TimesIs(t.rooms, RoomOfferedBytes(t));
  }

  lemma TimesIs(a: nat, b: nat)
    ensures Times(a, b) == a * b
  {}

  // ---- the verdict ----

  lemma RowIsSat(room: nat, peers: nat, f: (nat, nat) -> nat, g: (nat, nat) -> nat)
    requires forall peer: nat | peer < peers :: g(room, peer) == Sat(f(room, peer))
    ensures Sat(SumTo(peers, Row(g, room))) == Sat(SumTo(peers, Row(f, room)))
  {
    hide Sat, SumTo;
    var rowF, rowG := Row(f, room), Row(g, room);
    forall peer: nat | peer < peers ensures rowG(peer) == Sat(rowF(peer)) {
      assert g(room, peer) == Sat(f(room, peer));
    }
    SumToSat(peers, rowF, rowG);
  }

  lemma SumToSatSame(n: nat, f: nat -> nat, g: nat -> nat)
    requires forall i | 0 <= i < n :: Sat(f(i)) == Sat(g(i))
    ensures Sat(SumTo(n, f)) == Sat(SumTo(n, g))
  {
    hide Sat, SumTo;
    var satF: nat -> nat := (i: nat) => Sat(f(i));
    SumToSat(n, f, satF);
    SumToSat(n, g, satF);
  }

  lemma DoubleSumSat(rooms: nat, peers: nat, f: (nat, nat) -> nat, g: (nat, nat) -> nat)
    requires forall room: nat, peer: nat | room < rooms && peer < peers :: g(room, peer) == Sat(f(room, peer))
    ensures Sat(DoubleSum(rooms, peers, g)) == Sat(DoubleSum(rooms, peers, f))
  {
    hide Sat, SumTo, Row;
    forall room: nat | room < rooms ensures Sat(RowSums(peers, f)(room)) == Sat(RowSums(peers, g)(room)) {
      RowIsSat(room, peers, f, g);
    }
    SumToSatSame(rooms, RowSums(peers, f), RowSums(peers, g));
  }

  lemma DoubleSumZero(rooms: nat, peers: nat, f: (nat, nat) -> nat)
    ensures DoubleSum(rooms, peers, f) == 0 <==> forall room: nat, peer: nat | room < rooms && peer < peers ::
      f(room, peer) == 0
  {
    hide SumTo;
    var rows := RowSums(peers, f);
    SumToZero(rooms, rows);
    forall room: nat, peer: nat | room < rooms && peer < peers
      ensures rows(room) == 0 ==> f(room, peer) == 0
    {
      SumToZero(peers, Row(f, room));
      assert Row(f, room)(peer) == f(room, peer);
    }
    if forall room: nat, peer: nat | room < rooms && peer < peers :: f(room, peer) == 0 {
      forall room: nat | room < rooms ensures rows(room) == 0 {
        SumToZero(peers, Row(f, room));
      }
    }
  }

  /**
   * One receiver: its share of the discrepancies is zero exactly when delivery to it was exact, and then its totals
   * match.
   */
  lemma ReceiverVerdict(spec: ScenarioSpec, room: u32, peer: nat, run: PeerRun)
    requires spec.InBounds() && room < spec.RoomCount()
    ensures var o := PeerObservation(spec, room, peer, run);
      && (Discrepancies(o) == 0 <==> ReceivedExactly(spec, room, peer, run))
      && (ReceivedExactly(spec, room, peer, run) ==>
            && DeliveredPackets(o) == Sat(PacketCount(StreamsAt(spec, room, peer)))
            && DeliveredBytes(o) == Sat(ByteCount(StreamsAt(spec, room, peer))))
  {
    hide StreamsAt, TopologyOf, RoutesAt, PacketsAt, BytesAt, Sum, ExpectedLen, FreshStream, Distinct, ObservedPayloads,
         Finished, ExactDelivery, InspectPayload, Sat, CorrectnessSummary.DiscrepancyCount;
    ExpectedTotals(spec, room, peer);
    var streams, keys, sizes := StreamsAt(spec, room, peer), KeysAt(spec, room, peer), SizesAt(spec, room, peer);
    LedgerVerdict(keys, sizes, run.payloads);
    var lengths := Each(streams, LengthOf);
    LengthsAreFixed(streams);
    if ReceivedExactly(spec, room, peer, run) {
      ExactReceiverTotals(keys, sizes, lengths, run.payloads);
      assert seq(|sizes|, k requires 0 <= k < |sizes| => sizes[k] * lengths[k]) == Each(streams, BytesOf);
    }
  }

  lemma LengthsAreFixed(streams: seq<ExpectedStream>)
    requires forall s | s in streams :: FreshAndSized(s)
    ensures forall k | 0 <= k < |streams| ::
      ExpectedLen(Keys(streams)[k].kind, Keys(streams)[k].layer) == Some(Each(streams, LengthOf)[k])
  {
    forall k | 0 <= k < |streams|
      ensures ExpectedLen(Keys(streams)[k].kind, Keys(streams)[k].layer) == Some(Each(streams, LengthOf)[k])
    {
      assert FreshAndSized(streams[k]);
    }
  }

  function Observations(spec: ScenarioSpec, run: (nat, nat) -> PeerRun): (nat, nat) -> Observation {
    (room: nat, peer: nat) => PeerObservation(spec, room, peer, run(room, peer))
  }

  ghost predicate AllReceivedExactly(spec: ScenarioSpec, run: (nat, nat) -> PeerRun) {
    forall room, peer | 0 <= room < spec.RoomCount() && 0 <= peer < spec.PeersPerRoom() ::
      ReceivedExactly(spec, room, peer, run(room, peer))
  }

  lemma SatZero(n: nat)
    ensures Sat(n) == 0 <==> n == 0
  {}

  /** The merged discrepancy count of a run is zero exactly when every receiver was served exactly. */
  lemma MergedDiscrepancyVerdict(spec: ScenarioSpec, run: (nat, nat) -> PeerRun, order: Order)
    requires spec.InBounds() && CompleteOrder(order, spec.RoomCount(), spec.PeersPerRoom())
    ensures Discrepancies(RunMerged(Observations(spec, run), order)) == 0 <==> AllReceivedExactly(spec, run)
  {
    hide PeerObservation, RunMerged, Discrepancies, ReceivedExactly, Additive, CompleteOrder, DoubleSum, StreamsAt,
         ByteCount, PacketCount;
    var obs, rooms, peers := Observations(spec, run), spec.RoomCount(), spec.PeersPerRoom();
    var at := CountAt(obs, Discrepancies);
    CountersAreAdditive();
    MergingIsOrderless(obs, order, rooms, peers, Discrepancies);
    DoubleSumZero(rooms, peers, at);
    SatZero(DoubleSum(rooms, peers, at));
    forall room: nat, peer: nat | room < rooms && peer < peers
      ensures at(room, peer) == 0 <==> ReceivedExactly(spec, room, peer, run(room, peer))
    {
      ReceiverVerdict(spec, room, peer, run(room, peer));
    }
  }

  /** When every receiver was served exactly, the merged delivery counters are the planned ones. */
  lemma MergedDeliveries(spec: ScenarioSpec, run: (nat, nat) -> PeerRun, order: Order)
    requires spec.InBounds() && CompleteOrder(order, spec.RoomCount(), spec.PeersPerRoom())
    requires AllReceivedExactly(spec, run)
    ensures var merged := RunMerged(Observations(spec, run), order);
      && spec.Plan().Ok?
      && merged.deliveredPackets == spec.Plan().value.expectedDeliveries
      && merged.deliveredPayloadBytes == spec.Plan().value.expectedDeliveryPayloadBytes
  {
    hide PeerObservation, RunMerged, ReceivedExactly, Additive, CompleteOrder, StreamsAt, Discrepancies, SumTo,
         ByteCount, PacketCount, ScenarioSpec.Plan;
    var obs, rooms, peers := Observations(spec, run), spec.RoomCount(), spec.PeersPerRoom();
    var packetsAt: (nat, nat) -> nat := (room: nat, peer: nat) => PacketCount(StreamsAt(spec, room, peer));
    var bytesAt: (nat, nat) -> nat := (room: nat, peer: nat) => ByteCount(StreamsAt(spec, room, peer));
    forall room, peer | 0 <= room < rooms && 0 <= peer < peers
      ensures DeliveredPackets(obs(room, peer)) == Sat(packetsAt(room, peer))
      ensures DeliveredBytes(obs(room, peer)) == Sat(bytesAt(room, peer))
    {
      ReceiverVerdict(spec, room, peer, run(room, peer));
      assert ReceivedExactly(spec, room, peer, run(room, peer));
    }
    CountersAreAdditive();
    MergedCounter(obs, order, rooms, peers, DeliveredPackets, packetsAt);
    MergedCounter(obs, order, rooms, peers, DeliveredBytes, bytesAt);
    PlanEqualsExpectations(spec);
    DoubleSumIsOver(spec, PacketCount, packetsAt);
    DoubleSumIsOver(spec, ByteCount, bytesAt);
  }

  lemma DoubleSumIsOver(spec: ScenarioSpec, f: seq<ExpectedStream> -> nat, at: (nat, nat) -> nat)
    requires forall room: nat, peer: nat :: at(room, peer) == f(StreamsAt(spec, room, peer))
    ensures DoubleSum(spec.RoomCount(), spec.PeersPerRoom(), at) == OverReceivers(spec, f)
  {
    hide SumTo, StreamsAt;
    var rooms, peers := spec.RoomCount(), spec.PeersPerRoom();
    var rowF: nat -> nat := (room: nat) => SumTo(peers, peer => f(StreamsAt(spec, room, peer)));
    forall room: nat ensures RowSums(peers, at)(room) == rowF(room) {
      SumToSame(peers, Row(at, room), peer => f(StreamsAt(spec, room, peer)));
    }
    SumToSame(rooms, RowSums(peers, at), rowF);
    SumToSame(rooms, rowF, room => SumTo(peers, peer => f(StreamsAt(spec, room, peer))));
  }

  /** A merged counter whose shares are known up to saturation. */
  lemma MergedCounter(
    obs: (nat, nat) -> Observation, order: Order, rooms: nat, peers: nat, f: Observation -> nat, at: (nat, nat) -> nat)
    requires Additive(f) && CompleteOrder(order, rooms, peers)
    requires forall room: nat, peer: nat | room < rooms && peer < peers :: f(obs(room, peer)) == Sat(at(room, peer))
    ensures f(RunMerged(obs, order)) == Sat(DoubleSum(rooms, peers, at))
  {
    hide RunMerged, Additive, CompleteOrder, DoubleSum, Sat;
    MergingIsOrderless(obs, order, rooms, peers, f);
    DoubleSumSat(rooms, peers, at, CountAt(obs, f));
  }

  lemma OfferedRows(spec: ScenarioSpec, packetsAt: (nat, nat) -> nat, bytesAt: (nat, nat) -> nat)
    requires spec.InBounds()
    requires forall room: nat, peer: nat :: packetsAt(room, peer) == OfferedAt(spec, peer)
    requires forall room: nat, peer: nat :: bytesAt(room, peer) == OfferedBytesAt(spec, peer)
    ensures DoubleSum(spec.RoomCount(), spec.PeersPerRoom(), packetsAt)
         == SumTo(spec.RoomCount(), room => SumTo(spec.PeersPerRoom(), peer => OfferedAt(spec, peer)))
    ensures DoubleSum(spec.RoomCount(), spec.PeersPerRoom(), bytesAt)
         == SumTo(spec.RoomCount(), room => SumTo(spec.PeersPerRoom(), peer => OfferedBytesAt(spec, peer)))
  {
    hide SumTo, OfferedAt, OfferedBytesAt;
    var rooms, peers := spec.RoomCount(), spec.PeersPerRoom();
    forall room: nat
      ensures RowSums(peers, packetsAt)(room) == SumTo(peers, peer => OfferedAt(spec, peer))
      ensures RowSums(peers, bytesAt)(room) == SumTo(peers, peer => OfferedBytesAt(spec, peer))
    {
      SumToSame(peers, Row(packetsAt, room), peer => OfferedAt(spec, peer));
      SumToSame(peers, Row(bytesAt, room), peer => OfferedBytesAt(spec, peer));
    }
    SumToSame(rooms, RowSums(peers, packetsAt), room => SumTo(peers, peer => OfferedAt(spec, peer)));
    SumToSame(rooms, RowSums(peers, bytesAt), room => SumTo(peers, peer => OfferedBytesAt(spec, peer)));
  }

  /** When every sender finished, the merged offered counters are the planned ones. */
  lemma MergedOffers(spec: ScenarioSpec, run: (nat, nat) -> PeerRun, order: Order)
    requires spec.InBounds() && CompleteOrder(order, spec.RoomCount(), spec.PeersPerRoom())
    requires SendersFinished(spec, run)
    ensures var merged := RunMerged(Observations(spec, run), order);
      && spec.Plan().Ok?
      && merged.offeredPackets == spec.Plan().value.offeredPackets
      && merged.offeredPayloadBytes == spec.Plan().value.offeredPayloadBytes
  {
    hide RunMerged, Additive, CompleteOrder, SumTo, OfferedAt, OfferedBytesAt, ScenarioSpec.Plan, LedgerAt, Finished;
    var obs, rooms, peers := Observations(spec, run), spec.RoomCount(), spec.PeersPerRoom();
    var packetsAt: (nat, nat) -> nat := (room: nat, peer: nat) => OfferedAt(spec, peer);
    var bytesAt: (nat, nat) -> nat := (room: nat, peer: nat) => OfferedBytesAt(spec, peer);
    CountersAreAdditive();
    MergedCounter(obs, order, rooms, peers, OfferedPackets, packetsAt);
    MergedCounter(obs, order, rooms, peers, OfferedBytes, bytesAt);
    OfferedTotals(spec);
    OfferedRows(spec, packetsAt, bytesAt);
  }

  /**
   * The gate is sound and complete: with every sender's schedule finished, the completed result validates if and only
   * if every receiver of every room got each planned packet once, in order within its stream and with an intact body,
   * and nothing else but warmup; in whatever order rooms and peers finish.
   */
  lemma GateVerdict(spec: ScenarioSpec, run: (nat, nat) -> PeerRun, order: Order)
    requires spec.Valid() && CompleteOrder(order, spec.RoomCount(), spec.PeersPerRoom())
    requires SendersFinished(spec, run)
    ensures var result := Completed(spec, RunMerged(Observations(spec, run), order));
      result.Ok? && (result.value.Validates(spec) <==> AllReceivedExactly(spec, run))
  {
    hide RunMerged, Observations, SendersFinished, AllReceivedExactly, CompleteOrder, ScenarioSpec.Plan, PolicyFor,
         ScenarioSpec.Profile, ScenarioSpec.InBounds, CorrectnessSummary.DiscrepancyCount;
    MergedOffers(spec, run, order);
    MergedDiscrepancyVerdict(spec, run, order);
    if AllReceivedExactly(spec, run) {
      MergedDeliveries(spec, run, order);
    }
  }
}
