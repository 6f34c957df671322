/** The closed-form plan equals what the receivers are told to expect and what the publishers send. */
module PlanAgreement {
  import opened Machine
  import opened Codec
  import opened Sums
  import opened Ledger
  import opened Workload
  import opened Expectations
  import Emission

  /** A specification as numbers: who publishes what in each room, and how many packets each publication has. */
  datatype Topology = Topology(
    rooms: u32, peers: u32, audio: u32, audioPackets: u32, video: u32, low: u64, high: u64)

  function Frames(seconds: u32): nat {
    seconds * VIDEO_FRAMES_PER_SECOND
  }

  function TopologyOf(spec: ScenarioSpec): Topology
    requires spec.InBounds()
  {
    match spec
    case Smoke(receivers, packets) => Topology(1, receivers + 1, 1, packets, 0, 1, 1)
    case AudioMesh(rooms, peers, seconds) => Topology(rooms, peers, peers, seconds * AUDIO_PACKETS_PER_SECOND, 0, 1, 1)
    case VideoGallery(rooms, peers, publishers, seconds) =>
      Topology(rooms, peers, 0, 1, publishers, LowPackets(seconds), HighPackets(seconds))
    case MixedConference(rooms, peers, audioPublishers, videoPublishers, seconds) =>
      Topology(rooms, peers, audioPublishers, seconds * AUDIO_PACKETS_PER_SECOND,
               videoPublishers, LowPackets(seconds), HighPackets(seconds))
  }

  function LowPackets(seconds: u32): u64
    requires seconds <= 3_600
  {
    Emission.LayerPacketCount(Low, Frames(seconds))
  }

  function HighPackets(seconds: u32): u64
    requires seconds <= 3_600
  {
    Emission.LayerPacketCount(High, Frames(seconds))
  }

  predicate Bounded(t: Topology) {
    && 1 <= t.rooms <= 64 && 2 <= t.peers <= 100 && t.audio <= t.peers && t.video <= t.peers && t.video <= 10
    && 1 <= t.audioPackets <= 180_000 && 1 <= t.low <= 220_000 && 1 <= t.high <= 2_200_000
    && t.audio + t.video > 0 && (t.video > 0 ==> t.peers >= 3)
  }

  lemma TopologyIsBounded(spec: ScenarioSpec)
    requires spec.InBounds()
    ensures Bounded(TopologyOf(spec))
  {}

  lemma VideoPacketsFit(seconds: u32)
    requires 1 <= seconds <= 3_600
    ensures VideoPacketsPerLayer(seconds) == Ok((LowPackets(seconds), HighPackets(seconds)))
  {}

  function Remote(t: Topology): nat {
    if t.peers == 0 then 0 else t.peers - 1
  }

  function HighRoutesPerRoom(t: Topology): nat {
    if t.video == 0 then 0 else if t.video == 1 then Remote(t) else t.peers
  }

  function LowRoutesPerRoom(t: Topology): nat
    requires Bounded(t)
  {
    LowRoutesExist(t);
    Times(t.video, Remote(t)) - HighRoutesPerRoom(t)
  }

  lemma LowRoutesExist(t: Topology)
    requires Bounded(t)
    ensures HighRoutesPerRoom(t) <= Times(t.video, Remote(t))
  {
    if t.video >= 2 {
      MulMonotone(2, t.video, Remote(t));
    }
  }

  function AudioDeliveries(t: Topology): nat {
    Times(Times(t.audio, Remote(t)), t.audioPackets)
  }

  /** Deliveries and their payload bytes in one room. */
  function RoomDeliveries(t: Topology): nat
    requires Bounded(t)
  {
    AudioDeliveries(t) + MixPackets(LowRoutesPerRoom(t), HighRoutesPerRoom(t), t.low, t.high)
  }

  function RoomDeliveryBytes(t: Topology): nat
    requires Bounded(t)
  {
    Times(AudioDeliveries(t), AUDIO_BYTES) + MixBytes(LowRoutesPerRoom(t), HighRoutesPerRoom(t), t.low, t.high)
  }

  function RoomOffered(t: Topology): nat {
    Times(t.audio, t.audioPackets) + MixPackets(t.video, t.video, t.low, t.high)
  }

  function RoomOfferedBytes(t: Topology): nat {
    Times(Times(t.audio, t.audioPackets), AUDIO_BYTES) + MixBytes(t.video, t.video, t.low, t.high)
  }

  /** The plan as unbounded products of the topology. */
  predicate PlanIs(plan: WorkloadPlan, t: Topology)
    requires Bounded(t)
  {
    && plan.streams == Times(t.rooms, t.audio + 2 * t.video)
    && plan.routes == Times(t.rooms, Times(t.audio + t.video, Remote(t)))
    && plan.offeredPackets == Times(t.rooms, RoomOffered(t))
    && plan.offeredPayloadBytes == Times(t.rooms, RoomOfferedBytes(t))
    && plan.expectedDeliveries == Times(t.rooms, RoomDeliveries(t))
    && plan.expectedDeliveryPayloadBytes == Times(t.rooms, RoomDeliveryBytes(t))
  }

  /** Far enough below the 64-bit maximum for two such plans to be added. */
  predicate Small(plan: WorkloadPlan) {
    && plan.streams <= 1_000_000_000_000_000 && plan.routes <= 1_000_000_000_000_000
    && plan.offeredPackets <= 1_000_000_000_000_000 && plan.offeredPayloadBytes <= 1_000_000_000_000_000
    && plan.expectedDeliveries <= 1_000_000_000_000_000 && plan.expectedDeliveryPayloadBytes <= 1_000_000_000_000_000
  }

  lemma Product(a: nat, b: nat, x: nat, y: nat)
    requires a <= x && b <= y
    ensures Times(a, b) <= Times(x, y)
  {
    MulMonotone(a, x, b);
    MulMonotone(b, y, x);
  }

  lemma Positive(a: nat, b: nat)
    requires a > 0 && b > 0
    ensures Times(a, b) > 0
  {
    MulMonotone(1, a, b);
  }

  lemma Associates(a: nat, b: nat, c: nat)
    ensures Times(Times(a, b), c) == Times(a, Times(b, c))
  {}

  lemma Checked(a: u64, b: u64)
    requires Times(a, b) <= U64_MAX
    ensures CheckedMul(a, b) == Ok(Times(a, b))
  {}

  /** The checked arithmetic of `audio_plan` stays in range and computes plain products. */
  lemma AudioPlanComputes(rooms: u32, peers: u32, publishers: u32, seconds: u32)
    requires 1 <= rooms <= 64 && 2 <= peers <= 100 && 1 <= publishers <= peers && 1 <= seconds <= 3_600
    ensures var n := seconds * AUDIO_PACKETS_PER_SECOND;
      var streams := Times(rooms, publishers);
      var routes := Times(streams, peers - 1);
      && Times(Times(routes, n), AUDIO_BYTES) <= U64_MAX && Times(Times(streams, n), AUDIO_BYTES) <= U64_MAX
      && Times(routes, n) <= U64_MAX && Times(streams, n) <= U64_MAX && routes <= U64_MAX && streams <= U64_MAX
      && AudioPlan(rooms, peers, publishers, seconds)
         == Ok(WorkloadPlan(streams, routes, Times(streams, n), Times(Times(streams, n), AUDIO_BYTES),
                            Times(routes, n), Times(Times(routes, n), AUDIO_BYTES)))
    ensures Small(AudioPlan(rooms, peers, publishers, seconds).value)
  {
    var n: u64, remote: u64 := seconds * AUDIO_PACKETS_PER_SECOND, peers - 1;
    assert Times(64, 100) == 6_400 && Times(6_400, 99) == 633_600 && Times(633_600, 180_000) == 114_048_000_000
           && Times(6_400, 180_000) == 1_152_000_000 && Times(114_048_000_000, 80) == 9_123_840_000_000
           && Times(seconds, AUDIO_PACKETS_PER_SECOND) == n;
    hide Times, CheckedMul;
    Product(rooms, publishers, 64, 100);
    var streams: u64 := Times(rooms, publishers);
    Product(streams, remote, 6_400, 99);
    var routes: u64 := Times(streams, remote);
    Product(routes, n, 633_600, 180_000);
    Product(streams, n, 6_400, 180_000);
    Product(Times(routes, n), AUDIO_BYTES, 114_048_000_000, 80);
    Product(Times(streams, n), AUDIO_BYTES, 114_048_000_000, 80);
    Positive(rooms, publishers);
    Positive(streams, remote);
    Checked(seconds, AUDIO_PACKETS_PER_SECOND);
    Checked(rooms, publishers);
    Checked(streams, remote);
    Checked(streams, n);
    Checked(routes, n);
    Checked(Times(streams, n), AUDIO_BYTES);
    Checked(Times(routes, n), AUDIO_BYTES);
  }

  function AudioTopology(rooms: u32, peers: u32, publishers: u32, seconds: u32): Topology
    requires seconds <= 3_600
  {
    Topology(rooms, peers, publishers, seconds * AUDIO_PACKETS_PER_SECOND, 0, 1, 1)
  }

  lemma AudioPlanIs(rooms: u32, peers: u32, publishers: u32, seconds: u32)
    requires 1 <= rooms <= 64 && 2 <= peers <= 100 && 1 <= publishers <= peers && 1 <= seconds <= 3_600
    ensures AudioPlan(rooms, peers, publishers, seconds).Ok?
    ensures Bounded(AudioTopology(rooms, peers, publishers, seconds))
    ensures PlanIs(AudioPlan(rooms, peers, publishers, seconds).value, AudioTopology(rooms, peers, publishers, seconds))
    ensures Small(AudioPlan(rooms, peers, publishers, seconds).value)
  {
    hide AudioPlan, Times, RoomDeliveries, RoomDeliveryBytes, RoomOffered, RoomOfferedBytes;
    AudioPlanComputes(rooms, peers, publishers, seconds);
    var t := AudioTopology(rooms, peers, publishers, seconds);
    NoVideo(t);
    var n, remote := t.audioPackets, Remote(t);
    Associates(rooms, publishers, remote);
    Associates(rooms, publishers, n);
    Associates(rooms, Times(publishers, remote), n);
    Associates(rooms, Times(publishers, n), AUDIO_BYTES);
    Associates(rooms, AudioDeliveries(t), AUDIO_BYTES);
  }

  lemma NoVideo(t: Topology)
    requires Bounded(t) && t.video == 0
    ensures RoomDeliveries(t) == AudioDeliveries(t)
    ensures RoomDeliveryBytes(t) == Times(AudioDeliveries(t), AUDIO_BYTES)
    ensures RoomOffered(t) == Times(t.audio, t.audioPackets)
    ensures RoomOfferedBytes(t) == Times(Times(t.audio, t.audioPackets), AUDIO_BYTES)
  {
    assert LowRoutesPerRoom(t) == 0;
  }

  lemma TimesSum(a: nat, b: nat, c: nat)
    ensures Times(a, b + c) == Times(a, b) + Times(a, c)
  {}

  function VideoTopology(rooms: u32, peers: u32, publishers: u32, seconds: u32): Topology
    requires seconds <= 3_600
  {
    Topology(rooms, peers, 0, 1, publishers, LowPackets(seconds), HighPackets(seconds))
  }

  /** The products `video_plan` forms, before they are regrouped by room. */
  function VideoProducts(t: Topology): (r: (nat, nat, nat, nat, nat, nat))
    requires Bounded(t)
  {
    var sources, highs, lows := Times(t.rooms, t.video), HighRoutesPerRoom(t), LowRoutesPerRoom(t);
    var offLow, offHigh := Times(sources, t.low), Times(sources, t.high);
    var toLow, toHigh := Times(Times(t.rooms, lows), t.low), Times(Times(t.rooms, highs), t.high);
    (Times(sources, 2), Times(t.rooms, Times(t.video, Remote(t))), offLow + offHigh,
     Times(offLow, LOW_BYTES) + Times(offHigh, HIGH_BYTES), toHigh + toLow,
     Times(toHigh, HIGH_BYTES) + Times(toLow, LOW_BYTES))
  }

  /** Every product `video_plan` forms is far below the 64-bit maximum, and what must be positive is. */
  lemma VideoRanges(t: Topology)
    requires Bounded(t) && t.video > 0
    ensures 0 < Times(t.rooms, t.video) <= 640 && 0 < Times(Times(t.rooms, t.video), 2) <= 1_280
    ensures Times(Times(t.rooms, t.video), t.low) <= 139_392_000_000
    ensures Times(Times(t.rooms, t.video), t.high) <= 139_392_000_000
    ensures 0 < Times(t.video, Remote(t)) <= 990 && 0 < Times(t.rooms, Times(t.video, Remote(t))) <= 63_360
    ensures HighRoutesPerRoom(t) <= 990 && LowRoutesPerRoom(t) <= 990
    ensures Times(t.rooms, HighRoutesPerRoom(t)) <= 63_360 && Times(t.rooms, LowRoutesPerRoom(t)) <= 63_360
    ensures Times(Times(t.rooms, HighRoutesPerRoom(t)), t.high) <= 139_392_000_000
    ensures Times(Times(t.rooms, LowRoutesPerRoom(t)), t.low) <= 139_392_000_000
  {
    assert Times(64, 10) == 640 && Times(640, 2) == 1_280 && Times(10, 99) == 990 && Times(64, 990) == 63_360
           && Times(63_360, 2_200_000) == 139_392_000_000;
    hide Times;
    Product(t.rooms, t.video, 64, 10);
    Product(Times(t.rooms, t.video), 2, 640, 2);
    Product(Times(t.rooms, t.video), t.low, 63_360, 2_200_000);
    Product(Times(t.rooms, t.video), t.high, 63_360, 2_200_000);
    Product(t.video, Remote(t), 10, 99);
    LowRoutesExist(t);
    Product(t.rooms, HighRoutesPerRoom(t), 64, 990);
    Product(t.rooms, LowRoutesPerRoom(t), 64, 990);
    Product(Times(t.rooms, HighRoutesPerRoom(t)), t.high, 63_360, 2_200_000);
    Product(Times(t.rooms, LowRoutesPerRoom(t)), t.low, 63_360, 2_200_000);
    Product(t.rooms, Times(t.video, Remote(t)), 64, 990);
    Positive(t.rooms, t.video);
    Positive(Times(t.rooms, t.video), 2);
    Positive(t.video, Remote(t));
    Positive(t.rooms, Times(t.video, Remote(t)));
  }

  /** Sizing a packet count by a payload length stays in range too. */
  lemma CheckedBytes(packets: nat, bytes: u64)
    requires packets <= 139_392_000_000 && bytes <= 1_100
    ensures Times(packets, bytes) <= 153_331_200_000_000 && CheckedMul(packets, bytes) == Ok(Times(packets, bytes))
  {
    Product(packets, bytes, 139_392_000_000, 1_100);
  }

  /** The checked arithmetic of `video_plan` computes plain products. */
  lemma VideoPlanComputes(rooms: u32, peers: u32, publishers: u32, seconds: u32)
    requires 1 <= rooms <= 64 && 3 <= peers <= 100 && 1 <= publishers <= peers && publishers <= 10
    requires 1 <= seconds <= 3_600
    ensures Bounded(VideoTopology(rooms, peers, publishers, seconds))
    ensures var r := VideoProducts(VideoTopology(rooms, peers, publishers, seconds));
      && r.0 <= U64_MAX && r.1 <= U64_MAX && r.2 <= U64_MAX && r.3 <= U64_MAX && r.4 <= U64_MAX && r.5 <= U64_MAX
      && VideoPlan(rooms, peers, publishers, seconds) == Ok(WorkloadPlan(r.0, r.1, r.2, r.3, r.4, r.5))
      && Small(VideoPlan(rooms, peers, publishers, seconds).value)
  {
    hide Times, CheckedMul, VideoPacketsPerLayer, LowPackets, HighPackets, LowRoutesPerRoom;
    VideoPacketsFit(seconds);
    LayersAreBounded(seconds);
    var t := VideoTopology(rooms, peers, publishers, seconds);
    VideoRanges(t);
    var sources, remote := Times(rooms, publishers), peers - 1;
    var toHigh, toLow := Times(rooms, HighRoutesPerRoom(t)), Times(rooms, LowRoutesPerRoom(t));
    Checked(rooms, publishers);
    Checked(sources, 2);
    Checked(sources, t.low);
    Checked(sources, t.high);
    CheckedBytes(Times(sources, t.low), LOW_BYTES);
    CheckedBytes(Times(sources, t.high), HIGH_BYTES);
    Checked(publishers, remote);
    Checked(rooms, HighRoutesPerRoom(t));
    LowRoutesExist(t);
    LowRoutesAre(t);
    Checked(rooms, LowRoutesPerRoom(t));
    Checked(toHigh, t.high);
    Checked(toLow, t.low);
    CheckedBytes(Times(toHigh, t.high), HIGH_BYTES);
    CheckedBytes(Times(toLow, t.low), LOW_BYTES);
    Checked(rooms, Times(publishers, remote));
  }

  lemma LowRoutesAre(t: Topology)
    requires Bounded(t)
    ensures LowRoutesPerRoom(t) == Times(t.video, Remote(t)) - HighRoutesPerRoom(t)
  {}

  lemma LayersAreBounded(seconds: u32)
    requires 1 <= seconds <= 3_600
    ensures 1 <= LowPackets(seconds) <= 220_000 && 1 <= HighPackets(seconds) <= 2_200_000
  {}

  lemma VideoPlanIs(rooms: u32, peers: u32, publishers: u32, seconds: u32)
    requires 1 <= rooms <= 64 && 3 <= peers <= 100 && 1 <= publishers <= peers && publishers <= 10
    requires 1 <= seconds <= 3_600
    ensures VideoPlan(rooms, peers, publishers, seconds).Ok?
    ensures Bounded(VideoTopology(rooms, peers, publishers, seconds))
    ensures PlanIs(VideoPlan(rooms, peers, publishers, seconds).value, VideoTopology(rooms, peers, publishers, seconds))
    ensures Small(VideoPlan(rooms, peers, publishers, seconds).value)
  {
    hide VideoPlan, Times, LowPackets, HighPackets, HighRoutesPerRoom, LowRoutesPerRoom;
    VideoPlanComputes(rooms, peers, publishers, seconds);
    var t := VideoTopology(rooms, peers, publishers, seconds);
    NoAudio(t);
    var highs, lows := HighRoutesPerRoom(t), LowRoutesPerRoom(t);
    Associates(rooms, publishers, 2);
    Associates(rooms, publishers, t.low);
    Associates(rooms, publishers, t.high);
    Associates(rooms, Times(publishers, t.low), LOW_BYTES);
    Associates(rooms, Times(publishers, t.high), HIGH_BYTES);
    Associates(rooms, highs, t.high);
    Associates(rooms, lows, t.low);
    Associates(rooms, Times(highs, t.high), HIGH_BYTES);
    Associates(rooms, Times(lows, t.low), LOW_BYTES);
    TimesSum(rooms, Times(publishers, t.low), Times(publishers, t.high));
    TimesSum(rooms, Times(Times(publishers, t.low), LOW_BYTES), Times(Times(publishers, t.high), HIGH_BYTES));
    TimesSum(rooms, Times(lows, t.low), Times(highs, t.high));
    TimesSum(rooms, Times(Times(lows, t.low), LOW_BYTES), Times(Times(highs, t.high), HIGH_BYTES));
  }

  lemma NoAudio(t: Topology)
    requires Bounded(t) && t.audio == 0
    ensures Times(0, Remote(t)) == 0 && Times(0, t.audioPackets) == 0 && Times(0, AUDIO_BYTES) == 0
    ensures Times(t.video, 2) == 2 * t.video
  {}

  lemma TimesPair(a: nat, b: nat, c: nat)
    ensures Times(a + b, c) == Times(a, c) + Times(b, c)
  {}

  /** Splitting a mixed topology into its audio and its video part splits every total. */
  lemma MixedSplits(t: Topology, audio: Topology, video: Topology)
    requires Bounded(t) && Bounded(audio) && Bounded(video)
    requires audio == t.(video := 0, low := 1, high := 1) && video == t.(audio := 0, audioPackets := 1)
    ensures Times(t.rooms, t.audio + 2 * t.video)
         == Times(t.rooms, audio.audio + 2 * audio.video) + Times(t.rooms, video.audio + 2 * video.video)
    ensures Times(t.rooms, Times(t.audio + t.video, Remote(t)))
         == Times(t.rooms, Times(audio.audio + audio.video, Remote(audio)))
            + Times(t.rooms, Times(video.audio + video.video, Remote(video)))
    ensures Times(t.rooms, RoomOffered(t)) == Times(t.rooms, RoomOffered(audio)) + Times(t.rooms, RoomOffered(video))
    ensures Times(t.rooms, RoomOfferedBytes(t))
         == Times(t.rooms, RoomOfferedBytes(audio)) + Times(t.rooms, RoomOfferedBytes(video))
    ensures Times(t.rooms, RoomDeliveries(t))
         == Times(t.rooms, RoomDeliveries(audio)) + Times(t.rooms, RoomDeliveries(video))
    ensures Times(t.rooms, RoomDeliveryBytes(t))
         == Times(t.rooms, RoomDeliveryBytes(audio)) + Times(t.rooms, RoomDeliveryBytes(video))
  {
    hide Times, Bounded, MixPackets, MixBytes, HighRoutesPerRoom;
    NoAudio(video);
    NoVideo(audio);
    SameVideoRoutes(t, video);
    hide LowRoutesPerRoom;
    var rooms := t.rooms;
    TimesSum(rooms, t.audio, 2 * t.video);
    TimesPair(t.audio, t.video, Remote(t));
    TimesSum(rooms, Times(t.audio, Remote(t)), Times(t.video, Remote(t)));
    TimesSum(rooms, RoomOffered(audio), RoomOffered(video));
    TimesSum(rooms, RoomOfferedBytes(audio), RoomOfferedBytes(video));
    TimesSum(rooms, RoomDeliveries(audio), RoomDeliveries(video));
    TimesSum(rooms, RoomDeliveryBytes(audio), RoomDeliveryBytes(video));
  }

  lemma MixedPlanIs(spec: ScenarioSpec)
    requires spec.MixedConference? && spec.InBounds()
    ensures Bounded(TopologyOf(spec)) && spec.Plan().Ok? && PlanIs(spec.Plan().value, TopologyOf(spec))
  {
    hide AudioPlan, VideoPlan, LowPackets, HighPackets, Times, RoomOffered, RoomOfferedBytes, RoomDeliveries,
         RoomDeliveryBytes;
    TopologyIsBounded(spec);
    var rooms, peers, seconds := spec.rooms, spec.peers, spec.seconds;
    AudioPlanIs(rooms, peers, spec.audioPublishers, seconds);
    VideoPlanIs(rooms, peers, spec.videoPublishers, seconds);
    PlanIsPositive(rooms, peers, spec.audioPublishers, seconds);
    MixedSplits(TopologyOf(spec), AudioTopology(rooms, peers, spec.audioPublishers, seconds),
                VideoTopology(rooms, peers, spec.videoPublishers, seconds));
  }

  lemma SameVideoRoutes(t: Topology, video: Topology)
    requires Bounded(t) && Bounded(video) && video == t.(audio := 0, audioPackets := 1)
    ensures LowRoutesPerRoom(video) == LowRoutesPerRoom(t) && HighRoutesPerRoom(video) == HighRoutesPerRoom(t)
  {}

  /** Every in-bounds specification has a plan, and it is the product form of its topology. */
  lemma PlanOfTopology(spec: ScenarioSpec)
    requires spec.InBounds()
    ensures Bounded(TopologyOf(spec)) && spec.Plan().Ok? && PlanIs(spec.Plan().value, TopologyOf(spec))
  {
    hide AudioPlan, VideoPlan, PlanIs, LowPackets, HighPackets;
    TopologyIsBounded(spec);
    match spec
    case Smoke(receivers, packets) => SmokePlanIs(receivers, packets);
    case AudioMesh(rooms, peers, seconds) => AudioPlanIs(rooms, peers, peers, seconds);
    case VideoGallery(rooms, peers, publishers, seconds) => VideoPlanIs(rooms, peers, publishers, seconds);
    case MixedConference(_, _, _, _, _) => MixedPlanIs(spec);
  }

  lemma PlanIsPositive(rooms: u32, peers: u32, publishers: u32, seconds: u32)
    requires AudioPlan(rooms, peers, publishers, seconds).Ok?
    ensures AudioPlan(rooms, peers, publishers, seconds).value.streams > 0
    ensures AudioPlan(rooms, peers, publishers, seconds).value.routes > 0
  {
    hide CheckedMul, CheckedSub;
  }

  lemma SmokePlanComputes(receivers: u32, packets: u32)
    requires 1 <= receivers <= 99 && 1 <= packets <= 180_000
    ensures Times(packets, AUDIO_BYTES) <= U64_MAX && Times(receivers, packets) <= U64_MAX
    ensures Times(Times(receivers, packets), AUDIO_BYTES) <= U64_MAX
    ensures Smoke(receivers, packets).Plan()
         == Ok(WorkloadPlan(1, receivers, packets, Times(packets, AUDIO_BYTES), Times(receivers, packets),
                            Times(Times(receivers, packets), AUDIO_BYTES)))
  {
    assert Times(99, 180_000) == 17_820_000 && Times(17_820_000, 80) == 1_425_600_000;
    hide Times, CheckedMul;
    Product(receivers, packets, 99, 180_000);
    Product(Times(receivers, packets), AUDIO_BYTES, 17_820_000, 80);
    Product(packets, AUDIO_BYTES, 17_820_000, 80);
    Checked(packets, AUDIO_BYTES);
    Checked(receivers, packets);
    Checked(Times(receivers, packets), AUDIO_BYTES);
  }

  lemma TimesOne(a: nat)
    ensures Times(1, a) == a && Times(a, 1) == a
  {}

  lemma SmokePlanIs(receivers: u32, packets: u32)
    requires Smoke(receivers, packets).InBounds()
    ensures Bounded(TopologyOf(Smoke(receivers, packets))) && Smoke(receivers, packets).Plan().Ok?
    ensures PlanIs(Smoke(receivers, packets).Plan().value, TopologyOf(Smoke(receivers, packets)))
  {
    hide Times, RoomDeliveries, RoomDeliveryBytes, RoomOffered, RoomOfferedBytes;
    SmokePlanComputes(receivers, packets);
    var t := TopologyOf(Smoke(receivers, packets));
    TopologyIsBounded(Smoke(receivers, packets));
    NoVideo(t);
    TimesOne(1);
    TimesOne(receivers);
    TimesOne(RoomOffered(t));
    TimesOne(RoomOfferedBytes(t));
    TimesOne(RoomDeliveries(t));
    TimesOne(RoomDeliveryBytes(t));
    TimesOne(packets);
  }

  // ---- the receivers' side ----

  function RoutesAt(t: Topology, peer: nat): nat {
    Others(t.audio, peer) + Others(t.video, peer)
  }

  function LowRoutesAt(t: Topology, peer: nat): nat {
    var highs := HighRoutes(peer, t.video, t.video);
    if highs <= Others(t.video, peer) then Others(t.video, peer) - highs else 0
  }

  function PacketsAt(t: Topology, peer: nat): nat {
    Times(Others(t.audio, peer), t.audioPackets)
    + MixPackets(LowRoutesAt(t, peer), HighRoutes(peer, t.video, t.video), t.low, t.high)
  }

  function BytesAt(t: Topology, peer: nat): nat {
    Times(Times(Others(t.audio, peer), t.audioPackets), AUDIO_BYTES)
    + MixBytes(LowRoutesAt(t, peer), HighRoutes(peer, t.video, t.video), t.low, t.high)
  }

  /** The streams the ledger of one peer starts from. */
  function StreamsAt(spec: ScenarioSpec, room: nat, peer: nat): seq<ExpectedStream> {
    if room < U32_SIZE && ExpectedAt(spec, room, peer).Ok? then ExpectedAt(spec, room, peer).value else []
  }

  lemma RoomFits(t: Topology, room: u32)
    requires Bounded(t) && room < t.rooms
    ensures SourcesFit(room, t.peers)
  {
    Product(room, t.peers, 63, 100);
  }

  lemma TopologyStreams(spec: ScenarioSpec, room: u32, peer: nat)
    requires spec.InBounds() && room < spec.RoomCount()
    ensures var t := TopologyOf(spec);
      && t.rooms == spec.RoomCount() && t.peers == spec.PeersPerRoom()
      && var audio, video := AudioStreams(room, t.peers, t.audio, peer, t.audioPackets),
                             VideoStreams(room, t.peers, t.video, t.video, peer, t.low, t.high);
      audio.Ok? && video.Ok? ==> ExpectedAt(spec, room, peer) == Ok(audio.value + video.value)
  {
    hide LowPackets, HighPackets, VideoPacketsPerLayer;
    TopologyIsBounded(spec);
    match spec
    case Smoke(_, _) => ConcatNothing(AudioStreams(room, spec.PeersPerRoom(), 1, peer, spec.packets));
    case AudioMesh(_, peers, seconds) =>
      ConcatNothing(AudioStreams(room, peers, peers, peer, seconds * AUDIO_PACKETS_PER_SECOND));
    case VideoGallery(_, peers, publishers, seconds) =>
      VideoPacketsFit(seconds);
      ConcatNothing(VideoStreams(room, peers, publishers, publishers, peer, LowPackets(seconds), HighPackets(seconds)));
    case MixedConference(_, _, _, _, seconds) => VideoPacketsFit(seconds);
  }

  lemma ConcatNothing(r: Result<seq<ExpectedStream>>)
    ensures r.Ok? ==> r.value + [] == r.value && [] + r.value == r.value
  {}

  /** Every receiver's expectations are built without error, under distinct keys, and total what its topology says. */
  lemma ExpectedTotals(spec: ScenarioSpec, room: u32, peer: nat)
    requires spec.InBounds() && room < spec.RoomCount()
    ensures ExpectedAt(spec, room, peer).Ok?
    ensures var t, streams := TopologyOf(spec), StreamsAt(spec, room, peer);
      Totals(streams, RoutesAt(t, peer), PacketsAt(t, peer), BytesAt(t, peer))
        && Delivery.Distinct(Delivery.Keys(streams))
  {
    hide AudioStreams, VideoStreams, TopologyOf, Totals, KeyedWithin, HighRoutes, Others, Times, MixPackets, MixBytes,
         Delivery.Distinct, Delivery.Keys;
    var t := TopologyOf(spec);
    TopologyIsBounded(spec);
    TopologyStreams(spec, room, peer);
    RoomFits(t, room);
    AudioTotals(room, t.peers, t.audio, peer, t.audioPackets);
    VideoTotals(room, t.peers, t.video, t.video, peer, t.low, t.high);
    AudioKeys(room, t.peers, t.audio, peer, t.audioPackets);
    VideoKeys(room, t.peers, t.video, t.video, peer, t.low, t.high);
    var audio, video := AudioStreams(room, t.peers, t.audio, peer, t.audioPackets).value,
                        VideoStreams(room, t.peers, t.video, t.video, peer, t.low, t.high).value;
    KeysConcat(audio, video, Times(room, t.peers), Times(room, t.peers) + t.audio, Times(room, t.peers) + t.video);
    var others, highs := Others(t.video, peer), HighRoutes(peer, t.video, t.video);
    TotalsConcat(audio, video, Others(t.audio, peer), others,
                 Times(Others(t.audio, peer), t.audioPackets), MixPackets(others - highs, highs, t.low, t.high),
                 Times(Times(Others(t.audio, peer), t.audioPackets), AUDIO_BYTES),
                 MixBytes(others - highs, highs, t.low, t.high));
  }

  // ---- summing over the peers of a room and over the rooms ----

  lemma {:induction false} SumOthers(n: nat, k: nat)
    ensures SumTo(k, p => Others(n, p)) + (if k < n then k else n) == Times(n, k)
  {
    if k > 0 {
      SumOthers(n, k - 1);
      SumToSame(k - 1, p => Others(n, p), p => Others(n, p));
      assert Times(n, k) == Times(n, k - 1) + n;
    }
  }

  lemma HighRoutesAre(peer: nat, publishers: u32)
    ensures HighRoutes(peer, publishers, publishers)
         == if publishers == 0 || (publishers == 1 && peer == 0) then 0 else 1
  {
    FeaturedIsAnother(peer, publishers);
  }

  lemma {:induction false} SumHighs(publishers: u32, k: nat)
    ensures SumTo(k, p => HighRoutes(p, publishers, publishers))
         == if publishers == 0 || k == 0 then 0 else if publishers == 1 then k - 1 else k
  {
    if k > 0 {
      SumHighs(publishers, k - 1);
      SumToSame(k - 1, p => HighRoutes(p, publishers, publishers), p => HighRoutes(p, publishers, publishers));
      HighRoutesAre(k - 1, publishers);
    }
  }

  lemma LowAndHighRoutes(t: Topology, peer: nat)
    ensures LowRoutesAt(t, peer) + HighRoutes(peer, t.video, t.video) == Others(t.video, peer)
  {
    FeaturedIsAnother(peer, t.video);
  }

  lemma TimesRemote(t: Topology, n: nat)
    requires t.peers > 0
    ensures Times(n, t.peers) == Times(n, Remote(t)) + n
  {
    TimesSum(n, Remote(t), 1);
  }

  /** Summing low routes, high routes and audio routes over the peers of one room gives the closed-form route counts. */
  lemma RoomRoutes(t: Topology)
    requires Bounded(t)
    ensures SumTo(t.peers, p => Others(t.audio, p)) == Times(t.audio, Remote(t))
    ensures SumTo(t.peers, p => Others(t.video, p)) == Times(t.video, Remote(t))
    ensures SumTo(t.peers, p => HighRoutes(p, t.video, t.video)) == HighRoutesPerRoom(t)
    ensures SumTo(t.peers, p => LowRoutesAt(t, p)) == LowRoutesPerRoom(t)
  {
    hide Times, Others, HighRoutes, LowRoutesAt, SumTo;
    SumOthers(t.audio, t.peers);
    SumOthers(t.video, t.peers);
    SumHighs(t.video, t.peers);
    TimesRemote(t, t.audio);
    TimesRemote(t, t.video);
    forall p | 0 <= p < t.peers ensures LowRoutesAt(t, p) + HighRoutes(p, t.video, t.video) == Others(t.video, p) {
      LowAndHighRoutes(t, p);
    }
    SumToAdds(t.peers, p => LowRoutesAt(t, p), p => HighRoutes(p, t.video, t.video), p => Others(t.video, p));
  }

  lemma ScaleSum(n: nat, f: nat -> nat, c: nat)
    ensures SumTo(n, p => Times(f(p), c)) == Times(SumTo(n, f), c)
  {
    SumToScales(n, f, c, p => Times(f(p), c));
  }

  /** The per-room totals of the plan are the sums over the room's receivers. */
  lemma RoomSums(t: Topology)
    requires Bounded(t)
    ensures SumTo(t.peers, p => RoutesAt(t, p)) == Times(t.audio + t.video, Remote(t))
    ensures SumTo(t.peers, p => PacketsAt(t, p)) == RoomDeliveries(t)
    ensures SumTo(t.peers, p => BytesAt(t, p)) == RoomDeliveryBytes(t)
  {
    hide Times, Others, HighRoutes, LowRoutesAt, Bounded, HighRoutesPerRoom, LowRoutesPerRoom, SumTo;
    RoomRoutes(t);
    TimesPair(t.audio, t.video, Remote(t));
    var n := t.peers;
    var fa: nat -> nat, fv: nat -> nat := p => Others(t.audio, p), p => Others(t.video, p);
    var fl: nat -> nat, fh: nat -> nat := p => LowRoutesAt(t, p), p => HighRoutes(p, t.video, t.video);
    SumToAdds(n, fa, fv, p => RoutesAt(t, p));
    var pa: nat -> nat, pl: nat -> nat := p => Times(fa(p), t.audioPackets), p => Times(fl(p), t.low);
    var ph: nat -> nat := p => Times(fh(p), t.high);
    var mix: nat -> nat :=
      p => MixPackets(LowRoutesAt(t, p), HighRoutes(p, t.video, t.video), t.low, t.high);
    ScaleSum(n, fa, t.audioPackets);
    ScaleSum(n, fl, t.low);
    ScaleSum(n, fh, t.high);
    SumToAdds(n, pl, ph, mix);
    SumToAdds(n, pa, mix, p => PacketsAt(t, p));
    ScaleSum(n, pa, AUDIO_BYTES);
    ScaleSum(n, pl, LOW_BYTES);
    ScaleSum(n, ph, HIGH_BYTES);
    var bl: nat -> nat, bh: nat -> nat := p => Times(pl(p), LOW_BYTES), p => Times(ph(p), HIGH_BYTES);
    var mixBytes: nat -> nat :=
      p => MixBytes(LowRoutesAt(t, p), HighRoutes(p, t.video, t.video), t.low, t.high);
    SumToAdds(n, bl, bh, mixBytes);
    var ba: nat -> nat := p => Times(pa(p), AUDIO_BYTES);
    SumToAdds(n, ba, mixBytes, p => BytesAt(t, p));
  }

  /** Sum over all rooms and peers of a quantity of the peer's expectations. */
  function OverReceivers(spec: ScenarioSpec, f: seq<ExpectedStream> -> nat): nat {
    SumTo(spec.RoomCount(), room => SumTo(spec.PeersPerRoom(), peer => f(StreamsAt(spec, room, peer))))
  }

  function RouteCount(streams: seq<ExpectedStream>): nat { |streams| }
  function PacketCount(streams: seq<ExpectedStream>): nat { SumOf(streams, PacketsOf) }
  function ByteCount(streams: seq<ExpectedStream>): nat { SumOf(streams, BytesOf) }

  /** A receiver quantity that is the same function of the topology in every room sums to rooms times its room sum. */
  lemma OverEqualRooms(spec: ScenarioSpec, f: seq<ExpectedStream> -> nat, at: nat -> nat)
    requires spec.InBounds()
    requires forall room, peer | 0 <= room < spec.RoomCount() && 0 <= peer < spec.PeersPerRoom() ::
      f(StreamsAt(spec, room, peer)) == at(peer)
    ensures OverReceivers(spec, f) == Times(spec.RoomCount(), SumTo(spec.PeersPerRoom(), at))
  {
    var peers := spec.PeersPerRoom();
    var inRoom: nat -> nat := room => SumTo(peers, peer => f(StreamsAt(spec, room, peer)));
    forall room | 0 <= room < spec.RoomCount() ensures inRoom(room) == SumTo(peers, at) {
      SumToSame(peers, peer => f(StreamsAt(spec, room, peer)), at);
    }
    SumToConstant(spec.RoomCount(), inRoom, SumTo(peers, at));
    SumToSame(spec.RoomCount(), inRoom, room => SumTo(peers, peer => f(StreamsAt(spec, room, peer))));
  }

  /**
   * The closed-form plan equals the expectations: its routes, deliveries and delivery bytes are the sums over every
   * room and peer of the streams that peer's ledger is built from.
   */
  lemma PlanEqualsExpectations(spec: ScenarioSpec)
    requires spec.InBounds()
    ensures spec.Plan().Ok?
    ensures spec.Plan().value.routes == OverReceivers(spec, RouteCount)
    ensures spec.Plan().value.expectedDeliveries == OverReceivers(spec, PacketCount)
    ensures spec.Plan().value.expectedDeliveryPayloadBytes == OverReceivers(spec, ByteCount)
  {
    hide TopologyOf, StreamsAt, RoutesAt, PacketsAt, BytesAt, OverReceivers, Times, Bounded, RoomDeliveries,
         RoomDeliveryBytes, RoomOffered, RoomOfferedBytes, SumTo, RouteCount, PacketCount, ByteCount, Remote;
    var t := TopologyOf(spec);
    PlanOfTopology(spec);
    RoomSums(t);
    forall room, peer | 0 <= room < spec.RoomCount() && 0 <= peer < spec.PeersPerRoom()
      ensures RouteCount(StreamsAt(spec, room, peer)) == RoutesAt(t, peer)
      ensures PacketCount(StreamsAt(spec, room, peer)) == PacketsAt(t, peer)
      ensures ByteCount(StreamsAt(spec, room, peer)) == BytesAt(t, peer)
    {
      ReceiverCounts(spec, room, peer);
    }
    TopologyCounts(spec);
    OverEqualRooms(spec, RouteCount, peer => RoutesAt(t, peer));
    OverEqualRooms(spec, PacketCount, peer => PacketsAt(t, peer));
    OverEqualRooms(spec, ByteCount, peer => BytesAt(t, peer));
  }

  lemma ReceiverCounts(spec: ScenarioSpec, room: u32, peer: nat)
    requires spec.InBounds() && room < spec.RoomCount()
    ensures var t, streams := TopologyOf(spec), StreamsAt(spec, room, peer);
      && RouteCount(streams) == RoutesAt(t, peer)
      && PacketCount(streams) == PacketsAt(t, peer)
      && ByteCount(streams) == BytesAt(t, peer)
  {
    hide TopologyOf, StreamsAt, RoutesAt, PacketsAt, BytesAt, SumOf;
    ExpectedTotals(spec, room, peer);
  }

  lemma TopologyCounts(spec: ScenarioSpec)
    requires spec.InBounds()
    ensures TopologyOf(spec).rooms == spec.RoomCount() && TopologyOf(spec).peers == spec.PeersPerRoom()
  {}
}
