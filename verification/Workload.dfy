/** Scenario specifications, their closed-form workload plan, and the result that is checked against it. */
module Workload {
  import opened Machine
  import Codec
  import opened Ledger
  import opened Sources

  const RESULT_SCHEMA_VERSION: u32 := 4
  const AUDIO_PACKETS_PER_SECOND: u32 := 50
  const VIDEO_FRAMES_PER_SECOND: u32 := 30
  const MAX_OFFERED_PACKETS: u64 := 100_000_000
  const MAX_EXPECTED_DELIVERIES: u64 := 1_000_000_000
  const AUDIO_BYTES: u64 := Codec.AUDIO_PACKET_PAYLOAD_BYTES
  const LOW_BYTES: u64 := Codec.VIDEO_LOW_PACKET_PAYLOAD_BYTES
  const HIGH_BYTES: u64 := Codec.VIDEO_HIGH_PACKET_PAYLOAD_BYTES

  datatype ScenarioSpec =
    | Smoke(receivers: u32, packets: u32)
    | AudioMesh(rooms: u32, peers: u32, seconds: u32)
    | VideoGallery(rooms: u32, peers: u32, publishers: u32, seconds: u32)
    | MixedConference(rooms: u32, peers: u32, audioPublishers: u32, videoPublishers: u32, seconds: u32)
  {
    function RoomCount(): u32 {
      if Smoke? then 1 else rooms
    }

    /** The addition wraps in release builds; every validated specification stays far below. */
    function PeersPerRoom(): u32 {
      if Smoke? then Wrap32(receivers + 1) else peers
    }

    function AudioPublishersPerRoom(): u32 {
      match this
      case Smoke(_, _) => 1
      case AudioMesh(_, peers, _) => peers
      case VideoGallery(_, _, _, _) => 0
      case MixedConference(_, _, audioPublishers, _, _) => audioPublishers
    }

    function VideoPublishersPerRoom(): u32 {
      match this
      case VideoGallery(_, _, publishers, _) => publishers
      case MixedConference(_, _, _, videoPublishers, _) => videoPublishers
      case _ => 0
    }

    function DurationSeconds(): u32 {
      match this
      case Smoke(_, packets) => (packets + AUDIO_PACKETS_PER_SECOND - 1) / AUDIO_PACKETS_PER_SECOND
      case AudioMesh(_, _, seconds) => seconds
      case VideoGallery(_, _, _, seconds) => seconds
      case MixedConference(_, _, _, _, seconds) => seconds
    }

    function Profile(): string {
      match this
      case Smoke(_, _) => "opus-fanout-smoke-v3"
      case AudioMesh(_, _, _) => "opus-20ms-audio-mesh-v2"
      case VideoGallery(_, _, _, _) => "vp8-simulcast-gallery-v2"
      case MixedConference(_, _, _, _, _) => "opus-vp8-mixed-conference-v2"
    }

    function ActiveAudioSpeakers(): u32 {
      match this
      case AudioMesh(_, peers, _) => peers
      case MixedConference(_, _, audioPublishers, _, _) => audioPublishers
      case _ => 4
    }

    function Plan(): Result<WorkloadPlan> {
      match this
      case Smoke(receivers, packets) =>
        var bytes :- CheckedMul(packets, AUDIO_BYTES);
        var deliveries :- CheckedMul(receivers, packets);
        var deliveryBytes :- CheckedMul(deliveries, AUDIO_BYTES);
        NewPlan(1, receivers, packets, bytes, deliveries, deliveryBytes)
      case AudioMesh(rooms, peers, seconds) => AudioPlan(rooms, peers, peers, seconds)
      case VideoGallery(rooms, peers, publishers, seconds) => VideoPlan(rooms, peers, publishers, seconds)
      case MixedConference(rooms, peers, audioPublishers, videoPublishers, seconds) =>
        MixedPlan(rooms, peers, audioPublishers, videoPublishers, seconds)
    }

    /** The topology and duration bounds of the public constructors. */
    predicate InBounds() {
      match this
      case Smoke(receivers, packets) => 1 <= receivers <= 99 && 1 <= packets <= 180_000
      case AudioMesh(rooms, peers, seconds) => 1 <= rooms <= 64 && 2 <= peers <= 100 && 1 <= seconds <= 3_600
      case VideoGallery(rooms, peers, publishers, seconds) =>
        && 1 <= rooms <= 64 && 3 <= peers <= 100 && 1 <= seconds <= 3_600
        && 0 < publishers <= peers && publishers <= 10
      case MixedConference(rooms, peers, audioPublishers, videoPublishers, seconds) =>
        && 1 <= rooms <= 64 && 3 <= peers <= 100 && 1 <= seconds <= 3_600
        && 0 < videoPublishers <= audioPublishers <= peers && videoPublishers <= 10
    }

    predicate PlanSizeFits() {
      Plan().Ok? && Plan().value.offeredPackets <= MAX_OFFERED_PACKETS
      && Plan().value.expectedDeliveries <= MAX_EXPECTED_DELIVERIES
    }

    predicate Valid() {
      InBounds() && (!Smoke? ==> PlanSizeFits())
    }
  }

  datatype WorkloadPlan = WorkloadPlan(
    streams: u64, routes: u64, offeredPackets: u64, offeredPayloadBytes: u64, expectedDeliveries: u64,
    expectedDeliveryPayloadBytes: u64)

  function NewPlan(streams: u64, routes: u64, offeredPackets: u64, offeredPayloadBytes: u64, expectedDeliveries: u64,
                   expectedDeliveryPayloadBytes: u64): Result<WorkloadPlan>
  {
    if streams == 0 || routes == 0 then Err
    else Ok(WorkloadPlan(streams, routes, offeredPackets, offeredPayloadBytes, expectedDeliveries,
                         expectedDeliveryPayloadBytes))
  }

  function AudioPlan(rooms: u32, peers: u32, publishers: u32, seconds: u32): Result<WorkloadPlan> {
    var packetsPerPublisher :- CheckedMul(seconds, AUDIO_PACKETS_PER_SECOND);
    var streams :- CheckedMul(rooms, publishers);
    var remotePeers :- CheckedSub(peers, 1);
    var routes :- CheckedMul(streams, remotePeers);
    var offeredPackets :- CheckedMul(streams, packetsPerPublisher);
    var expectedDeliveries :- CheckedMul(routes, packetsPerPublisher);
    var offeredBytes :- CheckedMul(offeredPackets, AUDIO_BYTES);
    var deliveryBytes :- CheckedMul(expectedDeliveries, AUDIO_BYTES);
    NewPlan(streams, routes, offeredPackets, offeredBytes, expectedDeliveries, deliveryBytes)
  }

  /** Exact low and high VP8 packet counts for one publisher. */
  function VideoPacketsPerLayer(seconds: u32): Result<(u64, u64)> {
    var frames: u64 :- CheckedMul(seconds, VIDEO_FRAMES_PER_SECOND);
    var keyframes: u64 := (frames + VIDEO_KEYFRAME_INTERVAL - 1) / VIDEO_KEYFRAME_INTERVAL;
    var lowDelta :- CheckedMul(frames - keyframes, VIDEO_LOW_DELTA_PACKETS);
    var lowKey :- CheckedMul(keyframes, VIDEO_LOW_KEYFRAME_PACKETS);
    var low :- CheckedAdd(lowDelta, lowKey);
    var highDelta :- CheckedMul(frames - keyframes, VIDEO_HIGH_DELTA_PACKETS);
    var highKey :- CheckedMul(keyframes, VIDEO_HIGH_KEYFRAME_PACKETS);
    var high :- CheckedAdd(highDelta, highKey);
    Ok((low, high))
  }

  function VideoPlan(rooms: u32, peers: u32, publishers: u32, seconds: u32): Result<WorkloadPlan> {
    var (lowPackets, highPackets) :- VideoPacketsPerLayer(seconds);
    var sources :- CheckedMul(rooms, publishers);
    var streams :- CheckedMul(sources, 2);
    var offeredLow :- CheckedMul(sources, lowPackets);
    var offeredHigh :- CheckedMul(sources, highPackets);
    var offeredPackets :- CheckedAdd(offeredLow, offeredHigh);
    var offeredLowBytes :- CheckedMul(offeredLow, LOW_BYTES);
    var offeredHighBytes :- CheckedMul(offeredHigh, HIGH_BYTES);
    var offeredBytes :- CheckedAdd(offeredLowBytes, offeredHighBytes);
    var remotePeers :- CheckedSub(peers, 1);
    var routesPerRoom :- CheckedMul(publishers, remotePeers);
    var highRoutesPerRoom: u64 := if publishers == 1 then remotePeers else peers;
    var lowRoutesPerRoom :- CheckedSub(routesPerRoom, highRoutesPerRoom);
    var highRoutes :- CheckedMul(rooms, highRoutesPerRoom);
    var lowRoutes :- CheckedMul(rooms, lowRoutesPerRoom);
    var highDeliveries :- CheckedMul(highRoutes, highPackets);
    var lowDeliveries :- CheckedMul(lowRoutes, lowPackets);
    var deliveries :- CheckedAdd(highDeliveries, lowDeliveries);
    var highDeliveryBytes :- CheckedMul(highDeliveries, HIGH_BYTES);
    var lowDeliveryBytes :- CheckedMul(lowDeliveries, LOW_BYTES);
    var deliveryBytes :- CheckedAdd(highDeliveryBytes, lowDeliveryBytes);
    var routes :- CheckedMul(rooms, routesPerRoom);
    NewPlan(streams, routes, offeredPackets, offeredBytes, deliveries, deliveryBytes)
  }

  function MixedPlan(rooms: u32, peers: u32, audioPublishers: u32, videoPublishers: u32, seconds: u32)
    : Result<WorkloadPlan>
  {
    var audio :- AudioPlan(rooms, peers, audioPublishers, seconds);
    var video :- VideoPlan(rooms, peers, videoPublishers, seconds);
    var streams :- CheckedAdd(audio.streams, video.streams);
    var routes :- CheckedAdd(audio.routes, video.routes);
    var offeredPackets :- CheckedAdd(audio.offeredPackets, video.offeredPackets);
    var offeredBytes :- CheckedAdd(audio.offeredPayloadBytes, video.offeredPayloadBytes);
    var deliveries :- CheckedAdd(audio.expectedDeliveries, video.expectedDeliveries);
    var deliveryBytes :- CheckedAdd(audio.expectedDeliveryPayloadBytes, video.expectedDeliveryPayloadBytes);
    NewPlan(streams, routes, offeredPackets, offeredBytes, deliveries, deliveryBytes)
  }

  datatype ServerPolicy = ServerPolicy(
    mediaWorkers: u32, roomSize: u32, maxPreAuthSessions: u32, maxActiveAudioSpeakers: u32,
    maxVideoDownloadsPerReceiver: u32, maxBitrateIn: u64, maxBitrateOut: u64)

  function PolicyFor(spec: ScenarioSpec): ServerPolicy {
    var sessions := spec.RoomCount() * spec.PeersPerRoom();
    ServerPolicy(1, spec.PeersPerRoom(), if sessions < U32_SIZE then sessions else U32_SIZE - 1,
                 spec.ActiveAudioSpeakers(), 10, 8_000_000, 10_000_000)
  }

  function MergedSummary(a: CorrectnessSummary, b: CorrectnessSummary): CorrectnessSummary {
    CorrectnessSummary(SaturatingAdd(a.missing, b.missing), SaturatingAdd(a.duplicate, b.duplicate),
                       SaturatingAdd(a.outOfOrder, b.outOfOrder), SaturatingAdd(a.unexpected, b.unexpected),
                       SaturatingAdd(a.mismatches, b.mismatches))
  }

  /** What one peer, or a whole run, has observed. */
  datatype Observation = Observation(
    offeredPackets: u64, offeredPayloadBytes: u64, deliveredPackets: u64, deliveredPayloadBytes: u64,
    correctness: CorrectnessSummary, elapsedMs: u64, maxSendLagMs: u64)

  const NO_OBSERVATION := Observation(0, 0, 0, 0, CorrectnessSummary(0, 0, 0, 0, 0), 0, 0)

  function Max(a: u64, b: u64): u64 {
    if a < b then b else a
  }

  function Merged(a: Observation, b: Observation): Observation {
    Observation(SaturatingAdd(a.offeredPackets, b.offeredPackets),
                SaturatingAdd(a.offeredPayloadBytes, b.offeredPayloadBytes),
                SaturatingAdd(a.deliveredPackets, b.deliveredPackets),
                SaturatingAdd(a.deliveredPayloadBytes, b.deliveredPayloadBytes),
                MergedSummary(a.correctness, b.correctness),
                Max(a.elapsedMs, b.elapsedMs), Max(a.maxSendLagMs, b.maxSendLagMs))
  }

  class RunObservation {
    var offeredPackets: u64
    var offeredPayloadBytes: u64
    var deliveredPackets: u64
    var deliveredPayloadBytes: u64
    var correctness: CorrectnessSummary
    var elapsedMs: u64
    var maxSendLagMs: u64

    function Value(): Observation
      reads this
    {
      Observation(offeredPackets, offeredPayloadBytes, deliveredPackets, deliveredPayloadBytes, correctness, elapsedMs,
                  maxSendLagMs)
    }

    constructor ()
      ensures Value() == NO_OBSERVATION
    {
      offeredPackets, offeredPayloadBytes, deliveredPackets, deliveredPayloadBytes := 0, 0, 0, 0;
      correctness, elapsedMs, maxSendLagMs := CorrectnessSummary(0, 0, 0, 0, 0), 0, 0;
    }

    method Merge(other: Observation)
      modifies this
      ensures Value() == Merged(old(Value()), other)
    {
      offeredPackets := SaturatingAdd(offeredPackets, other.offeredPackets);
      offeredPayloadBytes := SaturatingAdd(offeredPayloadBytes, other.offeredPayloadBytes);
      deliveredPackets := SaturatingAdd(deliveredPackets, other.deliveredPackets);
      deliveredPayloadBytes := SaturatingAdd(deliveredPayloadBytes, other.deliveredPayloadBytes);
      correctness := MergedSummary(correctness, other.correctness);
      elapsedMs := Max(elapsedMs, other.elapsedMs);
      maxSendLagMs := Max(maxSendLagMs, other.maxSendLagMs);
    }
  }

  function MergedAll(observations: seq<Observation>): Observation {
    if observations == [] then NO_OBSERVATION
    else Merged(MergedAll(observations[..|observations| - 1]), observations[|observations| - 1])
  }

  /** Joins the tasks of a set in the order they finish. */
  method CollectObservations(finished: seq<Observation>) returns (total: Observation)
    ensures total == MergedAll(finished)
  {
    var observation := new RunObservation();
    for i := 0 to |finished|
      invariant observation.Value() == MergedAll(finished[..i])
    {
      observation.Merge(finished[i]);
      assert finished[..i + 1][..i] == finished[..i];
    }
    assert finished[..|finished|] == finished;
    total := observation.Value();
  }

  datatype ScenarioResult = ScenarioResult(
    schemaVersion: u32, profile: string, scenario: ScenarioSpec, serverPolicy: ServerPolicy, plan: WorkloadPlan,
    offeredPackets: u64, offeredPayloadBytes: u64, deliveredPackets: u64, deliveredPayloadBytes: u64,
    correctness: CorrectnessSummary, elapsedMs: u64, maxSendLagMs: u64)
  {
    /** `validate` returns `Ok` for this specification. */
    predicate Validates(spec: ScenarioSpec) {
      && spec.Valid()
      && spec.Plan().Ok?
      && schemaVersion == RESULT_SCHEMA_VERSION
      && scenario == spec
      && profile == spec.Profile()
      && serverPolicy == PolicyFor(spec)
      && plan == spec.Plan().value
      && offeredPackets == plan.offeredPackets
      && offeredPayloadBytes == plan.offeredPayloadBytes
      && deliveredPackets == plan.expectedDeliveries
      && deliveredPayloadBytes == plan.expectedDeliveryPayloadBytes
      && correctness.DiscrepancyCount() == 0
      && elapsedMs > 0
    }
  }

  function Completed(spec: ScenarioSpec, o: Observation): Result<ScenarioResult> {
    var plan :- spec.Plan();
    Ok(ScenarioResult(RESULT_SCHEMA_VERSION, spec.Profile(), spec, PolicyFor(spec), plan,
                      o.offeredPackets, o.offeredPayloadBytes, o.deliveredPackets, o.deliveredPayloadBytes,
                      o.correctness, Max(o.elapsedMs, 1), o.maxSendLagMs))
  }
}
