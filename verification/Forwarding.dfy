/** From senders to verdict: what the sources emit, forwarded without loss in any interleaving, passes the gate. */
module Forwarding {
  import opened Machine
  import opened Codec
  import opened Sources
  import opened Sums
  import opened Ledger
  import opened Delivery
  import opened Workload
  import opened Expectations
  import opened PlanAgreement
  import opened Emission
  import opened Schedule
  import opened Gate

  // ---- what a sender adds up to ----

  lemma BurstTotals(s: VideoState, phase: PacketPhase, frame: u32, layer: VideoLayer)
    ensures var burst := LayerPackets(s, phase, frame, layer);
      && |burst| == FragmentCount(layer, IsKeyframe(frame))
      && SumOf(burst, VideoLength) == Times(|burst|, PacketPayloadLen(layer))
  {
    hide Encoded, VideoPrefix, IsKeyframe, Sum;
    var burst := LayerPackets(s, phase, frame, layer);
    SumConstant(Each(burst, VideoLength), PacketPayloadLen(layer));
  }

  /** A run of frames sends the planned number of packets and bytes of each layer. */
  lemma {:induction false} EmittedTotals(s: VideoState, phase: PacketPhase, n: nat)
    requires n <= U32_SIZE
    ensures var packets, low, high := Emitted(s, phase, n), LayerPacketCount(Low, n), LayerPacketCount(High, n);
      && |packets| == low + high
      && SumOf(packets, VideoLength) == Times(low, LOW_BYTES) + Times(high, HIGH_BYTES)
  {
    hide LayerPackets, StateAfter, LayerPacketCount, IsKeyframe, SumOf, Times, FragmentCount;
    ClosedFormCountsFrames(Low, n);
    ClosedFormCountsFrames(High, n);
    if n == 0 {
      SumOfNone<VideoPacket>(VideoLength);
      NoPackets();
    } else {
      EmittedTotals(s, phase, n - 1);
      ClosedFormCountsFrames(Low, n - 1);
      ClosedFormCountsFrames(High, n - 1);
      var t := StateAfter(s, phase, n - 1);
      var lows, highs := LayerPackets(t, phase, n - 1, Low), LayerPackets(t, phase, n - 1, High);
      BurstTotals(t, phase, n - 1, Low);
      BurstTotals(t, phase, n - 1, High);
      SumOfAppend(Emitted(s, phase, n - 1), lows + highs, VideoLength);
      SumOfAppend(lows, highs, VideoLength);
      TimesPair(PacketsBefore(Low, n - 1), |lows|, LOW_BYTES);
      TimesPair(PacketsBefore(High, n - 1), |highs|, HIGH_BYTES);
    }
  }

  lemma NoPackets()
    ensures Times(0, LOW_BYTES) == 0 && Times(0, HIGH_BYTES) == 0
  {}

  lemma AudioTotalsSent(packets: seq<AudioPacket>, source: u16, n: u32)
    requires AudioRun(packets, source, n)
    ensures SumOf(packets, AudioLength) == Times(n, AUDIO_BYTES)
  {
    hide Sum, Encoded, Times;
    forall k: nat | k < |packets| ensures Each(packets, AudioLength)[k] == AUDIO_BYTES {
      AudioPayloadLength(source, k);
      assert packets[k].payload == AudioPayload(source, Measured, k);
    }
    SumConstant(Each(packets, AudioLength), AUDIO_BYTES);
    TimesIs(n, AUDIO_BYTES);
  }

  lemma AudioPayloadLength(source: u16, ordinal: u32)
    ensures |AudioPayload(source, Measured, ordinal)| == AUDIO_BYTES
  {
    hide Encoded;
  }

  /** Frames each video publisher of a specification sends. */
  function FrameCount(spec: ScenarioSpec): nat
    requires spec.InBounds()
  {
    if spec.VideoGallery? || spec.MixedConference? then Frames(spec.seconds) else 0
  }

  lemma LayerCounts(spec: ScenarioSpec)
    requires spec.InBounds() && TopologyOf(spec).video > 0
    ensures FrameCount(spec) < U32_SIZE
    ensures TopologyOf(spec).low == LayerPacketCount(Low, FrameCount(spec))
    ensures TopologyOf(spec).high == LayerPacketCount(High, FrameCount(spec))
  {
    hide LayerPacketCount;
  }

  /** What the measured loop of a peer sends is what the plan books for that peer. */
  lemma SenderMatchesPlan(
    spec: ScenarioSpec, peer: nat, source: u16, start: VideoState, audio: seq<AudioPacket>, video: seq<VideoPacket>)
    requires spec.InBounds()
    requires var t := TopologyOf(spec);
      && (if peer < t.audio then AudioRun(audio, source, t.audioPackets) else audio == [])
      && FrameCount(spec) < U32_SIZE
      && (if peer < t.video then video == Emitted(start, Measured, FrameCount(spec)) else video == [])
    ensures |audio| + |video| == OfferedAt(spec, peer)
    ensures SumOf(audio, AudioLength) + SumOf(video, VideoLength) == OfferedBytesAt(spec, peer)
  {
    hide TopologyOf, Emitted, SumOf, Times, LayerPacketCount;
    var t := TopologyOf(spec);
    SumOfNone<AudioPacket>(AudioLength);
    SumOfNone<VideoPacket>(VideoLength);
    if peer < t.audio {
      AudioTotalsSent(audio, source, t.audioPackets);
    }
    if peer < t.video {
      LayerCounts(spec);
      EmittedTotals(start, Measured, FrameCount(spec));
    }
  }

  // ---- the sending side of a peer ----

  /** A video source ready for the measured phase: its own identity, and both measured ordinals still at zero. */
  predicate ReadyToMeasure(s: VideoState, source: u16) {
    s.source == source && s.measuredLow == 0 && s.measuredHigh == 0
  }

  /** Warmup leaves a ready source ready: its frames never touch the measured ordinals. */
  lemma WarmupLeavesReady(s: VideoState, source: u16, frames: nat)
    requires frames <= U32_SIZE && ReadyToMeasure(s, source)
    ensures ReadyToMeasure(StateAfter(s, Warmup, frames), source)
  {
    hide StateAfter;
    NumberingAfter(s, Warmup, frames, Low);
    NumberingAfter(s, Warmup, frames, High);
    assert s.Ordinal(Low, Measured) == 0 == s.Ordinal(High, Measured);
    assert StateAfter(s, Warmup, frames).Ordinal(Low, Measured) == 0;
    assert StateAfter(s, Warmup, frames).Ordinal(High, Measured) == 0;
  }

  /** First deadline of a publisher: its own slot of the interval in a mixed conference, else the whole interval. */
  function FirstDeadline(spec: ScenarioSpec, interval: nat, peer: nat, publishers: nat): nat {
    if spec.MixedConference? && publishers > 0 then (peer + 1) * (interval / publishers) else interval
  }

  /** The source identity of a peer, and the media its room sets up for it: for the first publishers of each kind. */
  ghost predicate SetUpFor(media: PeerMedia, spec: ScenarioSpec, room: u32, peer: nat)
    requires spec.InBounds()
    reads media.Repr()
  {
    var t, source := TopologyOf(spec), SourceId(room, spec.PeersPerRoom(), peer);
    && media.Valid() && source.Ok?
    && (media.audio != null <==> peer < t.audio) && (media.video != null <==> peer < t.video)
    && (media.audio != null ==>
          && media.audio.source == source.value && media.audioPacketCount == t.audioPackets
          && media.audio.timeline.firstEmittedAt == FirstDeadline(spec, AUDIO_FRAME_INTERVAL, peer, t.audio)
          && media.audio.timeline.firstEmittedAt <= DURATION_MAX)
    && (media.video != null ==>
          && ReadyToMeasure(media.VideoStateNow(), source.value) && media.videoFrameCount == FrameCount(spec)
          && media.video.timeline.firstEmittedAt == FirstDeadline(spec, VIDEO_FRAME_INTERVAL, peer, t.video)
          && media.video.timeline.firstEmittedAt <= DURATION_MAX)
  }

  /** The media of one peer, as `run_audio_room`, `run_video_room` and `run_mixed_room` set them up. */
  method SetUpPeer(spec: ScenarioSpec, room: u32, peer: u32) returns (media: PeerMedia)
    requires spec.InBounds() && room < spec.RoomCount() && peer < spec.PeersPerRoom()
    ensures SetUpFor(media, spec, room, peer) && fresh(media.Repr())
  {
    hide Frames, SourceId, DeadlineAt, StaggeredStart, Times, LowPackets, HighPackets;
    TopologyIsBounded(spec);
    TopologyCounts(spec);
    RoomFits(TopologyOf(spec), room);
    SourceIdFits(room, spec.PeersPerRoom(), peer);
    FramesFit(spec);
    var source := SourceId(room, spec.PeersPerRoom(), peer).value;
    var audioPublishers, videoPublishers := spec.AudioPublishersPerRoom(), spec.VideoPublishersPerRoom();
    StaggeredStartsInside(AUDIO_FRAME_INTERVAL, peer, audioPublishers);
    StaggeredStartsInside(VIDEO_FRAME_INTERVAL, peer, videoPublishers);
    StaggeredIsFirst(spec, AUDIO_FRAME_INTERVAL, peer, audioPublishers);
    StaggeredIsFirst(spec, VIDEO_FRAME_INTERVAL, peer, videoPublishers);
    var audio: AudioSource? := null;
    var video: VideoSource? := null;
    if peer < audioPublishers {
      if spec.MixedConference? {
        audio := new AudioSource.Staggered(source, peer, audioPublishers);
      } else {
        audio := new AudioSource(source);
      }
    }
    if peer < videoPublishers {
      if spec.MixedConference? {
        video := new VideoSource.Staggered(source, peer, videoPublishers);
      } else {
        video := new VideoSource(source);
      }
    }
    media := new PeerMedia(audio, AudioPacketCount(spec), video, FrameCount(spec));
  }

  lemma StaggeredIsFirst(spec: ScenarioSpec, interval: nat, peer: u32, publishers: u32)
    requires interval <= 1_000_000_000
    ensures spec.MixedConference? && peer < publishers ==>
      StaggeredStart(interval, peer, publishers) == FirstDeadline(spec, interval, peer, publishers)
  {
    hide StaggeredStart;
    if peer < publishers {
      SlotIs(interval, publishers, peer);
    }
  }

  /** Packets each audio publisher of a specification sends. */
  function AudioPacketCount(spec: ScenarioSpec): u32
    requires spec.InBounds()
  {
    match spec
    case Smoke(_, packets) => packets
    case AudioMesh(_, _, seconds) => seconds * AUDIO_PACKETS_PER_SECOND
    case VideoGallery(_, _, _, _) => 0
    case MixedConference(_, _, _, _, seconds) => seconds * AUDIO_PACKETS_PER_SECOND
  }

  /** What a peer has sent in its measured phase, and what it has booked as offered. */
  datatype Sending = Sending(
    audio: seq<AudioPacket>, video: seq<VideoPacket>, offeredPackets: u64, offeredPayloadBytes: u64, maxSendLagMs: u64)

  /** The sending is this peer's: its audio run and its video run from a ready source, under its own identity. */
  ghost predicate SentBy(spec: ScenarioSpec, room: u32, peer: nat, sent: Sending)
    requires spec.InBounds()
  {
    var t, source := TopologyOf(spec), SourceId(room, spec.PeersPerRoom(), peer);
    && source.Ok? && FrameCount(spec) < U32_SIZE
    && (if peer < t.audio then AudioRun(sent.audio, source.value, t.audioPackets) else sent.audio == [])
    && (if peer < t.video then VideoRun(sent.video, source.value, FrameCount(spec)) else sent.video == [])
    && sent.offeredPackets == Sat(OfferedAt(spec, peer))
    && sent.offeredPayloadBytes == Sat(OfferedBytesAt(spec, peer))
  }

  /** Every packet carries the deadline of the frame it names, counted from the peer's own first deadline. */
  ghost predicate SentOnTime(spec: ScenarioSpec, peer: nat, sent: Sending)
    requires spec.InBounds()
  {
    var t := TopologyOf(spec);
    && (forall p | p in sent.audio ::
          DueAt(p.payload, p.emittedAt, FirstDeadline(spec, AUDIO_FRAME_INTERVAL, peer, t.audio), AUDIO_FRAME_INTERVAL))
    && forall p | p in sent.video ::
         DueAt(p.payload, p.emittedAt, FirstDeadline(spec, VIDEO_FRAME_INTERVAL, peer, t.video), VIDEO_FRAME_INTERVAL)
  }

  predicate DueAt(payload: seq<u8>, emittedAt: nat, first: nat, interval: nat) {
    var r := InspectPayload(payload);
    r.Ok? && emittedAt == SaturatingDuration(first + r.value.identity.frame * interval)
  }

  lemma AudioIsOnTime(packets: seq<AudioPacket>, source: u16, n: u32, first: nat, rtp: u32, number: u16)
    requires AudioRun(packets, source, n) && AudioNumbered(packets, first, rtp, number)
    ensures forall p | p in packets :: DueAt(p.payload, p.emittedAt, first, AUDIO_FRAME_INTERVAL)
  {
    hide InspectPayload, AudioPayload, Wrap16, Wrap32;
    forall p | p in packets ensures DueAt(p.payload, p.emittedAt, first, AUDIO_FRAME_INTERVAL) {
      var k: nat :| k < |packets| && packets[k] == p;
      assert p.payload == AudioPayload(source, Measured, k);
      AudioPayloadInspects(source, Measured, k);
    }
  }

  lemma VideoIsOnTime(s: VideoState, frames: u32)
    requires s.nextEmittedAt <= DURATION_MAX
    ensures forall p | p in Emitted(s, Measured, frames) ::
      DueAt(p.payload, p.emittedAt, s.nextEmittedAt, VIDEO_FRAME_INTERVAL)
  {
    hide InspectPayload, Emitted;
    EmittedOnTime(s, Measured, frames);
    forall p | p in Emitted(s, Measured, frames)
      ensures DueAt(p.payload, p.emittedAt, s.nextEmittedAt, VIDEO_FRAME_INTERVAL)
    {
      assert OnTime(p, s, frames);
    }
  }

  ghost predicate VideoRun(packets: seq<VideoPacket>, source: u16, frames: u32) {
    exists start :: ReadyToMeasure(start, source) && packets == Emitted(start, Measured, frames)
  }

  /** The sending side of one peer, from warmup to the end of its schedule. */
  method RunSender(spec: ScenarioSpec, room: u32, peer: nat, media: PeerMedia, lag: nat -> u64)
    returns (sent: Sending)
    requires spec.InBounds() && SetUpFor(media, spec, room, peer)
    modifies media.Repr()
    ensures SentBy(spec, room, peer, sent) && SentOnTime(spec, peer, sent)
    ensures sent.maxSendLagMs == LargestLag(lag, |sent.audio| + |sent.video|)
  {
    hide TopologyOf, Emitted, StateAfter, AudioRun, Frames, SourceId, ReadyToMeasure, Booked, SentBy, AudioNumbered,
         DueAt, FirstDeadline;
    FramesFit(spec);
    ghost var fresh' := if media.video != null then media.VideoStateNow() else FreshState(0, 0);
    ghost var source := SourceId(room, spec.PeersPerRoom(), peer).value;
    var warmupAudio, warmupVideo := media.SendWarmup();
    if media.video != null {
      WarmupLeavesReady(fresh', source, WARMUP_VIDEO_FRAMES);
    }
    ghost var warm := if media.video != null then media.VideoStateNow() else FreshState(0, 0);
    media.ResetTimelines();
    ghost var start := if media.video != null then media.VideoStateNow() else FreshState(0, 0);
    if media.video != null {
      ResetKeepsReady(warm, start, source);
      VideoIsOnTime(start, media.videoFrameCount);
    }
    ghost var rtp: u32, number: u16 := 0, 0;
    if media.audio != null {
      rtp, number := media.audio.nextRtpTimestamp, media.audio.nextSequenceNumber;
    }
    ghost var turns;
    var audio, video, packets, bytes, largestLag;
    turns, audio, video, packets, bytes, largestLag := media.SendMeasured(lag);
    sent := Sending(audio, video, packets, bytes, largestLag);
    if media.audio != null {
      AudioIsOnTime(audio, source, media.audioPacketCount, media.audio.timeline.firstEmittedAt, rtp, number);
    }
    SentAsBooked(spec, room, peer, start, sent, lag);
  }

  lemma SentAsBooked(spec: ScenarioSpec, room: u32, peer: nat, start: VideoState, sent: Sending, lag: nat -> u64)
    requires spec.InBounds() && SourceId(room, spec.PeersPerRoom(), peer).Ok? && FrameCount(spec) < U32_SIZE
    requires var t, source := TopologyOf(spec), SourceId(room, spec.PeersPerRoom(), peer).value;
      && (if peer < t.audio then AudioRun(sent.audio, source, t.audioPackets) else sent.audio == [])
      && (if peer < t.video
          then ReadyToMeasure(start, source) && sent.video == Emitted(start, Measured, FrameCount(spec))
          else sent.video == [])
    requires Booked(sent.audio, sent.video, lag, sent.offeredPackets, sent.offeredPayloadBytes, sent.maxSendLagMs)
    ensures SentBy(spec, room, peer, sent) && sent.maxSendLagMs == LargestLag(lag, |sent.audio| + |sent.video|)
  {
    hide TopologyOf, Emitted, SumOf, AudioRun, OfferedAt, OfferedBytesAt, Sat, Frames, SourceId, ReadyToMeasure;
    SenderMatchesPlan(spec, peer, SourceId(room, spec.PeersPerRoom(), peer).value, start, sent.audio, sent.video);
  }

  lemma ResetKeepsReady(warm: VideoState, start: VideoState, source: u16)
    requires ReadyToMeasure(warm, source) && start == warm.(nextEmittedAt := start.nextEmittedAt)
    ensures ReadyToMeasure(start, source)
  {}

  lemma FramesFit(spec: ScenarioSpec)
    requires spec.InBounds()
    ensures FrameCount(spec) < U32_SIZE
  {}

  // ---- what a receiver expects, stream by stream ----

  /** A stream has as many places as its publisher sends packets of that kind and layer. */
  predicate SizedFor(s: ExpectedStream, audioPackets: nat, low: nat, high: nat) {
    match (s.key.kind, s.key.layer)
    case (Audio, None) => |s.seen| == audioPackets
    case (Video, Some(Low)) => |s.seen| == low
    case (Video, Some(High)) => |s.seen| == high
    case _ => false
  }

  lemma {:induction false} AudioSizes(room: u32, peers: u32, n: u32, peer: nat, packets: u32, low: nat, high: nat)
    requires SourcesFit(room, peers) && n <= peers && packets > 0 && AudioStreams(room, peers, n, peer, packets).Ok?
    ensures forall s | s in AudioStreams(room, peers, n, peer, packets).value ::
      SizedFor(s, packets, low, high) && s.key.kind == Audio
  {
    hide Times, AudioStream;
    if n > 0 {
      AudioSizes(room, peers, n - 1, peer, packets, low, high);
      AudioStreamIs(room, peers, n - 1, packets);
    }
  }

  lemma {:induction false} VideoSizes(
    room: u32, peers: u32, publishers: u32, n: u32, peer: nat, low: u64, high: u64, audioPackets: nat)
    requires SourcesFit(room, peers) && n <= publishers <= peers && 0 < low < U32_SIZE && 0 < high < U32_SIZE
    requires VideoStreams(room, peers, publishers, n, peer, low, high).Ok?
    ensures forall s | s in VideoStreams(room, peers, publishers, n, peer, low, high).value ::
      SizedFor(s, audioPackets, low, high) && publishers > 0
  {
    hide Times, VideoStream, FeaturedSource;
    if n > 0 {
      VideoSizes(room, peers, publishers, n - 1, peer, low, high, audioPackets);
      VideoStreamIs(room, peers, n - 1, LayerFor(peer, publishers, n - 1), low, high);
    }
  }

  lemma StreamSizes(spec: ScenarioSpec, room: u32, peer: nat)
    requires spec.InBounds() && room < spec.RoomCount()
    ensures var t := TopologyOf(spec);
      forall s | s in StreamsAt(spec, room, peer) ::
        SizedFor(s, t.audioPackets, t.low, t.high) && (s.key.kind == Video ==> t.video > 0)
  {
    hide AudioStreams, VideoStreams, TopologyOf, Times, FreshStream;
    var t := TopologyOf(spec);
    TopologyIsBounded(spec);
    TopologyStreams(spec, room, peer);
    RoomFits(t, room);
    AudioTotals(room, t.peers, t.audio, peer, t.audioPackets);
    VideoTotals(room, t.peers, t.video, t.video, peer, t.low, t.high);
    AudioSizes(room, t.peers, t.audio, peer, t.audioPackets, t.low, t.high);
    VideoSizes(room, t.peers, t.video, t.video, peer, t.low, t.high, t.audioPackets);
    var audio, video := AudioStreams(room, t.peers, t.audio, peer, t.audioPackets).value,
                        VideoStreams(room, t.peers, t.video, t.video, peer, t.low, t.high).value;
    forall s | s in StreamsAt(spec, room, peer)
      ensures SizedFor(s, t.audioPackets, t.low, t.high) && (s.key.kind == Video ==> t.video > 0)
    {
      assert s in audio || s in video;
    }
  }

  /** The streams a peer expects come from the publishers of its own room, under their source identities. */
  predicate FromRoom(key: StreamKey, base: nat, audio: nat, video: nat) {
    base <= key.source < base + if key.kind == Audio then audio else video
  }

  lemma StreamPublishers(spec: ScenarioSpec, room: u32, peer: nat)
    requires spec.InBounds() && room < spec.RoomCount()
    ensures var t := TopologyOf(spec);
      forall s | s in StreamsAt(spec, room, peer) :: FromRoom(s.key, Times(room, t.peers), t.audio, t.video)
  {
    hide AudioStreams, VideoStreams, TopologyOf, Times, Delivery.Distinct, Delivery.Keys;
    var t := TopologyOf(spec);
    TopologyIsBounded(spec);
    TopologyStreams(spec, room, peer);
    RoomFits(t, room);
    AudioTotals(room, t.peers, t.audio, peer, t.audioPackets);
    VideoTotals(room, t.peers, t.video, t.video, peer, t.low, t.high);
    AudioKeys(room, t.peers, t.audio, peer, t.audioPackets);
    VideoKeys(room, t.peers, t.video, t.video, peer, t.low, t.high);
    var audio, video := AudioStreams(room, t.peers, t.audio, peer, t.audioPackets).value,
                        VideoStreams(room, t.peers, t.video, t.video, peer, t.low, t.high).value;
    forall s | s in StreamsAt(spec, room, peer) ensures FromRoom(s.key, Times(room, t.peers), t.audio, t.video) {
      assert s in audio || s in video;
    }
  }

  // ---- lossless forwarding ----

  /** The peer of a room that publishes a stream. */
  function PublisherOf(spec: ScenarioSpec, room: u32, key: StreamKey): nat {
    if Times(room, spec.PeersPerRoom()) <= key.source then key.source - Times(room, spec.PeersPerRoom()) else 0
  }

  /** The payloads of one stream of a sending, in the order they were sent. */
  function StreamOf(sent: Sending, key: StreamKey): seq<seq<u8>> {
    match key.layer
    case None => AudioPayloads(sent.audio)
    case Some(layer) => VideoPayloads(OfLayer(sent.video, layer))
  }

  function AudioPayloads(packets: seq<AudioPacket>): (payloads: seq<seq<u8>>)
    ensures |payloads| == |packets| && forall i | 0 <= i < |packets| :: payloads[i] == packets[i].payload
  {
    seq(|packets|, i requires 0 <= i < |packets| => packets[i].payload)
  }

  function VideoPayloads(packets: seq<VideoPacket>): (payloads: seq<seq<u8>>)
    ensures |payloads| == |packets| && forall i | 0 <= i < |packets| :: payloads[i] == packets[i].payload
  {
    seq(|packets|, i requires 0 <= i < |packets| => packets[i].payload)
  }

  lemma AudioIsExact(packets: seq<AudioPacket>, source: u16, n: u32)
    requires AudioRun(packets, source, n)
    ensures RouteExact(AudioPayloads(packets), n)
  {
    hide AudioPayload, InspectPayload;
    var sent := AudioPayloads(packets);
    forall i: nat | i < |sent| ensures IntactAt(sent[i], i) {
      assert packets[i].payload == AudioPayload(source, Measured, i);
      AudioPayloadInspects(source, Measured, i);
    }
  }

  lemma VideoIsExact(video: seq<VideoPacket>, source: u16, frames: u32, layer: VideoLayer)
    requires VideoRun(video, source, frames) && LayerPacketCount(layer, frames) <= U32_SIZE
    ensures RouteExact(VideoPayloads(OfLayer(video, layer)), LayerPacketCount(layer, frames))
  {
    hide Emitted, OfLayer, InspectPayload, LayerPacketCount, PacketsBefore;
    var start :| ReadyToMeasure(start, source) && video == Emitted(start, Measured, frames);
    var sent := VideoPayloads(OfLayer(video, layer));
    ClosedFormCountsFrames(layer, frames);
    EmissionMatchesPlan(start, Measured, frames, layer);
    forall i | 0 <= i < |sent| ensures IntactAt(sent[i], i) {
      OrdinalsAreGapless(start, Measured, frames, layer, i);
    }
  }

  /** What the publisher of a stream has sent on it is exactly what a receiver's plan for that stream asks for. */
  lemma SentIsExact(spec: ScenarioSpec, room: u32, s: ExpectedStream, sent: Sending)
    requires spec.InBounds() && room < spec.RoomCount()
    requires var t := TopologyOf(spec);
      SizedFor(s, t.audioPackets, t.low, t.high) && FromRoom(s.key, Times(room, t.peers), t.audio, t.video)
    requires SentBy(spec, room, PublisherOf(spec, room, s.key), sent)
    ensures RouteExact(StreamOf(sent, s.key), |s.seen|)
  {
    hide TopologyOf, Emitted, OfLayer, LayerPacketCount, AudioRun, VideoRun, RouteExact, Times, OfferedAt,
         OfferedBytesAt, SourceId, Frames;
    var t, q := TopologyOf(spec), PublisherOf(spec, room, s.key);
    TopologyCounts(spec);
    TopologyIsBounded(spec);
    var source := SourceId(room, t.peers, q).value;
    match s.key.layer
    case None => AudioIsExact(sent.audio, source, t.audioPackets);
    case Some(layer) =>
      LayerCounts(spec);
      VideoIsExact(sent.video, source, FrameCount(spec), layer);
  }

  /**
   * Order-preserving forwarding: every payload that reaches a peer is accounted for, and each of its streams arrives as
   * the publisher sent it, interleaved in any way with the other streams and with warmup.
   */
  ghost predicate ForwardedInOrder(
    spec: ScenarioSpec, room: nat, peer: nat, sent: nat -> Sending, payloads: seq<seq<u8>>)
    requires room < U32_SIZE
  {
    && (forall p | p in payloads :: Accounted(p, KeysAt(spec, room, peer)))
    && forall key | key in KeysAt(spec, room, peer) ::
         RouteOf(payloads, key) == StreamOf(sent(PublisherOf(spec, room, key)), key)
  }

  /** What a room's publishers have sent, forwarded in order, serves a receiver exactly. */
  lemma FaithfulForwardingIsExact(spec: ScenarioSpec, room: u32, peer: nat, sent: nat -> Sending, run: PeerRun)
    requires spec.InBounds() && room < spec.RoomCount()
    requires forall q: nat | q < spec.PeersPerRoom() :: SentBy(spec, room, q, sent(q))
    requires ForwardedInOrder(spec, room, peer, sent, run.payloads)
    ensures ReceivedExactly(spec, room, peer, run)
  {
    hide StreamsAt, TopologyOf, SizedFor, RouteExact, Accounted, RouteOf, StreamOf, SentBy, Times, Bounded;
    StreamSizes(spec, room, peer);
    StreamPublishers(spec, room, peer);
    TopologyCounts(spec);
    TopologyIsBounded(spec);
    PublishersArePeers(TopologyOf(spec));
    var streams, keys, sizes := StreamsAt(spec, room, peer), KeysAt(spec, room, peer), SizesAt(spec, room, peer);
    forall k | 0 <= k < |keys| ensures RouteExact(RouteOf(run.payloads, keys[k]), sizes[k]) {
      assert streams[k] in streams;
      assert keys[k] in keys;
      var q := PublisherOf(spec, room, keys[k]);
      SentIsExact(spec, room, streams[k], sent(q));
    }
  }

  lemma PublishersArePeers(t: Topology)
    requires Bounded(t)
    ensures t.audio <= t.peers && t.video <= t.peers
  {}

  /** What the peers of one room have sent. */
  function RoomOf(sent: (nat, nat) -> Sending, room: nat): nat -> Sending {
    (peer: nat) => sent(room, peer)
  }

  /** A peer that has run its sender, booked what it sent, and received what its room sent to it. */
  ghost predicate Served(spec: ScenarioSpec, room: u32, peer: nat, sent: nat -> Sending, run: PeerRun)
    requires spec.InBounds()
  {
    && SentBy(spec, room, peer, sent(peer))
    && run.offeredPackets == sent(peer).offeredPackets && run.offeredPayloadBytes == sent(peer).offeredPayloadBytes
    && run.maxSendLagMs == sent(peer).maxSendLagMs
    && ForwardedInOrder(spec, room, peer, sent, run.payloads)
  }

  ghost predicate RoomServed(spec: ScenarioSpec, room: u32, sent: nat -> Sending, run: (nat, nat) -> PeerRun)
    requires spec.InBounds()
  {
    forall peer: nat | peer < spec.PeersPerRoom() :: Served(spec, room, peer, sent, run(room, peer))
  }

  lemma ServedExactly(
    spec: ScenarioSpec, room: u32, peer: nat, sent: nat -> Sending, run: (nat, nat) -> PeerRun)
    requires spec.InBounds() && room < spec.RoomCount() && peer < spec.PeersPerRoom()
    requires RoomServed(spec, room, sent, run)
    ensures run(room, peer).offeredPackets == Sat(OfferedAt(spec, peer))
    ensures run(room, peer).offeredPayloadBytes == Sat(OfferedBytesAt(spec, peer))
    ensures ReceivedExactly(spec, room, peer, run(room, peer))
  {
    hide TopologyOf, OfferedAt, OfferedBytesAt, AudioRun, VideoRun, SourceId, ReceivedExactly, ForwardedInOrder, SentBy;
    forall q: nat | q < spec.PeersPerRoom() ensures SentBy(spec, room, q, sent(q)) {
      assert Served(spec, room, q, sent, run(room, q));
    }
    assert Served(spec, room, peer, sent, run(room, peer));
    FaithfulForwardingIsExact(spec, room, peer, sent, run(room, peer));
    BookedBy(spec, room, peer, sent(peer));
  }

  lemma BookedBy(spec: ScenarioSpec, room: u32, peer: nat, sent: Sending)
    requires spec.InBounds() && SentBy(spec, room, peer, sent)
    ensures sent.offeredPackets == Sat(OfferedAt(spec, peer))
    ensures sent.offeredPayloadBytes == Sat(OfferedBytesAt(spec, peer))
  {
    hide TopologyOf, OfferedAt, OfferedBytesAt, AudioRun, VideoRun, SourceId;
  }

  /**
   * The whole way: when every peer of every room has run its sender and everything sent is forwarded in order, the
   * completed result validates, in whatever order rooms and peers finish.
   */
  lemma LosslessRunValidates(
    spec: ScenarioSpec, sent: (nat, nat) -> Sending, run: (nat, nat) -> PeerRun, order: Order)
    requires spec.Valid() && CompleteOrder(order, spec.RoomCount(), spec.PeersPerRoom())
    requires forall room: u32 | room < spec.RoomCount() :: RoomServed(spec, room, RoomOf(sent, room), run)
    ensures var result := Completed(spec, RunMerged(Observations(spec, run), order));
      result.Ok? && result.value.Validates(spec)
  {
    hide RunMerged, Observations, CompleteOrder, Completed, ScenarioResult.Validates, RoomServed, ReceivedExactly,
         OfferedAt, OfferedBytesAt;
    forall room, peer | 0 <= room < spec.RoomCount() && 0 <= peer < spec.PeersPerRoom()
      ensures run(room, peer).offeredPackets == Sat(OfferedAt(spec, peer))
      ensures run(room, peer).offeredPayloadBytes == Sat(OfferedBytesAt(spec, peer))
      ensures ReceivedExactly(spec, room, peer, run(room, peer))
    {
      ServedExactly(spec, room, peer, RoomOf(sent, room), run);
    }
    GateVerdict(spec, run, order);
  }
}
