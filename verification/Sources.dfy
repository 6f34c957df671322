/** The deterministic audio and video sources: their timelines, RTP numbering and packet bursts. */
module Sources {
  import opened Machine
  import opened Codec

  // Durations are nanosecond counts that saturate where `std::time::Duration` does.
  const DURATION_MAX: nat := U64_MAX * 1_000_000_000 + 999_999_999
  const AUDIO_FRAME_INTERVAL: nat := 20_000_000
  const VIDEO_FRAME_INTERVAL: nat := 33_333_333
  const AUDIO_TIMESTAMP_STEP := 960
  const VIDEO_TIMESTAMP_STEP := 3_000
  const VIDEO_KEYFRAME_INTERVAL := 60
  const VIDEO_LOW_DELTA_PACKETS: u64 := 1
  const VIDEO_LOW_KEYFRAME_PACKETS: u64 := 2
  const VIDEO_HIGH_DELTA_PACKETS: u64 := 14
  const VIDEO_HIGH_KEYFRAME_PACKETS: u64 := 20

  function SaturatingDuration(nanos: nat): nat {
    if nanos > DURATION_MAX then DURATION_MAX else nanos
  }

  /** First deadline of publisher `sourceIndex` among `sourceCount` that share one interval. */
  function StaggeredStart(interval: nat, sourceIndex: u32, sourceCount: u32): nat {
    var count := if sourceCount == 0 then 1 else sourceCount;
    var slot := if sourceIndex + 1 <= count then sourceIndex + 1 else count;
    SaturatingDuration(interval / count * slot)
  }

  class MediaTimeline {
    const interval: nat
    const firstEmittedAt: nat
    var nextEmittedAt: nat

    constructor (interval: nat)
      ensures this.interval == interval && firstEmittedAt == nextEmittedAt == interval
    {
      this.interval, firstEmittedAt, nextEmittedAt := interval, interval, interval;
    }

    constructor Staggered(interval: nat, sourceIndex: u32, sourceCount: u32)
      ensures this.interval == interval
      ensures firstEmittedAt == nextEmittedAt == StaggeredStart(interval, sourceIndex, sourceCount)
    {
      this.interval := interval;
      firstEmittedAt := StaggeredStart(interval, sourceIndex, sourceCount);
      nextEmittedAt := StaggeredStart(interval, sourceIndex, sourceCount);
    }

    method Advance() returns (emittedAt: nat)
      modifies this
      ensures emittedAt == old(nextEmittedAt) && nextEmittedAt == SaturatingDuration(emittedAt + interval)
    {
      emittedAt := nextEmittedAt;
      nextEmittedAt := SaturatingDuration(nextEmittedAt + interval);
    }

    method Reset()
      modifies this
      ensures nextEmittedAt == firstEmittedAt
    {
      nextEmittedAt := firstEmittedAt;
    }
  }

  datatype AudioPacket = AudioPacket(emittedAt: nat, rtpTimestamp: u32, sequenceNumber: u16, payload: seq<u8>)

  /** The flags of the frame-marking header extension; every packet is of the base temporal layer. */
  datatype FrameMark = FrameMark(startOfFrame: bool, endOfFrame: bool, independent: bool)

  datatype VideoPacket = VideoPacket(
    emittedAt: nat, rtpTimestamp: u32, sequenceNumber: u16, marker: bool, layer: VideoLayer, frameMark: FrameMark,
    payload: seq<u8>)

  function AudioIdentity(source: u16, phase: PacketPhase, ordinal: u32): PacketIdentity {
    PacketIdentity(Audio, phase, None, source, ordinal, ordinal, 0, 1)
  }

  function AudioPayload(source: u16, phase: PacketPhase, ordinal: u32): seq<u8> {
    Encoded(AudioIdentity(source, phase, ordinal), AUDIO_PACKET_PAYLOAD_BYTES, [ONE_FRAME_TOC])
  }

  class AudioSource {
    const source: u16
    const timeline: MediaTimeline
    var nextRtpTimestamp: u32
    var nextSequenceNumber: u16

    constructor (source: u16)
      ensures this.source == source && nextRtpTimestamp == 0 && nextSequenceNumber == 0 && fresh(timeline)
      ensures timeline.interval == timeline.firstEmittedAt == timeline.nextEmittedAt == AUDIO_FRAME_INTERVAL
    {
      this.source, nextRtpTimestamp, nextSequenceNumber := source, 0, 0;
      timeline := new MediaTimeline(AUDIO_FRAME_INTERVAL);
    }

    constructor Staggered(source: u16, sourceIndex: u32, sourceCount: u32)
      ensures this.source == source && nextRtpTimestamp == 0 && nextSequenceNumber == 0 && fresh(timeline)
      ensures timeline.interval == AUDIO_FRAME_INTERVAL && timeline.firstEmittedAt == timeline.nextEmittedAt
      ensures timeline.firstEmittedAt == StaggeredStart(AUDIO_FRAME_INTERVAL, sourceIndex, sourceCount)
    {
      this.source, nextRtpTimestamp, nextSequenceNumber := source, 0, 0;
      timeline := new MediaTimeline.Staggered(AUDIO_FRAME_INTERVAL, sourceIndex, sourceCount);
    }

    method NextPacket(phase: PacketPhase, ordinal: u32) returns (packet: AudioPacket)
      modifies this, timeline
      ensures packet == AudioPacket(old(timeline.nextEmittedAt), old(nextRtpTimestamp), old(nextSequenceNumber),
                                    AudioPayload(source, phase, ordinal))
      ensures timeline.nextEmittedAt == SaturatingDuration(old(timeline.nextEmittedAt) + timeline.interval)
      ensures nextSequenceNumber == Wrap16(old(nextSequenceNumber) + 1)
      ensures nextRtpTimestamp == Wrap32(old(nextRtpTimestamp) + AUDIO_TIMESTAMP_STEP)
    {
      var emittedAt := timeline.Advance();
      var sequenceNumber := nextSequenceNumber;
      nextSequenceNumber := Wrap16(nextSequenceNumber + 1);
      var rtpTimestamp := nextRtpTimestamp;
      nextRtpTimestamp := Wrap32(nextRtpTimestamp + AUDIO_TIMESTAMP_STEP);
      var payload := EncodePayload(AudioIdentity(source, phase, ordinal), AUDIO_PACKET_PAYLOAD_BYTES, [ONE_FRAME_TOC]);
      packet := AudioPacket(emittedAt, rtpTimestamp, sequenceNumber, payload);
    }
  }

  lemma AudioPayloadInspects(source: u16, phase: PacketPhase, ordinal: u32)
    ensures InspectPayload(AudioPayload(source, phase, ordinal))
         == Ok(PayloadInspection(AudioIdentity(source, phase, ordinal), true))
  {
    AudioPrefixIsClean();
    InspectEncoded(AudioIdentity(source, phase, ordinal), [ONE_FRAME_TOC]);
  }

  /** The numbering one simulcast layer carries from frame to frame. */
  datatype LayerState = LayerState(sequenceNumber: u16, pictureId: u16, tl0PicIdx: u8)

  class VideoLayerState {
    var sequenceNumber: u16
    var pictureId: u16
    var tl0PicIdx: u8

    constructor (sequenceOffset: u16)
      ensures State() == LayerState(sequenceOffset, 1, 1)
    {
      sequenceNumber, pictureId, tl0PicIdx := sequenceOffset, 1, 1;
    }

    function State(): LayerState
      reads this
    {
      LayerState(sequenceNumber, pictureId, tl0PicIdx)
    }
  }

  /** Where in a run one burst is built: everything its packets share. */
  datatype Burst = Burst(
    source: u16, emittedAt: nat, rtpTimestamp: u32, phase: PacketPhase, frame: u32, keyframe: bool, layer: VideoLayer)

  function FragmentIdentity(b: Burst, fragments: u16, fragment: u16, ordinal: u32): PacketIdentity {
    PacketIdentity(Video, b.phase, Some(b.layer), b.source, ordinal, b.frame, fragment, fragments)
  }

  /** One fragment of a burst, at the numbers the layer has reached for it. */
  function FragmentAt(b: Burst, fragments: u16, fragment: u16, sequenceNumber: u16, ordinal: u32, pictureId: u16,
                      tl0PicIdx: u8): VideoPacket
  {
    VideoPacket(b.emittedAt, b.rtpTimestamp, sequenceNumber, fragment + 1 == fragments, b.layer,
                FrameMark(fragment == 0, fragment + 1 == fragments, b.keyframe && fragment == 0),
                Encoded(FragmentIdentity(b, fragments, fragment, ordinal), PacketPayloadLen(b.layer),
                        VideoPrefix(pictureId, tl0PicIdx, b.layer, b.keyframe, fragment)))
  }

  /** Fragment number `fragment` of a burst whose layer was in state `st` with `ordinal` as its next ordinal. */
  function Fragment(b: Burst, fragments: u16, st: LayerState, ordinal: u32, fragment: u16): VideoPacket {
    FragmentAt(b, fragments, fragment, Wrap16(st.sequenceNumber + fragment), Wrap32(ordinal + fragment),
               st.pictureId % 0x8000, st.tl0PicIdx)
  }

  function FirstFragments(b: Burst, fragments: u16, st: LayerState, ordinal: u32, n: u16): seq<VideoPacket> {
    seq(n, k requires 0 <= k < n => Fragment(b, fragments, st, ordinal, k))
  }

  function LayerBurst(b: Burst, fragments: u16, st: LayerState, ordinal: u32): seq<VideoPacket> {
    FirstFragments(b, fragments, st, ordinal, fragments)
  }

  function LayerStateAfter(st: LayerState, fragments: u16): LayerState {
    LayerState(Wrap16(st.sequenceNumber + fragments), Wrap16(st.pictureId + 1), (st.tl0PicIdx + 1) % U8_SIZE)
  }

  lemma NextFragment(b: Burst, fragments: u16, st: LayerState, ordinal: u32, n: u16)
    requires n + 1 < U16_SIZE
    ensures FirstFragments(b, fragments, st, ordinal, n + 1)
         == FirstFragments(b, fragments, st, ordinal, n) + [Fragment(b, fragments, st, ordinal, n)]
  {}

  /** `u16::try_from` with the maximum as its fallback. */
  function FragmentTotal(fragmentCount: u64): u16 {
    if fragmentCount < U16_SIZE then fragmentCount else U16_SIZE - 1
  }

  method BuildFragment(b: Burst, fragments: u16, fragment: u16, sequenceNumber: u16, ordinal: u32, pictureId: u16,
                       tl0PicIdx: u8) returns (packet: VideoPacket)
    ensures packet == FragmentAt(b, fragments, fragment, sequenceNumber, ordinal, pictureId, tl0PicIdx)
  {
    var marker := fragment + 1 == fragments;
    var identity := FragmentIdentity(b, fragments, fragment, ordinal);
    var payload := EncodePayload(identity, PacketPayloadLen(b.layer),
                                 VideoPrefix(pictureId, tl0PicIdx, b.layer, b.keyframe, fragment));
    var independent := b.keyframe && fragment == 0;
    packet := VideoPacket(b.emittedAt, b.rtpTimestamp, sequenceNumber, marker, b.layer,
                          FrameMark(fragment == 0, marker, independent), payload);
  }

  method AppendVideoLayer(
    packets: seq<VideoPacket>, b: Burst, fragmentCount: u64, state: VideoLayerState, nextOrdinal: u32)
    returns (grown: seq<VideoPacket>, ordinal: u32)
    modifies state
    ensures grown == packets + LayerBurst(b, FragmentTotal(fragmentCount), old(state.State()), nextOrdinal)
    ensures ordinal == Wrap32(nextOrdinal + FragmentTotal(fragmentCount))
    ensures state.State() == LayerStateAfter(old(state.State()), FragmentTotal(fragmentCount))
  {
    ghost var before := state.State();
    assert Wrap32(nextOrdinal) == nextOrdinal && Wrap16(before.sequenceNumber) == before.sequenceNumber;
    var pictureId: u16, tl0PicIdx := state.pictureId % 0x8000, state.tl0PicIdx;
    state.pictureId := Wrap16(state.pictureId + 1);
    state.tl0PicIdx := (state.tl0PicIdx + 1) % U8_SIZE;
    var fragments := FragmentTotal(fragmentCount);
    grown, ordinal := packets, nextOrdinal;
    ghost var burst: seq<VideoPacket> := [];
    var fragment: u16 := 0;
    while fragment < fragments
      invariant fragment <= fragments
      invariant burst == FirstFragments(b, fragments, before, nextOrdinal, fragment) && grown == packets + burst
      invariant ordinal == Wrap32(nextOrdinal + fragment)
      invariant state.sequenceNumber == Wrap16(before.sequenceNumber + fragment)
      invariant state.pictureId == Wrap16(before.pictureId + 1)
      invariant state.tl0PicIdx == (before.tl0PicIdx + 1) % U8_SIZE
    {
      var packet := BuildFragment(b, fragments, fragment, state.sequenceNumber, ordinal, pictureId, tl0PicIdx);
      ordinal := Wrap32(ordinal + 1);
      WrapNext(nextOrdinal + fragment);
      WrapNext(before.sequenceNumber + fragment);
      NextFragment(b, fragments, before, nextOrdinal, fragment);
      grown, burst := grown + [packet], burst + [packet];
      state.sequenceNumber := Wrap16(state.sequenceNumber + 1);
      fragment := fragment + 1;
    }
  }

  predicate IsKeyframe(frame: nat) {
    frame % VIDEO_KEYFRAME_INTERVAL == 0
  }

  function FragmentCount(layer: VideoLayer, keyframe: bool): (n: u64)
    ensures 0 < n <= 20
  {
    match layer
    case Low => if keyframe then VIDEO_LOW_KEYFRAME_PACKETS else VIDEO_LOW_DELTA_PACKETS
    case High => if keyframe then VIDEO_HIGH_KEYFRAME_PACKETS else VIDEO_HIGH_DELTA_PACKETS
  }

  datatype VideoState = VideoState(
    source: u16, nextEmittedAt: nat, nextRtpTimestamp: u32, low: LayerState, high: LayerState,
    measuredLow: u32, measuredHigh: u32, warmupLow: u32, warmupHigh: u32)
  {
    function Layer(layer: VideoLayer): LayerState {
      if layer == Low then low else high
    }

    function Ordinal(layer: VideoLayer, phase: PacketPhase): u32 {
      match (layer, phase)
      case (Low, Measured) => measuredLow
      case (High, Measured) => measuredHigh
      case (Low, Warmup) => warmupLow
      case (High, Warmup) => warmupHigh
    }
  }

  function BurstOf(s: VideoState, phase: PacketPhase, frame: u32, layer: VideoLayer): Burst {
    Burst(s.source, s.nextEmittedAt, s.nextRtpTimestamp, phase, frame, IsKeyframe(frame), layer)
  }

  function LayerPackets(s: VideoState, phase: PacketPhase, frame: u32, layer: VideoLayer): seq<VideoPacket> {
    LayerBurst(BurstOf(s, phase, frame, layer), FragmentCount(layer, IsKeyframe(frame)), s.Layer(layer),
               s.Ordinal(layer, phase))
  }

  function FramePackets(s: VideoState, phase: PacketPhase, frame: u32): seq<VideoPacket> {
    LayerPackets(s, phase, frame, Low) + LayerPackets(s, phase, frame, High)
  }

  function FrameStateAfter(s: VideoState, phase: PacketPhase, frame: u32): VideoState {
    var key := IsKeyframe(frame);
    var low, high := FragmentCount(Low, key), FragmentCount(High, key);
    var lowOrdinal, highOrdinal := Wrap32(s.Ordinal(Low, phase) + low), Wrap32(s.Ordinal(High, phase) + high);
    var s' := s.(nextEmittedAt := SaturatingDuration(s.nextEmittedAt + VIDEO_FRAME_INTERVAL),
                 nextRtpTimestamp := Wrap32(s.nextRtpTimestamp + VIDEO_TIMESTAMP_STEP),
                 low := LayerStateAfter(s.low, low), high := LayerStateAfter(s.high, high));
    if phase == Measured then s'.(measuredLow := lowOrdinal, measuredHigh := highOrdinal)
    else s'.(warmupLow := lowOrdinal, warmupHigh := highOrdinal)
  }

  class VideoSource {
    const source: u16
    const timeline: MediaTimeline
    var nextRtpTimestamp: u32
    const low: VideoLayerState
    const high: VideoLayerState
    var measuredLowOrdinal: u32
    var measuredHighOrdinal: u32
    var warmupLowOrdinal: u32
    var warmupHighOrdinal: u32

    ghost predicate Valid() {
      low != high && timeline.interval == VIDEO_FRAME_INTERVAL
    }

    ghost function Repr(): set<object> {
      {this, timeline, low, high}
    }

    ghost function State(): VideoState
      reads Repr()
    {
      VideoState(source, timeline.nextEmittedAt, nextRtpTimestamp, low.State(), high.State(),
                 measuredLowOrdinal, measuredHighOrdinal, warmupLowOrdinal, warmupHighOrdinal)
    }

    constructor (source: u16)
      ensures Valid() && fresh(Repr()) && timeline.firstEmittedAt == VIDEO_FRAME_INTERVAL
      ensures State() == FreshState(source, VIDEO_FRAME_INTERVAL)
    {
      this.source, nextRtpTimestamp := source, 0;
      timeline := new MediaTimeline(VIDEO_FRAME_INTERVAL);
      low := new VideoLayerState(0);
      high := new VideoLayerState(30_000);
      measuredLowOrdinal, measuredHighOrdinal, warmupLowOrdinal, warmupHighOrdinal := 0, 0, 0, 0;
    }

    constructor Staggered(source: u16, sourceIndex: u32, sourceCount: u32)
      ensures Valid() && fresh(Repr())
      ensures timeline.firstEmittedAt == StaggeredStart(VIDEO_FRAME_INTERVAL, sourceIndex, sourceCount)
      ensures State() == FreshState(source, timeline.firstEmittedAt)
    {
      this.source, nextRtpTimestamp := source, 0;
      timeline := new MediaTimeline.Staggered(VIDEO_FRAME_INTERVAL, sourceIndex, sourceCount);
      low := new VideoLayerState(0);
      high := new VideoLayerState(30_000);
      measuredLowOrdinal, measuredHighOrdinal, warmupLowOrdinal, warmupHighOrdinal := 0, 0, 0, 0;
    }

    method NextFrame(phase: PacketPhase, frame: u32) returns (packets: seq<VideoPacket>)
      requires Valid()
      modifies Repr()
      ensures packets == FramePackets(old(State()), phase, frame)
      ensures State() == FrameStateAfter(old(State()), phase, frame)
    {
      ghost var before := State();
      var emittedAt := timeline.Advance();
      var timestamp := nextRtpTimestamp;
      nextRtpTimestamp := Wrap32(nextRtpTimestamp + VIDEO_TIMESTAMP_STEP);
      var keyframe := IsKeyframe(frame);
      var lowFragments := if keyframe then VIDEO_LOW_KEYFRAME_PACKETS else VIDEO_LOW_DELTA_PACKETS;
      var highFragments := if keyframe then VIDEO_HIGH_KEYFRAME_PACKETS else VIDEO_HIGH_DELTA_PACKETS;
      packets := [];
      var lowOrdinal := if phase == Warmup then warmupLowOrdinal else measuredLowOrdinal;
      packets, lowOrdinal := AppendVideoLayer(
        packets, Burst(source, emittedAt, timestamp, phase, frame, keyframe, Low), lowFragments, low, lowOrdinal);
      var highOrdinal := if phase == Warmup then warmupHighOrdinal else measuredHighOrdinal;
      packets, highOrdinal := AppendVideoLayer(
        packets, Burst(source, emittedAt, timestamp, phase, frame, keyframe, High), highFragments, high, highOrdinal);
      if phase == Warmup {
        warmupLowOrdinal, warmupHighOrdinal := lowOrdinal, highOrdinal;
      } else {
        measuredLowOrdinal, measuredHighOrdinal := lowOrdinal, highOrdinal;
      }
    }
  }

  function FreshState(source: u16, firstEmittedAt: nat): VideoState {
    VideoState(source, firstEmittedAt, 0, LayerState(0, 1, 1), LayerState(30_000, 1, 1), 0, 0, 0, 0)
  }

  /** Every fragment a layer emits is read back as its own identity, whatever numbering the layer has reached. */
  lemma FragmentInspects(b: Burst, fragments: u16, st: LayerState, ordinal: u32, fragment: u16)
    ensures InspectPayload(Fragment(b, fragments, st, ordinal, fragment).payload)
         == Ok(PayloadInspection(FragmentIdentity(b, fragments, fragment, Wrap32(ordinal + fragment)), true))
  {
    VideoPrefixIsClean(st.pictureId % 0x8000, st.tl0PicIdx, b.layer, b.keyframe, fragment);
    InspectEncoded(FragmentIdentity(b, fragments, fragment, Wrap32(ordinal + fragment)),
                   VideoPrefix(st.pictureId % 0x8000, st.tl0PicIdx, b.layer, b.keyframe, fragment));
  }
}
