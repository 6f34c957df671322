/** What a video source emits over a whole run of frames, layer by layer. */
module Emission {
  import opened Machine
  import opened Codec
  import opened Sources

  /** State after the frames 0..n-1 of one phase. */
  function StateAfter(s: VideoState, phase: PacketPhase, n: nat): VideoState
    requires n <= U32_SIZE
  {
    if n == 0 then s else FrameStateAfter(StateAfter(s, phase, n - 1), phase, n - 1)
  }

  /** Packets of the frames 0..n-1 of one phase, in the order they are sent. */
  function Emitted(s: VideoState, phase: PacketPhase, n: nat): seq<VideoPacket>
    requires n <= U32_SIZE
  {
    if n == 0 then [] else Emitted(s, phase, n - 1) + FramePackets(StateAfter(s, phase, n - 1), phase, n - 1)
  }

  function OfLayer(packets: seq<VideoPacket>, layer: VideoLayer): seq<VideoPacket> {
    if packets == [] then []
    else
      var rest, last := OfLayer(packets[..|packets| - 1], layer), packets[|packets| - 1];
      if last.layer == layer then rest + [last] else rest
  }

  lemma {:induction false} OfLayerAppend(a: seq<VideoPacket>, b: seq<VideoPacket>, layer: VideoLayer)
    ensures OfLayer(a + b, layer) == OfLayer(a, layer) + OfLayer(b, layer)
  {
    if b == [] {
      assert a + b == a;
    } else {
      assert (a + b)[..|a + b| - 1] == a + b[..|b| - 1];
      OfLayerAppend(a, b[..|b| - 1], layer);
    }
  }

  lemma {:induction false} OfLayerUniform(packets: seq<VideoPacket>, own: VideoLayer, layer: VideoLayer)
    requires forall p | p in packets :: p.layer == own
    ensures OfLayer(packets, layer) == if own == layer then packets else []
  {
    if packets != [] {
      OfLayerUniform(packets[..|packets| - 1], own, layer);
      assert packets == packets[..|packets| - 1] + [packets[|packets| - 1]];
    }
  }

  lemma OfLayerFrame(s: VideoState, phase: PacketPhase, frame: u32, layer: VideoLayer)
    ensures OfLayer(FramePackets(s, phase, frame), layer) == LayerPackets(s, phase, frame, layer)
  {
    hide OfLayer, Encoded, VideoPrefix, IsKeyframe;
    OfLayerAppend(LayerPackets(s, phase, frame, Low), LayerPackets(s, phase, frame, High), layer);
    OfLayerUniform(LayerPackets(s, phase, frame, Low), Low, layer);
    OfLayerUniform(LayerPackets(s, phase, frame, High), High, layer);
  }

  /** Packets one layer takes for the frames 0..n-1, counted frame by frame. */
  function PacketsBefore(layer: VideoLayer, n: nat): nat {
    if n == 0 then 0 else PacketsBefore(layer, n - 1) + FragmentCount(layer, IsKeyframe(n - 1))
  }

  /** Key frames among the first frames, as `div_ceil` counts them. */
  function Keyframes(frames: nat): (k: nat)
    ensures k <= frames
  {
    (frames + VIDEO_KEYFRAME_INTERVAL - 1) / VIDEO_KEYFRAME_INTERVAL
  }

  /** The closed form of `video_packets_per_layer`. */
  function LayerPacketCount(layer: VideoLayer, frames: nat): nat {
    (frames - Keyframes(frames)) * FragmentCount(layer, false) + Keyframes(frames) * FragmentCount(layer, true)
  }

  lemma KeyframesGrow(n: nat)
    ensures Keyframes(n + 1) == Keyframes(n) + if IsKeyframe(n) then 1 else 0
  {}

  lemma {:induction false} ClosedFormCountsFrames(layer: VideoLayer, n: nat)
    ensures PacketsBefore(layer, n) == LayerPacketCount(layer, n)
  {
    hide Keyframes, IsKeyframe;
    if n > 0 {
      ClosedFormCountsFrames(layer, n - 1);
      KeyframesGrow(n - 1);
      match layer case Low => case High =>
    }
  }

  /** What one frame does to the numbering of one layer. */
  lemma FrameStep(s: VideoState, phase: PacketPhase, frame: u32, layer: VideoLayer)
    ensures var s', k := FrameStateAfter(s, phase, frame), FragmentCount(layer, IsKeyframe(frame));
      && s'.source == s.source
      && s'.nextRtpTimestamp == Wrap32(s.nextRtpTimestamp + VIDEO_TIMESTAMP_STEP)
      && s'.nextEmittedAt == SaturatingDuration(s.nextEmittedAt + VIDEO_FRAME_INTERVAL)
      && s'.Layer(layer) == LayerStateAfter(s.Layer(layer), k)
      && s'.Ordinal(layer, phase) == Wrap32(s.Ordinal(layer, phase) + k)
      && (forall other | other != phase :: s'.Ordinal(layer, other) == s.Ordinal(layer, other))
  {}

  /** Where a video timeline stands n frames on. */
  function EmittedAfter(nextEmittedAt: nat, n: nat): nat {
    if n == 0 then nextEmittedAt else SaturatingDuration(nextEmittedAt + n * VIDEO_FRAME_INTERVAL)
  }

  /** State t is what s becomes after n frames and k packets of the layer: its counters advanced, nothing else moved. */
  predicate Advanced(s: VideoState, t: VideoState, phase: PacketPhase, layer: VideoLayer, n: nat, k: nat) {
    && t.source == s.source
    && t.nextRtpTimestamp == Wrap32(s.nextRtpTimestamp + n * VIDEO_TIMESTAMP_STEP)
    && t.Layer(layer).sequenceNumber == Wrap16(s.Layer(layer).sequenceNumber + k)
    && t.Layer(layer).pictureId == Wrap16(s.Layer(layer).pictureId + n)
    && t.Layer(layer).tl0PicIdx == (s.Layer(layer).tl0PicIdx + n) % U8_SIZE
    && t.nextEmittedAt == EmittedAfter(s.nextEmittedAt, n)
    && t.Ordinal(layer, phase) == Wrap32(s.Ordinal(layer, phase) + k)
    && forall other | other != phase :: t.Ordinal(layer, other) == s.Ordinal(layer, other)
  }

  lemma LayerStateIs(st: LayerState, fragments: u16)
    ensures LayerStateAfter(st, fragments).sequenceNumber == Wrap16(st.sequenceNumber + fragments)
    ensures LayerStateAfter(st, fragments).pictureId == Wrap16(st.pictureId + 1)
    ensures LayerStateAfter(st, fragments).tl0PicIdx == (st.tl0PicIdx + 1) % U8_SIZE
  {}

  lemma AdvancedByFrame(s: VideoState, t: VideoState, phase: PacketPhase, layer: VideoLayer, n: u32, k: nat)
    requires Advanced(s, t, phase, layer, n, k)
    ensures Advanced(s, FrameStateAfter(t, phase, n), phase, layer, n + 1, k + FragmentCount(layer, IsKeyframe(n)))
  {
    hide Wrap16, Wrap32, IsKeyframe, FragmentCount, FrameStateAfter, LayerStateAfter, EmittedAfter;
    EmittedNext(s.nextEmittedAt, n);
    OctetNext(s.Layer(layer).tl0PicIdx + n);
    var t', step := FrameStateAfter(t, phase, n), FragmentCount(layer, IsKeyframe(n));
    LayerStateIs(t.Layer(layer), step);
    FrameStep(t, phase, n, layer);
    WrapAdd(s.nextRtpTimestamp + n * VIDEO_TIMESTAMP_STEP, VIDEO_TIMESTAMP_STEP);
    WrapAdd(s.Layer(layer).sequenceNumber + k, step);
    WrapAdd(s.Layer(layer).pictureId + n, 1);
    WrapAdd(s.Ordinal(layer, phase) + k, step);
  }

  lemma EmittedNext(nextEmittedAt: nat, n: nat)
    ensures SaturatingDuration(EmittedAfter(nextEmittedAt, n) + VIDEO_FRAME_INTERVAL)
         == EmittedAfter(nextEmittedAt, n + 1)
  {}

  lemma OctetNext(n: nat)
    ensures (n % U8_SIZE + 1) % U8_SIZE == (n + 1) % U8_SIZE
  {}

  /** The numbering a layer has reached after n frames of one phase; the ordinals of the other phase stay. */
  lemma {:induction false} NumberingAfter(s: VideoState, phase: PacketPhase, n: nat, layer: VideoLayer)
    requires n <= U32_SIZE
    ensures Advanced(s, StateAfter(s, phase, n), phase, layer, n, PacketsBefore(layer, n))
  {
    if n > 0 {
      NumberingAfter(s, phase, n - 1, layer);
      AdvancedByFrame(s, StateAfter(s, phase, n - 1), phase, layer, n - 1, PacketsBefore(layer, n - 1));
    }
  }

  /** One layer of a run is its frames' bursts one after the other. */
  lemma {:induction false} LayerGrows(s: VideoState, phase: PacketPhase, n: nat, layer: VideoLayer)
    requires 0 < n <= U32_SIZE
    ensures OfLayer(Emitted(s, phase, n), layer)
         == OfLayer(Emitted(s, phase, n - 1), layer) + LayerPackets(StateAfter(s, phase, n - 1), phase, n - 1, layer)
  {
    hide FramePackets, LayerPackets, StateAfter, OfLayer;
    OfLayerAppend(Emitted(s, phase, n - 1), FramePackets(StateAfter(s, phase, n - 1), phase, n - 1), layer);
    OfLayerFrame(StateAfter(s, phase, n - 1), phase, n - 1, layer);
  }

  /** The PictureID a receiver reads from the descriptor: section 4.2 of RFC 7741. */
  function PictureIdOf(payload: seq<u8>): int
    requires |payload| >= VP8_DESCRIPTOR_LEN
  {
    (payload[2] as int - 0x80) * 0x100 + payload[3]
  }

  /**
   * What a receiver reads in front of the identity. The descriptor (section 4.2 of RFC 7741) announces its extension
   * octets and whether a frame starts, and carries TL0PICIDX and temporal layer zero. Behind it a frame starts with its
   * frame-type bit and, for a key frame, the start code and its size (section 9.1 of RFC 6386).
   */
  predicate PrefixSays(payload: seq<u8>, layer: VideoLayer, keyframe: bool, start: bool, tl0PicIdx: u8) {
    && |payload| >= MAX_IDENTITY_OFFSET
    && payload[0] == (if start then 0x90 else 0x80) && payload[1] == 0xE0 && payload[2] >= 0x80
    && payload[4] == tl0PicIdx && payload[5] == 0
    && (start ==> payload[6] % 2 == if keyframe then 0 else 1)
    && (start && keyframe ==>
          && payload[9..12] == [0x9D, 0x01, 0x2A]
          && payload[13] as int * 0x100 + payload[12] == (match layer case Low => 320 case High => 1_280)
          && payload[15] as int * 0x100 + payload[14] == (match layer case Low => 180 case High => 720))
  }

  /** Everything a fragment must say about itself at its place in the run. */
  predicate PlacedFragment(
    p: VideoPacket, s: VideoState, phase: PacketPhase, layer: VideoLayer, frame: u32, fragment: nat)
  {
    var at, fragments := PacketsBefore(layer, frame) + fragment, FragmentCount(layer, IsKeyframe(frame));
    && fragment < fragments
    && p.layer == layer
    && p.marker == (fragment + 1 == fragments)
    && p.frameMark == FrameMark(fragment == 0, fragment + 1 == fragments, IsKeyframe(frame) && fragment == 0)
    && p.sequenceNumber == Wrap16(s.Layer(layer).sequenceNumber + at)
    && p.rtpTimestamp == Wrap32(s.nextRtpTimestamp + frame * VIDEO_TIMESTAMP_STEP)
    && |p.payload| == PacketPayloadLen(layer)
    && p.emittedAt == EmittedAfter(s.nextEmittedAt, frame)
    && PictureIdOf(p.payload) == (s.Layer(layer).pictureId + frame) % 0x8000
    && PrefixSays(p.payload, layer, IsKeyframe(frame), fragment == 0, (s.Layer(layer).tl0PicIdx + frame) % U8_SIZE)
    && InspectPayload(p.payload)
         == Ok(PayloadInspection(
                 PacketIdentity(Video, phase, Some(layer), s.source, Wrap32(s.Ordinal(layer, phase) + at), frame,
                                fragment, fragments), true))
  }

  /** The low 15 bits survive both the 16-bit wrap and the split into two descriptor octets. */
  lemma PictureIdBits(x: nat)
    ensures Wrap16(x) % 0x8000 == x % 0x8000
    ensures var r := x % 0x8000; r / 0x100 % 0x80 * 0x100 + r % 0x100 == r
  {
    var q, r := x / 0x8000, x % 0x8000;
    assert r / 0x100 < 0x80;
    assert Wrap16(x) == if q % 2 == 0 then r else r + 0x8000;
  }

  lemma FragmentPictureId(b: Burst, fragments: u16, st: LayerState, ordinal: u32, fragment: u16)
    ensures PictureIdOf(Fragment(b, fragments, st, ordinal, fragment).payload) == st.pictureId % 0x8000
  {
    var pid := st.pictureId % 0x8000;
    var prefix := VideoPrefix(pid, st.tl0PicIdx, b.layer, b.keyframe, fragment);
    var payload := Fragment(b, fragments, st, ordinal, fragment).payload;
    assert |prefix| + IDENTITY_HEADER_LEN <= |payload|;
    assert payload[2] == prefix[2] && payload[3] == prefix[3];
    PictureIdBits(st.pictureId);
  }

  lemma FragmentPrefix(b: Burst, fragments: u16, st: LayerState, ordinal: u32, fragment: u16)
    ensures PrefixSays(Fragment(b, fragments, st, ordinal, fragment).payload, b.layer, b.keyframe, fragment == 0,
                       st.tl0PicIdx)
  {
    hide Encoded;
    var prefix := VideoPrefix(st.pictureId % 0x8000, st.tl0PicIdx, b.layer, b.keyframe, fragment);
    var payload := Fragment(b, fragments, st, ordinal, fragment).payload;
    PrefixComesFirst(FragmentIdentity(b, fragments, fragment, Wrap32(ordinal + fragment)), PacketPayloadLen(b.layer),
                     prefix);
    assert forall i | 0 <= i < |prefix| :: payload[i] == prefix[i];
    if fragment == 0 && b.keyframe {
      assert payload[9..12] == [payload[9], payload[10], payload[11]];
    }
  }

  lemma PrefixComesFirst(identity: PacketIdentity, len: nat, prefix: seq<u8>)
    requires |prefix| + IDENTITY_HEADER_LEN <= len
    ensures |Encoded(identity, len, prefix)| == len && prefix <= Encoded(identity, len, prefix)
  {
    hide Header, PayloadByte;
  }

  /** Every fragment of the frames 0..n-1 is present in `packets`, at the place the plan gives it. */
  predicate AllPlaced(packets: seq<VideoPacket>, s: VideoState, phase: PacketPhase, layer: VideoLayer, n: nat)
    requires n <= U32_SIZE
  {
    forall frame, fragment |
      0 <= frame < n && 0 <= fragment < FragmentCount(layer, IsKeyframe(frame)) ::
      InPlace(packets, s, phase, layer, frame, fragment)
  }

  predicate InPlace(
    packets: seq<VideoPacket>, s: VideoState, phase: PacketPhase, layer: VideoLayer, frame: u32, fragment: nat)
  {
    && PacketsBefore(layer, frame) + fragment < |packets|
    && PlacedFragment(packets[PacketsBefore(layer, frame) + fragment], s, phase, layer, frame, fragment)
  }

  lemma BurstIsPlaced(s: VideoState, phase: PacketPhase, layer: VideoLayer, frame: u32, fragment: u16)
    requires fragment < FragmentCount(layer, IsKeyframe(frame))
    ensures PlacedFragment(LayerPackets(StateAfter(s, phase, frame), phase, frame, layer)[fragment],
                           s, phase, layer, frame, fragment)
  {
    var t := StateAfter(s, phase, frame);
    NumberingAfter(s, phase, frame, layer);
    FragmentIsPlaced(s, t, phase, layer, frame, fragment);
  }

  lemma FragmentIsPlaced(
    s: VideoState, t: VideoState, phase: PacketPhase, layer: VideoLayer, frame: u32, fragment: u16)
    requires fragment < FragmentCount(layer, IsKeyframe(frame))
    requires Advanced(s, t, phase, layer, frame, PacketsBefore(layer, frame))
    ensures PlacedFragment(Fragment(BurstOf(t, phase, frame, layer), FragmentCount(layer, IsKeyframe(frame)),
                                    t.Layer(layer), t.Ordinal(layer, phase), fragment),
                           s, phase, layer, frame, fragment)
  {
    hide InspectPayload, Encoded, Wrap16, Wrap32, PictureIdOf, VideoPrefix, PacketsBefore, IsKeyframe, PrefixSays,
         EmittedAfter;
    var b, fragments := BurstOf(t, phase, frame, layer), FragmentCount(layer, IsKeyframe(frame));
    var st, ordinal := t.Layer(layer), t.Ordinal(layer, phase);
    FragmentInspects(b, fragments, st, ordinal, fragment);
    FragmentPictureId(b, fragments, st, ordinal, fragment);
    FragmentPrefix(b, fragments, st, ordinal, fragment);
    PictureIdBits(s.Layer(layer).pictureId + frame);
    WrapAdd(s.Layer(layer).sequenceNumber + PacketsBefore(layer, frame), fragment);
    WrapAdd(s.Ordinal(layer, phase) + PacketsBefore(layer, frame), fragment);
  }

  /**
   * Every packet of a run sits where the plan puts it: frame by frame, fragment by fragment, with gapless ordinals
   * and sequence numbers, one marker on the last fragment, and one PictureID per frame that advances by one modulo
   * 2^15 even where the 16-bit counter wraps.
   */
  lemma {:induction false} EmissionMatchesPlan(s: VideoState, phase: PacketPhase, n: nat, layer: VideoLayer)
    requires n <= U32_SIZE
    ensures |OfLayer(Emitted(s, phase, n), layer)| == PacketsBefore(layer, n) == LayerPacketCount(layer, n)
    ensures AllPlaced(OfLayer(Emitted(s, phase, n), layer), s, phase, layer, n)
  {
    hide PlacedFragment, FragmentAt, IsKeyframe, StateAfter, FramePackets, LayerPacketCount;
    ClosedFormCountsFrames(layer, n);
    if n > 0 {
      EmissionMatchesPlan(s, phase, n - 1, layer);
      LayerGrows(s, phase, n, layer);
      var before := OfLayer(Emitted(s, phase, n - 1), layer);
      var burst := LayerPackets(StateAfter(s, phase, n - 1), phase, n - 1, layer);
      forall fragment | 0 <= fragment < FragmentCount(layer, IsKeyframe(n - 1))
        ensures PlacedFragment(burst[fragment], s, phase, layer, n - 1, fragment)
      {
        BurstIsPlaced(s, phase, layer, n - 1, fragment);
      }
      AppendPlaced(before, burst, s, phase, layer, n);
    }
  }

  lemma AppendPlaced(
    before: seq<VideoPacket>, burst: seq<VideoPacket>, s: VideoState, phase: PacketPhase, layer: VideoLayer, n: nat)
    requires 0 < n <= U32_SIZE && AllPlaced(before, s, phase, layer, n - 1)
    requires |before| == PacketsBefore(layer, n - 1) && |burst| == FragmentCount(layer, IsKeyframe(n - 1))
    requires forall fragment | 0 <= fragment < |burst| ::
      PlacedFragment(burst[fragment], s, phase, layer, n - 1, fragment)
    ensures AllPlaced(before + burst, s, phase, layer, n)
  {
    hide PlacedFragment, PacketsBefore, IsKeyframe;
    forall frame, fragment | 0 <= frame < n && 0 <= fragment < FragmentCount(layer, IsKeyframe(frame))
      ensures InPlace(before + burst, s, phase, layer, frame, fragment)
    {
      if frame < n - 1 {
        assert InPlace(before, s, phase, layer, frame, fragment);
      }
    }
  }

  /** The packet names its frame, and carries the deadline of that frame. */
  predicate OnTime(p: VideoPacket, s: VideoState, n: nat) {
    var r := InspectPayload(p.payload);
    r.Ok? && r.value.identity.frame < n && p.emittedAt == EmittedAfter(s.nextEmittedAt, r.value.identity.frame)
  }

  lemma {:induction false} EmittedOnTime(s: VideoState, phase: PacketPhase, n: nat)
    requires n <= U32_SIZE
    ensures forall p | p in Emitted(s, phase, n) :: OnTime(p, s, n)
  {
    hide FramePackets, StateAfter, InspectPayload, EmittedAfter;
    if n > 0 {
      EmittedOnTime(s, phase, n - 1);
      forall p | p in FramePackets(StateAfter(s, phase, n - 1), phase, n - 1) ensures OnTime(p, s, n) {
        FrameOnTime(s, phase, n - 1, p);
      }
    }
  }

  lemma FrameOnTime(s: VideoState, phase: PacketPhase, frame: u32, p: VideoPacket)
    requires p in FramePackets(StateAfter(s, phase, frame), phase, frame)
    ensures OnTime(p, s, frame + 1)
  {
    hide InspectPayload, StateAfter, EmittedAfter, PictureIdOf, PrefixSays, PacketsBefore, IsKeyframe, LayerPackets,
         Wrap16, Wrap32;
    var t := StateAfter(s, phase, frame);
    var layer := if p in LayerPackets(t, phase, frame, Low) then Low else High;
    var fragment: u16 := LayerFragment(t, phase, frame, layer, p);
    BurstIsPlaced(s, phase, layer, frame, fragment);
  }

  lemma LayerFragment(t: VideoState, phase: PacketPhase, frame: u32, layer: VideoLayer, p: VideoPacket)
    returns (fragment: u16)
    requires p in LayerPackets(t, phase, frame, layer)
    ensures fragment < FragmentCount(layer, IsKeyframe(frame)) == |LayerPackets(t, phase, frame, layer)|
    ensures LayerPackets(t, phase, frame, layer)[fragment] == p
  {
    hide Fragment, IsKeyframe;
    fragment :| 0 <= fragment < |LayerPackets(t, phase, frame, layer)|
      && LayerPackets(t, phase, frame, layer)[fragment] == p;
  }

  /** Packet number k of a layer, whatever frame it belongs to, carries ordinal k and the layer's stream identity. */
  lemma {:induction false} OrdinalsAreGapless(s: VideoState, phase: PacketPhase, n: nat, layer: VideoLayer, k: nat)
    requires n <= U32_SIZE && k < PacketsBefore(layer, n) <= U32_SIZE && s.Ordinal(layer, phase) == 0
    ensures |OfLayer(Emitted(s, phase, n), layer)| == PacketsBefore(layer, n)
    ensures var r := InspectPayload(OfLayer(Emitted(s, phase, n), layer)[k].payload);
      && r.Ok? && r.value.payloadMatches
      && r.value.identity.kind == Video && r.value.identity.phase == phase && r.value.identity.layer == Some(layer)
      && r.value.identity.source == s.source && r.value.identity.ordinal == k
  {
    hide InspectPayload, OfLayer, Emitted, StateAfter, LayerPacketCount, PictureIdOf, IsKeyframe, PacketsBefore;
    EmissionMatchesPlan(s, phase, n, layer);
    var frame, fragment := Locate(layer, n, k);
    assert InPlace(OfLayer(Emitted(s, phase, n), layer), s, phase, layer, frame, fragment);
  }

  /** Every packet index falls into exactly one frame. */
  lemma {:induction false} Locate(layer: VideoLayer, n: nat, k: nat) returns (frame: nat, fragment: nat)
    requires k < PacketsBefore(layer, n)
    ensures frame < n && fragment < FragmentCount(layer, IsKeyframe(frame))
    ensures k == PacketsBefore(layer, frame) + fragment
  {
    if k >= PacketsBefore(layer, n - 1) {
      frame, fragment := n - 1, k - PacketsBefore(layer, n - 1);
    } else {
      frame, fragment := Locate(layer, n - 1, k);
    }
  }
}
