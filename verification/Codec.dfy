/** The load identity carried inside every RTP payload: how it is written, and how a receiver reads it back. */
module Codec {
  import opened Machine

  const AUDIO_PACKET_PAYLOAD_BYTES := 80
  const VIDEO_LOW_PACKET_PAYLOAD_BYTES := 600
  const VIDEO_HIGH_PACKET_PAYLOAD_BYTES := 1_100
  const IDENTITY_MAGIC: seq<u8> := [0x4F, 0x53, 0x46, 0x55]
  const IDENTITY_VERSION: u8 := 1
  const IDENTITY_HEADER_LEN := 22
  const VP8_DESCRIPTOR_LEN := 6
  const VP8_KEYFRAME_PREFIX_LEN := 10
  const MAX_IDENTITY_OFFSET := VP8_DESCRIPTOR_LEN + VP8_KEYFRAME_PREFIX_LEN
  const VP8_LOW_KEYFRAME_PREFIX: seq<u8> := [0x30, 0x00, 0x00, 0x9d, 0x01, 0x2a, 0x40, 0x01, 0xb4, 0x00]
  const VP8_HIGH_KEYFRAME_PREFIX: seq<u8> := [0x30, 0x00, 0x00, 0x9d, 0x01, 0x2a, 0x00, 0x05, 0xd0, 0x02]
  // The low bit of the first VP8 octet marks an interframe: section 9.1 of RFC 6386.
  const VP8_INTERFRAME_PREFIX: seq<u8> := [0x01]
  // Configuration 15 (hybrid fullband, 20 ms), mono, one frame: section 3.1 of RFC 6716.
  const ONE_FRAME_TOC: u8 := 0x78

  datatype PacketPhase = Warmup | Measured

  datatype PayloadKind = Audio | Video

  datatype VideoLayer = Low | High

  datatype PacketIdentity = PacketIdentity(
    kind: PayloadKind, phase: PacketPhase, layer: Option<VideoLayer>,
    source: u16, ordinal: u32, frame: u32, fragment: u16, fragments: u16)

  datatype PayloadInspection = PayloadInspection(identity: PacketIdentity, payloadMatches: bool)

  function PhaseCode(phase: PacketPhase): u8 {
    match phase case Warmup => 0 case Measured => 1
  }

  function PhaseFromCode(code: u8): Result<PacketPhase> {
    if code == 0 then Ok(Warmup) else if code == 1 then Ok(Measured) else Err
  }

  function KindCode(kind: PayloadKind): u8 {
    match kind case Audio => 1 case Video => 2
  }

  function KindFromCode(code: u8): Result<PayloadKind> {
    if code == 1 then Ok(Audio) else if code == 2 then Ok(Video) else Err
  }

  function LayerCode(layer: Option<VideoLayer>): u8 {
    match layer case None => 0 case Some(Low) => 1 case Some(High) => 2
  }

  function LayerFromCode(code: u8): Result<Option<VideoLayer>> {
    if code == 0 then Ok(None) else if code == 1 then Ok(Some(Low)) else if code == 2 then Ok(Some(High)) else Err
  }

  function PacketPayloadLen(layer: VideoLayer): nat {
    match layer case Low => VIDEO_LOW_PACKET_PAYLOAD_BYTES case High => VIDEO_HIGH_PACKET_PAYLOAD_BYTES
  }

  /** The payload length that the kind and the layer fix, when they agree. */
  function ExpectedLen(kind: PayloadKind, layer: Option<VideoLayer>): Option<nat> {
    match (kind, layer)
    case (Audio, None) => Some(AUDIO_PACKET_PAYLOAD_BYTES)
    case (Video, Some(l)) => Some(PacketPayloadLen(l))
    case _ => None
  }

  function Be16(x: u16): seq<u8> {
    [x / 0x100, x % 0x100]
  }

  function Be32(x: u32): seq<u8> {
    [x / 0x100_0000, x / 0x1_0000 % 0x100, x / 0x100 % 0x100, x % 0x100]
  }

  function FromBe16(s: seq<u8>): u16
    requires |s| == 2
  {
    s[0] as int * 0x100 + s[1]
  }

  function FromBe32(s: seq<u8>): u32
    requires |s| == 4
  {
    s[0] as int * 0x100_0000 + s[1] as int * 0x1_0000 + s[2] as int * 0x100 + s[3]
  }

  lemma Be32RoundTrip(x: u32)
    ensures FromBe32(Be32(x)) == x
  {
    var a, b, c := x / 0x100, x / 0x1_0000, x / 0x100_0000;
    assert a / 0x100 == b && b / 0x100 == c;
  }

  lemma Be32Inverse(s: seq<u8>)
    requires |s| == 4
    ensures Be32(FromBe32(s)) == s
  {
    var x := FromBe32(s);
    assert x / 0x100 == s[0] as int * 0x1_0000 + s[1] as int * 0x100 + s[2];
    assert x / 0x1_0000 == s[0] as int * 0x100 + s[1];
  }

  /** The 22 identity octets, in the order they are appended after the codec prefix. */
  function Header(identity: PacketIdentity): (h: seq<u8>)
    ensures |h| == IDENTITY_HEADER_LEN
  {
    IDENTITY_MAGIC
    + [IDENTITY_VERSION, KindCode(identity.kind), PhaseCode(identity.phase), LayerCode(identity.layer)]
    + Be16(identity.source) + Be32(identity.ordinal) + Be32(identity.frame)
    + Be16(identity.fragment) + Be16(identity.fragments)
  }

  /** The deterministic body octet at `offset`; the chain of wrapping additions is one sum modulo 256. */
  function PayloadByte(identity: PacketIdentity, offset: nat): u8 {
    (0x41 + (if offset > 0xFF then 0xFF else offset)
     + identity.source % 0x100
     + identity.ordinal % 0x100 + identity.ordinal / 0x1_0000 % 0x100
     + identity.frame / 0x100 % 0x100
     + identity.fragment % 0x100) % 0x100
  }

  /** What `encoded_payload` returns: prefix, identity and body, cut or filled to the requested length. */
  function Encoded(identity: PacketIdentity, payloadLen: nat, prefix: seq<u8>): (p: seq<u8>)
    ensures |p| == payloadLen
  {
    var head := prefix + Header(identity);
    if payloadLen <= |head| then head[..payloadLen]
    else head + seq<u8>(payloadLen - |head|, i requires 0 <= i => PayloadByte(identity, |head| + i))
  }

  method EncodePayload(identity: PacketIdentity, payloadLen: nat, prefix: seq<u8>) returns (payload: seq<u8>)
    ensures payload == Encoded(identity, payloadLen, prefix)
  {
    payload := prefix;
    payload := payload + IDENTITY_MAGIC;
    payload := payload + [IDENTITY_VERSION];
    payload := payload + [KindCode(identity.kind)];
    payload := payload + [PhaseCode(identity.phase)];
    payload := payload + [LayerCode(identity.layer)];
    payload := payload + Be16(identity.source);
    payload := payload + Be32(identity.ordinal);
    payload := payload + Be32(identity.frame);
    payload := payload + Be16(identity.fragment);
    payload := payload + Be16(identity.fragments);
    ghost var head := prefix + Header(identity);
    assert payload == head;
    while |payload| < payloadLen
      invariant |head| <= |payload| && (payloadLen <= |head| ==> payload == head)
      invariant |payload| <= payloadLen || payload == head
      invariant payload[..|head|] == head
      invariant forall i | |head| <= i < |payload| :: payload[i] == PayloadByte(identity, i)
    {
      payload := payload + [PayloadByte(identity, |payload|)];
    }
    payload := if payloadLen < |payload| then payload[..payloadLen] else payload;
  }

  predicate MagicAt(payload: seq<u8>, i: nat) {
    i + 4 <= |payload| && payload[i..i + 4] == IDENTITY_MAGIC
  }

  /** Position of the first identity magic among the first `limit` windows from `from` on. */
  function FindMagic(payload: seq<u8>, from: nat, limit: nat): (r: Option<nat>)
    requires from <= limit
    ensures r.Some? ==> from <= r.value < limit && MagicAt(payload, r.value)
    ensures forall i | from <= i < (if r.Some? then r.value else limit) :: !MagicAt(payload, i)
    decreases limit - from
  {
    if from == limit then None
    else if MagicAt(payload, from) then Some(from)
    else FindMagic(payload, from + 1, limit)
  }

  /** Reads the identity out of a complete 22-octet header. */
  function ParseHeader(h: seq<u8>): Result<PacketIdentity>
    requires |h| == IDENTITY_HEADER_LEN
  {
    if h[4] != IDENTITY_VERSION then Err
    else
      var kind, phase, layer := KindFromCode(h[5]), PhaseFromCode(h[6]), LayerFromCode(h[7]);
      if kind.Err? || phase.Err? || layer.Err? then Err
      else Ok(PacketIdentity(kind.value, phase.value, layer.value, FromBe16(h[8..10]), FromBe32(h[10..14]),
                             FromBe32(h[14..18]), FromBe16(h[18..20]), FromBe16(h[20..22])))
  }

  predicate BodyMatches(payload: seq<u8>, identity: PacketIdentity, from: nat) {
    forall i | from <= i < |payload| :: payload[i] == PayloadByte(identity, i)
  }

  function InspectPayload(payload: seq<u8>): Result<PayloadInspection> {
    var offset := FindMagic(payload, 0, MAX_IDENTITY_OFFSET + 1);
    if offset.None? || |payload| < offset.value + IDENTITY_HEADER_LEN then Err
    else
      var body := offset.value + IDENTITY_HEADER_LEN;
      var identity := ParseHeader(payload[offset.value..body]);
      if identity.Err? then Err
      else
        var expectedLen := ExpectedLen(identity.value.kind, identity.value.layer);
        if expectedLen.None? then Err
        else Ok(PayloadInspection(identity.value,
                                  |payload| == expectedLen.value && BodyMatches(payload, identity.value, body)))
  }

  predicate Consistent(identity: PacketIdentity) {
    ExpectedLen(identity.kind, identity.layer).Some?
  }

  /** No window before the end of the prefix reads as the magic, so the first hit is the identity itself. */
  predicate CleanPrefix(prefix: seq<u8>) {
    |prefix| <= MAX_IDENTITY_OFFSET && forall i | 0 <= i < |prefix| :: !MagicAt(prefix + IDENTITY_MAGIC, i)
  }

  lemma ParseInvertsHeader(identity: PacketIdentity)
    ensures ParseHeader(Header(identity)) == Ok(identity)
  {
    var h := Header(identity);
    assert h[8..10] == Be16(identity.source) && h[18..20] == Be16(identity.fragment)
           && h[20..22] == Be16(identity.fragments);
    assert h[10..14] == Be32(identity.ordinal) && h[14..18] == Be32(identity.frame);
    Be32RoundTrip(identity.ordinal);
    Be32RoundTrip(identity.frame);
  }

  lemma HeaderInvertsParse(h: seq<u8>)
    requires |h| == IDENTITY_HEADER_LEN && h[..4] == IDENTITY_MAGIC && ParseHeader(h).Ok?
    ensures Header(ParseHeader(h).value) == h
  {
    var id := ParseHeader(h).value;
    Be32Inverse(h[10..14]);
    Be32Inverse(h[14..18]);
    assert h == h[..4] + [h[4], h[5], h[6], h[7]] + h[8..10] + h[10..14] + h[14..18] + h[18..20] + h[20..22];
  }

  /** A window that starts inside the prefix ends before or inside the magic, so the rest does not matter. */
  lemma WindowInPrefix(payload: seq<u8>, prefix: seq<u8>, i: nat)
    requires i < |prefix| && prefix + IDENTITY_MAGIC <= payload
    ensures MagicAt(payload, i) <==> MagicAt(prefix + IDENTITY_MAGIC, i)
  {
    var s := prefix + IDENTITY_MAGIC;
    assert s == payload[..|s|];
    assert payload[i..i + 4] == s[i..i + 4];
  }

  /** Behind a clean prefix, the first magic found is the one at its end. */
  lemma MagicBehindPrefix(payload: seq<u8>, prefix: seq<u8>)
    requires CleanPrefix(prefix) && prefix + IDENTITY_MAGIC <= payload
    ensures FindMagic(payload, 0, MAX_IDENTITY_OFFSET + 1) == Some(|prefix|)
  {
    forall i | 0 <= i < |prefix| ensures !MagicAt(payload, i) {
      WindowInPrefix(payload, prefix, i);
    }
    assert payload[..|prefix| + 4] == prefix + IDENTITY_MAGIC;
    assert payload[|prefix|..|prefix| + 4] == IDENTITY_MAGIC;
    assert MagicAt(payload, |prefix|);
  }

  /** Whatever is written with a clean prefix, `inspect_payload` finds and reads back; only the body is left open. */
  lemma InspectsAfterPrefix(payload: seq<u8>, identity: PacketIdentity, prefix: seq<u8>)
    requires CleanPrefix(prefix) && Consistent(identity) && prefix + Header(identity) <= payload
    ensures InspectPayload(payload)
         == Ok(PayloadInspection(identity,
                                 |payload| == ExpectedLen(identity.kind, identity.layer).value
                                 && BodyMatches(payload, identity, |prefix| + IDENTITY_HEADER_LEN)))
  {
    HeaderBegins(payload, identity, prefix);
    MagicBehindPrefix(payload, prefix);
    ParseInvertsHeader(identity);
    hide FindMagic, ParseHeader, Header, BodyMatches, ExpectedLen;
  }

  lemma HeaderBegins(payload: seq<u8>, identity: PacketIdentity, prefix: seq<u8>)
    requires prefix + Header(identity) <= payload
    ensures |prefix| + IDENTITY_HEADER_LEN <= |payload| && prefix + IDENTITY_MAGIC <= payload
    ensures payload[|prefix|..|prefix| + IDENTITY_HEADER_LEN] == Header(identity)
  {
    var head := prefix + Header(identity);
    assert head == payload[..|head|];
    assert prefix + IDENTITY_MAGIC == head[..|prefix| + 4];
    assert payload[..|prefix| + 4] == prefix + IDENTITY_MAGIC;
  }

  /** Round trip: an encoded identity is inspected as itself, with a matching payload. */
  lemma InspectEncoded(identity: PacketIdentity, prefix: seq<u8>)
    requires CleanPrefix(prefix) && Consistent(identity)
    ensures InspectPayload(Encoded(identity, ExpectedLen(identity.kind, identity.layer).value, prefix))
         == Ok(PayloadInspection(identity, true))
  {
    InspectsAfterPrefix(Encoded(identity, ExpectedLen(identity.kind, identity.layer).value, prefix), identity, prefix);
  }

  /** The verdict `payload_matches` has no false positives: it accepts exactly the encodings under some clean prefix. */
  lemma MatchesExactlyEncodings(payload: seq<u8>, identity: PacketIdentity)
    ensures InspectPayload(payload) == Ok(PayloadInspection(identity, true))
       <==> Consistent(identity)
            && exists prefix :: CleanPrefix(prefix)
                && payload == Encoded(identity, ExpectedLen(identity.kind, identity.layer).value, prefix)
  {
    if InspectPayload(payload) == Ok(PayloadInspection(identity, true)) {
      var at := FindMagic(payload, 0, MAX_IDENTITY_OFFSET + 1).value;
      var prefix, body := payload[..at], at + IDENTITY_HEADER_LEN;
      assert payload[at..body][..4] == payload[at..at + 4];
      HeaderInvertsParse(payload[at..body]);
      assert prefix + IDENTITY_MAGIC == payload[..at + 4];
      forall i | 0 <= i < |prefix| ensures !MagicAt(prefix + IDENTITY_MAGIC, i) {
        WindowInPrefix(payload, prefix, i);
      }
      assert payload[..body] == prefix + Header(identity);
      assert payload == Encoded(identity, ExpectedLen(identity.kind, identity.layer).value, prefix);
    } else if Consistent(identity) {
      forall prefix | CleanPrefix(prefix)
        ensures payload != Encoded(identity, ExpectedLen(identity.kind, identity.layer).value, prefix)
      {
        InspectEncoded(identity, prefix);
      }
    }
  }

  /** Any other length that leaves the header complete, and any other body octet, is seen as corruption. */
  lemma CorruptionIsDetected(identity: PacketIdentity, prefix: seq<u8>, damaged: seq<u8>)
    requires CleanPrefix(prefix) && Consistent(identity) && prefix + Header(identity) <= damaged
    requires damaged != Encoded(identity, ExpectedLen(identity.kind, identity.layer).value, prefix)
    ensures InspectPayload(damaged) == Ok(PayloadInspection(identity, false))
  {
    hide InspectPayload, Encoded, Header, BodyMatches, ExpectedLen;
    InspectsAfterPrefix(damaged, identity, prefix);
    IntactIsEncoded(damaged, identity, prefix);
  }

  lemma IntactIsEncoded(payload: seq<u8>, identity: PacketIdentity, prefix: seq<u8>)
    requires Consistent(identity) && prefix + Header(identity) <= payload
    ensures var len := ExpectedLen(identity.kind, identity.layer).value;
      |payload| == len && BodyMatches(payload, identity, |prefix| + IDENTITY_HEADER_LEN) ==>
        payload == Encoded(identity, len, prefix)
  {
    var head := prefix + Header(identity);
    assert payload[..|head|] == head;
  }

  // ---- what the body binds ----

  /**
   * The body rule read off the wire: each octet behind the header at `at` is its own capped position plus five octets
   * of that header (the low one of the source, two of the ordinal, one of the frame, the low one of the fragment).
   */
  predicate FollowsHeader(payload: seq<u8>, at: nat)
    requires at + IDENTITY_HEADER_LEN <= |payload|
  {
    var bound: nat :=
      payload[at + 9] as int + payload[at + 11] + payload[at + 13] + payload[at + 16] + payload[at + 19];
    forall i | at + IDENTITY_HEADER_LEN <= i < |payload| ::
      payload[i] == (65 + (if i < 255 then i else 255) + bound) % 256
  }

  /** The octets of an identity that every body octet depends on, as they stand in the header. */
  function BoundOctets(identity: PacketIdentity): (octets: seq<u8>)
    ensures |octets| == 5
  {
    [Be16(identity.source)[1], Be32(identity.ordinal)[1], Be32(identity.ordinal)[3], Be32(identity.frame)[2],
     Be16(identity.fragment)[1]]
  }

  function Blend(identity: PacketIdentity): nat {
    var o := BoundOctets(identity);
    o[0] as int + o[1] + o[2] + o[3] + o[4]
  }

  lemma ByteOfOctets(identity: PacketIdentity, offset: nat)
    ensures PayloadByte(identity, offset) == (65 + (if offset < 255 then offset else 255) + Blend(identity)) % 256
  {}

  lemma BoundByHeader(h: seq<u8>, identity: PacketIdentity)
    requires |h| == IDENTITY_HEADER_LEN && ParseHeader(h) == Ok(identity)
    ensures BoundOctets(identity) == [h[9], h[11], h[13], h[16], h[19]]
  {
    Be32Inverse(h[10..14]);
    Be32Inverse(h[14..18]);
  }

  /** A complete payload matches if and only if its body follows from its own header octets. */
  lemma MatchesByOctets(payload: seq<u8>)
    requires InspectPayload(payload).Ok?
    ensures var seen, at := InspectPayload(payload).value, FindMagic(payload, 0, MAX_IDENTITY_OFFSET + 1).value;
      seen.payloadMatches <==>
        ExpectedLen(seen.identity.kind, seen.identity.layer) == Some(|payload|) && FollowsHeader(payload, at)
  {
    hide ParseHeader, BoundOctets, PayloadByte, FollowsHeader, BodyMatches;
    var at := FindMagic(payload, 0, MAX_IDENTITY_OFFSET + 1).value;
    var h := payload[at..at + IDENTITY_HEADER_LEN];
    BoundByHeader(h, ParseHeader(h).value);
    BodyFollowsHeader(payload, at, ParseHeader(h).value);
  }

  lemma BodyFollowsHeader(payload: seq<u8>, at: nat, identity: PacketIdentity)
    requires at + IDENTITY_HEADER_LEN <= |payload|
    requires BoundOctets(identity)
          == [payload[at + 9], payload[at + 11], payload[at + 13], payload[at + 16], payload[at + 19]]
    ensures BodyMatches(payload, identity, at + IDENTITY_HEADER_LEN) <==> FollowsHeader(payload, at)
  {
    hide BoundOctets, PayloadByte;
    forall i | at + IDENTITY_HEADER_LEN <= i < |payload|
      ensures PayloadByte(identity, i) == (65 + (if i < 255 then i else 255) + Blend(identity)) % 256
    {
      ByteOfOctets(identity, i);
    }
  }

  /** One identity's header in front of another one's body. */
  function Swapped(header: PacketIdentity, body: PacketIdentity, prefix: seq<u8>): seq<u8>
    requires Consistent(body) && |prefix| <= MAX_IDENTITY_OFFSET
  {
    var len := ExpectedLen(body.kind, body.layer).value;
    prefix + Header(header) + Encoded(body, len, prefix)[|prefix| + IDENTITY_HEADER_LEN..]
  }

  /** Another packet's body passes for one's own if and only if the bound octets add up to the same modulo 256. */
  lemma SwappedBody(header: PacketIdentity, body: PacketIdentity, prefix: seq<u8>)
    requires CleanPrefix(prefix) && Consistent(body) && header.kind == body.kind && header.layer == body.layer
    ensures InspectPayload(Swapped(header, body, prefix))
         == Ok(PayloadInspection(header, Blend(header) % 256 == Blend(body) % 256))
  {
    hide InspectPayload, Header, PayloadByte, BoundOctets, Encoded, Blend;
    var payload, from := Swapped(header, body, prefix), |prefix| + IDENTITY_HEADER_LEN;
    assert payload[..from] == prefix + Header(header);
    InspectsAfterPrefix(payload, header, prefix);
    forall i | from <= i < |payload|
      ensures payload[i] == PayloadByte(body, i)
      ensures payload[i] == PayloadByte(header, i) <==> Blend(header) % 256 == Blend(body) % 256
    {
      EncodedBody(body, |payload|, prefix, i);
      ByteOfOctets(header, i);
      ByteOfOctets(body, i);
      SameModulo(65 + (if i < 255 then i else 255), Blend(header), Blend(body));
    }
    assert payload[from] == PayloadByte(body, from);
  }

  lemma EncodedBody(identity: PacketIdentity, len: nat, prefix: seq<u8>, i: nat)
    requires |prefix| + IDENTITY_HEADER_LEN <= i < len
    ensures Encoded(identity, len, prefix)[i] == PayloadByte(identity, i)
  {
    hide Header, PayloadByte;
  }

  lemma SameModulo(a: nat, x: nat, y: nat)
    ensures (a + x) % 256 == (a + y) % 256 <==> x % 256 == y % 256
  {}

  /** So a body that differs in exactly one of them is always seen. */
  lemma OneBoundOctetIsSeen(header: PacketIdentity, body: PacketIdentity, prefix: seq<u8>, k: nat)
    requires CleanPrefix(prefix) && Consistent(body) && header.kind == body.kind && header.layer == body.layer
    requires k < 5 && BoundOctets(header)[k] != BoundOctets(body)[k]
    requires BoundOctets(header) == BoundOctets(body)[k := BoundOctets(header)[k]]
    ensures InspectPayload(Swapped(header, body, prefix)) == Ok(PayloadInspection(header, false))
  {
    hide InspectPayload, BoundOctets, Swapped;
    SwappedBody(header, body, prefix);
    var a, b := BoundOctets(header), BoundOctets(body);
    assert Blend(header) - Blend(body) == a[k] as int - b[k];
    NearModulo(Blend(header), Blend(body));
  }

  lemma NearModulo(x: nat, y: nat)
    requires -256 < x - y < 256 && x != y
    ensures x % 256 != y % 256
  {}

  /** Below offset 255 no octet stands where its neighbour belongs: a body that has slipped by one octet is seen. */
  lemma SlippedBodyIsSeen(identity: PacketIdentity, prefix: seq<u8>, slipped: seq<u8>, i: nat)
    requires CleanPrefix(prefix) && Consistent(identity) && prefix + Header(identity) <= slipped
    requires var sent := Encoded(identity, ExpectedLen(identity.kind, identity.layer).value, prefix);
      && |prefix| + IDENTITY_HEADER_LEN <= i < 255 && i + 1 < |sent| && i < |slipped|
      && slipped[i] == sent[i + 1]
    ensures InspectPayload(slipped) == Ok(PayloadInspection(identity, false))
  {
    hide InspectPayload, Header, ExpectedLen, Encoded, PayloadByte, Blend;
    var sent := Encoded(identity, ExpectedLen(identity.kind, identity.layer).value, prefix);
    EncodedBody(identity, |sent|, prefix, i);
    EncodedBody(identity, |sent|, prefix, i + 1);
    ByteOfOctets(identity, i);
    ByteOfOctets(identity, i + 1);
    CorruptionIsDetected(identity, prefix, slipped);
  }

  /**
   * The VP8 payload descriptor with a 15-bit PictureID: section 4.2 of RFC 7741. Setting the long-PictureID bit
   * leaves the low seven bits of the high octet.
   */
  function Vp8Descriptor(pictureId: u16, tl0PicIdx: u8, start: bool): (d: seq<u8>)
    ensures |d| == VP8_DESCRIPTOR_LEN
  {
    [if start then 0x90 else 0x80, 0xE0, 0x80 + pictureId / 0x100 % 0x80, pictureId % 0x100, tl0PicIdx, 0]
  }

  function KeyframePrefix(layer: VideoLayer): seq<u8> {
    match layer case Low => VP8_LOW_KEYFRAME_PREFIX case High => VP8_HIGH_KEYFRAME_PREFIX
  }

  /** The codec octets in front of the identity of one video fragment. */
  function VideoPrefix(pictureId: u16, tl0PicIdx: u8, layer: VideoLayer, keyframe: bool, fragment: u16): seq<u8> {
    Vp8Descriptor(pictureId, tl0PicIdx, fragment == 0)
    + (if fragment != 0 then [] else if keyframe then KeyframePrefix(layer) else VP8_INTERFRAME_PREFIX)
  }

  /** For every PictureID and TL0PICIDX no octet sequence in front of the identity can be mistaken for the magic. */
  lemma VideoPrefixIsClean(pictureId: u16, tl0PicIdx: u8, layer: VideoLayer, keyframe: bool, fragment: u16)
    ensures CleanPrefix(VideoPrefix(pictureId, tl0PicIdx, layer, keyframe, fragment))
  {
    var prefix := VideoPrefix(pictureId, tl0PicIdx, layer, keyframe, fragment);
    var s := prefix + IDENTITY_MAGIC;
    forall i | 0 <= i < |prefix| ensures !MagicAt(s, i) {
      if i + 4 <= |s| {
        var w := s[i..i + 4];
        assert w[0] == s[i] && w[2] == s[i + 2];
        if i == 3 {
          assert s[5] == 0;
        } else if i == 4 {
          assert w[1] == s[5] == 0;
        }
      }
    }
  }

  lemma AudioPrefixIsClean()
    ensures CleanPrefix([ONE_FRAME_TOC])
  {
    assert ([ONE_FRAME_TOC] + IDENTITY_MAGIC)[0..4][0] == ONE_FRAME_TOC;
  }
}
