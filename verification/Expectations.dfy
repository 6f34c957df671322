/** The streams each receiver expects, and their agreement with the closed-form workload plan. */
module Expectations {
  import opened Machine
  import opened Codec
  import opened Sums
  import opened Ledger
  import opened Workload
  import Delivery

  /** The source a peer watches in the high layer. */
  function FeaturedSource(peer: nat, publishers: u32): Option<u32> {
    if publishers == 0 then None
    else
      var candidate := peer % publishers;
      if candidate != peer then Some(candidate)
      else if publishers > 1 then Some((candidate + 1) % publishers)
      else None
  }

  /** A peer never features itself, stays among the publishers, and lacks a feature only when it has no one to watch. */
  lemma FeaturedIsAnother(peer: nat, publishers: u32)
    ensures FeaturedSource(peer, publishers).Some? ==>
      FeaturedSource(peer, publishers).value < publishers && FeaturedSource(peer, publishers).value != peer
    ensures FeaturedSource(peer, publishers).None? <==> publishers == 0 || (publishers == 1 && peer == 0)
  {
    if publishers > 0 && peer >= publishers {
      assert peer % publishers < publishers <= peer;
    }
  }

  function SourceId(room: u32, peersPerRoom: u32, peer: nat): Result<u16> {
    if peer >= U32_SIZE then Err
    else
      var offset :- CheckedMul32(room, peersPerRoom);
      var source :- CheckedAdd32(offset, peer);
      if source < U16_SIZE then Ok(source) else Err
  }

  /** Source identities are unique over all rooms and peers of a run. */
  lemma SourceIdIsInjective(peersPerRoom: u32, room: u32, peer: nat, room': u32, peer': nat)
    requires peer < peersPerRoom && peer' < peersPerRoom
    requires SourceId(room, peersPerRoom, peer).Ok?
    requires SourceId(room, peersPerRoom, peer) == SourceId(room', peersPerRoom, peer')
    ensures room == room' && peer == peer'
  {
    RowsAreApart(peersPerRoom, room, peer, room', peer');
    RowsAreApart(peersPerRoom, room', peer', room, peer);
  }

  lemma RowsAreApart(width: nat, row: nat, column: nat, row': nat, column': nat)
    ensures row < row' && column < width ==> row * width + column < row' * width + column'
  {
    if row < row' {
      assert (row + 1) * width == row * width + width;
      MulMonotone(row + 1, row', width);
    }
  }

  function AudioStream(room: u32, peers: u32, source: nat, packets: u32): Result<ExpectedStream> {
    var id :- SourceId(room, peers, source);
    NewStream(StreamKey(id, Audio, None), packets)
  }

  function LayerFor(peer: nat, publishers: u32, source: u32): VideoLayer {
    if FeaturedSource(peer, publishers) == Some(source) then High else Low
  }

  function VideoStream(room: u32, peers: u32, source: u32, layer: VideoLayer, low: u64, high: u64)
    : Result<ExpectedStream>
  {
    var id :- SourceId(room, peers, source);
    var packets := if layer == Low then low else high;
    if packets >= U32_SIZE then Err else NewStream(StreamKey(id, Video, Some(layer)), packets)
  }

  /** Streams the first `n` audio publishers send to one peer. */
  function AudioStreams(room: u32, peers: u32, n: u32, peer: nat, packets: u32): Result<seq<ExpectedStream>> {
    if n == 0 then Ok([])
    else
      var rest :- AudioStreams(room, peers, n - 1, peer, packets);
      if n - 1 == peer then Ok(rest)
      else
        var stream :- AudioStream(room, peers, n - 1, packets);
        Ok(rest + [stream])
  }

  method ExpectedAudioStreams(room: u32, peers: u32, publishers: u32, peer: nat, packets: u32)
    returns (result: Result<seq<ExpectedStream>>)
    ensures result == AudioStreams(room, peers, publishers, peer, packets)
  {
    var expected := [];
    for source := 0 to publishers
      invariant AudioStreams(room, peers, source, peer, packets) == Ok(expected)
      invariant forall n | 0 <= n < source :: AudioStreams(room, peers, n, peer, packets).Ok?
    {
      if source != peer {
        var stream := AudioStream(room, peers, source, packets);
        if stream.Err? {
          AudioErrorStays(room, peers, source + 1, publishers, peer, packets);
          return Err;
        }
        expected := expected + [stream.value];
      }
    }
    return Ok(expected);
  }

  lemma {:induction false} AudioErrorStays(room: u32, peers: u32, n: u32, m: u32, peer: nat, packets: u32)
    requires n <= m && AudioStreams(room, peers, n, peer, packets).Err?
    ensures AudioStreams(room, peers, m, peer, packets).Err?
  {
    if n < m {
      AudioErrorStays(room, peers, n, m - 1, peer, packets);
    }
  }

  /** Streams the first `n` of `publishers` video publishers send to one peer, one layer each. */
  function VideoStreams(room: u32, peers: u32, publishers: u32, n: u32, peer: nat, low: u64, high: u64)
    : Result<seq<ExpectedStream>>
  {
    if n == 0 then Ok([])
    else
      var rest :- VideoStreams(room, peers, publishers, n - 1, peer, low, high);
      if n - 1 == peer then Ok(rest)
      else
        var stream :- VideoStream(room, peers, n - 1, LayerFor(peer, publishers, n - 1), low, high);
        Ok(rest + [stream])
  }

  method ExpectedVideoStreams(room: u32, peers: u32, publishers: u32, peer: nat, low: u64, high: u64)
    returns (result: Result<seq<ExpectedStream>>)
    ensures result == VideoStreams(room, peers, publishers, publishers, peer, low, high)
  {
    var featured := FeaturedSource(peer, publishers);
    var expected := [];
    for source := 0 to publishers
      invariant VideoStreams(room, peers, publishers, source, peer, low, high) == Ok(expected)
    {
      if source == peer {
        continue;
      }
      var layer := if featured == Some(source) then High else Low;
      var stream := VideoStream(room, peers, source, layer, low, high);
      if stream.Err? {
        VideoErrorStays(room, peers, publishers, source + 1, publishers, peer, low, high);
        return Err;
      }
      expected := expected + [stream.value];
    }
    return Ok(expected);
  }

  lemma {:induction false} VideoErrorStays(
    room: u32, peers: u32, publishers: u32, n: u32, m: u32, peer: nat, low: u64, high: u64)
    requires n <= m && VideoStreams(room, peers, publishers, n, peer, low, high).Err?
    ensures VideoStreams(room, peers, publishers, m, peer, low, high).Err?
  {
    if n < m {
      VideoErrorStays(room, peers, publishers, n, m - 1, peer, low, high);
    }
  }

  /** What the ledger of one peer is built from, for each kind of scenario. */
  function ExpectedAt(spec: ScenarioSpec, room: u32, peer: nat): Result<seq<ExpectedStream>> {
    match spec
    case Smoke(receivers, packets) => AudioStreams(room, spec.PeersPerRoom(), 1, peer, packets)
    case AudioMesh(_, peers, seconds) =>
      var packets :- CheckedMul32(seconds, AUDIO_PACKETS_PER_SECOND);
      AudioStreams(room, peers, peers, peer, packets)
    case VideoGallery(_, peers, publishers, seconds) =>
      var (low, high) :- VideoPacketsPerLayer(seconds);
      VideoStreams(room, peers, publishers, publishers, peer, low, high)
    case MixedConference(_, peers, audioPublishers, videoPublishers, seconds) =>
      var packets :- CheckedMul32(seconds, AUDIO_PACKETS_PER_SECOND);
      var (low, high) :- VideoPacketsPerLayer(seconds);
      var audio :- AudioStreams(room, peers, audioPublishers, peer, packets);
      var video :- VideoStreams(room, peers, videoPublishers, videoPublishers, peer, low, high);
      Ok(audio + video)
  }

  /** A stream as a ledger receives it: nothing seen yet, and of a kind whose payload length is fixed. */
  predicate FreshAndSized(s: ExpectedStream) {
    s == FreshStream(s.key, |s.seen|) && ExpectedLen(s.key.kind, s.key.layer).Some?
  }

  function PacketsOf(s: ExpectedStream): nat {
    |s.seen|
  }

  function LengthOf(s: ExpectedStream): nat {
    match ExpectedLen(s.key.kind, s.key.layer) case Some(length) => length case None => 0
  }

  function BytesOf(s: ExpectedStream): nat {
    PacketsOf(s) * LengthOf(s)
  }

  /** The totals of an expectation list: how many streams, packets and payload bytes it stands for. */
  predicate Totals(streams: seq<ExpectedStream>, routes: nat, packets: nat, bytes: nat) {
    && (forall s | s in streams :: FreshAndSized(s))
    && |streams| == routes && SumOf(streams, PacketsOf) == packets && SumOf(streams, BytesOf) == bytes
  }

  lemma TotalsNone()
    ensures Totals([], 0, 0, 0)
  {
    SumOfNone(PacketsOf);
    SumOfNone(BytesOf);
  }

  lemma TotalsAppend(a: seq<ExpectedStream>, s: ExpectedStream, routes: nat, packets: nat, bytes: nat)
    requires Totals(a, routes, packets, bytes) && FreshAndSized(s)
    ensures Totals(a + [s], routes + 1, packets + PacketsOf(s), bytes + BytesOf(s))
  {
    hide SumOf, FreshAndSized;
    SumOfAppend(a, [s], PacketsOf);
    SumOfAppend(a, [s], BytesOf);
    SumOfOne(s, PacketsOf);
    SumOfOne(s, BytesOf);
  }

  /** One more fresh stream of a known kind. */
  lemma TotalsGrow(a: seq<ExpectedStream>, key: StreamKey, n: nat, length: nat, routes: nat, packets: nat, bytes: nat)
    requires Totals(a, routes, packets, bytes) && ExpectedLen(key.kind, key.layer) == Some(length)
    ensures Totals(a + [FreshStream(key, n)], routes + 1, packets + n, bytes + n * length)
  {
    TotalsAppend(a, FreshStream(key, n), routes, packets, bytes);
  }

  lemma TotalsConcat(
    a: seq<ExpectedStream>, b: seq<ExpectedStream>, ra: nat, rb: nat, pa: nat, pb: nat, ba: nat, bb: nat)
    requires Totals(a, ra, pa, ba) && Totals(b, rb, pb, bb)
    ensures Totals(a + b, ra + rb, pa + pb, ba + bb)
  {
    hide SumOf, FreshAndSized;
    SumOfAppend(a, b, PacketsOf);
    SumOfAppend(a, b, BytesOf);
  }

  /** How many of the first n publishers are not the peer itself. */
  function Others(n: nat, peer: nat): nat {
    if peer < n then n - 1 else n
  }

  /** How many of the first n publishers the peer watches in the high layer. */
  function HighRoutes(peer: nat, publishers: u32, n: nat): nat {
    var featured := FeaturedSource(peer, publishers);
    if featured.Some? && featured.value < n then 1 else 0
  }

  /** A product of counts. */
  function Times(a: nat, b: nat): nat {
    a * b
  }

  predicate SourcesFit(room: u32, peers: u32) {
    Times(room, peers) + peers <= U16_SIZE
  }

  lemma SourceIdFits(room: u32, peers: u32, peer: nat)
    requires SourcesFit(room, peers) && peer < peers
    ensures SourceId(room, peers, peer) == Ok(Times(room, peers) + peer)
  {}

  lemma AudioStreamIs(room: u32, peers: u32, source: u32, packets: u32)
    requires SourcesFit(room, peers) && source < peers && packets > 0
    ensures AudioStream(room, peers, source, packets)
         == Ok(FreshStream(StreamKey(Times(room, peers) + source, Audio, None), packets))
  {
    SourceIdFits(room, peers, source);
  }

  /** Audio expectations succeed, exclude the peer itself, and add up. */
  lemma {:induction false} AudioTotals(room: u32, peers: u32, n: u32, peer: nat, packets: u32)
    requires SourcesFit(room, peers) && n <= peers && packets > 0
    ensures var r, others := AudioStreams(room, peers, n, peer, packets), Others(n, peer);
      r.Ok? && Totals(r.value, others, Times(others, packets), Times(Times(others, packets), AUDIO_BYTES))
  {
    TotalsNone();
    hide Totals, FreshStream;
    if n > 0 {
      AudioTotals(room, peers, n - 1, peer, packets);
      if n - 1 != peer {
        AudioStreamIs(room, peers, n - 1, packets);
        var rest, others := AudioStreams(room, peers, n - 1, peer, packets).value, Others(n - 1, peer);
        TotalsGrow(rest, StreamKey(Times(room, peers) + (n - 1), Audio, None), packets, AUDIO_BYTES, others,
                   Times(others, packets), Times(Times(others, packets), AUDIO_BYTES));
        Distributes(others, packets);
      }
    }
  }

  lemma Distributes(a: nat, c: nat)
    ensures (a + 1) * c == a * c + c
  {}

  lemma VideoStreamIs(room: u32, peers: u32, source: u32, layer: VideoLayer, low: u64, high: u64)
    requires SourcesFit(room, peers) && source < peers && 0 < low < U32_SIZE && 0 < high < U32_SIZE
    ensures VideoStream(room, peers, source, layer, low, high)
         == Ok(FreshStream(StreamKey(Times(room, peers) + source, Video, Some(layer)),
                             if layer == Low then low else high))
  {
    SourceIdFits(room, peers, source);
  }

  /** Packets and bytes of some low and some high routes. */
  function MixPackets(lows: nat, highs: nat, low: u64, high: u64): nat {
    Times(lows, low) + Times(highs, high)
  }

  function MixBytes(lows: nat, highs: nat, low: u64, high: u64): nat {
    Times(Times(lows, low), LOW_BYTES) + Times(Times(highs, high), HIGH_BYTES)
  }

  lemma MixGrows(lows: nat, highs: nat, low: u64, high: u64)
    ensures MixPackets(lows + 1, highs, low, high) == MixPackets(lows, highs, low, high) + low
    ensures MixPackets(lows, highs + 1, low, high) == MixPackets(lows, highs, low, high) + high
    ensures MixBytes(lows + 1, highs, low, high) == MixBytes(lows, highs, low, high) + low * LOW_BYTES
    ensures MixBytes(lows, highs + 1, low, high) == MixBytes(lows, highs, low, high) + high * HIGH_BYTES
  {
    Distributes(lows, low);
    Distributes(highs, high);
  }

  lemma NoRoutes(peer: nat, publishers: u32, low: u64, high: u64)
    ensures Others(0, peer) == 0 && HighRoutes(peer, publishers, 0) == 0
    ensures MixPackets(0, 0, low, high) == 0 && MixBytes(0, 0, low, high) == 0
  {}

  lemma RoutesGrow(peer: nat, publishers: u32, n: nat)
    requires n < publishers
    ensures HighRoutes(peer, publishers, n + 1) <= Others(n + 1, peer)
    ensures Others(n + 1, peer) == Others(n, peer) + if n == peer then 0 else 1
    ensures HighRoutes(peer, publishers, n + 1)
         == HighRoutes(peer, publishers, n) + if LayerFor(peer, publishers, n) == High then 1 else 0
    ensures n == peer ==> LayerFor(peer, publishers, n) == Low
  {
    FeaturedIsAnother(peer, publishers);
    hide FeaturedSource;
  }

  /** Video expectations succeed, exclude the peer itself, take one high layer at most, and add up. */
  lemma {:induction false} VideoTotals(
    room: u32, peers: u32, publishers: u32, n: u32, peer: nat, low: u64, high: u64)
    requires SourcesFit(room, peers) && n <= publishers <= peers && 0 < low < U32_SIZE && 0 < high < U32_SIZE
    ensures var r, others, highs :=
        VideoStreams(room, peers, publishers, n, peer, low, high), Others(n, peer), HighRoutes(peer, publishers, n);
      && highs <= others && r.Ok?
      && Totals(r.value, others, MixPackets(others - highs, highs, low, high),
         MixBytes(others - highs, highs, low, high))
  {
    hide Totals, FreshStream, FeaturedSource, VideoStream, LayerFor, Others, HighRoutes, MixPackets, MixBytes;
    TotalsNone();
    NoRoutes(peer, publishers, low, high);
    if n > 0 {
      VideoTotals(room, peers, publishers, n - 1, peer, low, high);
      RoutesGrow(peer, publishers, n - 1);
      if n - 1 != peer {
        var layer := LayerFor(peer, publishers, n - 1);
        VideoStreamIs(room, peers, n - 1, layer, low, high);
        var rest := VideoStreams(room, peers, publishers, n - 1, peer, low, high).value;
        var others, highs := Others(n - 1, peer), HighRoutes(peer, publishers, n - 1);
        TotalsGrow(rest, StreamKey(Times(room, peers) + (n - 1), Video, Some(layer)),
                   if layer == Low then low else high, PacketPayloadLen(layer), others,
                   MixPackets(others - highs, highs, low, high), MixBytes(others - highs, highs, low, high));
        MixGrows(others - highs, highs, low, high);
      }
    }
  }

  /** All streams are of one kind and come from sources numbered from `low` up to but not including `high`. */
  predicate KeysWithin(streams: seq<ExpectedStream>, kind: PayloadKind, low: nat, high: nat) {
    forall s | s in streams :: s.key.kind == kind && low <= s.key.source < high
  }

  predicate KeyedWithin(streams: seq<ExpectedStream>, kind: PayloadKind, low: nat, high: nat) {
    KeysWithin(streams, kind, low, high) && Delivery.Distinct(Delivery.Keys(streams))
  }

  lemma KeysGrow(streams: seq<ExpectedStream>, s: ExpectedStream, kind: PayloadKind, low: nat, high: nat)
    requires KeyedWithin(streams, kind, low, high) && low <= high && s.key.kind == kind && s.key.source == high
    ensures KeyedWithin(streams + [s], kind, low, high + 1)
  {
    assert Delivery.Keys(streams + [s]) == Delivery.Keys(streams) + [s.key];
    assert forall k | 0 <= k < |streams| :: streams[k] in streams;
  }

  lemma KeysLoosen(streams: seq<ExpectedStream>, kind: PayloadKind, low: nat, high: nat)
    requires KeyedWithin(streams, kind, low, high)
    ensures KeyedWithin(streams, kind, low, high + 1)
  {}

  lemma {:induction false} AudioKeys(room: u32, peers: u32, n: u32, peer: nat, packets: u32)
    requires SourcesFit(room, peers) && n <= peers && packets > 0 && AudioStreams(room, peers, n, peer, packets).Ok?
    ensures KeyedWithin(AudioStreams(room, peers, n, peer, packets).value, Audio, Times(room, peers),
      Times(room, peers) + n)
  {
    hide KeyedWithin, Times, AudioStream, FreshStream;
    var base := Times(room, peers);
    if n == 0 {
      NoKeys(Audio, base);
    } else {
      AudioKeys(room, peers, n - 1, peer, packets);
      var rest := AudioStreams(room, peers, n - 1, peer, packets).value;
      AudioStreamIs(room, peers, n - 1, packets);
      FreshStreamKey(StreamKey(base + (n - 1), Audio, None), packets);
      if n - 1 == peer {
        KeysLoosen(rest, Audio, base, base + (n - 1));
      } else {
        KeysGrow(rest, FreshStream(StreamKey(base + (n - 1), Audio, None), packets), Audio, base, base + (n - 1));
      }
    }
  }

  lemma NoKeys(kind: PayloadKind, base: nat)
    ensures KeyedWithin([], kind, base, base)
  {}

  lemma FreshStreamKey(key: StreamKey, n: nat)
    ensures FreshStream(key, n).key == key
  {}

  lemma {:induction false} VideoKeys(
    room: u32, peers: u32, publishers: u32, n: u32, peer: nat, low: u64, high: u64)
    requires SourcesFit(room, peers) && n <= publishers <= peers && 0 < low < U32_SIZE && 0 < high < U32_SIZE
    requires VideoStreams(room, peers, publishers, n, peer, low, high).Ok?
    ensures KeyedWithin(VideoStreams(room, peers, publishers, n, peer, low, high).value, Video,
                        Times(room, peers), Times(room, peers) + n)
  {
    hide KeyedWithin, Times, VideoStream, FreshStream, FeaturedSource;
    var base := Times(room, peers);
    if n == 0 {
      NoKeys(Video, base);
    } else {
      VideoKeys(room, peers, publishers, n - 1, peer, low, high);
      var rest := VideoStreams(room, peers, publishers, n - 1, peer, low, high).value;
      var layer := LayerFor(peer, publishers, n - 1);
      VideoStreamIs(room, peers, n - 1, layer, low, high);
      var packets := if layer == Low then low else high;
      FreshStreamKey(StreamKey(base + (n - 1), Video, Some(layer)), packets);
      if n - 1 == peer {
        KeysLoosen(rest, Video, base, base + (n - 1));
      } else {
        KeysGrow(rest, FreshStream(StreamKey(base + (n - 1), Video, Some(layer)), packets), Video,
          base, base + (n - 1));
      }
    }
  }

  lemma KeysConcat(audio: seq<ExpectedStream>, video: seq<ExpectedStream>, low: nat, high: nat, high': nat)
    requires KeyedWithin(audio, Audio, low, high) && KeyedWithin(video, Video, low, high')
    ensures Delivery.Distinct(Delivery.Keys(audio + video))
  {
    assert Delivery.Keys(audio + video) == Delivery.Keys(audio) + Delivery.Keys(video);
    assert forall k | 0 <= k < |audio| :: audio[k] in audio;
    assert forall k | 0 <= k < |video| :: video[k] in video;
  }
}
