/** Reading newline-terminated phase frames from a buffered stream, whatever the buffer boundaries. */
module Framing {
  import opened Machine

  const MAX_PHASE_FRAME_BYTES: nat := 256
  const NEWLINE: u8 := 10

  /** How reading one frame ends. */
  datatype FrameResult = Frame(bytes: seq<u8>) | EndOfStream | Failure

  /** Offset behind the first newline, or the length if there is none. */
  function ThroughNewline(bytes: seq<u8>): (n: nat)
    ensures n <= |bytes| && (bytes != [] ==> n > 0)
    ensures forall i | 0 <= i < n - 1 :: bytes[i] != NEWLINE
    ensures n < |bytes| ==> n > 0 && bytes[n - 1] == NEWLINE
  {
    if bytes == [] then 0 else if bytes[0] == NEWLINE then 1 else 1 + ThroughNewline(bytes[1..])
  }

  predicate EndsLine(bytes: seq<u8>) {
    bytes != [] && bytes[|bytes| - 1] == NEWLINE
  }

  // ---- the reference: the stream as one sequence of bytes ----

  /** What reading one frame must give on the whole remaining stream. */
  function FrameOf(stream: seq<u8>): FrameResult {
    var n := ThroughNewline(stream);
    if stream == [] then EndOfStream
    else if n > MAX_PHASE_FRAME_BYTES || !EndsLine(stream[..n]) then Failure
    else Frame(stream[..n])
  }

  /** All frames of a stream, in order, and whether it ends cleanly behind the last of them. */
  function FramesOf(stream: seq<u8>): (seq<seq<u8>>, bool)
    decreases |stream|
  {
    match FrameOf(stream)
    case EndOfStream => ([], true)
    case Failure => ([], false)
    case Frame(bytes) =>
      var (rest, clean) := FramesOf(stream[|bytes|..]);
      ([bytes] + rest, clean)
  }

  // ---- the reader: the stream as the chunks the buffer happens to hold ----

  function Joined(chunks: seq<seq<u8>>): seq<u8> {
    if chunks == [] then [] else chunks[0] + Joined(chunks[1..])
  }

  /** No chunk is empty: an empty buffer means the end of the stream. */
  predicate Chunked(chunks: seq<seq<u8>>) {
    forall c | c in chunks :: c != []
  }

  class BufferedStream {
    var chunks: seq<seq<u8>>

    constructor (chunks: seq<seq<u8>>)
      requires Chunked(chunks)
      ensures this.chunks == chunks
    {
      this.chunks := chunks;
    }

    ghost predicate Valid()
      reads this
    {
      Chunked(chunks)
    }

    ghost function Remaining(): seq<u8>
      reads this
    {
      Joined(chunks)
    }

    method FillBuf() returns (available: seq<u8>)
      requires Valid()
      ensures available <= Remaining() && (available == [] <==> Remaining() == [])
      ensures available != [] ==> chunks != [] && available == chunks[0]
    {
      if chunks == [] {
        return [];
      }
      assert chunks[0] in chunks;
      return chunks[0];
    }

    method Consume(n: nat)
      requires Valid() && chunks != [] && 0 < n <= |chunks[0]|
      modifies this
      ensures Valid() && Remaining() == old(Remaining())[n..]
    {
      var first, rest := chunks[0], chunks[1..];
      assert forall c | c in rest :: c in chunks;
      if n == |first| {
        chunks := rest;
      } else {
        chunks := [first[n..]] + rest;
        assert chunks[1..] == rest;
      }
    }

    /** Reads one frame; what it returns depends on the bytes of the stream alone. */
    method ReadPhaseFrame() returns (result: FrameResult)
      requires Valid()
      modifies this
      ensures Valid() && result == FrameOf(old(Remaining()))
      ensures result.Frame? ==> old(Remaining()) == result.bytes + Remaining()
    {
      hide ThroughNewline, FrameOf, Joined, Chunked;
      var frame: seq<u8> := [];
      ghost var stream := Remaining();
      while true
        invariant Valid() && stream == frame + Remaining()
        invariant |frame| <= MAX_PHASE_FRAME_BYTES && NoNewline(frame)
        decreases |Remaining()|
      {
        var available := FillBuf();
        ghost var behind := Remaining()[|available|..];
        assert stream == frame + available + behind;
        if available == [] {
          StreamEnds(frame);
          assert stream == frame;
          return if frame == [] then EndOfStream else Failure;
        }
        var consumed := ThroughNewline(available);
        ReadsOn(frame, available, behind);
        if |frame| + consumed > MAX_PHASE_FRAME_BYTES {
          return Failure;
        }
        var complete := available[consumed - 1] == NEWLINE;
        frame := frame + available[..consumed];
        Consume(consumed);
        assert stream == frame + Remaining();
        if complete {
          return Frame(frame);
        }
      }
    }

    /** Reads frames until the stream ends or fails. */
    method ReadAll() returns (frames: seq<seq<u8>>, clean: bool)
      requires Valid()
      modifies this
      ensures (frames, clean) == FramesOf(old(Remaining()))
    {
      hide FramesOf, FrameOf, Joined, Chunked;
      frames := [];
      ghost var whole := FramesOf(Remaining());
      while true
        invariant Valid()
        invariant whole.0 == frames + FramesOf(Remaining()).0 && whole.1 == FramesOf(Remaining()).1
        decreases |Remaining()|
      {
        ghost var before := Remaining();
        NextFrame(before);
        var result := ReadPhaseFrame();
        match result
        case EndOfStream =>
          assert frames + [] == frames;
          return frames, true;
        case Failure =>
          assert frames + [] == frames;
          return frames, false;
        case Frame(bytes) =>
          assert before[|bytes|..] == Remaining();
          assert frames + ([bytes] + FramesOf(Remaining()).0) == (frames + [bytes]) + FramesOf(Remaining()).0;
          frames := frames + [bytes];
      }
    }
  }

  predicate NoNewline(bytes: seq<u8>) {
    forall i | 0 <= i < |bytes| :: bytes[i] != NEWLINE
  }

  lemma NextFrame(stream: seq<u8>)
    ensures FrameOf(stream).Frame? ==>
      && 0 < |FrameOf(stream).bytes| <= |stream|
      && FramesOf(stream) == ([FrameOf(stream).bytes] + FramesOf(stream[|FrameOf(stream).bytes|..]).0,
                              FramesOf(stream[|FrameOf(stream).bytes|..]).1)
    ensures !FrameOf(stream).Frame? ==> FramesOf(stream) == ([], FrameOf(stream).EndOfStream?)
  {}

  lemma {:induction false} WithoutNewline(bytes: seq<u8>)
    requires NoNewline(bytes)
    ensures ThroughNewline(bytes) == |bytes| && !EndsLine(bytes)
  {
    if bytes != [] {
      WithoutNewline(bytes[1..]);
    }
  }

  lemma StreamEnds(frame: seq<u8>)
    requires NoNewline(frame)
    ensures FrameOf(frame) == if frame == [] then EndOfStream else Failure
  {
    WithoutNewline(frame);
    assert frame[..|frame|] == frame;
  }

  /** Bytes without a newline in front move the first newline back by their number. */
  lemma {:induction false} NewlineBehind(frame: seq<u8>, rest: seq<u8>)
    requires NoNewline(frame)
    ensures ThroughNewline(frame + rest) == |frame| + ThroughNewline(rest)
  {
    if frame == [] {
      assert frame + rest == rest;
    } else {
      NewlineBehind(frame[1..], rest);
      assert (frame + rest)[1..] == frame[1..] + rest;
    }
  }

  /** What is in the buffer decides the first newline if it holds one, and pushes it further back if not. */
  lemma {:induction false} NewlineWithin(available: seq<u8>, behind: seq<u8>)
    requires available != []
    ensures var m := ThroughNewline(available);
      if available[m - 1] == NEWLINE then ThroughNewline(available + behind) == m
      else m == |available| && NoNewline(available) && ThroughNewline(available + behind) >= m
  {
    var m := ThroughNewline(available);
    if available[m - 1] == NEWLINE {
      if m > 1 {
        NewlineWithin(available[1..], behind);
        assert (available + behind)[1..] == available[1..] + behind;
      }
    } else {
      NewlineBehind(available, behind);
    }
  }

  /** One buffer of a frame under way: the frame is too long, or complete, or goes on. */
  lemma ReadsOn(frame: seq<u8>, available: seq<u8>, behind: seq<u8>)
    requires available != [] && NoNewline(frame)
    ensures var m, stream := ThroughNewline(available), frame + available + behind;
      && 0 < m <= |available|
      && (|frame| + m > MAX_PHASE_FRAME_BYTES ==> FrameOf(stream) == Failure)
      && (|frame| + m <= MAX_PHASE_FRAME_BYTES && available[m - 1] == NEWLINE ==>
            FrameOf(stream) == Frame(frame + available[..m]))
      && (available[m - 1] != NEWLINE ==> NoNewline(frame + available[..m]))
  {
    hide ThroughNewline, NoNewline, FrameOf;
    var m, stream := ThroughNewline(available), frame + available + behind;
    NewlineBehind(frame, available + behind);
    NewlineWithin(available, behind);
    assert stream == frame + (available + behind);
    if available[m - 1] == NEWLINE {
      assert stream[..|frame| + m] == frame + available[..m];
      LineIsFrame(stream, |frame| + m);
    } else {
      assert available[..m] == available;
      NoNewlineJoins(frame, available);
      LongLineFails(stream);
    }
  }

  lemma LongLineFails(stream: seq<u8>)
    ensures ThroughNewline(stream) > MAX_PHASE_FRAME_BYTES ==> FrameOf(stream) == Failure
  {
    hide ThroughNewline;
  }

  lemma LineIsFrame(stream: seq<u8>, n: nat)
    requires n == ThroughNewline(stream) && EndsLine(stream[..n])
    ensures FrameOf(stream) == if n > MAX_PHASE_FRAME_BYTES then Failure else Frame(stream[..n])
  {
    hide ThroughNewline;
  }

  lemma NoNewlineJoins(a: seq<u8>, b: seq<u8>)
    requires NoNewline(a) && NoNewline(b)
    ensures NoNewline(a + b)
  {}

  // ---- what it means ----

  /** The same bytes, split into chunks in two ways, are read as the same frames with the same outcome. */
  method ReadTwice(one: seq<seq<u8>>, other: seq<seq<u8>>) returns (same: bool)
    requires Chunked(one) && Chunked(other) && Joined(one) == Joined(other)
    ensures same
  {
    var first := new BufferedStream(one);
    var second := new BufferedStream(other);
    var frames, clean := first.ReadAll();
    var frames', clean' := second.ReadAll();
    same := frames == frames' && clean == clean';
  }

  predicate IsFrame(frame: seq<u8>) {
    && 0 < |frame| <= MAX_PHASE_FRAME_BYTES && frame[|frame| - 1] == NEWLINE
    && forall i | 0 <= i < |frame| - 1 :: frame[i] != NEWLINE
  }

  /**
   * Every frame is one newline-terminated line within the limit; the frames are a prefix of the stream, and all of it
   * exactly when the stream ends cleanly.
   */
  lemma {:induction false} FramesAreLines(stream: seq<u8>)
    ensures var (frames, clean) := FramesOf(stream);
      && (forall f | f in frames :: IsFrame(f))
      && Joined(frames) <= stream && (clean <==> Joined(frames) == stream)
    decreases |stream|
  {
    hide FrameOf, ThroughNewline, IsFrame;
    NextFrame(stream);
    FrameIsLine(stream);
    if FrameOf(stream).Frame? {
      var bytes := FrameOf(stream).bytes;
      var behind := stream[|bytes|..];
      FramesAreLines(behind);
      var (rest, clean) := FramesOf(behind);
      assert ([bytes] + rest)[1..] == rest;
      assert Joined([bytes] + rest) == bytes + Joined(rest);
      assert stream == bytes + behind;
      assert Joined(rest) == behind <==> bytes + Joined(rest) == bytes + behind by {
        assert (bytes + Joined(rest))[|bytes|..] == Joined(rest) && (bytes + behind)[|bytes|..] == behind;
      }
    }
  }

  lemma FrameIsLine(stream: seq<u8>)
    ensures FrameOf(stream).Frame? ==> IsFrame(FrameOf(stream).bytes) && FrameOf(stream).bytes <= stream
    ensures FrameOf(stream).EndOfStream? <==> stream == []
  {
    var n := ThroughNewline(stream);
  }

  /** A stream of frames is read back as those frames: framing loses and invents nothing. */
  lemma {:induction false} FramesRoundTrip(frames: seq<seq<u8>>)
    requires forall f | f in frames :: IsFrame(f)
    ensures FramesOf(Joined(frames)) == (frames, true)
    decreases |frames|
  {
    if frames != [] {
      var first, rest := frames[0], Joined(frames[1..]);
      assert IsFrame(first);
      ReadsOn(first[..|first| - 1], [NEWLINE], rest);
      assert [NEWLINE][..1] == [NEWLINE];
      assert first == first[..|first| - 1] + [NEWLINE];
      assert Joined(frames) == first[..|first| - 1] + [NEWLINE] + rest;
      assert Joined(frames)[|first|..] == rest;
      NextFrame(Joined(frames));
      assert [first] + frames[1..] == frames;
      FramesRoundTrip(frames[1..]);
    }
  }
}
