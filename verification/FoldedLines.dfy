/** How a folded line is read: a stack of frames, a space, and a decimal count. */
module FoldedLines {
  import opened Machine
  import opened FoldedProfiles

  // ---- writing a line ----

  const DIGITS := "0123456789"

  function Decimal(n: nat): (text: string)
    ensures text != []
  {
    (if n < 10 then [] else Decimal(n / 10)) + [DIGITS[n % 10]]
  }

  /** The pieces with a semicolon between neighbours; a piece may be empty. */
  function Joined(pieces: seq<string>): string
    requires pieces != []
  {
    if |pieces| == 1 then pieces[0] else pieces[0] + ";" + Joined(pieces[1..])
  }

  function NonEmpty(pieces: seq<string>): (frames: seq<string>)
    ensures forall f | f in frames :: f in pieces && f != []
  {
    if pieces == [] then []
    else (if pieces[0] == [] then [] else [pieces[0]]) + NonEmpty(pieces[1..])
  }

  /** A count may carry a plus sign and leading zeros. */
  function Written(pieces: seq<string>, plus: bool, zeros: string, count: nat): string
    requires pieces != []
  {
    Joined(pieces) + " " + (if plus then "+" else "") + zeros + Decimal(count)
  }

  // ---- reading it back ----

  predicate Zeros(text: string) {
    forall i | 0 <= i < |text| :: text[i] == '0'
  }

  lemma DigitIs(d: nat)
    requires d < 10
    ensures '0' <= DIGITS[d] <= '9' && DIGITS[d] as int - '0' as int == d
  {}

  lemma {:induction false} ZerosRead(zeros: string)
    requires Zeros(zeros)
    ensures Digits(zeros) == Some(0)
  {
    if zeros != [] {
      ZerosRead(zeros[..|zeros| - 1]);
    }
  }

  lemma {:induction false} DecimalReads(zeros: string, n: nat)
    requires Zeros(zeros)
    ensures Digits(zeros + Decimal(n)) == Some(n)
    ensures forall c | c in Decimal(n) :: '0' <= c <= '9'
  {
    var text := zeros + Decimal(n);
    DigitIs(n % 10);
    assert text[|text| - 1] == DIGITS[n % 10];
    if n < 10 {
      assert text[..|text| - 1] == zeros;
      ZerosRead(zeros);
    } else {
      assert text[..|text| - 1] == zeros + Decimal(n / 10);
      DecimalReads(zeros, n / 10);
    }
  }

  lemma CountReads(plus: bool, zeros: string, n: nat)
    requires Zeros(zeros)
    ensures ParseU64((if plus then "+" else "") + zeros + Decimal(n)) == if n <= U64_MAX then Some(n) else None
  {
    hide Digits, Decimal;
    DecimalReads(zeros, n);
    var digits := zeros + Decimal(n);
    FirstIsDigit(zeros, Decimal(n));
    if plus {
      assert ("+" + zeros + Decimal(n))[1..] == digits;
    } else {
      assert [] + zeros + Decimal(n) == digits;
    }
  }

  lemma FirstIsDigit(zeros: string, digits: string)
    requires Zeros(zeros) && digits != [] && forall c | c in digits :: '0' <= c <= '9'
    ensures (zeros + digits)[0] != '+'
  {
    assert digits[0] in digits;
  }

  /** A piece without a semicolon is kept whole, behind what has been read of its frame. */
  lemma {:induction false} PieceReads(current: string, piece: string, rest: string)
    requires ';' !in piece
    ensures var frame := if current + piece == [] then [] else [current + piece];
      && FramesAfter(current, piece) == frame
      && FramesAfter(current, piece + ";" + rest) == frame + FramesAfter([], rest)
    decreases |piece|
  {
    var text := piece + ";" + rest;
    if piece == [] {
      assert current + piece == current && text == ";" + rest && text[1..] == rest;
    } else {
      PieceReads(current + [piece[0]], piece[1..], rest);
      assert current + [piece[0]] + piece[1..] == current + piece;
      assert text[1..] == piece[1..] + ";" + rest;
    }
  }

  lemma {:induction false} FramesRead(pieces: seq<string>)
    requires pieces != [] && forall piece | piece in pieces :: ';' !in piece
    ensures Frames(Joined(pieces)) == NonEmpty(pieces)
  {
    var piece := pieces[0];
    if |pieces| == 1 {
      PieceReads([], piece, []);
      assert NonEmpty(pieces[1..]) == [];
    } else {
      PieceReads([], piece, Joined(pieces[1..]));
      FramesRead(pieces[1..]);
    }
    assert [] + piece == piece;
  }

  lemma LastSpaceReads(stack: string, text: string)
    requires ' ' !in text
    ensures LastSpace(stack + " " + text) == Some(|stack|)
  {
    hide LastSpace;
    var line := stack + " " + text;
    var at := LastSpace(line);
    assert line[|stack|] == ' ';
    forall i | |stack| < i < |line| ensures line[i] != ' ' {
      assert line[i] == text[i - |stack| - 1] && text[i - |stack| - 1] in text;
    }
  }

  lemma TextHasNoSpace(plus: bool, zeros: string, n: nat)
    requires Zeros(zeros)
    ensures ' ' !in (if plus then "+" else "") + zeros + Decimal(n)
  {
    DecimalReads(zeros, n);
  }

  /**
   * Whatever pieces a line is joined from and however its count is written, it is read as exactly the pieces that hold
   * something and that count, or refused because the count is zero or beyond 64 bits, or no piece holds anything.
   */
  lemma LineReads(pieces: seq<string>, plus: bool, zeros: string, n: nat)
    requires pieces != [] && (forall piece | piece in pieces :: ';' !in piece) && Zeros(zeros)
    ensures ParseLine(Written(pieces, plus, zeros, n))
         == if 0 < n <= U64_MAX && NonEmpty(pieces) != [] then Some(StackSample(Joined(pieces), NonEmpty(pieces), n))
            else None
  {
    hide Joined, NonEmpty, Decimal, Frames, ParseU64, LastSpace;
    var stack, text := Joined(pieces), (if plus then "+" else "") + zeros + Decimal(n);
    var line := Written(pieces, plus, zeros, n);
    assert line == stack + " " + text;
    TextHasNoSpace(plus, zeros, n);
    LastSpaceReads(stack, text);
    CountReads(plus, zeros, n);
    FramesRead(pieces);
    assert line[..|stack|] == stack && line[|stack| + 1..] == text;
  }

  lemma {:induction false} AllHold(pieces: seq<string>)
    requires forall piece | piece in pieces :: piece != []
    ensures NonEmpty(pieces) == pieces
  {
    if pieces != [] {
      assert pieces[0] in pieces && forall piece | piece in pieces[1..] :: piece in pieces;
      AllHold(pieces[1..]);
    }
  }

  /** Round trip: frames and a count, written as a line, are read back, from thread root to leaf. */
  lemma LineRoundTrip(frames: seq<string>, count: u64)
    requires frames != [] && count > 0 && forall frame | frame in frames :: frame != [] && ';' !in frame
    ensures var read := ParseLine(Joined(frames) + " " + Decimal(count));
      && read.Some? && read.value.frames == frames && read.value.count == count
      && read.value.stack == Joined(frames)
      && read.value.Thread() == frames[0] && read.value.Leaf() == frames[|frames| - 1]
  {
    hide Joined, NonEmpty, Decimal, ParseLine;
    LineReads(frames, false, [], count);
    AllHold(frames);
    assert Written(frames, false, [], count) == Joined(frames) + " " + Decimal(count);
  }

  // ---- what is refused ----

  lemma {:induction false} NonDigitRefused(text: string, i: nat)
    requires i < |text| && !('0' <= text[i] <= '9')
    ensures Digits(text).None?
  {
    if i < |text| - 1 {
      NonDigitRefused(text[..|text| - 1], i);
    }
  }

  /** A count is digits alone, after an optional plus sign. */
  predicate HoldsNoCount(text: string) {
    || text == "" || text == "+"
    || exists i | 0 <= i < |text| :: !('0' <= text[i] <= '9') && (i > 0 || text[0] != '+')
  }

  lemma NoCountIsRead(text: string)
    requires HoldsNoCount(text)
    ensures ParseU64(text).None?
  {
    hide Digits;
    if text != "" && text != "+" {
      var i :| 0 <= i < |text| && !('0' <= text[i] <= '9') && (i > 0 || text[0] != '+');
      if text[0] == '+' {
        NonDigitRefused(text[1..], i - 1);
      } else {
        NonDigitRefused(text, i);
      }
    }
  }

  /** Any other line is refused: one without a space, or with anything else behind its last one. */
  lemma LineIsRefused(stack: string, text: string)
    requires ' ' !in text
    ensures ParseLine(text).None?
    ensures HoldsNoCount(text) ==> ParseLine(stack + " " + text).None?
  {
    hide LastSpace, ParseU64, Frames, HoldsNoCount;
    assert LastSpace(text).None?;
    var line := stack + " " + text;
    LastSpaceReads(stack, text);
    assert line[|stack| + 1..] == text;
    if HoldsNoCount(text) {
      NoCountIsRead(text);
    }
  }

  // ---- marked frames ----

  lemma {:induction false} ContainsIs(s: string, part: string)
    requires part != []
    ensures Contains(s, part) <==> exists before, after :: s == before + part + after
  {
    if Contains(s, part) {
      var before, after := Around(s, part);
    } else {
      forall before: string, after: string ensures s != before + part + after {
        if s == before + part + after {
          Inside(before, part, after);
        }
      }
    }
  }

  lemma {:induction false} Around(s: string, part: string) returns (before: string, after: string)
    requires part != [] && Contains(s, part)
    ensures s == before + part + after
  {
    if part <= s {
      before, after := [], s[|part|..];
    } else {
      before, after := Around(s[1..], part);
      before := [s[0]] + before;
    }
  }

  lemma {:induction false} Inside(before: string, part: string, after: string)
    requires part != []
    ensures Contains(before + part + after, part)
  {
    var s := before + part + after;
    if before == [] {
      assert part == s[..|part|];
    } else {
      Inside(before[1..], part, after);
      assert s[1..] == before[1..] + part + after;
    }
  }

  /** The frames counted as unresolved, and those counted as the kernel's. */
  lemma MarkedFrames(frame: string)
    ensures Unresolved(frame) <==>
      || (exists before, after :: frame == before + "[unknown]" + after)
      || (exists after :: frame == "0x" + after)
      || ("[" <= frame && exists before, after :: frame == before + " <" + after)
    ensures Kernel(frame) <==> exists before :: frame == before + "_[k]"
  {
    hide Contains;
    ContainsIs(frame, "[unknown]");
    ContainsIs(frame, " <");
    if "0x" <= frame {
      assert frame == "0x" + frame[2..];
    }
    if Kernel(frame) {
      assert frame == frame[..|frame| - 4] + "_[k]";
    }
  }
}
