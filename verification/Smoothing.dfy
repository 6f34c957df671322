/** The dashboard's moving average: fast, segment by segment, and what it means point by point. */
module Smoothing {
  import opened Machine
  import opened Sums

  datatype Point = Point(elapsedMs: u64, value: u64)

  /** One chart slot per sample; `None` breaks the line. */
  type Slot = Option<Point>

  // ---- segments ----

  function RunLength(values: seq<Slot>): (n: nat)
    ensures n <= |values| && (forall k | 0 <= k < n :: values[k].Some?) && (n < |values| ==> values[n].None?)
  {
    if values == [] || values[0].None? then 0 else 1 + RunLength(values[1..])
  }

  function Unwrapped(values: seq<Slot>): (points: seq<Point>)
    requires forall k | 0 <= k < |values| :: values[k].Some?
    ensures |points| == |values| && forall k | 0 <= k < |points| :: values[k] == Some(points[k])
  {
    seq(|values|, k requires 0 <= k < |values| => values[k].value)
  }

  /** The maximal runs of defined slots, in order. */
  function Segments(values: seq<Slot>): seq<seq<Point>>
    decreases |values|
  {
    if values == [] then []
    else if values[0].None? then Segments(values[1..])
    else [Unwrapped(values[..RunLength(values)])] + Segments(values[RunLength(values)..])
  }

  /** Segments of what is still to come, when `current` has been collected already. */
  function SegmentsAfter(current: seq<Point>, rest: seq<Slot>): seq<seq<Point>> {
    if current == [] then Segments(rest)
    else [current + Unwrapped(rest[..RunLength(rest)])] + Segments(rest[RunLength(rest)..])
  }

  lemma SegmentsStep(current: seq<Point>, rest: seq<Slot>)
    requires rest != []
    ensures rest[0].Some? ==> SegmentsAfter(current, rest) == SegmentsAfter(current + [rest[0].value], rest[1..])
    ensures rest[0].None? && current != [] ==> SegmentsAfter(current, rest) == [current] + SegmentsAfter([], rest[1..])
    ensures rest[0].None? && current == [] ==> SegmentsAfter(current, rest) == SegmentsAfter([], rest[1..])
  {
    var n := RunLength(rest);
    if rest[0].Some? {
      assert rest[1..][..n - 1] == rest[1..n] && rest[1..][n - 1..] == rest[n..];
      assert Unwrapped(rest[..n]) == [rest[0].value] + Unwrapped(rest[1..n]);
      assert current + Unwrapped(rest[..n]) == current + [rest[0].value] + Unwrapped(rest[1..n]);
      assert current == [] ==> current + Unwrapped(rest[..n]) == Unwrapped(rest[..n]);
    } else {
      assert rest[..0] == [] && rest[0..] == rest && current + [] == current;
      assert Unwrapped(rest[..0]) == [];
    }
  }

  method ContiguousSegments(values: seq<Slot>) returns (segments: seq<seq<Point>>)
    ensures segments == Segments(values)
  {
    hide Segments, SegmentsAfter;
    segments := [];
    var current: seq<Point> := [];
    SegmentsBegin(values);
    for i := 0 to |values|
      invariant segments + SegmentsAfter(current, values[i..]) == Segments(values)
    {
      SegmentsStep(current, values[i..]);
      assert values[i..][1..] == values[i + 1..];
      if values[i].Some? {
        current := current + [values[i].value];
      } else if current != [] {
        assert (segments + [current]) + SegmentsAfter([], values[i + 1..])
            == segments + ([current] + SegmentsAfter([], values[i + 1..]));
        segments, current := segments + [current], [];
      }
    }
    SegmentsEnd(current);
    assert values[|values|..] == [];
    if current != [] {
      segments := segments + [current];
    }
  }

  lemma SegmentsBegin(values: seq<Slot>)
    ensures SegmentsAfter([], values) == Segments(values) && values[0..] == values
    ensures [] + Segments(values) == Segments(values)
  {}

  lemma SegmentsEnd(current: seq<Point>)
    ensures SegmentsAfter(current, []) == if current == [] then [] else [current]
  {
    assert Unwrapped([]) == [] && current + [] == current;
  }

  // ---- the meaning of smoothing ----

  /** First index of the defined run that ends in index i. */
  function RunStart(values: seq<Slot>, i: nat): (start: nat)
    requires i < |values| && values[i].Some?
    ensures start <= i && (forall k | start <= k <= i :: values[k].Some?) && (start > 0 ==> values[start - 1].None?)
  {
    if i == 0 || values[i - 1].None? then i else RunStart(values, i - 1)
  }

  /** Index behind the defined run that starts in index i. */
  function RunEnd(values: seq<Slot>, i: nat): (end: nat)
    requires i <= |values|
    ensures i <= end <= |values| && (forall k | i <= k < end :: values[k].Some?)
      && (end < |values| ==> values[end].None?)
    decreases |values| - i
  {
    if i == |values| || values[i].None? then i else RunEnd(values, i + 1)
  }

  /** Index j is averaged into index i: within the radius, with no gap in between. */
  predicate InWindow(values: seq<Slot>, radius: nat, i: nat, j: nat)
    requires i < |values|
  {
    && j < |values| && i <= j + radius && j <= i + radius
    && forall k | 0 <= k < |values| && (i <= k <= j || j <= k <= i) :: values[k].Some?
  }

  function WindowStart(values: seq<Slot>, radius: nat, i: nat): nat
    requires i < |values| && values[i].Some?
  {
    if i >= radius && i - radius > RunStart(values, i) then i - radius else RunStart(values, i)
  }

  function WindowEnd(values: seq<Slot>, radius: nat, i: nat): nat
    requires i < |values| && values[i].Some?
  {
    if i + radius + 1 < RunEnd(values, i) then i + radius + 1 else RunEnd(values, i)
  }

  /** The window is one stretch of indices, and they are exactly the ones reachable within the radius without a gap. */
  lemma WindowIsStretch(values: seq<Slot>, radius: nat, i: nat, j: nat)
    requires i < |values| && values[i].Some?
    ensures WindowStart(values, radius, i) <= i < WindowEnd(values, radius, i) <= |values|
    ensures InWindow(values, radius, i, j) <==> WindowStart(values, radius, i) <= j < WindowEnd(values, radius, i)
  {
    var start, end := RunStart(values, i), RunEnd(values, i);
  }

  /** The floored mean, narrowed to 64 bits. */
  function Mean(sum: nat, count: nat): u64
    requires count > 0
  {
    Sat(sum / count)
  }

  /** The largest whole 64-bit number of parts: exact where it fits, and the maximum where it does not. */
  predicate IsFloor(r: u64, amount: nat, parts: nat) {
    r * parts <= amount && (r == U64_MAX || amount < (r + 1) * parts)
  }

  lemma MeanIsFloor(sum: nat, count: nat)
    requires count > 0
    ensures IsFloor(Mean(sum, count), sum, count)
  {
    var q := sum / count;
    assert sum == q * count + sum % count;
    assert (q + 1) * count == q * count + count;
    if q > U64_MAX {
      MulMonotone(U64_MAX, q, count);
    }
  }

  function ValueOf(slot: Slot): nat {
    if slot.Some? then slot.value.value else 0
  }

  /** The floored mean over the window of a defined index; undefined indices stay undefined. */
  function SmoothedAt(values: seq<Slot>, radius: nat, i: nat): Slot
    requires i < |values|
  {
    if values[i].None? then None
    else
      WindowIsStretch(values, radius, i, i);
      var window := values[WindowStart(values, radius, i)..WindowEnd(values, radius, i)];
      Some(Point(values[i].value.elapsedMs, Mean(SumOf(window, ValueOf), |window|)))
  }

  function Smoothed(values: seq<Slot>, radius: nat): (r: seq<Slot>)
    ensures |r| == |values|
  {
    seq(|values|, i requires 0 <= i < |values| => SmoothedAt(values, radius, i))
  }

  lemma {:induction false} SumBetween(s: seq<nat>, least: nat, most: nat)
    requires forall i | 0 <= i < |s| :: least <= s[i] <= most
    ensures |s| * least <= Sum(s) <= |s| * most
  {
    if s != [] {
      SumBetween(s[..|s| - 1], least, most);
      assert |s| * least == (|s| - 1) * least + least && |s| * most == (|s| - 1) * most + most;
    }
  }

  lemma QuotientBetween(sum: nat, n: nat, least: nat, most: nat)
    requires n > 0 && n * least <= sum <= n * most
    ensures least <= sum / n <= most
  {
    assert n * (sum / n) <= sum < n * (sum / n) + n;
    assert n * (most + 1) == n * most + n && n * (sum / n + 1) == n * (sum / n) + n;
    if most + 1 <= sum / n {
      MulMonotone(most + 1, sum / n, n);
    }
    if sum / n + 1 <= least {
      MulMonotone(sum / n + 1, least, n);
    }
  }

  /** A smoothed value keeps its timestamp and lies between the least and the greatest value of its window. */
  lemma SmoothedIsBetween(values: seq<Slot>, radius: nat, i: nat, least: u64, most: u64)
    requires i < |values| && values[i].Some?
    requires forall j | 0 <= j < |values| && InWindow(values, radius, i, j) :: least <= values[j].value.value <= most
    ensures SmoothedAt(values, radius, i).Some?
    ensures SmoothedAt(values, radius, i).value.elapsedMs == values[i].value.elapsedMs
    ensures least <= SmoothedAt(values, radius, i).value.value <= most
  {
    WindowIsStretch(values, radius, i, i);
    var start, end := WindowStart(values, radius, i), WindowEnd(values, radius, i);
    var window := values[start..end];
    forall k | 0 <= k < |window| ensures least <= ValueOf(window[k]) <= most {
      WindowIsStretch(values, radius, i, start + k);
      assert InWindow(values, radius, i, start + k);
    }
    SumBetween(Each(window, ValueOf), least, most);
    hide SumOf;
    QuotientBetween(SumOf(window, ValueOf), |window|, least, most);
  }

  /** A smoothed value is the whole part of the mean of the values in its window, which are all there. */
  lemma SmoothedIsMean(values: seq<Slot>, radius: nat, i: nat)
    requires i < |values| && values[i].Some?
    ensures var start, end := WindowStart(values, radius, i), WindowEnd(values, radius, i);
      && start <= i < end <= |values|
      && (forall j | 0 <= j < |values| :: InWindow(values, radius, i, j) <==> start <= j < end)
      && (forall j | start <= j < end :: values[j].Some?)
      && SmoothedAt(values, radius, i).Some?
      && IsFloor(SmoothedAt(values, radius, i).value.value, SumOf(values[start..end], ValueOf), end - start)
  {
    hide InWindow, WindowStart, WindowEnd, Mean, SumOf;
    var start, end := WindowStart(values, radius, i), WindowEnd(values, radius, i);
    WindowIsStretch(values, radius, i, i);
    forall j | 0 <= j < |values|
      ensures InWindow(values, radius, i, j) <==> start <= j < end
      ensures start <= j < end ==> values[j].Some?
    {
      WindowIsStretch(values, radius, i, j);
      if InWindow(values, radius, i, j) {
        InWindowIsThere(values, radius, i, j);
      }
    }
    MeanIsFloor(SumOf(values[start..end], ValueOf), end - start);
  }

  lemma InWindowIsThere(values: seq<Slot>, radius: nat, i: nat, j: nat)
    requires i < |values| && InWindow(values, radius, i, j)
    ensures values[j].Some?
  {}

  // ---- the fast form ----

  function PointValue(p: Point): nat { p.value }

  /** The floored mean of a stretch of one segment, folded as 128-bit sums. */
  method StretchMean(segment: seq<Point>, start: nat, end: nat) returns (mean: u64)
    requires start < end <= |segment| <= U64_MAX
    ensures mean == Mean(SumOf(segment[start..end], PointValue), end - start)
  {
    hide SumOf, Mean;
    var sum: nat, count: nat := 0, 0;
    SumOfNone(PointValue);
    assert segment[start..start] == [];
    for k := start to end
      invariant count == k - start
      invariant sum == SumOf(segment[start..k], PointValue) <= count * U64_MAX
    {
      assert segment[start..k + 1] == segment[start..k] + [segment[k]];
      SumOfAppend(segment[start..k], [segment[k]], PointValue);
      SumOfOne(segment[k], PointValue);
      sum := SaturatingAdd128(sum, segment[k].value);
      count := count + 1;
    }
    mean := Mean(sum, if count > 1 then count else 1);
  }

  /** Where a segment lies in the slots. */
  predicate SegmentAt(values: seq<Slot>, offset: nat, segment: seq<Point>) {
    && segment != [] && offset + |segment| <= |values|
    && (forall k | 0 <= k < |segment| :: values[offset + k] == Some(segment[k]))
    && (offset > 0 ==> values[offset - 1].None?)
    && (offset + |segment| < |values| ==> values[offset + |segment|].None?)
  }

  lemma RunStartIs(values: seq<Slot>, start: nat, i: nat)
    requires start <= i < |values| && (forall k | start <= k <= i :: values[k].Some?)
    requires start > 0 ==> values[start - 1].None?
    ensures RunStart(values, i) == start
  {}

  lemma RunEndIs(values: seq<Slot>, i: nat, end: nat)
    requires i <= end <= |values| && (forall k | i <= k < end :: values[k].Some?)
    requires end < |values| ==> values[end].None?
    ensures RunEnd(values, i) == end
  {}

  lemma WindowOfSegment(values: seq<Slot>, radius: nat, offset: nat, segment: seq<Point>, index: nat)
    requires SegmentAt(values, offset, segment) && index < |segment|
    ensures values[offset + index] == Some(segment[index])
    ensures WindowStart(values, radius, offset + index) == offset + if index >= radius then index - radius else 0
    ensures WindowEnd(values, radius, offset + index)
         == offset + if index + radius + 1 < |segment| then index + radius + 1 else |segment|
  {
    hide RunStart, RunEnd;
    forall k | offset <= k < offset + |segment| ensures values[k].Some? {
      assert values[offset + (k - offset)] == Some(segment[k - offset]);
    }
    RunStartIs(values, offset, offset + index);
    RunEndIs(values, offset + index, offset + |segment|);
  }

  lemma StretchOfSlots(values: seq<Slot>, offset: nat, segment: seq<Point>, start: nat, end: nat)
    requires SegmentAt(values, offset, segment) && start <= end <= |segment|
    ensures Each(values[offset + start..offset + end], ValueOf) == Each(segment[start..end], PointValue)
  {
    forall k | 0 <= k < end - start
      ensures ValueOf(values[offset + start..offset + end][k]) == PointValue(segment[start..end][k])
    {
      assert values[offset + (start + k)] == Some(segment[start + k]);
    }
  }

  /** A stretch of a segment is the window of the slot it is taken for. */
  lemma StretchIsWindow(values: seq<Slot>, radius: nat, offset: nat, segment: seq<Point>, index: nat)
    requires SegmentAt(values, offset, segment) && index < |segment|
    ensures var start := if index >= radius then index - radius else 0;
      var end := if index + radius + 1 < |segment| then index + radius + 1 else |segment|;
      && start < end
      && SmoothedAt(values, radius, offset + index)
         == Some(Point(segment[index].elapsedMs, Mean(SumOf(segment[start..end], PointValue), end - start)))
  {
    hide SumOf, Mean, WindowStart, WindowEnd;
    var start := if index >= radius then index - radius else 0;
    var end := if index + radius + 1 < |segment| then index + radius + 1 else |segment|;
    WindowOfSegment(values, radius, offset, segment, index);
    StretchOfSlots(values, offset, segment, start, end);
    SameSum(values[offset + start..offset + end], segment[start..end]);
  }

  lemma SameSum(window: seq<Slot>, stretch: seq<Point>)
    requires Each(window, ValueOf) == Each(stretch, PointValue)
    ensures SumOf(window, ValueOf) == SumOf(stretch, PointValue)
  {}

  /** The first segment from an offset on, once the gap before it is skipped. */
  lemma NextSegment(values: seq<Slot>, offset: nat)
    requires offset < |values| && values[offset].Some? && (offset > 0 ==> values[offset - 1].None?)
    ensures var n := RunLength(values[offset..]);
      && Segments(values[offset..]) == [Unwrapped(values[offset..][..n])] + Segments(values[offset + n..])
      && SegmentAt(values, offset, Unwrapped(values[offset..][..n]))
  {
    var n := RunLength(values[offset..]);
    assert values[offset..][n..] == values[offset + n..];
  }

  lemma SkipsGap(values: seq<Slot>, offset: nat)
    requires offset < |values| && values[offset].None?
    ensures Segments(values[offset..]) == Segments(values[offset + 1..])
  {
    assert values[offset..][1..] == values[offset + 1..];
  }

  /** The slots written so far are smoothed, the others still empty. */
  predicate WrittenUpTo(output: seq<Slot>, values: seq<Slot>, radius: nat, n: nat) {
    && |output| == |values| && n <= |values|
    && (forall i | 0 <= i < n :: output[i] == SmoothedAt(values, radius, i))
    && forall i | n <= i < |output| :: output[i] == None
  }

  lemma WritesOne(output: seq<Slot>, values: seq<Slot>, radius: nat, n: nat)
    requires WrittenUpTo(output, values, radius, n) && n < |values|
    ensures WrittenUpTo(output[n := SmoothedAt(values, radius, n)], values, radius, n + 1)
    ensures values[n].None? ==> WrittenUpTo(output, values, radius, n + 1)
  {
    hide SmoothedAt;
    SmoothsGap(values, radius, n);
  }

  lemma SmoothsGap(values: seq<Slot>, radius: nat, n: nat)
    requires n < |values|
    ensures values[n].None? ==> SmoothedAt(values, radius, n) == None
  {}

  /** The dashboard's moving average computes the point-by-point mean. */
  method MovingAverage(values: seq<Slot>, radius: nat) returns (smoothed: seq<Slot>)
    requires |values| <= U64_MAX
    ensures smoothed == Smoothed(values, radius)
  {
    hide Segments, SmoothedAt, WrittenUpTo, SumOf, SegmentAt;
    var output := new Slot[|values|](_ => None);
    var offset: nat := 0;
    assert values[0..] == values;
    BeginWriting(output[..], values, radius);
    var segments := ContiguousSegments(values);
    for s := 0 to |segments|
      invariant offset <= |values| && WrittenUpTo(output[..], values, radius, offset)
      invariant Segments(values[offset..]) == segments[s..]
      invariant AtBreak(values, offset)
    {
      while offset < |values| && values[offset].None?
        invariant offset <= |values| && WrittenUpTo(output[..], values, radius, offset)
        invariant Segments(values[offset..]) == segments[s..]
        invariant AtBreak(values, offset)
      {
        SkipsGap(values, offset);
        WritesOne(output[..], values, radius, offset);
        offset := offset + 1;
      }
      SomeSegmentLeft(values, offset);
      NextSegment(values, offset);
      var segment := segments[s];
      assert segment == segments[s..][0] && segments[s..][1..] == segments[s + 1..];
      FitsSegment(values, offset, segment);
      SmoothSegment(output, values, radius, offset, segment);
      offset := offset + |segment|;
    }
    NothingLeft(output[..], values, radius, offset);
    smoothed := output[..];
  }

  /** Fills the slots of one segment. */
  method SmoothSegment(output: array<Slot>, ghost values: seq<Slot>, radius: nat, offset: nat, segment: seq<Point>)
    requires SegmentAt(values, offset, segment) && |values| <= U64_MAX
    requires WrittenUpTo(output[..], values, radius, offset)
    modifies output
    ensures offset + |segment| <= |values| && WrittenUpTo(output[..], values, radius, offset + |segment|)
  {
    hide SmoothedAt, WrittenUpTo, SumOf, SegmentAt, Mean;
    FitsSegment(values, offset, segment);
    SameLength(output[..], values, radius, offset);
    for index := 0 to |segment|
      invariant WrittenUpTo(output[..], values, radius, offset + index)
    {
      var start := if index >= radius then index - radius else 0;
      var end := if index + radius + 1 < |segment| then index + radius + 1 else |segment|;
      StretchIsWindow(values, radius, offset, segment, index);
      var mean := StretchMean(segment, start, end);
      ghost var before := output[..];
      WritesOne(before, values, radius, offset + index);
      output[offset + index] := Some(Point(segment[index].elapsedMs, mean));
      assert output[..] == before[offset + index := SmoothedAt(values, radius, offset + index)];
    }
  }

  lemma SameLength(output: seq<Slot>, values: seq<Slot>, radius: nat, n: nat)
    requires WrittenUpTo(output, values, radius, n)
    ensures |output| == |values|
  {}

  /** An offset between two segments: the slot before it is a gap, or the slot at it is. */
  predicate AtBreak(values: seq<Slot>, offset: nat) {
    offset <= |values| && (offset == 0 || offset == |values| || values[offset - 1].None? || values[offset].None?)
  }

  lemma BeginWriting(output: seq<Slot>, values: seq<Slot>, radius: nat)
    requires |output| == |values| && forall i | 0 <= i < |output| :: output[i] == None
    ensures WrittenUpTo(output, values, radius, 0)
  {}

  lemma SomeSegmentLeft(values: seq<Slot>, offset: nat)
    requires offset <= |values| && Segments(values[offset..]) != []
    ensures offset < |values|
  {}

  lemma FitsSegment(values: seq<Slot>, offset: nat, segment: seq<Point>)
    requires SegmentAt(values, offset, segment)
    ensures segment != [] && offset + |segment| <= |values| && AtBreak(values, offset + |segment|)
  {}

  lemma {:induction false} NoSegmentsNoPoints(values: seq<Slot>)
    requires Segments(values) == []
    ensures forall i | 0 <= i < |values| :: values[i].None?
  {
    if values != [] {
      NoSegmentsNoPoints(values[1..]);
    }
  }

  lemma NothingLeft(output: seq<Slot>, values: seq<Slot>, radius: nat, offset: nat)
    requires WrittenUpTo(output, values, radius, offset) && Segments(values[offset..]) == []
    ensures output == Smoothed(values, radius)
  {
    hide Segments;
    NoSegmentsNoPoints(values[offset..]);
    forall i | offset <= i < |values| ensures output[i] == SmoothedAt(values, radius, i) {
      assert values[offset..][i - offset].None?;
    }
  }
}
