/** Aggregation of folded CPU stacks: one line either counts everywhere it should, or nowhere. */
module FoldedProfiles {
  import opened Machine

  const MAX_FOLDED_LINES: nat := 1_000_000
  const MAX_DIAGNOSTICS: nat := 8

  // ---- one line ----

  /** One accepted line: the stack text, its non-empty frames from thread root to leaf, and its sample count. */
  datatype StackSample = StackSample(stack: string, frames: seq<string>, count: u64)
  {
    predicate WellFormed() {
      frames != [] && count > 0
    }

    function Leaf(): string
      requires frames != []
    {
      frames[|frames| - 1]
    }

    function Thread(): string
      requires frames != []
    {
      frames[0]
    }

    /** Frames counted inclusively: all but the thread root, unless it is the only one. */
    function Inclusive(): set<string> {
      var counted := if |frames| > 1 then frames[1..] else frames;
      set f | f in counted
    }
  }

  predicate EndsWith(s: string, suffix: string) {
    |suffix| <= |s| && s[|s| - |suffix|..] == suffix
  }

  predicate Contains(s: string, part: string)
    requires part != []
  {
    |part| <= |s| && (part <= s || Contains(s[1..], part))
  }

  predicate Unresolved(frame: string) {
    Contains(frame, "[unknown]") || "0x" <= frame || ("[" <= frame && Contains(frame, " <"))
  }

  predicate Kernel(frame: string) {
    EndsWith(frame, "_[k]")
  }

  /** Index of the last space. */
  function LastSpace(line: string): (at: Option<nat>)
    ensures at.Some? ==> at.value < |line| && line[at.value] == ' '
    ensures forall i | (if at.Some? then at.value + 1 else 0) <= i < |line| :: line[i] != ' '
  {
    if line == [] then None
    else if line[|line| - 1] == ' ' then Some(|line| - 1)
    else LastSpace(line[..|line| - 1])
  }

  function Digits(text: string): Option<nat> {
    if text == [] then Some(0)
    else
      var last := text[|text| - 1];
      if !('0' <= last <= '9') then None
      else
        var rest :- Digits(text[..|text| - 1]);
        Some(rest * 10 + (last as int - '0' as int))
  }

  /** `str::parse::<u64>`: at least one digit, an optional plus sign, and no overflow. */
  function ParseU64(text: string): Option<u64> {
    var digits := if text != [] && text[0] == '+' then text[1..] else text;
    if digits == [] then None
    else
      var value :- Digits(digits);
      if value > U64_MAX then None else Some(value)
  }

  /** The non-empty parts between semicolons. */
  function Frames(stack: string): seq<string> {
    FramesAfter([], stack)
  }

  function FramesAfter(current: string, rest: string): seq<string>
    decreases |rest|
  {
    if rest == [] then (if current == [] then [] else [current])
    else if rest[0] == ';' then (if current == [] then [] else [current]) + FramesAfter([], rest[1..])
    else FramesAfter(current + [rest[0]], rest[1..])
  }

  function ParseLine(line: string): (sample: Option<StackSample>)
    ensures sample.Some? ==> sample.value.WellFormed()
  {
    var at :- LastSpace(line);
    var count :- ParseU64(line[at + 1..]);
    var frames := Frames(line[..at]);
    if count == 0 || frames == [] then None else Some(StackSample(line[..at], frames, count))
  }

  // ---- the reference: sums over the accepted lines ----

  /** Total count of the accepted samples that a property selects. */
  function Weight(accepted: seq<StackSample>, selects: StackSample -> bool): nat {
    if accepted == [] then 0
    else
      var last := accepted[|accepted| - 1];
      Weight(accepted[..|accepted| - 1], selects) + if selects(last) then last.count else 0
  }

  function Everything(s: StackSample): bool { true }
  function HasStack(stack: string): StackSample -> bool { (s: StackSample) => s.stack == stack }
  function HasLeaf(frame: string): StackSample -> bool { (s: StackSample) => s.frames != [] && s.Leaf() == frame }
  function HasThread(frame: string): StackSample -> bool { (s: StackSample) => s.frames != [] && s.Thread() == frame }
  function HasFrame(frame: string): StackSample -> bool { (s: StackSample) => frame in s.Inclusive() }
  function HasKernelLeaf(s: StackSample): bool { s.frames != [] && Kernel(s.Leaf()) }
  function HasUnresolvedLeaf(s: StackSample): bool { s.frames != [] && Unresolved(s.Leaf()) }
  function HasUnresolvedFrame(s: StackSample): bool { exists f | f in s.frames :: Unresolved(f) }

  lemma WeightSnoc(accepted: seq<StackSample>, sample: StackSample, selects: StackSample -> bool)
    ensures Weight(accepted + [sample], selects)
      == Weight(accepted, selects) + if selects(sample) then sample.count else 0
  {
    assert (accepted + [sample])[..|accepted|] == accepted;
  }

  /** A property that selects more weighs more. */
  lemma {:induction false} WeightMonotone(
    accepted: seq<StackSample>, narrow: StackSample -> bool, wide: StackSample -> bool)
    requires forall s | s in accepted && narrow(s) :: wide(s)
    ensures Weight(accepted, narrow) <= Weight(accepted, wide)
  {
    if accepted != [] {
      var init, last := accepted[..|accepted| - 1], accepted[|accepted| - 1];
      assert last in accepted && forall s | s in init :: s in accepted;
      WeightMonotone(init, narrow, wide);
    }
  }

  // ---- buckets ----

  type Buckets = map<string, u64>

  function At(m: Buckets, name: string): u64 {
    if name in m then m[name] else 0
  }

  ghost function Total(m: Buckets): nat {
    if m == map[] then 0
    else
      var name :| name in m;
      m[name] + Total(m - {name})
  }

  lemma {:induction false} TotalRemove(m: Buckets, name: string)
    requires name in m
    ensures Total(m) == m[name] + Total(m - {name})
  {
    var first :| first in m && Total(m) == m[first] + Total(m - {first});
    if first != name {
      TotalRemove(m - {first}, name);
      TotalRemove(m - {name}, first);
      assert m - {first} - {name} == m - {name} - {first};
    }
  }

  lemma TotalUpdate(m: Buckets, name: string, value: u64)
    ensures Total(m[name := value]) + At(m, name) == Total(m) + value
  {
    TotalRemove(m[name := value], name);
    if name in m {
      TotalRemove(m, name);
      assert m[name := value] - {name} == m - {name};
    } else {
      assert m[name := value] - {name} == m;
    }
  }

  /** Adding a count to every name of a set, each name once. */
  ghost predicate Raised(before: Buckets, after: Buckets, names: set<string>, count: u64) {
    forall name :: At(after, name) == At(before, name) + if name in names then count else 0
  }

  method AddCount(values: Buckets, name: string, count: u64) returns (values': Buckets, ok: bool)
    ensures ok <==> At(values, name) + count <= U64_MAX
    ensures ok ==> values' == values[name := At(values, name) + count]
    ensures ok ==> Raised(values, values', {name}, count) && Total(values') == Total(values) + count
  {
    var value := At(values, name);
    values' := values[name := value];
    ok := value + count <= U64_MAX;
    if ok {
      TotalUpdate(values, name, value + count);
      assert values'[name := value + count] == values[name := value + count];
      values' := values'[name := value + count];
    }
  }

  // ---- the profile ----

  datatype Profile = Profile(
    totalSamples: u64, stackSamples: Buckets, selfSamples: Buckets, inclusiveSamples: Buckets, threadSamples: Buckets,
    kernelSamples: u64, unresolvedLeafSamples: u64, unresolvedStackSamples: u64)

  const EMPTY_PROFILE := Profile(0, map[], map[], map[], map[], 0, 0, 0)

  /** The profile is what the accepted lines sum up to. */
  ghost predicate Represents(p: Profile, accepted: seq<StackSample>) {
    && p.totalSamples == Weight(accepted, Everything)
    && (forall stack :: At(p.stackSamples, stack) == Weight(accepted, HasStack(stack)))
    && (forall frame :: At(p.selfSamples, frame) == Weight(accepted, HasLeaf(frame)))
    && (forall frame :: At(p.threadSamples, frame) == Weight(accepted, HasThread(frame)))
    && (forall frame :: At(p.inclusiveSamples, frame) == Weight(accepted, HasFrame(frame)))
    && p.kernelSamples == Weight(accepted, HasKernelLeaf)
    && p.unresolvedLeafSamples == Weight(accepted, HasUnresolvedLeaf)
    && p.unresolvedStackSamples == Weight(accepted, HasUnresolvedFrame)
  }

  /** Stacks, leaves and threads each partition the samples. */
  ghost predicate Partitions(p: Profile) {
    Total(p.stackSamples) == Total(p.selfSamples) == Total(p.threadSamples) == p.totalSamples
  }

  /** No counter exceeds the checked total, so none of them can overflow on its own. */
  lemma NothingExceedsTotal(p: Profile, accepted: seq<StackSample>)
    requires Represents(p, accepted)
    ensures forall name ::
      && At(p.stackSamples, name) <= p.totalSamples && At(p.selfSamples, name) <= p.totalSamples
      && At(p.threadSamples, name) <= p.totalSamples && At(p.inclusiveSamples, name) <= p.totalSamples
    ensures p.kernelSamples <= p.totalSamples && p.unresolvedLeafSamples <= p.totalSamples
    ensures p.unresolvedStackSamples <= p.totalSamples
  {
    hide Weight;
    forall name
      ensures At(p.stackSamples, name) <= p.totalSamples && At(p.selfSamples, name) <= p.totalSamples
      ensures At(p.threadSamples, name) <= p.totalSamples && At(p.inclusiveSamples, name) <= p.totalSamples
    {
      WeightMonotone(accepted, HasStack(name), Everything);
      WeightMonotone(accepted, HasLeaf(name), Everything);
      WeightMonotone(accepted, HasThread(name), Everything);
      WeightMonotone(accepted, HasFrame(name), Everything);
    }
    WeightMonotone(accepted, HasKernelLeaf, Everything);
    WeightMonotone(accepted, HasUnresolvedLeaf, Everything);
    WeightMonotone(accepted, HasUnresolvedFrame, Everything);
  }

  method AddInclusive(values: Buckets, names: set<string>, count: u64) returns (values': Buckets)
    requires forall name | name in names :: At(values, name) + count <= U64_MAX
    ensures Raised(values, values', names, count)
  {
    values' := values;
    var left := names;
    while left != {}
      invariant left <= names && Raised(values, values', names - left, count)
      decreases left
    {
      var name :| name in left;
      var ok;
      values', ok := AddCount(values', name, count);
      assert ok;
      left := left - {name};
    }
  }

  /** What one more sample does to the reference sums. */
  lemma SampleRaises(p: Profile, p': Profile, accepted: seq<StackSample>, s: StackSample)
    requires Represents(p, accepted) && s.WellFormed()
    requires p'.totalSamples == p.totalSamples + s.count
    requires Raised(p.stackSamples, p'.stackSamples, {s.stack}, s.count)
    requires Raised(p.selfSamples, p'.selfSamples, {s.Leaf()}, s.count)
    requires Raised(p.threadSamples, p'.threadSamples, {s.Thread()}, s.count)
    requires Raised(p.inclusiveSamples, p'.inclusiveSamples, s.Inclusive(), s.count)
    requires p'.kernelSamples == p.kernelSamples + if HasKernelLeaf(s) then s.count else 0
    requires p'.unresolvedLeafSamples == p.unresolvedLeafSamples + if HasUnresolvedLeaf(s) then s.count else 0
    requires p'.unresolvedStackSamples == p.unresolvedStackSamples + if HasUnresolvedFrame(s) then s.count else 0
    ensures Represents(p', accepted + [s])
  {
    hide Weight, HasKernelLeaf, HasUnresolvedLeaf, HasUnresolvedFrame;
    WeightSnoc(accepted, s, Everything);
    WeightSnoc(accepted, s, HasKernelLeaf);
    WeightSnoc(accepted, s, HasUnresolvedLeaf);
    WeightSnoc(accepted, s, HasUnresolvedFrame);
    forall name
      ensures At(p'.stackSamples, name) == Weight(accepted + [s], HasStack(name))
      ensures At(p'.selfSamples, name) == Weight(accepted + [s], HasLeaf(name))
      ensures At(p'.threadSamples, name) == Weight(accepted + [s], HasThread(name))
      ensures At(p'.inclusiveSamples, name) == Weight(accepted + [s], HasFrame(name))
    {
      WeightSnoc(accepted, s, HasStack(name));
      WeightSnoc(accepted, s, HasLeaf(name));
      WeightSnoc(accepted, s, HasThread(name));
      WeightSnoc(accepted, s, HasFrame(name));
    }
  }

  ghost predicate BucketsAdded(p: Profile, p': Profile, s: StackSample)
    requires s.frames != []
  {
    && p'.totalSamples == p.totalSamples + s.count
    && Raised(p.stackSamples, p'.stackSamples, {s.stack}, s.count)
    && Raised(p.selfSamples, p'.selfSamples, {s.Leaf()}, s.count)
    && Raised(p.threadSamples, p'.threadSamples, {s.Thread()}, s.count)
    && Raised(p.inclusiveSamples, p'.inclusiveSamples, s.Inclusive(), s.count)
    && Total(p'.stackSamples) == Total(p.stackSamples) + s.count
    && Total(p'.selfSamples) == Total(p.selfSamples) + s.count
    && Total(p'.threadSamples) == Total(p.threadSamples) + s.count
    && p'.kernelSamples == p.kernelSamples && p'.unresolvedLeafSamples == p.unresolvedLeafSamples
    && p'.unresolvedStackSamples == p.unresolvedStackSamples
  }

  predicate MarksAdded(p: Profile, p': Profile, s: StackSample) {
    && p'.kernelSamples == p.kernelSamples + (if HasKernelLeaf(s) then s.count else 0)
    && p'.unresolvedLeafSamples == p.unresolvedLeafSamples + (if HasUnresolvedLeaf(s) then s.count else 0)
    && p'.unresolvedStackSamples == p.unresolvedStackSamples + (if HasUnresolvedFrame(s) then s.count else 0)
    && p' == p.(kernelSamples := p'.kernelSamples, unresolvedLeafSamples := p'.unresolvedLeafSamples,
                unresolvedStackSamples := p'.unresolvedStackSamples)
  }

  lemma MarksFit(p: Profile, accepted: seq<StackSample>, s: StackSample)
    requires Represents(p, accepted) && p.totalSamples + s.count <= U64_MAX
    ensures p.kernelSamples + s.count <= U64_MAX && p.unresolvedLeafSamples + s.count <= U64_MAX
    ensures p.unresolvedStackSamples + s.count <= U64_MAX
  {
    hide Represents;
    NothingExceedsTotal(p, accepted);
  }

  lemma BucketsLeaveMarks(p: Profile, p': Profile, s: StackSample)
    requires s.frames != [] && BucketsAdded(p, p', s)
    ensures p'.kernelSamples == p.kernelSamples && p'.unresolvedLeafSamples == p.unresolvedLeafSamples
    ensures p'.unresolvedStackSamples == p.unresolvedStackSamples
  {
    hide Raised, Total;
  }

  lemma SampleCounts(p: Profile, between: Profile, p': Profile, accepted: seq<StackSample>, s: StackSample)
    requires Represents(p, accepted) && Partitions(p) && s.WellFormed()
    requires BucketsAdded(p, between, s) && MarksAdded(between, p', s)
    ensures Represents(p', accepted + [s]) && Partitions(p')
  {
    hide Represents, Raised, Total, HasKernelLeaf, HasUnresolvedLeaf, HasUnresolvedFrame;
    SampleRaises(p, p', accepted, s);
  }

  class FoldedProfile {
    var totalSamples: u64
    var stackSamples: Buckets
    var selfSamples: Buckets
    var inclusiveSamples: Buckets
    var threadSamples: Buckets
    var kernelSamples: u64
    var unresolvedLeafSamples: u64
    var unresolvedStackSamples: u64
    var malformedLines: nat
    var diagnostics: seq<nat>

    ghost var accepted: seq<StackSample>

    function Value(): Profile
      reads this
    {
      Profile(totalSamples, stackSamples, selfSamples, inclusiveSamples, threadSamples, kernelSamples,
              unresolvedLeafSamples, unresolvedStackSamples)
    }

    ghost predicate Valid()
      reads this
    {
      Represents(Value(), accepted) && Partitions(Value()) && forall s | s in accepted :: s.WellFormed()
    }

    constructor ()
      ensures Valid() && accepted == [] && Value() == EMPTY_PROFILE && malformedLines == 0 && diagnostics == []
    {
      totalSamples, stackSamples, selfSamples, inclusiveSamples, threadSamples := 0, map[], map[], map[], map[];
      kernelSamples, unresolvedLeafSamples, unresolvedStackSamples := 0, 0, 0;
      malformedLines, diagnostics, accepted := 0, [], [];
    }

    /** All or nothing: a line is refused with no trace, or counted in every bucket it belongs to. */
    method AddLine(line: string) returns (ok: bool)
      requires Valid()
      modifies this
      ensures Valid() && malformedLines == old(malformedLines) && diagnostics == old(diagnostics)
      ensures ok <==> ParseLine(line).Some? && old(totalSamples) + ParseLine(line).value.count <= U64_MAX
      ensures accepted == old(accepted) + if ok then [ParseLine(line).value] else []
      ensures !ok ==> Value() == old(Value())
    {
      hide Weight, ParseLine, Represents, BucketsAdded, MarksAdded, Partitions;
      var parsed := ParseLine(line);
      if parsed.None? {
        return false;
      }
      var sample := parsed.value;
      if totalSamples + sample.count > U64_MAX {
        return false;
      }
      ghost var before := Value();
      NothingExceedsTotal(before, accepted);
      MarksFit(before, accepted, sample);
      AddBuckets(sample);
      BucketsLeaveMarks(before, Value(), sample);
      ghost var between := Value();
      AddMarks(sample);
      SampleCounts(before, between, Value(), accepted, sample);
      accepted := accepted + [sample];
      return true;
    }

    /** The total and the maps. Once the total has room for the count, so has every bucket. */
    method AddBuckets(sample: StackSample)
      requires Represents(Value(), accepted) && sample.WellFormed() && totalSamples + sample.count <= U64_MAX
      modifies this`totalSamples, this`stackSamples, this`selfSamples, this`threadSamples, this`inclusiveSamples
      ensures BucketsAdded(old(Value()), Value(), sample)
    {
      hide Represents, Raised, Total, At, StackSample.Inclusive;
      NothingExceedsTotal(Value(), accepted);
      totalSamples := totalSamples + sample.count;
      var fits;
      stackSamples, fits := AddCount(stackSamples, sample.stack, sample.count);
      assert fits;
      selfSamples, fits := AddCount(selfSamples, sample.Leaf(), sample.count);
      assert fits;
      threadSamples, fits := AddCount(threadSamples, sample.Thread(), sample.count);
      assert fits;
      inclusiveSamples := AddInclusive(inclusiveSamples, sample.Inclusive(), sample.count);
    }

    /** The counters of marked stacks. */
    method AddMarks(sample: StackSample)
      requires sample.WellFormed()
      requires kernelSamples + sample.count <= U64_MAX && unresolvedLeafSamples + sample.count <= U64_MAX
      requires unresolvedStackSamples + sample.count <= U64_MAX
      modifies this`kernelSamples, this`unresolvedLeafSamples, this`unresolvedStackSamples
      ensures MarksAdded(old(Value()), Value(), sample)
    {
      hide Kernel, Unresolved;
      if Kernel(sample.Leaf()) {
        kernelSamples := kernelSamples + sample.count;
      }
      if Unresolved(sample.Leaf()) {
        unresolvedLeafSamples := unresolvedLeafSamples + sample.count;
      }
      if HasUnresolvedFrame(sample) {
        unresolvedStackSamples := unresolvedStackSamples + sample.count;
      }
    }

    /** Parses a profile line by line (the lines already trimmed); refused lines are counted and the first few noted. */
    method Parse(lines: seq<string>) returns (ok: bool)
      requires Valid() && accepted == [] && malformedLines == 0 && diagnostics == []
      modifies this
      ensures ok <==> |lines| <= MAX_FOLDED_LINES
      ensures Valid()
      ensures ok ==>
        && accepted == AcceptedLines(lines)
        && malformedLines == |RefusedLines(lines)| == NonEmptyLines(lines) - |accepted|
        && diagnostics == FirstOf(RefusedLines(lines), MAX_DIAGNOSTICS)
    {
      hide Weight, ParseLine, Represents, Partitions, Accepts;
      for i := 0 to |lines|
        invariant Valid() && i <= MAX_FOLDED_LINES
        invariant accepted == AcceptedLines(lines[..i]) && malformedLines + |accepted| == NonEmptyLines(lines[..i])
        invariant malformedLines == |RefusedLines(lines[..i])|
        invariant diagnostics == FirstOf(RefusedLines(lines[..i]), MAX_DIAGNOSTICS)
      {
        if i >= MAX_FOLDED_LINES {
          return false;
        }
        NextLine(lines, i);
        if lines[i] == [] {
          continue;
        }
        TotalAccepts(Value(), accepted, lines[i]);
        var added := AddLine(lines[i]);
        if !added {
          malformedLines := malformedLines + 1;
          if |diagnostics| < MAX_DIAGNOSTICS {
            diagnostics := diagnostics + [i + 1];
          }
        }
      }
      assert lines[..|lines|] == lines;
      return true;
    }
  }

  /**
   * What the line at an index adds to the accepted samples, to the refused lines and to the lines that hold
   * something.
   */
  lemma NextLine(lines: seq<string>, i: nat)
    requires i < |lines|
    ensures
      var before, upTo, line := lines[..i], lines[..i + 1], lines[i];
      var counts := Accepts(AcceptedLines(before), line);
      && (line == [] ==> !counts)
      && (counts ==> ParseLine(line).Some?)
      && AcceptedLines(upTo) == AcceptedLines(before) + (if counts then [ParseLine(line).value] else [])
      && RefusedLines(upTo) == RefusedLines(before) + (if line != [] && !counts then [i + 1] else [])
      && NonEmptyLines(upTo) == NonEmptyLines(before) + if line != [] then 1 else 0
  {
    assert lines[..i + 1][..i] == lines[..i];
  }

  lemma TotalAccepts(p: Profile, accepted: seq<StackSample>, line: string)
    requires Represents(p, accepted) && line != []
    ensures Accepts(accepted, line)
      <==> ParseLine(line).Some? && p.totalSamples + ParseLine(line).value.count <= U64_MAX
  {
    hide ParseLine;
  }

  /** A line counts if it parses and does not push the total of those before it beyond 64 bits. */
  predicate Accepts(accepted: seq<StackSample>, line: string) {
    var parsed := ParseLine(line);
    line != [] && parsed.Some? && Weight(accepted, Everything) + parsed.value.count <= U64_MAX
  }

  /** The samples of the lines that count. */
  function AcceptedLines(lines: seq<string>): seq<StackSample> {
    if lines == [] then []
    else
      var before, last := AcceptedLines(lines[..|lines| - 1]), lines[|lines| - 1];
      if Accepts(before, last) then before + [ParseLine(last).value] else before
  }

  /** Numbers of the lines that hold something but do not count, in order, the first line being number one. */
  function RefusedLines(lines: seq<string>): seq<nat> {
    if lines == [] then []
    else
      var before, last := RefusedLines(lines[..|lines| - 1]), lines[|lines| - 1];
      if last != [] && !Accepts(AcceptedLines(lines[..|lines| - 1]), last) then before + [|lines|] else before
  }

  function FirstOf(numbers: seq<nat>, limit: nat): seq<nat> {
    if |numbers| <= limit then numbers else numbers[..limit]
  }

  function NonEmptyLines(lines: seq<string>): nat {
    if lines == [] then 0 else NonEmptyLines(lines[..|lines| - 1]) + if lines[|lines| - 1] != [] then 1 else 0
  }

  /**
   * The invariants of a profile: the partitions add up, self cost is part of inclusive cost, and unresolved leaves are
   * part of the unresolved stacks.
   */
  lemma ProfileInvariants(p: Profile, accepted: seq<StackSample>, frame: string)
    requires Represents(p, accepted) && forall s | s in accepted :: s.WellFormed()
    ensures At(p.selfSamples, frame) <= At(p.inclusiveSamples, frame) <= p.totalSamples
    ensures At(p.threadSamples, frame) <= p.totalSamples
    ensures p.unresolvedLeafSamples <= p.unresolvedStackSamples <= p.totalSamples
    ensures p.kernelSamples <= p.totalSamples
  {
    hide Weight, Unresolved;
    NothingExceedsTotal(p, accepted);
    forall s | s in accepted && HasLeaf(frame)(s) ensures HasFrame(frame)(s) {
      LeafIsCounted(s);
    }
    WeightMonotone(accepted, HasLeaf(frame), HasFrame(frame));
    forall s | s in accepted && HasUnresolvedLeaf(s) ensures HasUnresolvedFrame(s) {
      assert s.Leaf() in s.frames;
    }
    WeightMonotone(accepted, HasUnresolvedLeaf, HasUnresolvedFrame);
  }

  lemma LeafIsCounted(s: StackSample)
    requires s.WellFormed()
    ensures s.Leaf() in s.Inclusive()
  {
    if |s.frames| > 1 {
      assert s.frames[1..][|s.frames| - 2] == s.Leaf();
    }
  }
}
