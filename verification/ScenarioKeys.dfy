/** The order in which runs are paired: scenario keys, the unstable sort, and the removal of equal neighbours. */
module ScenarioKeys {
  import opened Machine
  import opened Workload
  import opened Sums

  // ---- the sort key ----

  function Rank(spec: ScenarioSpec): nat {
    match spec
    case Smoke(_, _) => 0
    case AudioMesh(_, _, _) => 1
    case VideoGallery(_, _, _, _) => 2
    case MixedConference(_, _, _, _, _) => 3
  }

  /** Planned deliveries, or zero when the specification has no plan. */
  function PlannedDeliveries(spec: ScenarioSpec): nat {
    var plan := spec.Plan();
    if plan.Ok? then plan.value.expectedDeliveries else 0
  }

  function PerSecond(deliveries: nat, seconds: nat): nat {
    if seconds == 0 then deliveries else deliveries / seconds
  }

  function ScenarioKey(spec: ScenarioSpec): (key: seq<nat>)
    ensures |key| == 8
  {
    var deliveries := PlannedDeliveries(spec);
    [Rank(spec), PerSecond(deliveries, spec.DurationSeconds()), deliveries, spec.RoomCount(), spec.PeersPerRoom(),
     spec.AudioPublishersPerRoom(), spec.VideoPublishersPerRoom(), spec.DurationSeconds()]
  }

  /** The second part of a key is the whole number of deliveries a second, or all of them in a run of no seconds. */
  lemma KeyHoldsRate(spec: ScenarioSpec)
    ensures var deliveries, seconds, rate := PlannedDeliveries(spec), spec.DurationSeconds(), ScenarioKey(spec)[1];
      && ScenarioKey(spec)[2] == deliveries
      && (if seconds == 0 then rate == deliveries
          else rate * seconds <= deliveries < (rate + 1) * seconds)
  {
    hide PlannedDeliveries, Rank;
    var deliveries, seconds := PlannedDeliveries(spec), spec.DurationSeconds();
    if seconds != 0 {
      assert deliveries == deliveries / seconds * seconds + deliveries % seconds;
    }
  }

  /** A smoke plan exists unless it has no routes or its delivery bytes leave 64 bits. */
  lemma SmokeDeliveries(receivers: u32, packets: u32)
    ensures Smoke(receivers, packets).Plan().Ok? <==> receivers > 0 && receivers * packets * AUDIO_BYTES <= U64_MAX
    ensures Smoke(receivers, packets).Plan().Ok? ==> PlannedDeliveries(Smoke(receivers, packets)) == receivers * packets
  {
    assert receivers * packets <= 0xFFFF_FFFF * 0xFFFF_FFFF by {
      ProductBound(receivers, packets);
    }
  }

  lemma ProductBound(a: u32, b: u32)
    ensures a * b <= 0xFFFF_FFFF * 0xFFFF_FFFF
  {
    MulMonotone(a, 0xFFFF_FFFF, b);
    MulMonotone(b, 0xFFFF_FFFF, 0xFFFF_FFFF);
  }

  /**
   * Exactly when two different specifications share a key: both are smoke runs of the same receivers and the same whole
   * seconds, and neither of them has a plan.
   */
  lemma KeyCollisions(a: ScenarioSpec, b: ScenarioSpec)
    ensures ScenarioKey(a) == ScenarioKey(b) && a != b <==>
      && a.Smoke? && b.Smoke? && a.receivers == b.receivers && a.packets != b.packets
      && a.Plan().Err? && b.Plan().Err? && a.DurationSeconds() == b.DurationSeconds()
  {
    hide ScenarioSpec.Plan;
    KeyFields(a);
    KeyFields(b);
    hide ScenarioKey, PlannedDeliveries;
    if a.Smoke? && b.Smoke? {
      SmokeKeys(a, b);
    } else if ScenarioKey(a) == ScenarioKey(b) {
      assert Rank(a) == ScenarioKey(a)[0] == ScenarioKey(b)[0] == Rank(b);
      assert a == b;
    }
  }

  lemma SmokeKeyEquality(a: ScenarioSpec, b: ScenarioSpec)
    requires a.Smoke? && b.Smoke?
    ensures ScenarioKey(a) == ScenarioKey(b) <==>
      a.receivers == b.receivers && a.DurationSeconds() == b.DurationSeconds()
        && PlannedDeliveries(a) == PlannedDeliveries(b)
  {
    hide ScenarioSpec.Plan, PlannedDeliveries, ScenarioKey;
    KeyFields(a);
    KeyFields(b);
    if a.receivers == b.receivers && a.DurationSeconds() == b.DurationSeconds()
      && PlannedDeliveries(a) == PlannedDeliveries(b) {
      SameKey(a, b);
    }
  }

  lemma SameKey(a: ScenarioSpec, b: ScenarioSpec)
    requires a.Smoke? && b.Smoke? && a.receivers == b.receivers && a.DurationSeconds() == b.DurationSeconds()
    requires PlannedDeliveries(a) == PlannedDeliveries(b)
    ensures ScenarioKey(a) == ScenarioKey(b)
  {
    hide ScenarioSpec.Plan, PlannedDeliveries;
  }

  lemma PositiveProduct(a: nat, b: nat)
    ensures a > 0 && b > 0 ==> a * b > 0
  {}

  lemma NoZeroProduct(a: nat, b: nat, c: nat)
    requires a > 0 && a * b == a * c
    ensures b == c
  {}

  lemma SmokeKeys(a: ScenarioSpec, b: ScenarioSpec)
    requires a.Smoke? && b.Smoke?
    ensures ScenarioKey(a) == ScenarioKey(b) && a != b <==>
      && a.receivers == b.receivers && a.packets != b.packets
      && a.Plan().Err? && b.Plan().Err? && a.DurationSeconds() == b.DurationSeconds()
  {
    SmokeDeliveries(a.receivers, a.packets);
    SmokeDeliveries(b.receivers, b.packets);
    SmokeKeyEquality(a, b);
    hide ScenarioKey, ScenarioSpec.Plan;
    if a.receivers == b.receivers && a.receivers > 0 {
      if a.receivers * a.packets == a.receivers * b.packets {
        NoZeroProduct(a.receivers, a.packets, b.packets);
      }
      PositiveProduct(a.receivers, a.packets);
      PositiveProduct(b.receivers, b.packets);
    }
  }

  lemma KeyFields(spec: ScenarioSpec)
    ensures var key := ScenarioKey(spec);
      && key[0] == Rank(spec) && key[2] == PlannedDeliveries(spec) && key[3] == spec.RoomCount()
      && key[4] == spec.PeersPerRoom() && key[5] == spec.AudioPublishersPerRoom()
      && key[6] == spec.VideoPublishersPerRoom() && key[7] == spec.DurationSeconds()
  {}

  // ---- sorting by key, and dropping neighbours that are equal ----

  /** Lexicographic order of keys. */
  predicate KeyAtMost(a: seq<nat>, b: seq<nat>) {
    a == [] || (b != [] && (a[0] < b[0] || (a[0] == b[0] && KeyAtMost(a[1..], b[1..]))))
  }

  lemma {:induction false} KeysAreTotal(a: seq<nat>, b: seq<nat>)
    ensures KeyAtMost(a, b) || KeyAtMost(b, a)
    ensures KeyAtMost(a, b) && KeyAtMost(b, a) <==> a == b
  {
    if a != [] && b != [] && a[0] == b[0] {
      KeysAreTotal(a[1..], b[1..]);
      assert a == [a[0]] + a[1..] && b == [b[0]] + b[1..];
    } else if a == [] && b == [] {
    }
  }

  lemma {:induction false} KeysAreTransitive(a: seq<nat>, b: seq<nat>, c: seq<nat>)
    requires KeyAtMost(a, b) && KeyAtMost(b, c)
    ensures KeyAtMost(a, c)
  {
    if a != [] && a[0] == b[0] == c[0] {
      KeysAreTransitive(a[1..], b[1..], c[1..]);
    }
  }

  predicate AtMost(a: ScenarioSpec, b: ScenarioSpec) {
    KeyAtMost(ScenarioKey(a), ScenarioKey(b))
  }

  lemma AtMostIsOrder(a: ScenarioSpec, b: ScenarioSpec, c: ScenarioSpec)
    ensures AtMost(a, b) || AtMost(b, a)
    ensures AtMost(a, b) && AtMost(b, a) <==> ScenarioKey(a) == ScenarioKey(b)
    ensures AtMost(a, b) && AtMost(b, c) ==> AtMost(a, c)
  {
    KeysAreTotal(ScenarioKey(a), ScenarioKey(b));
    if AtMost(a, b) && AtMost(b, c) {
      KeysAreTransitive(ScenarioKey(a), ScenarioKey(b), ScenarioKey(c));
    }
  }

  /** Smoke runs come first, then meshes, galleries and conferences, and within a kind the slower runs. */
  predicate ComesBefore(a: ScenarioSpec, b: ScenarioSpec) {
    || (a.Smoke? && !b.Smoke?)
    || (a.AudioMesh? && (b.VideoGallery? || b.MixedConference?))
    || (a.VideoGallery? && b.MixedConference?)
    || (SameKind(a, b) && ScenarioKey(a)[1] < ScenarioKey(b)[1])
  }

  predicate SameKind(a: ScenarioSpec, b: ScenarioSpec) {
    a.Smoke? == b.Smoke? && a.AudioMesh? == b.AudioMesh? && a.VideoGallery? == b.VideoGallery?
  }

  lemma KeysSortKinds(a: ScenarioSpec, b: ScenarioSpec)
    requires ComesBefore(a, b)
    ensures AtMost(a, b) && !AtMost(b, a)
  {
    hide PlannedDeliveries, PerSecond;
    var x, y := ScenarioKey(a), ScenarioKey(b);
    assert x[1..][0] == x[1] && y[1..][0] == y[1];
    if SameKind(a, b) {
      assert x[0] == y[0];
      SecondDecides(x, y);
    } else {
      assert x[0] < y[0];
    }
  }

  lemma SecondDecides(x: seq<nat>, y: seq<nat>)
    requires |x| == |y| >= 2 && x[0] == y[0] && x[1] < y[1]
    ensures KeyAtMost(x, y) && !KeyAtMost(y, x)
  {
    var x', y' := x[1..], y[1..];
    assert x'[0] < y'[0];
    assert KeyAtMost(x', y') && !KeyAtMost(y', x');
  }

  predicate SortedByKey(specs: seq<ScenarioSpec>) {
    forall i, j | 0 <= i < j < |specs| :: AtMost(specs[i], specs[j])
  }

  /** What an unstable sort may return: any rearrangement in key order. */
  predicate SortOf(specs: seq<ScenarioSpec>, sorted: seq<ScenarioSpec>) {
    multiset(sorted) == multiset(specs) && SortedByKey(sorted)
  }

  /** `dedup`: of equal neighbours only the first stays. */
  function Dedup(specs: seq<ScenarioSpec>): seq<ScenarioSpec> {
    if |specs| <= 1 then specs
    else
      var init, last := specs[..|specs| - 1], specs[|specs| - 1];
      if last == init[|init| - 1] then Dedup(init) else Dedup(init) + [last]
  }

  lemma {:induction false} DedupKeeps(specs: seq<ScenarioSpec>)
    ensures forall spec :: spec in Dedup(specs) <==> spec in specs
    ensures specs != [] ==> Dedup(specs) != [] && Dedup(specs)[|Dedup(specs)| - 1] == specs[|specs| - 1]
  {
    if |specs| > 1 {
      var init, last := specs[..|specs| - 1], specs[|specs| - 1];
      DedupKeeps(init);
      assert specs == init + [last];
      assert init[|init| - 1] in init;
    }
  }

  predicate NoneTwice(specs: seq<ScenarioSpec>) {
    forall i, j | 0 <= i < j < |specs| :: specs[i] != specs[j]
  }

  /** Within a sorted list, specifications of one key that occurs with one value only stand together. */
  predicate RepeatsHaveOwnKey(specs: seq<ScenarioSpec>) {
    forall a, b | a in specs && b in specs && multiset(specs)[a] >= 2 && ScenarioKey(a) == ScenarioKey(b) :: a == b
  }

  lemma {:induction false} DedupOfSorted(specs: seq<ScenarioSpec>)
    requires SortedByKey(specs) && RepeatsHaveOwnKey(specs)
    ensures NoneTwice(Dedup(specs))
  {
    hide ScenarioKey, KeyAtMost;
    if |specs| > 1 {
      var init, last := specs[..|specs| - 1], specs[|specs| - 1];
      assert specs == init + [last];
      RepeatsInPrefix(init, last);
      if last in init {
        SeenMeansNeighbour(init, last);
      }
      hide SortedByKey, RepeatsHaveOwnKey;
      assert SortedByKey(init) by { SortedPrefix(init, last); }
      DedupOfSorted(init);
      DedupKeeps(init);
    }
  }

  lemma SortedPrefix(init: seq<ScenarioSpec>, last: ScenarioSpec)
    requires SortedByKey(init + [last])
    ensures SortedByKey(init)
  {
    hide AtMost;
    var all := init + [last];
    forall i, j | 0 <= i < j < |init| ensures AtMost(init[i], init[j]) {
      assert AtMost(all[i], all[j]);
    }
  }

  /** A specification seen before is the neighbour. */
  lemma SeenMeansNeighbour(init: seq<ScenarioSpec>, last: ScenarioSpec)
    requires SortedByKey(init + [last]) && RepeatsHaveOwnKey(init + [last]) && last in init
    ensures last == init[|init| - 1]
  {
    hide AtMost, ScenarioKey;
    var all, before := init + [last], init[|init| - 1];
    var i :| 0 <= i < |init| && init[i] == last;
    AtMostIsOrder(last, before, last);
    assert all[i] == last && all[|init| - 1] == before && all[|init|] == last;
    assert AtMost(before, last) && (i < |init| - 1 ==> AtMost(last, before));
    assert multiset(all) == multiset(init) + multiset{last};
    assert last in multiset(init);
    assert before in all && last in all;
  }

  lemma RepeatsInPrefix(init: seq<ScenarioSpec>, last: ScenarioSpec)
    requires RepeatsHaveOwnKey(init + [last])
    ensures RepeatsHaveOwnKey(init)
  {
    hide ScenarioKey;
    assert multiset(init + [last]) == multiset(init) + multiset{last};
  }

  function Inserted(sorted: seq<ScenarioSpec>, x: ScenarioSpec): seq<ScenarioSpec> {
    if sorted == [] || AtMost(sorted[|sorted| - 1], x) then sorted + [x]
    else Inserted(sorted[..|sorted| - 1], x) + [sorted[|sorted| - 1]]
  }

  function KeySorted(specs: seq<ScenarioSpec>): seq<ScenarioSpec> {
    if specs == [] then [] else Inserted(KeySorted(specs[..|specs| - 1]), specs[|specs| - 1])
  }

  lemma Appended(init: seq<ScenarioSpec>, last: ScenarioSpec)
    requires SortedByKey(init) && forall x | x in init :: AtMost(x, last)
    ensures SortedByKey(init + [last])
  {
    hide AtMost;
  }

  lemma {:induction false} InsertKeepsOrder(sorted: seq<ScenarioSpec>, x: ScenarioSpec)
    requires SortedByKey(sorted)
    ensures SortedByKey(Inserted(sorted, x)) && multiset(Inserted(sorted, x)) == multiset(sorted) + multiset{x}
  {
    hide AtMost;
    if sorted != [] {
      var init, last := sorted[..|sorted| - 1], sorted[|sorted| - 1];
      assert sorted == init + [last];
      SortedPrefix(init, last);
      AtMostIsOrder(last, x, x);
      if AtMost(last, x) {
        forall y | y in sorted ensures AtMost(y, x) {
          BelowLast(init, last, y);
          AtMostIsOrder(y, last, x);
        }
        Appended(sorted, x);
      } else {
        InsertKeepsOrder(init, x);
        forall y | y in Inserted(init, x) ensures AtMost(y, last) {
          assert y in multiset(Inserted(init, x));
          if y != x {
            BelowLast(init, last, y);
          }
        }
        Appended(Inserted(init, x), last);
      }
    }
  }

  lemma BelowLast(init: seq<ScenarioSpec>, last: ScenarioSpec, y: ScenarioSpec)
    requires SortedByKey(init + [last]) && y in init + [last]
    ensures AtMost(y, last)
  {
    hide AtMost;
    var all := init + [last];
    var i :| 0 <= i < |all| && all[i] == y;
    AtMostIsOrder(last, last, last);
    assert i < |init| ==> AtMost(all[i], all[|init|]);
  }

  /** There is always a rearrangement in key order. */
  lemma {:induction false} KeySortedIsSort(specs: seq<ScenarioSpec>)
    ensures SortOf(specs, KeySorted(specs))
  {
    hide SortedByKey, Inserted;
    if specs == [] {
      assert SortedByKey([]) by { NothingToSort(); }
    } else {
      var init, last := specs[..|specs| - 1], specs[|specs| - 1];
      KeySortedIsSort(init);
      InsertKeepsOrder(KeySorted(init), last);
      assert specs == init + [last];
    }
  }

  lemma NothingToSort()
    ensures SortedByKey([])
  {}

  function Without(specs: seq<ScenarioSpec>, x: ScenarioSpec): (rest: seq<ScenarioSpec>)
    requires x in specs
    ensures multiset(rest) == multiset(specs) - multiset{x}
  {
    assert specs == specs[..|specs| - 1] + [specs[|specs| - 1]];
    if specs[|specs| - 1] == x then specs[..|specs| - 1] else Without(specs[..|specs| - 1], x) + [specs[|specs| - 1]]
  }

  /** The part of a list on one side of a key. */
  function Side(specs: seq<ScenarioSpec>, pivot: ScenarioSpec, above: bool): seq<ScenarioSpec> {
    if specs == [] then []
    else
      var rest, last := Side(specs[..|specs| - 1], pivot, above), specs[|specs| - 1];
      if AtMost(pivot, last) == above then rest + [last] else rest
  }

  lemma {:induction false} SidesSplit(specs: seq<ScenarioSpec>, pivot: ScenarioSpec)
    requires SortedByKey(specs)
    ensures multiset(Side(specs, pivot, false)) + multiset(Side(specs, pivot, true)) == multiset(specs)
    ensures SortedByKey(Side(specs, pivot, false)) && SortedByKey(Side(specs, pivot, true))
    ensures forall x | x in Side(specs, pivot, false) :: x in specs && !AtMost(pivot, x)
    ensures forall x | x in Side(specs, pivot, true) :: x in specs && AtMost(pivot, x)
  {
    hide AtMost;
    if specs != [] {
      var init, last := specs[..|specs| - 1], specs[|specs| - 1];
      assert specs == init + [last];
      SortedPrefix(init, last);
      SidesSplit(init, pivot);
      forall y | y in init ensures AtMost(y, last) {
        BelowLast(init, last, y);
      }
      Appended(Side(init, pivot, AtMost(pivot, last)), last);
    }
  }

  /** A list in key order with `middle`, all of one key, between the specifications below and above it. */
  lemma MiddleFits(low: seq<ScenarioSpec>, middle: seq<ScenarioSpec>, high: seq<ScenarioSpec>, pivot: ScenarioSpec)
    requires SortedByKey(low) && SortedByKey(high)
    requires forall x | x in middle :: ScenarioKey(x) == ScenarioKey(pivot)
    requires (forall x | x in low :: !AtMost(pivot, x)) && forall x | x in high :: AtMost(pivot, x)
    ensures SortedByKey(low + middle + high)
  {
    hide AtMost;
    var all := low + middle + high;
    forall i, j | 0 <= i < j < |all| ensures AtMost(all[i], all[j]) {
      AtMostIsOrder(all[i], pivot, all[j]);
      AtMostIsOrder(all[j], pivot, pivot);
      hide ScenarioKey;
      if i < |low| {
        assert all[i] == low[i];
        assert i < j < |low| ==> all[j] == low[j] && AtMost(low[i], low[j]);
        assert |low| <= j < |low| + |middle| ==> all[j] == middle[j - |low|] && middle[j - |low|] in middle;
        assert |low| + |middle| <= j ==> all[j] == high[j - |low| - |middle|] && high[j - |low| - |middle|] in high;
        assert low[i] in low;
      } else if i < |low| + |middle| {
        assert all[i] == middle[i - |low|] && middle[i - |low|] in middle;
        assert j < |low| + |middle| ==> all[j] == middle[j - |low|] && middle[j - |low|] in middle;
        assert |low| + |middle| <= j ==> all[j] == high[j - |low| - |middle|] && high[j - |low| - |middle|] in high;
      } else {
        assert all[i] == high[i - |low| - |middle|] && all[j] == high[j - |low| - |middle|];
      }
    }
  }

  lemma {:induction false} DedupPrefix(a: seq<ScenarioSpec>, b: seq<ScenarioSpec>)
    ensures |Dedup(a)| <= |Dedup(a + b)| && Dedup(a + b)[..|Dedup(a)|] == Dedup(a)
  {
    if b == [] {
      assert a + b == a;
    } else {
      DedupPrefix(a, b[..|b| - 1]);
      assert (a + b)[..|a + b| - 1] == a + b[..|b| - 1];
    }
  }

  /** Two different specifications of one key, interleaved, survive `dedup` as a repetition. */
  lemma SandwichRepeats(low: seq<ScenarioSpec>, a: ScenarioSpec, b: ScenarioSpec, high: seq<ScenarioSpec>)
    requires a != b
    ensures !NoneTwice(Dedup(low + [a, b, a] + high))
  {
    var one, two, three := low + [a], low + [a] + [b], low + [a] + [b] + [a];
    DedupKeeps(one);
    assert two[..|two| - 1] == one && three[..|three| - 1] == two;
    assert one[|one| - 1] == a && two[|two| - 1] == b && three[|three| - 1] == a;
    assert Dedup(two) == Dedup(one) + [b];
    assert Dedup(three) == Dedup(one) + [b] + [a];
    assert three == low + [a, b, a];
    DedupPrefix(three, high);
    var all, i := Dedup(three + high), |Dedup(one)| - 1;
    assert all[i] == Dedup(three)[i] == Dedup(one)[i] == a;
    assert all[i + 2] == Dedup(three)[i + 2] == a;
  }

  /** Sort plus adjacent `dedup` can fail whenever a repeated specification shares its key with another one. */
  lemma RepeatsCanSurvive(specs: seq<ScenarioSpec>, a: ScenarioSpec, b: ScenarioSpec)
    returns (sorted: seq<ScenarioSpec>)
    requires a in specs && b in specs && a != b && multiset(specs)[a] >= 2 && ScenarioKey(a) == ScenarioKey(b)
    ensures SortOf(specs, sorted) && !NoneTwice(Dedup(sorted))
  {
    hide ScenarioKey, AtMost, SortedByKey, NoneTwice, Dedup, Side;
    var rest := TakeThree(specs, a, b);
    KeySortedIsSort(rest);
    var ordered := KeySorted(rest);
    SidesSplit(ordered, a);
    var low, high := Side(ordered, a, false), Side(ordered, a, true);
    hide KeySorted;
    MiddleFits(low, [a, b, a], high, a);
    SandwichRepeats(low, a, b, high);
    sorted := low + [a, b, a] + high;
    assert multiset(sorted) == multiset(low) + multiset([a, b, a]) + multiset(high);
    assert multiset(specs) == multiset(low) + multiset(high) + multiset([a, b, a]);
  }

  lemma TakeThree(specs: seq<ScenarioSpec>, a: ScenarioSpec, b: ScenarioSpec) returns (rest: seq<ScenarioSpec>)
    requires a in specs && b in specs && a != b && multiset(specs)[a] >= 2
    ensures multiset(specs) == multiset(rest) + multiset([a, b, a])
  {
    assert b in multiset(specs);
    var one := Without(specs, b);
    PutBack(multiset(specs), b);
    assert multiset(one)[a] == multiset(specs)[a];
    assert a in multiset(one);
    var two := Without(one, a);
    PutBack(multiset(one), a);
    assert multiset(two)[a] >= 1;
    assert a in multiset(two);
    rest := Without(two, a);
    PutBack(multiset(two), a);
    ThreeTaken(multiset(rest), a, b);
  }

  lemma PutBack(m: multiset<ScenarioSpec>, x: ScenarioSpec)
    requires x in m
    ensures m == m - multiset{x} + multiset{x}
  {}

  lemma ThreeTaken(m: multiset<ScenarioSpec>, a: ScenarioSpec, b: ScenarioSpec)
    ensures m + multiset{a} + multiset{a} + multiset{b} == m + multiset([a, b, a])
  {}

  /**
   * The exact condition for sort plus adjacent `dedup` to list each specification once, whatever order the unstable
   * sort leaves equal keys in: no specification that occurs twice shares its key with a different one.
   */
  lemma DedupExactlyWhenKeysTell(specs: seq<ScenarioSpec>)
    ensures (forall sorted | SortOf(specs, sorted) :: NoneTwice(Dedup(sorted))) <==> RepeatsHaveOwnKey(specs)
  {
    hide ScenarioKey, NoneTwice, Dedup, SortedByKey;
    if RepeatsHaveOwnKey(specs) {
      forall sorted | SortOf(specs, sorted) ensures NoneTwice(Dedup(sorted)) {
        SameRepeats(specs, sorted);
        DedupOfSorted(sorted);
      }
    } else {
      var a, b :| a in specs && b in specs && multiset(specs)[a] >= 2 && ScenarioKey(a) == ScenarioKey(b) && a != b;
      var sorted := RepeatsCanSurvive(specs, a, b);
    }
  }

  lemma SameRepeats(specs: seq<ScenarioSpec>, sorted: seq<ScenarioSpec>)
    requires multiset(sorted) == multiset(specs) && RepeatsHaveOwnKey(specs)
    ensures RepeatsHaveOwnKey(sorted)
  {
    hide ScenarioKey;
    forall a, b | a in sorted && b in sorted && multiset(sorted)[a] >= 2 && ScenarioKey(a) == ScenarioKey(b)
      ensures a == b
    {
      assert a in multiset(specs) && b in multiset(specs);
    }
  }

  /** Specifications that all have a plan never collide, so for them the condition always holds. */
  lemma PlannedSpecsTell(specs: seq<ScenarioSpec>)
    requires forall spec | spec in specs :: spec.Plan().Ok?
    ensures RepeatsHaveOwnKey(specs)
  {
    hide ScenarioKey, ScenarioSpec.Plan;
    forall a, b | a in specs && b in specs && multiset(specs)[a] >= 2 && ScenarioKey(a) == ScenarioKey(b)
      ensures a == b
    {
      KeyCollisions(a, b);
    }
  }

  /** A concrete failure on specifications that no constructor would accept, but that a stored result can hold. */
  lemma DedupFailsWithoutPlans()
    ensures var a, b := Smoke(0, 1), Smoke(0, 2);
      SortOf([a, a, b], [a, b, a]) && Dedup([a, b, a]) == [a, b, a]
  {
    var a, b := Smoke(0, 1), Smoke(0, 2);
    assert a.Plan().Err? && b.Plan().Err? by {
      SmokeDeliveries(0, 1);
      SmokeDeliveries(0, 2);
    }
    KeyCollisions(a, b);
    hide ScenarioKey, AtMost, ScenarioSpec.Plan;
    SandwichIsSorted(a, b);
  }

  lemma SandwichIsSorted(a: ScenarioSpec, b: ScenarioSpec)
    requires a != b && ScenarioKey(a) == ScenarioKey(b)
    ensures SortOf([a, a, b], [a, b, a]) && Dedup([a, b, a]) == [a, b, a]
  {
    AtMostIsOrder(a, b, a);
    AtMostIsOrder(a, a, a);
    hide ScenarioKey, AtMost;
    assert [a, b, a][..2] == [a, b] && [a, b][..1] == [a];
    assert Dedup([a, b]) == [a] + [b];
    assert multiset([a, a, b]) == multiset([a, b, a]);
  }
}
