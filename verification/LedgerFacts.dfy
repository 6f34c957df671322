/** What the packet ledger guarantees over every run of arrivals. */
module LedgerFacts {
  import opened Machine
  import opened Sums
  import opened Ledger

  // ---- one stream ----

  /** Every arrival of a stream is counted in exactly one way, and each true counter is bounded by the deliveries. */
  lemma {:induction false} TallyConserves(n: nat, arrivals: seq<Arrival>)
    ensures var t := TallyOf(n, arrivals);
      && t.delivered + t.duplicates + t.outOfRange == |arrivals|
      && t.delivered + Missing(t) == n
      && t.outOfOrder <= t.delivered
      && t.mismatches <= t.delivered
  {
    if arrivals == [] {
      CountBounds(FreshTally(n).seen);
    } else {
      var init, a := arrivals[..|arrivals| - 1], arrivals[|arrivals| - 1];
      TallyConserves(n, init);
      var t := TallyOf(n, init);
      if a.ordinal < n && !t.seen[a.ordinal] {
        CountSet(t.seen, a.ordinal);
      }
    }
  }

  /** A stream has seen exactly the ordinals that arrived. */
  lemma {:induction false} SeenMeansArrived(n: nat, arrivals: seq<Arrival>, i: nat)
    requires i < n
    ensures TallyOf(n, arrivals).seen[i] <==> exists j :: 0 <= j < |arrivals| && arrivals[j].ordinal == i
  {
    if arrivals != [] {
      var init, a := arrivals[..|arrivals| - 1], arrivals[|arrivals| - 1];
      SeenMeansArrived(n, init, i);
      assert forall j | 0 <= j < |init| :: init[j] == arrivals[j];
      assert a.ordinal == i ==> arrivals[|arrivals| - 1].ordinal == i;
    }
  }

  /** Ordinals 0, 1, 2, ... in order, each with a matching body. */
  predicate InOrder(arrivals: seq<Arrival>) {
    forall i | 0 <= i < |arrivals| :: arrivals[i].ordinal == i && arrivals[i].matches
  }

  predicate Clean(t: Tally) {
    t.duplicates == 0 && t.outOfRange == 0 && t.outOfOrder == 0 && t.mismatches == 0
  }

  /** No counter moves exactly as long as the arrivals are the first ordinals in order; then nothing else is seen. */
  lemma {:induction false} CleanIsInOrder(n: nat, arrivals: seq<Arrival>)
    ensures Clean(TallyOf(n, arrivals)) <==> |arrivals| <= n && InOrder(arrivals)
    ensures Clean(TallyOf(n, arrivals)) ==>
      forall i | 0 <= i < n :: TallyOf(n, arrivals).seen[i] <==> i < |arrivals|
  {
    if arrivals != [] {
      var init, a := arrivals[..|arrivals| - 1], arrivals[|arrivals| - 1];
      CleanIsInOrder(n, init);
      var t := TallyOf(n, init);
      if Clean(t) {
        LeastUnseenIs(t.seen, 0, |init|);
      }
      assert InOrder(arrivals) <==> InOrder(init) && a.ordinal == |init| && a.matches;
    }
  }

  /** A stream is delivered exactly when all its ordinals arrived once, in order and intact. */
  lemma ExactStream(n: nat, arrivals: seq<Arrival>)
    ensures Clean(TallyOf(n, arrivals)) && Missing(TallyOf(n, arrivals)) == 0
       <==> |arrivals| == n && InOrder(arrivals)
  {
    TallyConserves(n, arrivals);
    CleanIsInOrder(n, arrivals);
  }

  // ---- all streams of one receiver ----

  lemma TotalUpdate(ts: seq<Tally>, i: nat, t: Tally, f: Tally -> nat)
    requires i < |ts|
    ensures Total(ts[i := t], f) + f(ts[i]) == Total(ts, f) + f(t)
  {
    assert Values(ts[i := t], f) == Values(ts, f)[i := f(t)];
    SumUpdate(Values(ts, f), i, f(t));
  }

  lemma TotalZero(ts: seq<Tally>, f: Tally -> nat)
    ensures Total(ts, f) == 0 <==> forall k | 0 <= k < |ts| :: f(ts[k]) == 0
  {
    SumZero(Values(ts, f));
    assert forall k | 0 <= k < |ts| :: Values(ts, f)[k] == f(ts[k]);
  }

  /** One more event touches the tally of its own stream only. */
  lemma TalliesStep(sizes: seq<nat>, events: seq<Event>, e: Event)
    ensures var ts := Tallies(sizes, events);
      Tallies(sizes, events + [e])
      == if e.Routed? && e.stream < |sizes| then ts[e.stream := Feed(ts[e.stream], e.arrival)] else ts
  {
    forall k | 0 <= k < |sizes|
      ensures TallyOf(sizes[k], ArrivalsAt(events + [e], k))
           == if e.Routed? && e.stream == k then Feed(TallyOf(sizes[k], ArrivalsAt(events, k)), e.arrival)
              else TallyOf(sizes[k], ArrivalsAt(events, k))
    {
      assert (events + [e])[..|events|] == events;
      var old_ := ArrivalsAt(events, k);
      if e.Routed? && e.stream == k {
        assert (old_ + [e.arrival])[..|old_|] == old_;
      }
    }
  }

  predicate EventsFit(n: nat, events: seq<Event>) {
    forall e | e in events :: e.Routed? ==> e.stream < n
  }

  /** Ledger state after observing events one by one, starting from `keys` with `sizes` packets each. */
  function Observed(keys: seq<StreamKey>, sizes: seq<nat>, events: seq<Event>): (st: LedgerState)
    requires |keys| == |sizes| && EventsFit(|keys|, events)
    ensures |st.streams| == |keys|
  {
    if events == [] then
      LedgerState(seq(|keys|, k requires 0 <= k < |keys| => FreshStream(keys[k], sizes[k])), 0, 0,
                  CorrectnessSummary(0, 0, 0, 0, 0))
    else
      Applied(Observed(keys, sizes, events[..|events| - 1]), events[|events| - 1])
  }

  /** The counters of an assembled ledger, with the streams left out. */
  function Counters(ts: seq<Tally>, strays: nat): (u64, u64, CorrectnessSummary) {
    (Sat(Total(ts, Delivered)), Sat(Total(ts, Bytes)),
     CorrectnessSummary(0, Sat(Total(ts, Duplicates)), Sat(Total(ts, OutOfOrder)),
                        Sat(strays + Total(ts, OutOfRange)), Sat(Total(ts, Mismatches))))
  }

  lemma CountersStep(ts: seq<Tally>, strays: nat, k: nat, a: Arrival)
    requires k < |ts|
    ensures var (d, b, c), t := Counters(ts, strays), ts[k];
      Counters(ts[k := Feed(t, a)], strays)
      == if a.ordinal >= |t.seen| then (d, b, Unexpected(c))
         else if t.seen[a.ordinal] then (d, b, c.(duplicate := SaturatingAdd(c.duplicate, 1)))
         else (SaturatingAdd(d, 1), SaturatingAdd(b, Sat(a.bytes)),
               c.(mismatches := if a.matches then c.mismatches else SaturatingAdd(c.mismatches, 1),
                  outOfOrder := if a.ordinal == LeastUnseen(t.seen, 0) then c.outOfOrder
                                else SaturatingAdd(c.outOfOrder, 1)))
  {
    hide Sat, SaturatingAdd, Total;
    var t' := Feed(ts[k], a);
    TotalUpdate(ts, k, t', Delivered);
    TotalUpdate(ts, k, t', Bytes);
    TotalUpdate(ts, k, t', Duplicates);
    TotalUpdate(ts, k, t', OutOfOrder);
    TotalUpdate(ts, k, t', OutOfRange);
    TotalUpdate(ts, k, t', Mismatches);
    SaturatingSum(Total(ts, Delivered), 1);
    SaturatingSum(Total(ts, Bytes), a.bytes);
    SaturatingSum(Total(ts, Duplicates), 1);
    SaturatingSum(Total(ts, OutOfOrder), 1);
    SaturatingSum(strays + Total(ts, OutOfRange), 1);
    SaturatingSum(Total(ts, Mismatches), 1);
  }

  /** One event applied to an assembled ledger gives the ledger assembled from one event more. */
  lemma AssembledStep(keys: seq<StreamKey>, sizes: seq<nat>, events: seq<Event>, e: Event)
    requires |keys| == |sizes| && EventsFit(|keys|, events + [e])
    ensures Applied(Assembled(keys, sizes, events), e) == Assembled(keys, sizes, events + [e])
  {
    hide Sat, SaturatingAdd, Total, TallyOf, LeastUnseen;
    var ts := Tallies(sizes, events);
    assert e in events + [e];
    assert (events + [e])[..|events|] == events;
    TalliesStep(sizes, events, e);
    match e
    case Ignored =>
    case Stray =>
      SaturatingSum(StrayCount(events) + Total(ts, OutOfRange), 1);
    case Routed(k, a) =>
      CountersStep(ts, StrayCount(events), k, a);
      assert Applied(Assembled(keys, sizes, events), e).streams == Assembled(keys, sizes, events + [e]).streams;
  }

  lemma FreshTallies(sizes: seq<nat>)
    ensures forall k | 0 <= k < |sizes| :: Tallies(sizes, [])[k] == FreshTally(sizes[k])
  {}

  lemma NothingObserved(keys: seq<StreamKey>, sizes: seq<nat>)
    requires |keys| == |sizes|
    ensures Observed(keys, sizes, []) == Assembled(keys, sizes, [])
  {
    hide TallyOf, ArrivalsAt, Total, Tallies;
    var ts := Tallies(sizes, []);
    FreshTallies(sizes);
    TotalZero(ts, Delivered);
    TotalZero(ts, Bytes);
    TotalZero(ts, Duplicates);
    TotalZero(ts, OutOfOrder);
    TotalZero(ts, OutOfRange);
    TotalZero(ts, Mismatches);
    assert Observed(keys, sizes, []).streams == Assembled(keys, sizes, []).streams;
  }

  lemma FitBefore(n: nat, events: seq<Event>)
    requires EventsFit(n, events) && events != []
    ensures EventsFit(n, events[..|events| - 1])
    ensures events[|events| - 1].Routed? ==> events[|events| - 1].stream < n
  {
    assert events[|events| - 1] in events;
  }

  /**
   * A ledger is the sum of its streams: after any run, each stream's state depends only on its own arrivals, and
   * every counter is the saturated sum of true per-stream counts.
   */
  lemma {:induction false} LedgerDecomposes(keys: seq<StreamKey>, sizes: seq<nat>, events: seq<Event>)
    requires |keys| == |sizes| && EventsFit(|keys|, events)
    ensures Observed(keys, sizes, events) == Assembled(keys, sizes, events)
  {
    hide Applied, Assembled;
    if events == [] {
      NothingObserved(keys, sizes);
    } else {
      var init := events[..|events| - 1];
      FitBefore(|keys|, events);
      LedgerDecomposes(keys, sizes, init);
      AssembledStep(keys, sizes, init, events[|events| - 1]);
      assert init + [events[|events| - 1]] == events;
    }
  }

  // ---- what follows from the decomposition ----

  /** Arrivals of different streams commute: only each stream's own order, and the number of strays, matter. */
  lemma InterleavingInvariance(keys: seq<StreamKey>, sizes: seq<nat>, one: seq<Event>, other: seq<Event>)
    requires |keys| == |sizes| && EventsFit(|keys|, one) && EventsFit(|keys|, other)
    requires StrayCount(one) == StrayCount(other)
    requires forall k | 0 <= k < |keys| :: ArrivalsAt(one, k) == ArrivalsAt(other, k)
    ensures Observed(keys, sizes, one) == Observed(keys, sizes, other)
  {
    hide TallyOf, Observed;
    LedgerDecomposes(keys, sizes, one);
    LedgerDecomposes(keys, sizes, other);
    assert Tallies(sizes, one) == Tallies(sizes, other);
  }

  function RoutedCount(sizes: seq<nat>, events: seq<Event>): nat {
    var ts := Tallies(sizes, events);
    Total(ts, Delivered) + Total(ts, Duplicates) + Total(ts, OutOfRange)
  }

  /** Conservation: every payload seen is ignored warmup, delivered, a duplicate, or unexpected. */
  lemma {:induction false} EventsAreConserved(sizes: seq<nat>, events: seq<Event>)
    requires EventsFit(|sizes|, events)
    ensures |events| == IgnoredCount(events) + StrayCount(events) + RoutedCount(sizes, events)
  {
    hide Total;
    if events == [] {
      var ts := Tallies(sizes, events);
      TotalZero(ts, Delivered);
      TotalZero(ts, Duplicates);
      TotalZero(ts, OutOfRange);
    } else {
      var init, e := events[..|events| - 1], events[|events| - 1];
      assert events == init + [e];
      assert e in events;
      EventsAreConserved(sizes, init);
      TalliesStep(sizes, init, e);
      if e.Routed? {
        var ts := Tallies(sizes, init);
        var t := Feed(ts[e.stream], e.arrival);
        TotalUpdate(ts, e.stream, t, Delivered);
        TotalUpdate(ts, e.stream, t, Duplicates);
        TotalUpdate(ts, e.stream, t, OutOfRange);
      }
    }
  }

  /** Conservation: what was delivered and what is missing make up the whole plan of the receiver. */
  lemma DeliveredAndMissing(sizes: seq<nat>, events: seq<Event>)
    ensures Total(Tallies(sizes, events), Delivered) + Total(Tallies(sizes, events), Missing) == Sum(sizes)
    ensures Total(Tallies(sizes, events), OutOfOrder) <= Total(Tallies(sizes, events), Delivered)
    ensures Total(Tallies(sizes, events), Mismatches) <= Total(Tallies(sizes, events), Delivered)
  {
    hide TallyOf, ArrivalsAt, Sum, Unseen;
    var ts := Tallies(sizes, events);
    forall k | 0 <= k < |ts|
      ensures ts[k].delivered + Missing(ts[k]) == sizes[k]
      ensures ts[k].outOfOrder <= ts[k].delivered && ts[k].mismatches <= ts[k].delivered
    {
      TallyConserves(sizes[k], ArrivalsAt(events, k));
    }
    SumPointwise(Values(ts, Delivered), Values(ts, Missing), sizes);
    SumAtMost(Values(ts, OutOfOrder), Values(ts, Delivered));
    SumAtMost(Values(ts, Mismatches), Values(ts, Delivered));
  }

  /** `is_complete` stops the receive loop exactly when `finish` would report nothing missing. */
  lemma CompleteMeansNothingMissing(keys: seq<StreamKey>, sizes: seq<nat>, events: seq<Event>)
    requires |keys| == |sizes| && EventsFit(|keys|, events)
    ensures var st := Observed(keys, sizes, events);
      && (forall k | 0 <= k < |st.streams| :: st.streams[k].Valid())
      && ((forall k | 0 <= k < |st.streams| :: st.streams[k].IsComplete()) <==> Finished(st).missing == 0)
      && Finished(st).missing == Sat(Total(Tallies(sizes, events), Missing))
  {
    hide TallyOf, ArrivalsAt, LeastUnseen, Observed, Unseen;
    LedgerDecomposes(keys, sizes, events);
    var st, ts := Observed(keys, sizes, events), Tallies(sizes, events);
    assert MissingPerStream(st.streams) == Values(ts, Missing);
    SumZero(MissingPerStream(st.streams));
    forall k | 0 <= k < |st.streams|
      ensures st.streams[k].IsComplete() <==> MissingPerStream(st.streams)[k] == 0
    {
      CountBounds(st.streams[k].seen);
      if st.streams[k].IsComplete() {
        assert forall i | 0 <= i < |st.streams[k].seen| :: st.streams[k].seen[i];
      } else {
        assert !st.streams[k].seen[st.streams[k].nextOrdinal];
      }
    }
  }

  /** Stream k of the receiver got its ordinals 0..n-1, once each, in order, with matching payloads. */
  predicate StreamExact(sizes: seq<nat>, events: seq<Event>, k: nat)
    requires k < |sizes|
  {
    |ArrivalsAt(events, k)| == sizes[k] && InOrder(ArrivalsAt(events, k))
  }

  lemma ZeroDiscrepancy(c: CorrectnessSummary)
    ensures c.DiscrepancyCount() == 0
       <==> c.missing == 0 && c.duplicate == 0 && c.outOfOrder == 0 && c.unexpected == 0 && c.mismatches == 0
  {}

  /** The summary of a receiver is free of discrepancies exactly when nothing strayed and every stream is exact. */
  lemma SummaryIsExact(keys: seq<StreamKey>, sizes: seq<nat>, events: seq<Event>)
    requires |keys| == |sizes| && EventsFit(|keys|, events)
    ensures Finished(Observed(keys, sizes, events)).DiscrepancyCount() == 0
       <==> StrayCount(events) == 0 && forall k | 0 <= k < |sizes| :: StreamExact(sizes, events, k)
  {
    hide TallyOf, Observed, MissingPerStream, Total, LeastUnseen, SaturatingAdd;
    var st, ts := Observed(keys, sizes, events), Tallies(sizes, events);
    LedgerDecomposes(keys, sizes, events);
    CompleteMeansNothingMissing(keys, sizes, events);
    ZeroDiscrepancy(Finished(st));
    TotalZero(ts, Missing);
    TotalZero(ts, Duplicates);
    TotalZero(ts, OutOfOrder);
    TotalZero(ts, OutOfRange);
    TotalZero(ts, Mismatches);
    forall k | 0 <= k < |sizes|
      ensures Clean(ts[k]) && Missing(ts[k]) == 0 <==> StreamExact(sizes, events, k)
    {
      ExactStream(sizes[k], ArrivalsAt(events, k));
    }
  }

  /** Category by category: what the final summary counts, over all streams and strays, cut off at 64 bits. */
  lemma SummaryCounts(keys: seq<StreamKey>, sizes: seq<nat>, events: seq<Event>)
    requires |keys| == |sizes| && EventsFit(|keys|, events)
    ensures var ts, c := Tallies(sizes, events), Finished(Observed(keys, sizes, events));
      && c.missing == Sat(Total(ts, Missing))
      && c.duplicate == Sat(Total(ts, Duplicates))
      && c.outOfOrder == Sat(Total(ts, OutOfOrder))
      && c.unexpected == Sat(StrayCount(events) + Total(ts, OutOfRange))
      && c.mismatches == Sat(Total(ts, Mismatches))
  {
    hide TallyOf, ArrivalsAt, LeastUnseen, Observed, Unseen, Total, Sat;
    LedgerDecomposes(keys, sizes, events);
    CompleteMeansNothingMissing(keys, sizes, events);
  }

  /** Packets and bytes a discrepancy-free receiver has counted: the whole plan, at the size of each arrival. */
  lemma ExactTotals(keys: seq<StreamKey>, sizes: seq<nat>, events: seq<Event>, lengths: seq<nat>)
    requires |keys| == |sizes| == |lengths| && EventsFit(|keys|, events)
    requires forall k | 0 <= k < |sizes| :: StreamExact(sizes, events, k)
    requires forall k | 0 <= k < |sizes| :: forall a | a in ArrivalsAt(events, k) :: a.bytes == lengths[k]
    ensures Observed(keys, sizes, events).deliveredPackets == Sat(Sum(sizes))
    ensures Observed(keys, sizes, events).deliveredPayloadBytes
         == Sat(Sum(seq(|sizes|, k requires 0 <= k < |sizes| => sizes[k] * lengths[k])))
  {
    hide TallyOf, Observed, Sum, LeastUnseen, ArrivalsAt;
    LedgerDecomposes(keys, sizes, events);
    var ts := Tallies(sizes, events);
    forall k | 0 <= k < |sizes| ensures ts[k].delivered == sizes[k] && ts[k].bytes == sizes[k] * lengths[k] {
      assert StreamExact(sizes, events, k);
      ExactStream(sizes[k], ArrivalsAt(events, k));
      TallyConserves(sizes[k], ArrivalsAt(events, k));
      ExactBytes(sizes[k], ArrivalsAt(events, k), lengths[k]);
    }
    assert Values(ts, Delivered) == sizes;
    assert Values(ts, Bytes)
        == seq(|sizes|, k requires 0 <= k < |sizes| => sizes[k] * lengths[k]);
  }

  lemma {:induction false} ExactBytes(n: nat, arrivals: seq<Arrival>, length: nat)
    requires forall a | a in arrivals :: a.bytes == length
    ensures TallyOf(n, arrivals).bytes == TallyOf(n, arrivals).delivered * length
  {
    if arrivals != [] {
      var init := arrivals[..|arrivals| - 1];
      ExactBytes(n, init, length);
      var d := TallyOf(n, init).delivered;
      assert (d + 1) * length == d * length + length;
      assert arrivals[|arrivals| - 1] in arrivals;
    }
  }
}
