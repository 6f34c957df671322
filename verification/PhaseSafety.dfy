/** What every reachable state of the phase protocol guarantees, whoever dies on the way. */
module PhaseSafety {
  import opened Machine
  import opened Sums
  import opened Phases
  import opened PhaseSync

  lemma InitialInv(s: State)
    requires Initial(s)
    ensures Inv(s)
  {
    InitialChannel();
    CountBounds(ArrivedMask(s));
    forall i | 0 <= i < |s.peers| ensures PeerOk(s, i) {
      assert FreshPeer(s.peers[i]);
    }
    assert forall i | 0 <= i < |s.peers| :: FreshPeer(s.peers[i]);
  }

  lemma StartKeeps(s: State)
    requires Inv(s) && Able(s, StartPeers)
    ensures Inv(Next(s, StartPeers))
  {
    hide ChannelInv;
    var s' := Next(s, StartPeers);
    assert ArrivedMask(s') == ArrivedMask(s);
    assert PeerOk(s, 0);
    forall j | 0 <= j < |s.peers| ensures PeerOk(s', j) {
      assert PeerOk(s, j);
    }
  }

  /** What a step may change around a peer that does not move: facts already established stay. */
  predicate Grows(s: State, s': State) {
    && |s'.peers| == |s.peers| && s'.generation == s.generation && s'.leaders == s.leaders && s'.arrived == s.arrived
    && s.broadcasts <= s'.broadcasts && (s.acknowledged ==> s'.acknowledged)
    && (s.measuredAt.Some? ==> s'.measuredAt == s.measuredAt)
    && |s.channel.reports| <= |s'.channel.reports| && (SetupAcknowledged(s) ==> SetupAcknowledged(s'))
  }

  lemma OtherStays(s: State, s': State, j: nat)
    requires j < |s.peers| && s.generation <= |s.leaders| && PeerOk(s, j) && Grows(s, s') && s'.peers[j] == s.peers[j]
    ensures PeerOk(s', j)
  {}

  /**
   * A step of one peer between its barrier waits keeps the invariant if it keeps that peer's part and the shared
   * parts.
   */
  lemma OnePeerMoves(s: State, s': State, i: nat)
    requires Inv(s) && Grows(s, s') && i < |s.peers| && s'.peers == s.peers[i := s'.peers[i]]
    requires s'.peers[i].waits == s.peers[i].waits && (s'.peers[i].position == Idle <==> s.peers[i].position == Idle)
    requires ChannelInv(s'.channel) && PeerOk(s', i) && (BarrierOk(s') ==> LeadersOk(s') && ReporterOk(s'))
    ensures Inv(s')
  {
    hide ChannelInv, PeerOk, LeadersOk, ReporterOk, Count;
    assert ArrivedMask(s') == ArrivedMask(s);
    forall j | 0 <= j < |s.peers| ensures PeerOk(s', j) {
      if j != i {
        OtherStays(s, s', j);
      }
    }
  }

  /** The duty of the leaders of rounds one and six is judged by their own position and by the reports alone. */
  lemma LeadersStay(s: State, s': State, i: nat)
    requires BarrierOk(s) && BarrierOk(s') && LeadersOk(s) && Grows(s, s') && s'.channel == s.channel
    requires i < |s.peers| && s'.peers == s.peers[i := s'.peers[i]] && s'.peers[i].waits == s.peers[i].waits
    requires forall r | r in {1, 6} && s.generation >= r && s.leaders[r - 1] == i ::
      Pending(s.peers[i], r) == Pending(s'.peers[i], r)
    requires s'.peers[i].position == Arriving(2) ==> s.peers[i].position == Arriving(2) || s.generation < 1
                                                     || s.leaders[0] != i || WarmupAcknowledged(s)
    requires s'.peers[i].position == Arriving(7) ==> s.peers[i].position == Arriving(7) || s.generation < 6
                                                     || s.leaders[5] != i || DrainAcknowledged(s)
    ensures LeadersOk(s')
  {
    hide Count, Pending;
  }

  lemma ReporterStays(s: State, s': State, i: nat)
    requires BarrierOk(s) && BarrierOk(s') && ReporterOk(s) && Grows(s, s') && i < |s.peers|
    requires s' == s.(peers := s.peers[i := s'.peers[i]])
    requires s.generation >= 5 && s.leaders[4] == i ==> Pending(s.peers[i], 5) == Pending(s'.peers[i], 5)
    ensures ReporterOk(s')
  {
    hide Count, Pending;
  }

  lemma BarrierStays(s: State, s': State, i: nat)
    requires BarrierOk(s) && Grows(s, s') && i < |s.peers| && s'.peers == s.peers[i := s'.peers[i]]
    requires s'.peers[i].waits == s.peers[i].waits
    ensures BarrierOk(s')
  {
    hide Count;
    assert ArrivedMask(s') == ArrivedMask(s);
  }

  lemma WakeKeeps(s: State, i: nat)
    requires Inv(s) && Able(s, Wake(i))
    ensures Inv(Next(s, Wake(i)))
  {
    hide ChannelInv, Count;
    assert PeerOk(s, i);
    OnePeerMoves(s, Next(s, Wake(i)), i);
  }

  lemma WorkKeeps(s: State, i: nat, step: Step)
    requires Inv(s) && Able(s, step)
    requires step == SendWarmup(i) || step == EndWarmup(i) || step == SendMeasured(i) || step == EndReceive(i)
    ensures Inv(Next(s, step))
  {
    hide ChannelInv, Count;
    assert PeerOk(s, i);
    OnePeerMoves(s, Next(s, step), i);
  }

  lemma CheckAckKeeps(s: State, i: nat)
    requires Inv(s) && Able(s, CheckAck(i))
    ensures Inv(Next(s, CheckAck(i)))
  {
    hide ChannelInv, Count;
    assert PeerOk(s, i);
    OnePeerMoves(s, Next(s, CheckAck(i)), i);
  }

  lemma DeathKeeps(s: State, i: nat)
    requires Inv(s) && Able(s, PeerDies(i))
    ensures Inv(Next(s, PeerDies(i)))
  {
    hide ChannelInv, Count;
    assert PeerOk(s, i);
    var s' := Next(s, PeerDies(i));
    assert PeerOk(s', i);
    BarrierStays(s, s', i);
    LeadersStay(s, s', i);
    ReporterStays(s, s', i);
    hide LeadersOk, ReporterOk, PeerOk, BarrierOk;
    OnePeerMoves(s, s', i);
  }

  lemma ReportReturnPlaces(s: State, i: nat, s': State)
    requires PeersOk(s) && Runs(s, i) && s.peers[i].position.Reporting?
    requires s.peers[i].position.report < |s.channel.reports| && |s'.peers| == |s.peers|
    requires s'.peers == s.peers[i := s'.peers[i]] && s' == s.(peers := s'.peers)
    requires var p := s.peers[i];
      || (s.channel.reports[p.position.report].status == Acknowledged
          && s'.peers[i] == p.(position := Arriving(p.position.round + 1)))
      || s'.peers[i] == p.(alive := false)
    ensures PeerOk(s, i) && PeerOk(s', i)
    ensures s'.peers[i].position == Arriving(2) ==> WarmupAcknowledged(s)
    ensures s'.peers[i].position == Arriving(7) ==> DrainAcknowledged(s)
    ensures forall r :: !Pending(s.peers[i], r) && !Pending(s'.peers[i], r)
    ensures s'.peers[i].position != Idle
  {
    assert PeerOk(s, i);
    assert s.peers[i].waits == 6 ==> s.acknowledged && s.peers[i].received;
  }

  lemma ReportReturnKeeps(s: State, i: nat)
    requires Inv(s) && Able(s, ReportReturns(i))
    ensures Inv(Next(s, ReportReturns(i)))
  {
    hide ChannelInv, Count, Pending, PeerOk, LeadersOk, ReporterOk, WarmupAcknowledged, DrainAcknowledged;
    var s' := Next(s, ReportReturns(i));
    ReportReturnPlaces(s, i, s');
    BarrierStays(s, s', i);
    LeadersStay(s, s', i);
    ReporterStays(s, s', i);
    OnePeerMoves(s, s', i);
  }

  /** Returning from a wait, when the peer only moves on. */
  lemma ProceedKeeps(s: State, i: nat)
    requires Inv(s) && Able(s, Proceed(i))
    requires Next(s, Proceed(i)).channel == s.channel
    requires s.peers[i].position.round != 4 && s.peers[i].position.round != 5
    ensures Inv(Next(s, Proceed(i)))
  {
    hide ChannelInv, Count;
    var s' := AfterWait(s, i);
    ProceedPlaces(s, i);
    hide AfterWait;
    BarrierStays(s, s', i);
    LeadersStay(s, s', i);
    ReporterStays(s, s', i);
    hide LeadersOk, ReporterOk, PeerOk, BarrierOk;
    OnePeerMoves(s, s', i);
  }

  lemma ProceedPlaces(s: State, i: nat)
    requires PeersOk(s) && Runs(s, i) && s.peers[i].position.Released?
    requires AfterWait(s, i).channel == s.channel
    requires s.peers[i].position.round != 4 && s.peers[i].position.round != 5
    ensures PeerOk(s, i) && PeerOk(AfterWait(s, i), i)
  {
    assert PeerOk(s, i);
  }

  /**
   * The first peer back from round four fixes the start instant; the leader of round five releases the measured task.
   */
  lemma StartIsAgreed(s: State, i: nat)
    requires Inv(s) && Able(s, Proceed(i))
    requires s.peers[i].position.round == 4 || s.peers[i].position.round == 5
    ensures Inv(Next(s, Proceed(i)))
  {
    hide ChannelInv, Count;
    assert PeerOk(s, i);
    OnePeerMoves(s, Next(s, Proceed(i)), i);
  }

  /** The leader of round one finds only the acknowledged setup report; the leader of round six finds three. */
  lemma LeaderMayReport(s: State, i: nat)
    requires Inv(s) && Able(s, Proceed(i)) && s.peers[i].position.leader
    requires s.peers[i].position.round == 1 || s.peers[i].position.round == 6
    ensures Settled(s.channel) && |s.channel.reports| == if s.peers[i].position.round == 1 then 1 else 3
  {
    hide Count;
    assert PeerOk(s, i);
    assert SetupAcknowledged(s);
    if s.peers[i].position.round == 6 {
      RoundsPassed(s);
    }
  }

  /** Once a barrier generation is complete, every peer has waited that often, and its leader has done its duty. */
  lemma RoundsPassed(s: State)
    requires Inv(s)
    ensures s.generation >= 2 ==> WarmupAcknowledged(s)
    ensures s.generation >= 4 ==> forall j | 0 <= j < |s.peers| :: s.peers[j].reset
    ensures s.generation >= 5 ==> s.measuredAt.Some?
    ensures s.generation >= 6 ==> s.acknowledged && MeasuredAcknowledged(s)
    ensures s.generation >= 6 ==> forall j | 0 <= j < |s.peers| :: s.peers[j].received
    ensures s.generation >= 7 ==> DrainAcknowledged(s)
  {
    hide ChannelInv, Count;
    assert PeerOk(s, 0);
    assert s.generation >= 1 ==> PeerOk(s, s.leaders[0]);
    assert s.generation >= 6 ==> PeerOk(s, s.leaders[5]);
    forall j | 0 <= j < |s.peers|
      ensures s.generation >= 4 ==> s.peers[j].reset
      ensures s.generation >= 6 ==> s.peers[j].received
    {
      assert PeerOk(s, j);
    }
  }

  lemma LeaderReportKeeps(s: State, i: nat)
    requires Inv(s) && Able(s, Proceed(i))
    requires s.peers[i].position.leader && (s.peers[i].position.round == 1 || s.peers[i].position.round == 6)
    ensures Inv(Next(s, Proceed(i)))
  {
    LeaderMayReport(s, i);
    SpawnKeeps(s.channel, if s.peers[i].position.round == 1 then Warmup else Drain);
    hide ChannelInv, Count;
    assert PeerOk(s, i);
    OnePeerMoves(s, Next(s, Proceed(i)), i);
  }

  lemma ReporterKeeps(s: State)
    requires Inv(s) && Able(s, ReporterStep)
    ensures Inv(Next(s, ReporterStep))
  {
    hide ChannelInv, Count;
    var s' := Next(s, ReporterStep);
    RoundsPassed(s);
    if s.reporter.Sleeping? {
      MeasuredMayBeReported(s);
    } else {
      assert s'.channel == s.channel;
    }
    ReporterKeepsShared(s);
    hide LeadersOk, ReporterOk, PeerOk;
    assert ArrivedMask(s') == ArrivedMask(s);
    forall j | 0 <= j < |s.peers| ensures PeerOk(s', j) {
      OtherStays(s, s', j);
    }
  }

  lemma MeasuredMayBeReported(s: State)
    requires Inv(s) && Able(s, ReporterStep) && s.reporter.Sleeping?
    ensures ChannelInv(Next(s, ReporterStep).channel)
  {
    hide Count;
    RoundsPassed(s);
    assert PeerOk(s, 0);
    SpawnKeeps(s.channel, Measured);
  }

  lemma ReporterKeepsShared(s: State)
    requires Inv(s) && Able(s, ReporterStep)
    ensures var s' := Next(s, ReporterStep);
      BarrierOk(s') && LeadersOk(s') && ReporterOk(s') && Grows(s, s')
  {
    hide ChannelInv, Count, PeersOk, Pending;
    RoundsPassed(s);
    assert ArrivedMask(Next(s, ReporterStep)) == ArrivedMask(s);
  }

  lemma ReporterDeathKeeps(s: State)
    requires Inv(s) && Able(s, ReporterDies)
    ensures Inv(Next(s, ReporterDies))
  {
    hide ChannelInv, Count, PeerOk, LeadersOk;
    var s' := Next(s, ReporterDies);
    assert ArrivedMask(s') == ArrivedMask(s);
    forall j | 0 <= j < |s.peers| ensures PeerOk(s', j) {
      OtherStays(s, s', j);
    }
    assert LeadersOk(s') by { SharedStays(s, s'); }
  }

  /** Who has to report what depends on neither the clock nor the life of the measured task. */
  lemma SharedStays(s: State, s': State)
    requires BarrierOk(s) && BarrierOk(s') && LeadersOk(s)
    requires s' == s.(clock := s'.clock, reporterAlive := s'.reporterAlive, channel := s'.channel)
    requires |s'.channel.reports| == |s.channel.reports|
    requires WarmupAcknowledged(s) ==> WarmupAcknowledged(s')
    requires DrainAcknowledged(s) ==> DrainAcknowledged(s')
    ensures LeadersOk(s')
  {
    hide Count, Pending, WarmupAcknowledged, DrainAcknowledged;
  }

  lemma TickKeeps(s: State)
    requires Inv(s)
    ensures Inv(Next(s, Tick))
  {
    hide ChannelInv, Count, PeerOk, LeadersOk;
    var s' := Next(s, Tick);
    assert ArrivedMask(s') == ArrivedMask(s);
    forall j | 0 <= j < |s.peers| ensures PeerOk(s', j) {
      OtherStays(s, s', j);
    }
    assert LeadersOk(s') by { SharedStays(s, s'); }
  }

  /** Acknowledged reports stay acknowledged. */
  lemma AcknowledgedStays(c: Channel, move: ChannelStep, t: nat)
    requires ChannelInv(c) && Enabled(c, move) && t < |c.reports| && c.reports[t].status == Acknowledged
    ensures t < |Perform(c, move).reports| && Perform(c, move).reports[t].status == Acknowledged
  {}

  lemma ChannelMoveKeeps(s: State, move: ChannelStep)
    requires Inv(s) && Able(s, ChannelMoves(move))
    ensures Inv(Next(s, ChannelMoves(move)))
  {
    hide ChannelInv, Count, PeerOk, LeadersOk, Perform, Enabled;
    var s' := Next(s, ChannelMoves(move));
    ChannelStepKeeps(s.channel, move);
    forall t: nat | t < |s.channel.reports| && s.channel.reports[t].status == Acknowledged
      ensures s'.channel.reports[t].status == Acknowledged
    {
      AcknowledgedStays(s.channel, move, t);
    }
    assert ArrivedMask(s') == ArrivedMask(s);
    forall j | 0 <= j < |s.peers| ensures PeerOk(s', j) {
      OtherStays(s, s', j);
    }
    assert LeadersOk(s') by { SharedStays(s, s'); }
  }

  /** An arrival that does not complete the generation, and the arrival that does. */
  lemma ArriveCounts(s: State, i: nat, leader: nat)
    requires BarrierOk(s) && PeersOk(s) && Able(s, Arrive(i, leader))
    ensures var s' := Next(s, Arrive(i, leader));
      && (s.arrived + 1 == |s.peers| ==> forall j | 0 <= j < |s.peers| :: s'.peers[j].waits == s'.generation)
      && s'.arrived == Count(ArrivedMask(s')) < |s'.peers|
      && s.generation < ROUNDS
  {
    hide Count;
    var s', mask := Next(s, Arrive(i, leader)), ArrivedMask(s);
    assert PeerOk(s, i);
    CountSet(mask, i);
    CountBounds(mask[i := true]);
    CountBounds(ArrivedMask(s'));
    if s.arrived + 1 == |s.peers| {
      forall j | 0 <= j < |s.peers| ensures s'.peers[j].waits == s'.generation {
        assert mask[i := true][j];
      }
    } else {
      assert ArrivedMask(s') == mask[i := true];
    }
  }

  /** A barrier generation may pass a peer by only once the peer has arrived in it. */
  lemma GenerationPasses(s: State, s': State, j: nat)
    requires j < |s.peers| == |s'.peers| && s.generation <= |s.leaders| && PeerOk(s, j) && s'.peers[j] == s.peers[j]
    requires s.leaders <= s'.leaders && s.generation <= s'.generation <= |s'.leaders|
    requires s'.generation <= s'.peers[j].waits <= s'.generation + 1
    requires s'.channel == s.channel && s'.measuredAt == s.measuredAt && s'.acknowledged == s.acknowledged
    requires s'.broadcasts == s.broadcasts
    ensures PeerOk(s', j)
  {}

  lemma ArrivingPeer(s: State, i: nat, leader: nat)
    requires BarrierOk(s) && PeersOk(s) && Able(s, Arrive(i, leader))
    ensures var s' := Next(s, Arrive(i, leader)); s'.generation <= |s'.leaders| && PeerOk(s', i)
  {
    assert PeerOk(s, i);
    ArriveCounts(s, i, leader);
    hide Count, PeersOk, BarrierOk, ArrivedMask;
  }

  lemma ArrivePlaces(s: State, i: nat, leader: nat, j: nat)
    requires BarrierOk(s) && PeersOk(s) && Able(s, Arrive(i, leader)) && j < |s.peers|
    ensures var s' := Next(s, Arrive(i, leader)); s'.generation <= |s'.leaders| && PeerOk(s', j)
  {
    ArriveCounts(s, i, leader);
    ArrivingPeer(s, i, leader);
    assert PeerOk(s, j) && s.generation <= s.peers[j].waits <= s.generation + 1;
    hide Count, PeersOk, PeerOk;
    if j != i {
      GenerationPasses(s, Next(s, Arrive(i, leader)), j);
    }
  }

  lemma ArriveKeeps(s: State, i: nat, leader: nat)
    requires Inv(s) && Able(s, Arrive(i, leader))
    ensures Inv(Next(s, Arrive(i, leader)))
  {
    hide ChannelInv, Count;
    var s' := Next(s, Arrive(i, leader));
    ArriveCounts(s, i, leader);
    forall j | 0 <= j < |s.peers| ensures PeerOk(s', j) {
      ArrivePlaces(s, i, leader, j);
    }
    ArriveKeepsDuties(s, i, leader);
    hide PeerOk, LeadersOk, ReporterOk;
  }

  lemma ArriveKeepsDuties(s: State, i: nat, leader: nat)
    requires Inv(s) && Able(s, Arrive(i, leader)) && BarrierOk(Next(s, Arrive(i, leader)))
    ensures LeadersOk(Next(s, Arrive(i, leader))) && ReporterOk(Next(s, Arrive(i, leader)))
  {
    hide ChannelInv, Count;
    ArriveCounts(s, i, leader);
    assert PeerOk(s, i) && PeerOk(s, leader);
    ArrivePlaces(s, i, leader, leader);
  }

  lemma StepKeeps(s: State, step: Step)
    requires Inv(s) && Able(s, step)
    ensures Inv(Next(s, step))
  {
    hide Inv;
    match step
    case StartPeers => StartKeeps(s);
    case Arrive(i, leader) => ArriveKeeps(s, i, leader);
    case Wake(i) => WakeKeeps(s, i);
    case Proceed(i) =>
      var position := s.peers[i].position;
      if position.leader && (position.round == 1 || position.round == 6) {
        LeaderReportKeeps(s, i);
      } else if position.round == 4 || position.round == 5 {
        StartIsAgreed(s, i);
      } else {
        ProceedKeeps(s, i);
      }
    case ReportReturns(i) => ReportReturnKeeps(s, i);
    case CheckAck(i) => CheckAckKeeps(s, i);
    case ReporterStep => ReporterKeeps(s);
    case ChannelMoves(move) => ChannelMoveKeeps(s, move);
    case PeerDies(i) => DeathKeeps(s, i);
    case ReporterDies => ReporterDeathKeeps(s);
    case Tick => TickKeeps(s);
    case SendWarmup(i) => WorkKeeps(s, i, step);
    case EndWarmup(i) => WorkKeeps(s, i, step);
    case SendMeasured(i) => WorkKeeps(s, i, step);
    case EndReceive(i) => WorkKeeps(s, i, step);
  }

  lemma {:induction false} RunKeeps(states: seq<State>, steps: seq<Step>, k: nat)
    requires Run(states, steps) && k < |states|
    ensures Inv(states[k])
  {
    hide Inv, Able, Next;
    if k == 0 {
      InitialInv(states[0]);
    } else {
      RunKeeps(states, steps, k - 1);
      assert Able(states[k - 1], steps[k - 1]) && states[k - 1 + 1] == Next(states[k - 1], steps[k - 1]);
      StepKeeps(states[k - 1], steps[k - 1]);
    }
  }

  // ---- what it means ----

  /** The protocol's promises about one state. */
  predicate Promises(s: State) {
    && s.channel.persisted <= ORDERED && !s.channel.rejected
    && (forall t | 0 <= t < |s.channel.reports| :: ReportPromise(s.channel, t))
    && (forall i | 0 <= i < |s.peers| :: PeerPromise(s, s.peers[i]))
    && (|s.channel.reports| == 4 ==> forall i | 0 <= i < |s.peers| :: s.peers[i].received)
    && forall i, j | 0 <= i < |s.peers| && 0 <= j < |s.peers| :: RoundsClose(s.peers[i], s.peers[j])
  }

  /** Each phase is reported once, in order, and an acknowledged report is persisted. */
  predicate ReportPromise(c: Channel, t: nat)
    requires t < |c.reports|
  {
    t < |ORDERED| && c.reports[t].phase == ORDERED[t]
      && (c.reports[t].status == Acknowledged ==> ORDERED[t] in c.persisted)
  }

  /**
   * No warmup packet before a persisted warmup phase; no measured packet before a persisted measured phase, a reset of
   * every timeline, and the agreed start instant.
   */
  predicate PeerPromise(s: State, p: Peer) {
    && (p.warmupSent > 0 ==> Warmup in s.channel.persisted)
    && (p.measuredSent > 0 ==>
          && Measured in s.channel.persisted
          && p.startedAt.Some? && p.startedAt == s.measuredAt && p.startedAt.value <= s.clock
          && forall i | 0 <= i < |s.peers| :: s.peers[i].reset && s.peers[i].startedAt == s.measuredAt)
  }

  predicate RoundsClose(p: Peer, q: Peer) {
    p.waits <= q.waits + 1
  }

  lemma PeerKeepsPromise(s: State, i: nat)
    requires Inv(s) && i < |s.peers|
    ensures PeerPromise(s, s.peers[i])
    ensures s.generation <= s.peers[i].waits <= s.generation + 1
    ensures |s.channel.reports| == 4 ==> s.peers[i].received
  {
    hide Count;
    assert PeerOk(s, i);
    RoundsPassed(s);
    var p := s.peers[i];
    if p.warmupSent > 0 {
      AcknowledgedIsPersisted(s.channel, 1);
      assert s.channel.persisted[1] == Warmup;
    }
    if p.measuredSent > 0 {
      AcknowledgedIsPersisted(s.channel, 2);
      assert s.channel.persisted[2] == Measured;
      forall j | 0 <= j < |s.peers| ensures s.peers[j].reset && s.peers[j].startedAt == s.measuredAt {
        assert PeerOk(s, j);
      }
    }
  }

  lemma InvKeepsPromises(s: State)
    requires Inv(s)
    ensures Promises(s)
  {
    hide PeerPromise, PeersOk, LeadersOk, ReporterOk, Count;
    forall i | 0 <= i < |s.peers|
      ensures PeerPromise(s, s.peers[i]) && s.generation <= s.peers[i].waits <= s.generation + 1
      ensures |s.channel.reports| == 4 ==> s.peers[i].received
    {
      PeerKeepsPromise(s, i);
    }
    forall t | 0 <= t < |s.channel.reports| ensures ReportPromise(s.channel, t) {
      if s.channel.reports[t].status == Acknowledged {
        AcknowledgedIsPersisted(s.channel, t);
        assert s.channel.persisted[t] == ORDERED[t];
      }
    }
  }

  /**
   * For any number of peers and any interleaving, deaths and failures included, every state of a run keeps the
   * promises.
   */
  lemma EveryRunIsSafe(states: seq<State>, steps: seq<Step>)
    requires Run(states, steps)
    ensures forall k | 0 <= k < |states| :: Promises(states[k])
  {
    hide Promises, Run;
    forall k | 0 <= k < |states| ensures Promises(states[k]) {
      RunKeeps(states, steps, k);
      InvKeepsPromises(states[k]);
    }
  }
}
