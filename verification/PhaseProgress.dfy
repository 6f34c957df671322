/** Without faults the phase protocol never gets stuck, loses no wake-up, and ends. */
module PhaseProgress {
  import opened Machine
  import opened Sums
  import opened Phases
  import opened PhaseSync
  import opened PhaseSafety

  predicate IsFault(step: Step) {
    match step
    case PeerDies(_) => true
    case ReporterDies => true
    case ChannelMoves(move) => IsFailure(move)
    case _ => false
  }

  /** Everybody is alive, and both ends of the channel are up. */
  predicate Healthy(s: State) {
    && (forall i | 0 <= i < |s.peers| :: s.peers[i].alive)
    && s.reporterAlive && !s.channel.controller.Stopped? && s.channel.samplerUp
  }

  lemma ChannelStaysUp(c: Channel, move: ChannelStep)
    requires ChannelInv(c) && Enabled(c, move) && !IsFailure(move) && !c.controller.Stopped? && c.samplerUp
    ensures var c' := Perform(c, move); !c'.controller.Stopped? && c'.samplerUp
  {
    if move.ReadRequest? {
      assert c.requests == [ORDERED[c.lock.value]] && c.accepted == c.lock.value;
    }
  }

  /** No error path is ever taken on its own account: without a fault, everybody stays up. */
  lemma HealthStays(s: State, step: Step)
    requires Inv(s) && Healthy(s) && Able(s, step) && !IsFault(step)
    ensures Healthy(Next(s, step))
  {
    hide Inv, ChannelInv, Perform, Enabled, AgreedStart;
    InvParts(s);
    match step
    case ChannelMoves(move) => ChannelStaysUp(s.channel, move);
    case ReportReturns(i) => NoReportFails(s.channel, s.peers[i].position.report);
    case ReporterStep =>
      RoundsPassed(s);
      if s.reporter.AwaitingReport? {
        NoReportFails(s.channel, s.reporter.report);
      }
    case _ =>
  }

  lemma InvParts(s: State)
    requires Inv(s)
    ensures ChannelInv(s.channel)
    ensures s.reporter.ReadingStart? ==> s.generation >= 5
  {
    hide ChannelInv, Count;
  }

  lemma NoReportFails(c: Channel, t: nat)
    requires ChannelInv(c) && !c.controller.Stopped? && t < |c.reports|
    ensures c.reports[t].status != Failed
  {}

  /** The whole protocol has run: every phase persisted, every packet sent, every peer done. */
  predicate Complete(s: State) {
    && (forall i | 0 <= i < |s.peers| :: s.peers[i].position == Done)
    && (forall i | 0 <= i < |s.peers| ::
       s.peers[i].warmupLeft == 0 && s.peers[i].measuredLeft == 0 && s.peers[i].received)
    && s.reporter == Finished && s.channel.persisted == ORDERED && s.channel.accepted == |ORDERED|
    && Settled(s.channel)
  }

  // ---- never stuck ----

  /** Where the outstanding request is, there is something to do about it. */
  lemma ChannelMove(c: Channel) returns (move: ChannelStep)
    requires ChannelInv(c) && !c.controller.Stopped? && c.samplerUp && !Settled(c)
    ensures Enabled(c, move) && !IsFailure(move)
  {
    var t := |c.reports| - 1;
    if c.lock.None? {
      move := TakeLock(t);
    } else if c.requests != [] {
      move := ReadRequest;
    } else if c.inbox.Some? {
      move := Persist;
    } else if c.reply.Some? {
      move := TakeReply;
    } else if c.acks != [] {
      move := ReadAck;
    } else {
      move := WriteAck;
    }
  }

  predicate Stalled(s: State, i: nat)
    requires i < |s.peers|
  {
    match s.peers[i].position
    case Waiting(_, generation) => generation == s.generation
    case AckAwait(_) => s.broadcasts == 0
    case Done => true
    case _ => false
  }

  lemma SetupIsReported(c: Channel)
    requires ChannelInv(c)
    ensures c.reports != []
  {}

  /** A peer that is not waiting for others, and not done, can move once its report is back. */
  lemma PeerMove(s: State, i: nat) returns (step: Step)
    requires Inv(s) && Healthy(s) && Settled(s.channel) && i < |s.peers| && !Stalled(s, i)
    ensures Able(s, step) && !IsFault(step) && step != Tick
  {
    hide Count, ChannelInv, LeadersOk;
    assert PeerOk(s, i);
    SetupIsReported(s.channel);
    match s.peers[i].position
    case Idle => step := StartPeers;
    case Arriving(_) => step := Arrive(i, i);
    case Waiting(_, _) => step := Wake(i);
    case Released(_, _) => step := Proceed(i);
    case Reporting(_, _) => step := ReportReturns(i);
    case WarmingUp => step := if s.peers[i].warmupLeft > 0 then SendWarmup(i) else EndWarmup(i);
    case Sending => step := if s.peers[i].measuredLeft > 0 then SendMeasured(i) else EndReceive(i);
    case _ => step := CheckAck(i);
  }

  /** Some peer has not arrived in the current barrier generation. */
  lemma SomeoneIsMissing(s: State) returns (i: nat)
    requires BarrierOk(s)
    ensures i < |s.peers| && s.peers[i].waits != s.generation + 1
  {
    CountBounds(ArrivedMask(s));
    i :| 0 <= i < |s.peers| && !ArrivedMask(s)[i];
  }

  /**
   * When every peer is stalled, nobody waits at the barrier for a peer that awaits nothing, and no permit is missed.
   */
  lemma StalledTogether(s: State)
    requires Inv(s) && Healthy(s) && Settled(s.channel) && (forall i | 0 <= i < |s.peers| :: Stalled(s, i))
    ensures s.generation == 7 ==> forall i | 0 <= i < |s.peers| :: s.peers[i].position == Done
    ensures s.generation != 7 ==> s.generation == 5 && s.broadcasts == 0 && (s.reporter == AwaitingPermit ==> s.permit)
  {
    hide Count, ChannelInv, LeadersOk;
    var k := SomeoneIsMissing(s);
    assert PeerOk(s, k) && Stalled(s, k);
    if s.generation == 7 {
      forall i | 0 <= i < |s.peers| ensures s.peers[i].position == Done {
        assert PeerOk(s, i) && Stalled(s, i);
      }
    } else {
      var leader := s.leaders[4];
      assert PeerOk(s, leader) && Stalled(s, leader);
    }
  }

  lemma DoneIsComplete(s: State)
    requires Inv(s) && Settled(s.channel) && (forall i | 0 <= i < |s.peers| :: s.peers[i].position == Done)
    requires !s.channel.controller.Stopped? && s.reporter == Finished
    ensures Complete(s)
  {
    hide Count;
    RoundsPassed(s);
    forall i | 0 <= i < |s.peers|
      ensures s.peers[i].warmupLeft == 0 && s.peers[i].measuredLeft == 0 && s.peers[i].received && s.generation >= 7
    {
      assert PeerOk(s, i);
    }
    assert s.generation >= 7;
    assert |s.channel.reports| == 4;
    assert s.channel.persisted == ORDERED[..4] == ORDERED;
  }

  /**
   * Deadlock freedom: a healthy reachable state is complete, or some step other than a fault and the passing of time is
   * enabled, or the measured task sleeps towards a start instant still ahead.
   */
  lemma NeverStuck(s: State) returns (step: Step)
    requires Inv(s) && Healthy(s)
    ensures Complete(s) || (Able(s, step) && !IsFault(step)
      && (step == Tick ==> s.reporter.Sleeping? && s.clock < s.reporter.start))
  {
    hide Count, Inv;
    step := Tick;
    if !Settled(s.channel) {
      HealthyChannel(s);
      var move := ChannelMove(s.channel);
      step := ChannelMoves(move);
    } else if i: nat :| i < |s.peers| && !Stalled(s, i) {
      step := PeerMove(s, i);
    } else {
      StalledTogether(s);
      if Able(s, ReporterStep) {
        step := ReporterStep;
      } else {
        ReporterIsDoneOrAsleep(s);
      }
    }
  }

  lemma HealthyChannel(s: State)
    requires Inv(s)
    ensures ChannelInv(s.channel)
  {}

  lemma AwaitedIsBack(s: State)
    requires Inv(s) && Settled(s.channel)
    ensures s.reporter.AwaitingReport? ==> Returned(s, s.reporter.report)
  {
    hide Count, ChannelInv, LeadersOk, PeersOk;
  }

  lemma ReporterIsDoneOrAsleep(s: State)
    requires Inv(s) && Healthy(s) && Settled(s.channel) && !Able(s, ReporterStep)
    requires forall i | 0 <= i < |s.peers| :: Stalled(s, i)
    ensures Complete(s) || (s.reporter.Sleeping? && s.clock < s.reporter.start)
  {
    hide Count, ChannelInv, LeadersOk;
    StalledTogether(s);
    AwaitedIsBack(s);
    if s.reporter == Finished {
      DoneIsComplete(s);
    } else if s.generation == 7 {
      RoundsPassed(s);
    }
  }

  // ---- every run ends ----

  /** Steps the outstanding report still needs. */
  function ChannelRank(c: Channel): nat {
    if c.reports == [] then 0
    else match LastStatus(c)
      case Queued => 6
      case Exchanging =>
        if c.requests != [] then 5 else if c.inbox.Some? then 4 else if c.reply.Some? then 3
        else if c.controller.Acknowledging? then 2 else 1
      case _ => 0
  }

  /** Steps a position is away from the end, with room for the report a leader makes there. */
  function PositionRank(position: Position, broadcast: bool): nat {
    match position
    case Idle => 180
    case Arriving(r) => if r <= 8 then 20 * (8 - r) + 12 else 12
    case Waiting(r, _) => if r <= 8 then 20 * (8 - r) + 11 else 11
    case Released(r, _) => if r <= 8 then 20 * (8 - r) + 10 else 10
    case Reporting(r, _) => if r <= 8 then 20 * (8 - r) + 3 else 3
    case WarmingUp => 125
    case AckLoad => if broadcast then 61 else 65
    case AckCreate => if broadcast then 63 else 64
    case AckReload(_) => if broadcast then 62 else 63
    case AckAwait(_) => 62
    case Sending => 60
    case Done => 0
  }

  function PeerRank(p: Peer, broadcast: bool): nat {
    PositionRank(p.position, broadcast) + p.warmupLeft + p.measuredLeft
  }

  function ReporterRank(reporter: ReporterPosition): nat {
    match reporter
    case AwaitingPermit => 20
    case ReadingStart => 19
    case Sleeping(_) => 18
    case AwaitingReport(_) => 3
    case Storing => 2
    case Notifying => 1
    case Finished => 0
  }

  function PeerRanks(s: State): (r: seq<nat>)
    ensures |r| == |s.peers|
  {
    seq(|s.peers|, i requires 0 <= i < |s.peers| => PeerRank(s.peers[i], s.broadcasts > 0))
  }

  function Rank(s: State): nat {
    Sum(PeerRanks(s)) + ReporterRank(s.reporter) + ChannelRank(s.channel)
  }

  lemma ChannelRankFalls(c: Channel, move: ChannelStep)
    requires ChannelInv(c) && Enabled(c, move) && !IsFailure(move) && !c.controller.Stopped? && c.samplerUp
    ensures ChannelRank(Perform(c, move)) < ChannelRank(c)
  {
    if move.ReadRequest? {
      assert c.requests == [ORDERED[c.lock.value]] && c.accepted == c.lock.value;
    }
  }

  lemma SpawnRank(c: Channel, phase: ScenarioPhase)
    requires ChannelInv(c)
    ensures ChannelRank(Spawned(c, phase)) == 6
  {}

  /** A step of one peer lowers the rank by as much as the peer's own, less what it adds to the channel's. */
  lemma OnePeerRank(s: State, s': State, i: nat)
    requires i < |s.peers| == |s'.peers| && s'.peers == s.peers[i := s'.peers[i]]
    requires s'.broadcasts == s.broadcasts && s'.reporter == s.reporter
    requires PeerRank(s'.peers[i], s.broadcasts > 0) + ChannelRank(s'.channel)
           < PeerRank(s.peers[i], s.broadcasts > 0) + ChannelRank(s.channel)
    ensures Rank(s') < Rank(s)
  {
    hide PeerRank, ChannelRank;
    SumUpdate(PeerRanks(s), i, PeerRank(s'.peers[i], s.broadcasts > 0));
    assert PeerRanks(s') == PeerRanks(s)[i := PeerRank(s'.peers[i], s.broadcasts > 0)];
  }

  lemma PeerIsPlaced(s: State, i: nat)
    requires Inv(s) && i < |s.peers|
    ensures s.generation <= |s.leaders| && Placed(s, i)
  {
    hide ChannelInv, Count, LeadersOk, ReporterOk;
    assert PeerOk(s, i);
  }

  lemma StartRank(s: State)
    requires s.peers != [] && Able(s, StartPeers)
    ensures Rank(Next(s, StartPeers)) < Rank(s)
  {
    var s' := Next(s, StartPeers);
    var gain := seq(|s.peers|, _ => 28);
    SumPointwise(PeerRanks(s'), gain, PeerRanks(s));
    SumConstant(gain, 28);
  }

  lemma ReporterRankFalls(s: State)
    requires Inv(s) && Healthy(s) && Able(s, ReporterStep)
    ensures Rank(Next(s, ReporterStep)) < Rank(s)
  {
    hide Inv, Healthy, Sum, ChannelRank, ReporterRank, PeerRanks, Next;
    ReporterShareFalls(s);
    PeersRankNoHigher(s, Next(s, ReporterStep));
  }

  /** A later broadcast never raises a peer's rank. */
  lemma PeersRankNoHigher(s: State, s': State)
    requires s'.peers == s.peers && s.broadcasts <= s'.broadcasts
    ensures Sum(PeerRanks(s')) <= Sum(PeerRanks(s))
  {
    hide Sum;
    SumAtMost(PeerRanks(s'), PeerRanks(s));
  }

  lemma ReporterShareFalls(s: State)
    requires Inv(s) && Healthy(s) && Able(s, ReporterStep)
    ensures var s' := Next(s, ReporterStep);
      && s'.peers == s.peers && s.broadcasts <= s'.broadcasts
      && ReporterRank(s'.reporter) + ChannelRank(s'.channel) < ReporterRank(s.reporter) + ChannelRank(s.channel)
  {
    hide Inv, Healthy, ChannelRank, Spawned;
    ReporterStaysUp(s);
    if s.reporter.Sleeping? {
      HealthyChannel(s);
      SpawnRank(s.channel, Measured);
    }
  }

  lemma ReporterStaysUp(s: State)
    requires Inv(s) && Healthy(s) && Able(s, ReporterStep)
    ensures Next(s, ReporterStep).reporterAlive && s.reporterAlive
  {
    hide Inv;
    HealthStays(s, ReporterStep);
  }

  /** Acting on a return lowers the peer's rank by more than the report a leader makes costs. */
  lemma ReturnLowers(s: State, p: Peer, broadcast: bool)
    requires p.position.Released? && 1 <= p.position.round <= ROUNDS
    ensures PeerRank(PeerAfterWait(s, p), broadcast)
          + (if Duty(p.position.round, p.position.leader).Some? then 6 else 0) < PeerRank(p, broadcast)
  {}

  lemma ProceedRankFalls(s: State, i: nat)
    requires Inv(s) && Able(s, Proceed(i))
    ensures Rank(Next(s, Proceed(i))) < Rank(s)
  {
    hide Inv, ChannelRank, PeerAfterWait, PeerRank, Rank, Spawned;
    var p := s.peers[i];
    PeerIsPlaced(s, i);
    HealthyChannel(s);
    ReturnLowers(s, p, s.broadcasts > 0);
    var duty := Duty(p.position.round, p.position.leader);
    if duty.Some? {
      SpawnRank(s.channel, duty.value);
    }
    OnePeerRank(s, AfterWait(s, i), i);
  }

  lemma AckRankFalls(s: State, i: nat)
    requires Inv(s) && Able(s, CheckAck(i))
    ensures Rank(Next(s, CheckAck(i))) < Rank(s)
  {
    hide Count, ChannelInv, LeadersOk, ChannelRank;
    assert PeerOk(s, i);
    OnePeerRank(s, Next(s, CheckAck(i)), i);
  }

  lemma PeerRankFalls(s: State, i: nat, step: Step)
    requires Inv(s) && Healthy(s) && Able(s, step) && !IsFault(step)
    requires step == Wake(i) || step == ReportReturns(i) || step == SendWarmup(i) || step == EndWarmup(i)
          || step == SendMeasured(i) || step == EndReceive(i)
    ensures Rank(Next(s, step)) < Rank(s)
  {
    hide Inv, ChannelRank;
    PeerIsPlaced(s, i);
    if step == ReportReturns(i) {
      HealthyChannel(s);
      NoReportFails(s.channel, s.peers[i].position.report);
    }
    OnePeerRank(s, Next(s, step), i);
  }

  lemma ArriveRankFalls(s: State, i: nat, leader: nat)
    requires Inv(s) && Able(s, Arrive(i, leader))
    ensures Rank(Next(s, Arrive(i, leader))) < Rank(s)
  {
    assert PeerOk(s, i);
    hide Inv, ChannelRank;
    OnePeerRank(s, Next(s, Arrive(i, leader)), i);
  }

  /** Every step but a fault or a tick lowers the rank. */
  lemma RankFalls(s: State, step: Step)
    requires Inv(s) && Healthy(s) && Able(s, step) && !IsFault(step) && step != Tick
    ensures Rank(Next(s, step)) < Rank(s)
  {
    hide Inv, Healthy, Rank;
    match step
    case StartPeers =>
      SomePeer(s);
      StartRank(s);
    case Arrive(i, leader) => ArriveRankFalls(s, i, leader);
    case Proceed(i) => ProceedRankFalls(s, i);
    case CheckAck(i) => AckRankFalls(s, i);
    case ReporterStep => ReporterRankFalls(s);
    case ChannelMoves(move) => ChannelMoveRankFalls(s, move);
    case Wake(i) => PeerRankFalls(s, i, step);
    case ReportReturns(i) => PeerRankFalls(s, i, step);
    case SendWarmup(i) => PeerRankFalls(s, i, step);
    case EndWarmup(i) => PeerRankFalls(s, i, step);
    case SendMeasured(i) => PeerRankFalls(s, i, step);
    case EndReceive(i) => PeerRankFalls(s, i, step);
  }

  lemma SomePeer(s: State)
    requires Inv(s)
    ensures s.peers != []
  {}

  lemma ChannelMoveRankFalls(s: State, move: ChannelStep)
    requires Inv(s) && Healthy(s) && Able(s, ChannelMoves(move)) && !IsFailure(move)
    ensures Rank(Next(s, ChannelMoves(move))) < Rank(s)
  {
    HealthyChannel(s);
    hide Inv, Enabled, Perform;
    ChannelRankFalls(s.channel, move);
    assert PeerRanks(Next(s, ChannelMoves(move))) == PeerRanks(s);
  }

  /** Steps of a run other than the passing of time. */
  function Moves(steps: seq<Step>): nat {
    if steps == [] then 0 else Moves(steps[..|steps| - 1]) + if steps[|steps| - 1] == Tick then 0 else 1
  }

  ghost predicate FaultFree(steps: seq<Step>) {
    forall k | 0 <= k < |steps| :: !IsFault(steps[k])
  }

  lemma InitialHealth(s: State)
    requires Initial(s)
    ensures Healthy(s)
  {
    assert forall i | 0 <= i < |s.peers| :: FreshPeer(s.peers[i]);
  }

  /** However a fault-free run interleaves, it has at most as many moves as its initial rank, and it stays healthy. */
  lemma {:induction false} FaultFreeRunsEnd(states: seq<State>, steps: seq<Step>)
    requires Run(states, steps) && FaultFree(steps)
    ensures Healthy(states[|steps|]) && Inv(states[|steps|])
    ensures Moves(steps) + Rank(states[|steps|]) <= Rank(states[0])
  {
    hide Inv, Healthy, Rank, Able, Next, Initial, IsFault;
    var n := |steps|;
    RunKeeps(states, steps, n);
    if n == 0 {
      InitialHealth(states[0]);
    } else {
      var init := steps[..n - 1];
      assert Run(states[..n], init);
      FaultFreeRunsEnd(states[..n], init);
      var s, last := states[n - 1], steps[n - 1];
      assert Able(s, last) && states[n - 1 + 1] == Next(s, last) && !IsFault(last);
      HealthStays(s, last);
      if last != Tick {
        RankFalls(s, last);
      } else {
        TickRank(s);
      }
    }
  }

  lemma TickRank(s: State)
    ensures Rank(Next(s, Tick)) == Rank(s)
  {
    assert PeerRanks(Next(s, Tick)) == PeerRanks(s);
  }

  /**
   * A fault-free run that cannot move except by letting time pass is complete once the clock has reached the start
   * instant: nothing is ever lost on the way there.
   */
  lemma MaximalRunsComplete(states: seq<State>, steps: seq<Step>)
    requires Run(states, steps) && FaultFree(steps)
    requires var s := states[|steps|];
      && (forall step | Able(s, step) && !IsFault(step) :: step == Tick)
      && (s.reporter.Sleeping? ==> s.reporter.start <= s.clock)
    ensures Complete(states[|steps|])
  {
    hide Inv, Healthy, Able, Complete;
    FaultFreeRunsEnd(states, steps);
    var step := NeverStuck(states[|steps|]);
  }

  /** How long the measured task still has to sleep. */
  function SleepLeft(s: State): nat {
    if s.reporter.Sleeping? && s.clock < s.reporter.start then s.reporter.start - s.clock else 0
  }

  lemma RunGrows(states: seq<State>, steps: seq<Step>, step: Step)
    requires Run(states, steps) && Able(states[|steps|], step)
    ensures Run(states + [Next(states[|steps|], step)], steps + [step])
  {
    hide Able, Next, Initial;
    var states', steps' := states + [Next(states[|steps|], step)], steps + [step];
    forall k | 0 <= k < |steps'| ensures Able(states'[k], steps'[k]) && states'[k + 1] == Next(states'[k], steps'[k]) {
      if k < |steps| {
        assert Able(states[k], steps[k]) && states[k + 1] == Next(states[k], steps[k]);
      }
    }
  }

  /** Every fault-free run, however far it has got, can go on to a complete one. */
  lemma {:induction false} EveryRunCanComplete(states: seq<State>, steps: seq<Step>)
    returns (all: seq<State>, taken: seq<Step>)
    requires Run(states, steps) && FaultFree(steps)
    ensures Run(all, taken) && FaultFree(taken) && states <= all && steps <= taken
    ensures Complete(all[|taken|])
    decreases Rank(states[|steps|]), SleepLeft(states[|steps|])
  {
    hide Inv, Healthy, Rank, Able, Next, Complete, Initial, IsFault;
    FaultFreeRunsEnd(states, steps);
    var s := states[|steps|];
    var step := NeverStuck(s);
    if Complete(s) {
      all, taken := states, steps;
    } else {
      RunGrows(states, steps, step);
      if step == Tick {
        TickRank(s);
        TickShortensSleep(s);
      } else {
        RankFalls(s, step);
      }
      all, taken := EveryRunCanComplete(states + [Next(s, step)], steps + [step]);
    }
  }

  lemma TickShortensSleep(s: State)
    requires s.reporter.Sleeping? && s.clock < s.reporter.start
    ensures Able(s, Tick) && SleepLeft(Next(s, Tick)) < SleepLeft(s)
  {}
}
