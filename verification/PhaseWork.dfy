/** What the steps of a run add up to: every packet sent is sent in its phase, and none is lost or sent twice. */
module PhaseWork {
  import opened Machine
  import opened Phases
  import opened PhaseSync
  import opened PhaseSafety
  import opened PhaseProgress

  /** How often a step is taken. */
  function Occurrences(steps: seq<Step>, step: Step): nat {
    if steps == [] then 0
    else Occurrences(steps[..|steps| - 1], step) + if steps[|steps| - 1] == step then 1 else 0
  }

  lemma RunStep(states: seq<State>, steps: seq<Step>, k: nat)
    requires Run(states, steps) && k < |steps|
    ensures Able(states[k], steps[k]) && states[k + 1] == Next(states[k], steps[k])
  {
    hide Able, Next, Initial;
  }

  // ---- conservation ----

  /** What one step does to one peer's work: a send of its own moves one packet from left to sent. */
  predicate WorkMoves(p: Peer, p': Peer, warmup: bool, measured: bool) {
    && p'.warmupSent == p.warmupSent + (if warmup then 1 else 0)
    && p'.measuredSent == p.measuredSent + (if measured then 1 else 0)
    && p'.warmupSent + p'.warmupLeft == p.warmupSent + p.warmupLeft
    && p'.measuredSent + p'.measuredLeft == p.measuredSent + p.measuredLeft
  }

  /** The peer whose own step it is. */
  function Mover(step: Step): Option<nat> {
    match step
    case Arrive(peer, _) => Some(peer)
    case Wake(peer) => Some(peer)
    case Proceed(peer) => Some(peer)
    case ReportReturns(peer) => Some(peer)
    case SendWarmup(peer) => Some(peer)
    case EndWarmup(peer) => Some(peer)
    case CheckAck(peer) => Some(peer)
    case SendMeasured(peer) => Some(peer)
    case EndReceive(peer) => Some(peer)
    case _ => None
  }

  /** A peer's own step changes no other peer, nor what is up and what is persisted. */
  predicate OwnMove(s: State, step: Step, i: nat, s': State)
    requires i < |s.peers|
  {
    && s.peers[i].alive && |s'.peers| == |s.peers| && s'.peers == s.peers[i := s'.peers[i]]
    && WorkMoves(s.peers[i], s'.peers[i], step == SendWarmup(i), step == SendMeasured(i))
    && s'.reporterAlive == s.reporterAlive && SameEnds(s.channel, s'.channel)
  }

  /** Controller and sampler have not moved. */
  predicate SameEnds(c: Channel, c': Channel) {
    && c'.controller == c.controller && c'.accepted == c.accepted
    && c'.samplerUp == c.samplerUp && c'.persisted == c.persisted
  }

  lemma OwnStep(s: State, step: Step, i: nat)
    requires Able(s, step) && Mover(step) == Some(i)
    ensures i < |s.peers| && OwnMove(s, step, i, Next(s, step))
  {
    hide AfterWait, ReporterMoves, Enabled, Returned;
    match step
    case Proceed(_) => ReturnIsOwn(s, i);
    case Arrive(_, _) => assert Next(s, step).channel == s.channel;
    case CheckAck(_) => assert Next(s, step).channel == s.channel;
    case _ =>
  }

  lemma ReturnIsOwn(s: State, i: nat)
    requires Able(s, Proceed(i))
    ensures OwnMove(s, Proceed(i), i, AfterWait(s, i))
  {
    hide Enabled, Perform, AgreedStart, Duty, PeerAfterWait;
    ReturnLeavesWork(s, s.peers[i]);
  }

  lemma StepWork(s: State, step: Step, i: nat)
    requires Able(s, step) && i < |s.peers|
    ensures |Next(s, step).peers| == |s.peers|
    ensures WorkMoves(s.peers[i], Next(s, step).peers[i], step == SendWarmup(i), step == SendMeasured(i))
  {
    hide Enabled, Perform, Spawned, Returned, ReporterMoves;
    if Mover(step).Some? {
      hide Able, Next;
      OwnStep(s, step, Mover(step).value);
    } else if step == ReporterStep {
      ReporterLeavesPeers(s);
    }
  }

  lemma ReporterLeavesPeers(s: State)
    requires Able(s, ReporterStep)
    ensures ReporterMoves(s).peers == s.peers && (!s.reporterAlive ==> !ReporterMoves(s).reporterAlive)
    ensures SameEnds(s.channel, ReporterMoves(s).channel)
  {}

  lemma ReturnLeavesWork(s: State, p: Peer)
    requires p.position.Released?
    ensures WorkMoves(p, PeerAfterWait(s, p), false, false)
  {
    hide AgreedStart;
  }

  /** In every state of a run, what a peer has sent is the sends of the run so far, and what is left is the rest. */
  lemma {:induction false} WorkIsConserved(states: seq<State>, steps: seq<Step>, k: nat, i: nat)
    requires Run(states, steps) && k < |states| && i < |states[0].peers|
    ensures |states[k].peers| == |states[0].peers|
    ensures var work, p := states[0].peers[i], states[k].peers[i];
      && p.warmupSent == Occurrences(steps[..k], SendWarmup(i)) == work.warmupLeft - p.warmupLeft
      && p.measuredSent == Occurrences(steps[..k], SendMeasured(i)) == work.measuredLeft - p.measuredLeft
  {
    hide Able, Next;
    if k == 0 {
      assert FreshPeer(states[0].peers[i]);
    } else {
      WorkIsConserved(states, steps, k - 1, i);
      RunStep(states, steps, k - 1);
      StepWork(states[k - 1], steps[k - 1], i);
      assert steps[..k][..k - 1] == steps[..k - 1];
    }
  }

  /** Time passes with the ticks of a run and no other step. */
  lemma {:induction false} ClockTicks(states: seq<State>, steps: seq<Step>, k: nat)
    requires Run(states, steps) && k < |states|
    ensures states[k].clock == states[0].clock + Occurrences(steps[..k], Tick)
  {
    hide Able, Next, Initial;
    if k > 0 {
      ClockTicks(states, steps, k - 1);
      RunStep(states, steps, k - 1);
      StepTicks(states[k - 1], steps[k - 1]);
      assert steps[..k][..k - 1] == steps[..k - 1];
    }
  }

  lemma StepTicks(s: State, step: Step)
    requires Able(s, step)
    ensures Next(s, step).clock == s.clock + if step == Tick then 1 else 0
  {
    hide Enabled, Perform, Spawned, Returned, PeerAfterWait, AgreedStart;
  }

  // ---- what holds where a packet is sent ----

  /** While a peer warms up, the warmup phase is persisted, and no peer has sent a measured packet. */
  lemma WarmupIsGuarded(s: State, i: nat)
    requires Inv(s) && i < |s.peers| && s.peers[i].position == WarmingUp
    ensures Warmup in s.channel.persisted
    ensures forall j | 0 <= j < |s.peers| :: s.peers[j].measuredSent == 0
  {
    hide Sums.Count, ChannelInv;
    RoundsPassed(s);
    assert PeerOk(s, i);
    Persisted(s.channel, 1);
    forall j | 0 <= j < |s.peers| ensures s.peers[j].measuredSent == 0 {
      assert PeerOk(s, j);
    }
  }

  lemma Persisted(c: Channel, t: nat)
    requires ChannelInv(c)
    ensures t < |c.reports| && c.reports[t].status == Acknowledged ==> t < |ORDERED| && ORDERED[t] in c.persisted
  {
    if t < |c.reports| && c.reports[t].status == Acknowledged {
      AcknowledgedIsPersisted(c, t);
      assert c.persisted[t] == ORDERED[t];
    }
  }

  /** While a peer sends, the measured phase is persisted, warmup is over everywhere, and the one start has come. */
  lemma SendingIsGuarded(s: State, i: nat)
    requires Inv(s) && i < |s.peers| && s.peers[i].position == Sending
    ensures Measured in s.channel.persisted
    ensures s.measuredAt.Some? && s.measuredAt.value <= s.clock
    ensures forall j | 0 <= j < |s.peers| ::
      s.peers[j].reset && s.peers[j].startedAt == s.measuredAt && s.peers[j].warmupLeft == 0
  {
    hide Sums.Count, ChannelInv;
    RoundsPassed(s);
    assert PeerOk(s, i);
    Persisted(s.channel, 2);
    forall j | 0 <= j < |s.peers|
      ensures s.peers[j].reset && s.peers[j].startedAt == s.measuredAt && s.peers[j].warmupLeft == 0
    {
      assert PeerOk(s, j);
    }
  }

  /**
   * Over every run, deaths and failures included: a warmup packet is sent after its phase is persisted and before any
   * measured packet; a measured packet after its phase is persisted, when every peer has finished its warmup and reset
   * its timelines, and the one start instant has come.
   */
  lemma SendsAreGuarded(states: seq<State>, steps: seq<Step>, k: nat)
    requires Run(states, steps) && k < |steps|
    ensures steps[k].SendWarmup? ==>
      && Warmup in states[k].channel.persisted
      && forall j | 0 <= j < k :: !steps[j].SendMeasured?
    ensures steps[k].SendMeasured? ==>
      var s := states[k];
      && Measured in s.channel.persisted && s.measuredAt.Some? && s.measuredAt.value <= s.clock
      && |s.peers| == |states[0].peers|
      && forall i | 0 <= i < |s.peers| ::
           && s.peers[i].reset && s.peers[i].startedAt == s.measuredAt
           && Occurrences(steps[..k], SendWarmup(i)) == states[0].peers[i].warmupLeft
  {
    hide Inv, Next;
    RunStep(states, steps, k);
    RunKeeps(states, steps, k);
    PeersStay(states, steps, k);
    match steps[k]
    case SendWarmup(i) =>
      WarmupIsGuarded(states[k], i);
      forall j | 0 <= j < k ensures !steps[j].SendMeasured? {
        if steps[j].SendMeasured? {
          RunStep(states, steps, j);
          PeersStay(states, steps, j);
          WorkIsConserved(states, steps, k, steps[j].peer);
          OccursBefore(steps, j, k);
        }
      }
    case SendMeasured(i) =>
      SendingIsGuarded(states[k], i);
      forall j | 0 <= j < |states[k].peers|
        ensures Occurrences(steps[..k], SendWarmup(j)) == states[0].peers[j].warmupLeft
      {
        WorkIsConserved(states, steps, k, j);
      }
    case _ =>
  }

  lemma {:induction false} PeersStay(states: seq<State>, steps: seq<Step>, k: nat)
    requires Run(states, steps) && k < |states|
    ensures |states[k].peers| == |states[0].peers|
  {
    hide Able, Next;
    assert Initial(states[0]);
    WorkIsConserved(states, steps, k, 0);
  }

  lemma {:induction false} OccursBefore(steps: seq<Step>, j: nat, k: nat)
    requires j < k <= |steps|
    ensures Occurrences(steps[..k], steps[j]) > 0
  {
    assert steps[..k][..k - 1] == steps[..k - 1];
    if j < k - 1 {
      OccursBefore(steps, j, k - 1);
    }
  }

  // ---- faults ----

  /** What is down in a state stays down in the next, and has no part in the step. */
  predicate StaysDown(s: State, step: Step, s': State) {
    && |s'.peers| == |s.peers|
    && (forall i | 0 <= i < |s.peers| && !s.peers[i].alive :: !s'.peers[i].alive && Mover(step) != Some(i))
    && (!s.reporterAlive ==> !s'.reporterAlive && step != ReporterStep)
    && (s.channel.controller.Stopped? ==> s'.channel.controller.Stopped? && s'.channel.accepted == s.channel.accepted)
    && (!s.channel.samplerUp ==> !s'.channel.samplerUp && s'.channel.persisted == s.channel.persisted)
  }

  lemma StepStaysDown(s: State, step: Step)
    requires Able(s, step)
    ensures StaysDown(s, step, Next(s, step))
  {
    hide Enabled, Perform, Spawned, Returned, ReporterMoves;
    if Mover(step).Some? {
      hide Able, Next;
      OwnStep(s, step, Mover(step).value);
    } else if step == ReporterStep {
      ReporterLeavesPeers(s);
    } else if step.ChannelMoves? {
      ChannelStaysDown(s.channel, step.move);
    }
  }

  lemma ChannelStaysDown(c: Channel, move: ChannelStep)
    requires Enabled(c, move)
    ensures c.controller.Stopped? ==> Perform(c, move).controller.Stopped? && Perform(c, move).accepted == c.accepted
    ensures !c.samplerUp ==> !Perform(c, move).samplerUp && Perform(c, move).persisted == c.persisted
  {}

  /** Faults strike at any time: whatever is up can go down, whatever is queued or under way. */
  lemma FaultsAnytime(s: State, i: nat)
    ensures Able(s, PeerDies(i)) <==> i < |s.peers| && s.peers[i].alive
    ensures Able(s, ReporterDies) <==> s.reporterAlive
    ensures Able(s, ChannelMoves(ControllerFails)) <==> !s.channel.controller.Stopped?
    ensures Able(s, ChannelMoves(SamplerFails)) <==> s.channel.samplerUp
  {}

  /** What a fault has brought down. */
  predicate Down(s: State, fault: Step) {
    match fault
    case PeerDies(i) => i < |s.peers| && !s.peers[i].alive
    case ReporterDies => !s.reporterAlive
    case ChannelMoves(ControllerFails) => s.channel.controller.Stopped?
    case ChannelMoves(SamplerFails) => !s.channel.samplerUp
    case _ => false
  }

  /** What a fault has brought down takes no part in the rest of the run. */
  predicate TakesNoPart(fault: Step, s: State, step: Step, s': State) {
    match fault
    case PeerDies(i) => Mover(step) != Some(i)
    case ReporterDies => step != ReporterStep
    case ChannelMoves(ControllerFails) => s'.channel.accepted == s.channel.accepted
    case ChannelMoves(SamplerFails) => s'.channel.persisted == s.channel.persisted
    case _ => true
  }

  lemma {:induction false} FaultsAreFinal(states: seq<State>, steps: seq<Step>, k: nat, m: nat)
    requires Run(states, steps) && k < m <= |steps| && IsFault(steps[k])
    ensures Down(states[m], steps[k])
    ensures forall j | k < j < m :: TakesNoPart(steps[k], states[j], steps[j], states[j + 1])
  {
    hide Able, Next, TakesNoPart;
    RunStep(states, steps, m - 1);
    if k == m - 1 {
      FaultBringsDown(states[k], steps[k]);
    } else {
      FaultsAreFinal(states, steps, k, m - 1);
      StepStaysDown(states[m - 1], steps[m - 1]);
      DownTakesNoPart(states[m - 1], steps[k], steps[m - 1], states[m]);
    }
  }

  lemma FaultBringsDown(s: State, fault: Step)
    requires Able(s, fault) && IsFault(fault)
    ensures Down(Next(s, fault), fault)
  {}

  lemma DownTakesNoPart(s: State, fault: Step, step: Step, s': State)
    requires Down(s, fault) && StaysDown(s, step, s')
    ensures Down(s', fault) && TakesNoPart(fault, s, step, s')
  {}

  // ---- the start instant ----

  /** The start instant is fixed once, a whole second ahead of the clock. */
  lemma StartIsFixedAhead(s: State, step: Step)
    requires Able(s, step)
    ensures Next(s, step).measuredAt == s.measuredAt
         || (s.measuredAt.None? && Next(s, step).measuredAt == Some(s.clock + 1_000_000_000))
  {
    hide Enabled, Perform, Spawned, Returned, Duty, PeerAfterWait;
  }

  /** The state in which the start instant of a later state was fixed. */
  lemma {:induction false} StartWasFixed(states: seq<State>, steps: seq<Step>, k: nat) returns (j: nat)
    requires Run(states, steps) && k < |states| && states[k].measuredAt.Some?
    ensures j < k && states[j].measuredAt.None?
    ensures states[k].measuredAt == Some(states[j].clock + 1_000_000_000)
  {
    hide Able, Next;
    assert k > 0 by { assert Initial(states[0]); }
    RunStep(states, steps, k - 1);
    StartIsFixedAhead(states[k - 1], steps[k - 1]);
    if states[k - 1].measuredAt.Some? {
      j := StartWasFixed(states, steps, k - 1);
    } else {
      j := k - 1;
    }
  }

  // ---- what the drain phase and the end of a run stand for ----

  /** The run has taken every send of every peer, warmup and measured. */
  ghost predicate AllSent(states: seq<State>, steps: seq<Step>, k: nat)
    requires states != [] && k <= |steps|
  {
    forall i | 0 <= i < |states[0].peers| ::
      && Occurrences(steps[..k], SendWarmup(i)) == states[0].peers[i].warmupLeft
      && Occurrences(steps[..k], SendMeasured(i)) == states[0].peers[i].measuredLeft
  }

  lemma DrainedPeers(s: State, i: nat)
    requires Inv(s) && Drain in s.channel.persisted && i < |s.peers|
    ensures s.peers[i].received && s.peers[i].warmupLeft == 0 && s.peers[i].measuredLeft == 0
  {
    hide Sums.Count;
    var t :| 0 <= t < |s.channel.persisted| && s.channel.persisted[t] == Drain;
    assert ORDERED[t] == Drain;
    RoundsPassed(s);
    assert PeerOk(s, i);
  }

  /** Even with deaths and failures, a persisted drain phase means that every peer has sent all it had to send. */
  lemma DrainMeansAllSent(states: seq<State>, steps: seq<Step>, k: nat)
    requires Run(states, steps) && k < |states| && Drain in states[k].channel.persisted
    ensures AllSent(states, steps, k) && forall i | 0 <= i < |states[k].peers| :: states[k].peers[i].received
  {
    hide Inv, Able, Next, Occurrences;
    RunKeeps(states, steps, k);
    PeersStay(states, steps, k);
    forall i | 0 <= i < |states[0].peers|
      ensures states[k].peers[i].received
      ensures Occurrences(steps[..k], SendWarmup(i)) == states[0].peers[i].warmupLeft
      ensures Occurrences(steps[..k], SendMeasured(i)) == states[0].peers[i].measuredLeft
    {
      DrainedPeers(states[k], i);
      WorkIsConserved(states, steps, k, i);
    }
  }

  /** A fault-free run that can only let time pass, with the start instant reached, has sent every packet. */
  lemma MaximalRunsSendAll(states: seq<State>, steps: seq<Step>)
    requires Run(states, steps) && FaultFree(steps)
    requires var s := states[|steps|];
      && (forall step | Able(s, step) && !IsFault(step) :: step == Tick)
      && (s.reporter.Sleeping? ==> s.reporter.start <= s.clock)
    ensures Complete(states[|steps|]) && AllSent(states, steps, |steps|)
  {
    hide Inv, Healthy, Able, Next, AllSent;
    MaximalRunsComplete(states, steps);
    assert ORDERED[3] == Drain;
    DrainMeansAllSent(states, steps, |steps|);
  }
}
