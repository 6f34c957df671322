/** The load worker's peers, their shared barrier and the measured-phase task, as one transition system. */
module PhaseSync {
  import opened Machine
  import opened Sums
  import opened Phases

  /** Where one peer task stands; the round is the number of its barrier wait, counted from one. */
  datatype Position =
    | Idle                                       // connecting; nothing reported beyond setup yet
    | Arriving(round: nat)                       // about to wait for the round-th time
    | Waiting(round: nat, generation: nat)       // counted in a barrier generation
    | Released(round: nat, leader: bool)         // the wait has returned
    | Reporting(round: nat, report: nat)         // the leader awaits its report
    | WarmingUp
    | AckLoad                                    // first load of the acknowledgement flag
    | AckCreate                                  // flag was down; about to create the notification future
    | AckReload(seen: nat)                       // created when `seen` broadcasts had been made; second load
    | AckAwait(seen: nat)
    | Sending
    | Done

  datatype Peer = Peer(
    position: Position, alive: bool, waits: nat, warmupLeft: nat, warmupSent: nat, reset: bool, startedAt: Option<nat>,
    measuredLeft: nat, measuredSent: nat, received: bool)

  /** The task that reports the measured phase. */
  datatype ReporterPosition =
    | AwaitingPermit | ReadingStart | Sleeping(start: nat)
    | AwaitingReport(report: nat) | Storing | Notifying | Finished

  datatype State = State(
    peers: seq<Peer>, generation: nat, arrived: nat, leaders: seq<nat>, measuredAt: Option<nat>, permit: bool,
    acknowledged: bool, broadcasts: nat, reporter: ReporterPosition, reporterAlive: bool, channel: Channel, clock: nat)

  const MEASURE_START_LEAD: nat := 1_000_000_000
  const ROUNDS: nat := 7

  datatype Step =
    | StartPeers                              // setup acknowledged, peers connected
    | Arrive(peer: nat, leader: nat)          // `leader` is the one waiter chosen if this arrival completes the barrier
    | Wake(peer: nat)
    | Proceed(peer: nat)                      // the action behind a barrier wait
    | ReportReturns(peer: nat)
    | SendWarmup(peer: nat)
    | EndWarmup(peer: nat)
    | CheckAck(peer: nat)                     // one step of the acknowledgement loop
    | SendMeasured(peer: nat)
    | EndReceive(peer: nat)                   // sent everything, then received until complete
    | ReporterStep
    | ChannelMoves(move: ChannelStep)
    | PeerDies(peer: nat)
    | ReporterDies
    | Tick

  predicate Able(s: State, step: Step) {
    match step
    case StartPeers =>
      && (forall i | 0 <= i < |s.peers| :: s.peers[i].position == Idle)
      && s.channel.reports != [] && s.channel.reports[0].status == Acknowledged
    case Arrive(i, leader) => Runs(s, i) && s.peers[i].position.Arriving? && leader < |s.peers|
    case Wake(i) =>
      Runs(s, i) && s.peers[i].position.Waiting? && s.peers[i].position.generation < s.generation
      && s.generation <= |s.leaders|
    case Proceed(i) => Runs(s, i) && s.peers[i].position.Released?
    case ReportReturns(i) => Runs(s, i) && s.peers[i].position.Reporting? && Returned(s, s.peers[i].position.report)
    case SendWarmup(i) => Runs(s, i) && s.peers[i].position.WarmingUp? && s.peers[i].warmupLeft > 0
    case EndWarmup(i) => Runs(s, i) && s.peers[i].position.WarmingUp? && s.peers[i].warmupLeft == 0
    case CheckAck(i) =>
      Runs(s, i)
      && (match s.peers[i].position
          case AckLoad => true
          case AckCreate => true
          case AckReload(_) => true
          case AckAwait(seen) => seen < s.broadcasts
          case _ => false)
    case SendMeasured(i) => Runs(s, i) && s.peers[i].position.Sending? && s.peers[i].measuredLeft > 0
    case EndReceive(i) => Runs(s, i) && s.peers[i].position.Sending? && s.peers[i].measuredLeft == 0
    case ReporterStep =>
      s.reporterAlive
      && (match s.reporter
          case AwaitingPermit => s.permit
          case Sleeping(start) => start <= s.clock
          case AwaitingReport(t) => Returned(s, t)
          case Finished => false
          case _ => true)
    case ChannelMoves(move) => Phases.Enabled(s.channel, move)
    case PeerDies(i) => Runs(s, i)
    case ReporterDies => s.reporterAlive
    case Tick => true
  }

  predicate Runs(s: State, i: nat) {
    i < |s.peers| && s.peers[i].alive
  }

  predicate Returned(s: State, report: nat) {
    report < |s.channel.reports|
    && (s.channel.reports[report].status == Acknowledged || s.channel.reports[report].status == Failed)
  }

  function At(s: State, i: nat, p: Peer): State
    requires i < |s.peers|
  {
    s.(peers := s.peers[i := p])
  }

  function MoveTo(s: State, i: nat, position: Position): State
    requires i < |s.peers|
  {
    At(s, i, s.peers[i].(position := position))
  }

  function Next(s: State, step: Step): State
    requires Able(s, step)
  {
    match step
    case StartPeers =>
      s.(peers := seq(|s.peers|, i requires 0 <= i < |s.peers| => s.peers[i].(position := Arriving(1))))
    case Arrive(i, leader) =>
      var p := s.peers[i];
      var full := s.arrived + 1 == |s.peers|;
      s.(peers := s.peers[i := p.(position := Waiting(p.position.round, s.generation), waits := p.waits + 1)],
         generation := if full then s.generation + 1 else s.generation,
         arrived := if full then 0 else s.arrived + 1,
         leaders := if full then s.leaders + [leader] else s.leaders)
    case Wake(i) =>
      var position := s.peers[i].position;
      MoveTo(s, i, Released(position.round, s.leaders[position.generation] == i))
    case Proceed(i) => AfterWait(s, i)
    case ReportReturns(i) =>
      if s.channel.reports[s.peers[i].position.report].status == Acknowledged
      then MoveTo(s, i, Arriving(s.peers[i].position.round + 1))
      else At(s, i, s.peers[i].(alive := false))
    case SendWarmup(i) =>
      var p := s.peers[i];
      At(s, i, p.(warmupLeft := p.warmupLeft - 1, warmupSent := p.warmupSent + 1))
    case EndWarmup(i) => MoveTo(s, i, Arriving(3))
    case CheckAck(i) =>
      MoveTo(s, i,
        match s.peers[i].position
        case AckLoad => if s.acknowledged then Sending else AckCreate
        case AckCreate => AckReload(s.broadcasts)
        case AckReload(seen) => if s.acknowledged then Sending else AckAwait(seen)
        case _ => AckLoad)
    case SendMeasured(i) =>
      var p := s.peers[i];
      At(s, i, p.(measuredLeft := p.measuredLeft - 1, measuredSent := p.measuredSent + 1))
    case EndReceive(i) => At(s, i, s.peers[i].(received := true, position := Arriving(6)))
    case ReporterStep => ReporterMoves(s)
    case ChannelMoves(move) => s.(channel := Phases.Perform(s.channel, move))
    case PeerDies(i) => At(s, i, s.peers[i].(alive := false))
    case ReporterDies => s.(reporterAlive := false)
    case Tick => s.(clock := s.clock + 1)
  }

  /** The phase the leader of a round reports on its return, if any. */
  function Duty(round: nat, leader: bool): Option<ScenarioPhase> {
    if round == 1 && leader then Some(Warmup) else if round == 6 && leader then Some(Drain) else None
  }

  /** `get_or_init` on the shared start instant. */
  function AgreedStart(s: State): nat {
    if s.measuredAt.Some? then s.measuredAt.value else s.clock + MEASURE_START_LEAD
  }

  /** What a peer does when a barrier wait returns to it. */
  function PeerAfterWait(s: State, p: Peer): Peer
    requires p.position.Released?
  {
    var round := p.position.round;
    if Duty(round, p.position.leader).Some? then p.(position := Reporting(round, |s.channel.reports|))
    else if round == 2 then p.(position := WarmingUp)
    else if round == 3 then p.(reset := true, position := Arriving(4))
    else if round == 4 then p.(startedAt := Some(AgreedStart(s)), position := Arriving(5))
    else if round == 5 then p.(position := AckLoad)
    else if round == 7 then p.(position := Done)
    else p.(position := Arriving(round + 1))
  }

  function AfterWait(s: State, i: nat): State
    requires Runs(s, i) && s.peers[i].position.Released?
  {
    var p := s.peers[i];
    var round, duty := p.position.round, Duty(p.position.round, p.position.leader);
    s.(peers := s.peers[i := PeerAfterWait(s, p)],
       measuredAt := if round == 4 then Some(AgreedStart(s)) else s.measuredAt,
       permit := s.permit || (round == 5 && p.position.leader),
       channel := if duty.Some? then Spawned(s.channel, duty.value) else s.channel)
  }

  function ReporterMoves(s: State): State
    requires Able(s, ReporterStep)
  {
    match s.reporter
    case AwaitingPermit => s.(permit := false, reporter := ReadingStart)
    case ReadingStart =>
      if s.measuredAt.None? then s.(reporterAlive := false)
      else s.(reporter := Sleeping(s.measuredAt.value))
    case Sleeping(_) => s.(reporter := AwaitingReport(|s.channel.reports|), channel := Spawned(s.channel, Measured))
    case AwaitingReport(t) =>
      if s.channel.reports[t].status == Acknowledged then s.(reporter := Storing) else s.(reporterAlive := false)
    case Storing => s.(acknowledged := true, reporter := Notifying)
    case Notifying => s.(broadcasts := s.broadcasts + 1, reporter := Finished)
  }

  predicate FreshPeer(p: Peer) {
    p == Peer(Idle, true, 0, p.warmupLeft, 0, false, None, p.measuredLeft, 0, false)
  }

  /** Before anything is reported: any number of peers with any amount of work, one setup report. */
  predicate Initial(s: State) {
    && s.peers != []
    && (forall i | 0 <= i < |s.peers| :: FreshPeer(s.peers[i]))
    && s.generation == s.arrived == 0 && s.leaders == [] && s.measuredAt.None? && !s.permit && !s.acknowledged
    && s.broadcasts == 0 && s.reporter == AwaitingPermit && s.reporterAlive && s.channel == INITIAL_CHANNEL
  }

  /** A run: each state follows from the one before by an enabled step. */
  ghost predicate Run(states: seq<State>, steps: seq<Step>) {
    && |states| == |steps| + 1 && Initial(states[0])
    && forall k | 0 <= k < |steps| :: Able(states[k], steps[k]) && states[k + 1] == Next(states[k], steps[k])
  }

  // ---- the inductive invariant ----

  predicate SetupAcknowledged(s: State) {
    |s.channel.reports| >= 1 && s.channel.reports[0].status == Acknowledged
  }

  predicate WarmupAcknowledged(s: State) {
    |s.channel.reports| >= 2 && s.channel.reports[1].status == Acknowledged
  }

  predicate MeasuredAcknowledged(s: State) {
    |s.channel.reports| >= 3 && s.channel.reports[2].status == Acknowledged
  }

  predicate DrainAcknowledged(s: State) {
    |s.channel.reports| >= 4 && s.channel.reports[3].status == Acknowledged
  }

  /** A peer's position agrees with how often it has waited and with the barrier's generation. */
  predicate Placed(s: State, i: nat)
    requires i < |s.peers| && s.generation <= |s.leaders|
  {
    var p, g := s.peers[i], s.generation;
    match p.position
    case Idle => p.waits == 0
    case Arriving(r) => 1 <= r <= ROUNDS && p.waits == r - 1 <= g
    case Waiting(r, generation) => 1 <= r <= ROUNDS && p.waits == r && generation == r - 1 <= g
    case Released(r, leader) => 1 <= r <= ROUNDS && p.waits == r <= g && leader == (s.leaders[r - 1] == i)
    case Reporting(r, t) =>
      ((r == 1 && t == 1) || (r == 6 && t == 3)) && p.waits == r <= g && s.leaders[r - 1] == i
        && t < |s.channel.reports|
    case WarmingUp => p.waits == 2 <= g
    case Done => p.waits == 7 <= g
    case AckReload(seen) => p.waits == 5 <= g && seen <= s.broadcasts
    case AckAwait(seen) => p.waits == 5 <= g && seen == 0
    case _ => p.waits == 5 <= g
  }

  /** What a peer must have done by the time it waits again. */
  predicate Milestones(s: State, i: nat)
    requires i < |s.peers|
  {
    var p, g := s.peers[i], s.generation;
    && g <= p.waits <= g + 1
    && (p.waits >= 1 || p.position != Idle ==> SetupAcknowledged(s))
    && (p.waits >= 4 || p.position == Arriving(4) ==> p.reset)
    && (p.startedAt.Some? ==> p.startedAt == s.measuredAt)
    && (p.waits >= 5 || p.position == Arriving(5) ==> p.startedAt.Some?)
    && (p.waits >= 6 || p.position == Arriving(6) ==> p.received)
    && (p.waits >= 3 || p.position == Arriving(3) ==> p.warmupLeft == 0)
    && (p.received ==> p.measuredLeft == 0)
    && (p.warmupSent > 0 ==> g >= 2)
    && (p.measuredSent > 0 || p.position == Sending || p.position == Arriving(6) || p.waits >= 6 ==> s.acknowledged)
  }

  predicate PeerOk(s: State, i: nat)
    requires i < |s.peers| && s.generation <= |s.leaders|
  {
    Placed(s, i) && Milestones(s, i)
  }

  predicate PeersOk(s: State) {
    s.generation <= |s.leaders| && forall i | 0 <= i < |s.peers| :: PeerOk(s, i)
  }

  function ArrivedMask(s: State): (m: seq<bool>)
    ensures |m| == |s.peers|
  {
    seq(|s.peers|, i requires 0 <= i < |s.peers| => s.peers[i].waits == s.generation + 1)
  }

  predicate BarrierOk(s: State) {
    && s.peers != [] && |s.leaders| == s.generation <= ROUNDS
    && (forall k | 0 <= k < |s.leaders| :: s.leaders[k] < |s.peers|)
    && s.arrived == Count(ArrivedMask(s)) < |s.peers|
  }

  /** The leader of barrier round r, once that round has completed. */
  function LeaderOf(s: State, r: nat): Peer
    requires 1 <= r <= s.generation <= |s.leaders| && forall k | 0 <= k < |s.leaders| :: s.leaders[k] < |s.peers|
  {
    s.peers[s.leaders[r - 1]]
  }

  /** The peer has not yet acted on its return from round r. */
  predicate Pending(p: Peer, r: nat) {
    p.waits == r && ((p.position.Waiting? && p.position.round == r) || (p.position.Released? && p.position.round == r))
  }

  /** The leaders of rounds one and six made the warmup and the drain report, and nobody else did. */
  predicate LeadersOk(s: State)
    requires BarrierOk(s)
  {
    var g, n := s.generation, |s.channel.reports|;
    && (g == 0 ==> n == 1)
    && (g >= 1 ==>
          var p := LeaderOf(s, 1);
          && (n == 1 <==> Pending(p, 1))
          && (p.waits >= 2 || p.position == Arriving(2) ==> WarmupAcknowledged(s)))
    && (g < 6 ==> n <= 3)
    && (g >= 6 ==>
          var p := LeaderOf(s, 6);
          && (n == 4 <==> !Pending(p, 6))
          && (p.waits >= 7 || p.position == Arriving(7) ==> DrainAcknowledged(s)))
  }

  /** The measured task is released by round five, reports third, and only then raises the flag and broadcasts once. */
  predicate ReporterOk(s: State)
    requires BarrierOk(s)
  {
    var n := |s.channel.reports|;
    && (s.permit || s.reporter != AwaitingPermit ==> s.generation >= 5)
    && (s.permit ==> s.reporter == AwaitingPermit)
    && (s.generation >= 5 ==> (Pending(LeaderOf(s, 5), 5) <==> s.reporter == AwaitingPermit && !s.permit))
    && (n <= 2 <==> s.reporter.AwaitingPermit? || s.reporter.ReadingStart? || s.reporter.Sleeping?)
    && (s.reporter.Sleeping? ==> s.measuredAt == Some(s.reporter.start))
    && (n >= 3 ==> s.measuredAt.Some? && s.measuredAt.value <= s.clock)
    && (s.reporter.AwaitingReport? ==> s.reporter.report == 2)
    && (s.reporter.Storing? || s.reporter.Notifying? || s.reporter.Finished? ==> MeasuredAcknowledged(s))
    && (s.acknowledged <==> s.reporter.Notifying? || s.reporter.Finished?)
    && s.broadcasts == if s.reporter.Finished? then 1 else 0
  }

  predicate Inv(s: State) {
    && ChannelInv(s.channel) && BarrierOk(s) && PeersOk(s) && LeadersOk(s) && ReporterOk(s)
    && ((forall i | 0 <= i < |s.peers| :: s.peers[i].position == Idle)
        || (forall i | 0 <= i < |s.peers| :: s.peers[i].position != Idle))
  }
}
