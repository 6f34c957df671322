/** Scenario phases, their fixed order, and the request channel from the load worker to the telemetry log. */
module Phases {
  import opened Machine

  datatype ScenarioPhase = Setup | Warmup | Measured | Drain

  const ORDERED: seq<ScenarioPhase> := [Setup, Warmup, Measured, Drain]

  /** What `advance` accepts after `count` transitions. */
  function Advanced(count: nat, phase: ScenarioPhase): Result<nat> {
    if count < |ORDERED| && phase == ORDERED[count] then Ok(count + 1) else Err
  }

  function SaturatingIncrement(count: u8): u8 {
    if count < U8_SIZE - 1 then count + 1 else count
  }

  class PhaseSequence {
    var count: u8

    constructor ()
      ensures count == 0
    {
      count := 0;
    }

    method Advance(phase: ScenarioPhase) returns (ok: bool)
      modifies this
      ensures ok <==> Advanced(old(count), phase).Ok?
      ensures if ok then count == Advanced(old(count), phase).value else count == old(count)
    {
      if count >= |ORDERED| || phase != ORDERED[count] {
        return false;
      }
      count := SaturatingIncrement(count);
      return true;
    }

    method Finish() returns (ok: bool)
      ensures ok <==> count == |ORDERED|
    {
      return count == |ORDERED|;
    }
  }

  /** Offers the phases one after the other, stopping at the first refusal, and then finishes. */
  method OfferAll(phases: seq<ScenarioPhase>) returns (accepted: nat, complete: bool)
    ensures accepted <= |phases| && accepted <= |ORDERED| && phases[..accepted] == ORDERED[..accepted]
    ensures accepted < |phases| ==> accepted == |ORDERED| || phases[accepted] != ORDERED[accepted]
    ensures complete <==> accepted == |ORDERED|
  {
    var sequence := new PhaseSequence();
    accepted := 0;
    while accepted < |phases|
      invariant accepted == sequence.count <= |phases| && accepted <= |ORDERED|
      invariant phases[..accepted] == ORDERED[..accepted]
    {
      var ok := sequence.Advance(phases[accepted]);
      if !ok {
        break;
      }
      accepted := accepted + 1;
    }
    complete := sequence.Finish();
  }

  // ---- the channel ----

  /** One `report` call, run on a blocking thread that outlives the task awaiting it. */
  datatype ReportStatus = Queued | Exchanging | Acknowledged | Failed

  datatype Report = Report(phase: ScenarioPhase, status: ReportStatus)

  datatype Controller = Reading | Marking(phase: ScenarioPhase) | Acknowledging(phase: ScenarioPhase) | Stopped

  /**
   * The worker's reports, the lock on its standard streams, the two pipes, the controller with its phase sequence, and
   * the sampler with its command slot, its own sequence and what it has persisted.
   */
  datatype Channel = Channel(
    reports: seq<Report>, lock: Option<nat>, requests: seq<ScenarioPhase>, acks: seq<ScenarioPhase>,
    controller: Controller, accepted: nat, inbox: Option<ScenarioPhase>, reply: Option<bool>, samplerUp: bool,
    persisted: seq<ScenarioPhase>, rejected: bool)

  datatype ChannelStep =
    | TakeLock(report: nat)     // lock the streams, write and flush the request
    | ReadRequest               // the controller reads a frame and advances its sequence
    | Persist                   // the sampler advances its sequence and writes the record
    | TakeReply                 // the controller sees the outcome of `mark`
    | WriteAck
    | ReadAck                   // the reporting thread reads a line and compares it
    | ControllerFails           // any other controller error, or its task being aborted
    | SamplerFails              // a failed write, or a closed command channel
    | ReadEof                   // the reporting thread finds the stream closed

  predicate IsFailure(step: ChannelStep) {
    step.ControllerFails? || step.SamplerFails?
  }

  predicate Enabled(c: Channel, step: ChannelStep) {
    match step
    case TakeLock(t) => t < |c.reports| && c.reports[t].status == Queued && c.lock.None?
    case ReadRequest => c.controller.Reading? && c.requests != []
    case Persist => c.samplerUp && c.inbox.Some?
    case TakeReply => c.controller.Marking? && c.reply.Some?
    case WriteAck => c.controller.Acknowledging?
    case ReadAck => c.lock.Some? && c.lock.value < |c.reports| && c.acks != []
    case ControllerFails => !c.controller.Stopped?
    case SamplerFails => c.samplerUp
    case ReadEof => c.lock.Some? && c.lock.value < |c.reports| && c.acks == [] && c.controller.Stopped?
  }

  function Perform(c: Channel, step: ChannelStep): Channel
    requires Enabled(c, step)
  {
    match step
    case TakeLock(t) =>
      c.(reports := c.reports[t := c.reports[t].(status := Exchanging)], lock := Some(t),
         requests := c.requests + [c.reports[t].phase])
    case ReadRequest =>
      var phase, next := c.requests[0], Advanced(c.accepted, c.requests[0]);
      if next.Err? then c.(requests := c.requests[1..], controller := Stopped, rejected := true)
      else c.(requests := c.requests[1..], controller := Marking(phase), accepted := next.value,
              inbox := if c.samplerUp then Some(phase) else None, reply := if c.samplerUp then None else Some(false))
    case Persist =>
      if Advanced(|c.persisted|, c.inbox.value).Ok? then
        c.(inbox := None, reply := Some(true), persisted := c.persisted + [c.inbox.value])
      else c.(inbox := None, reply := Some(false), samplerUp := false, rejected := true)
    case TakeReply =>
      if c.reply.value then c.(reply := None, controller := Acknowledging(c.controller.phase))
      else c.(reply := None, controller := Stopped)
    case WriteAck => c.(acks := c.acks + [c.controller.phase], controller := Reading)
    case ReadAck =>
      var t := c.lock.value;
      var matches := c.acks[0] == c.reports[t].phase;
      c.(acks := c.acks[1..], lock := None,
         reports := c.reports[t := c.reports[t].(status := if matches then Acknowledged else Failed)],
         rejected := c.rejected || !matches)
    case ControllerFails => c.(controller := Stopped)
    case SamplerFails =>
      c.(samplerUp := false, inbox := None, reply := if c.inbox.Some? then Some(false) else c.reply)
    case ReadEof => c.(lock := None, reports := c.reports[c.lock.value := c.reports[c.lock.value].(status := Failed)])
  }

  /** A new report; callers await the previous ones first. */
  function Spawned(c: Channel, phase: ScenarioPhase): Channel {
    c.(reports := c.reports + [Report(phase, Queued)])
  }

  /** Every report made so far has been acknowledged. */
  predicate Settled(c: Channel) {
    forall t | 0 <= t < |c.reports| :: c.reports[t].status == Acknowledged
  }

  const INITIAL_CHANNEL := Channel([Report(Setup, Queued)], None, [], [], Reading, 0, None, None, true, [], false)

  /** The reports are the ordered phases, one each, and only the last can be unsettled. */
  predicate InOrder(c: Channel) {
    && 1 <= |c.reports| <= |ORDERED|
    && (forall t | 0 <= t < |c.reports| :: c.reports[t].phase == ORDERED[t])
    && (forall t | 0 <= t < |c.reports| - 1 :: c.reports[t].status == Acknowledged)
  }

  function LastStatus(c: Channel): ReportStatus
    requires c.reports != []
  {
    c.reports[|c.reports| - 1].status
  }

  /** Reports before the last unsettled one. */
  function SettledCount(c: Channel): nat
    requires c.reports != []
  {
    if LastStatus(c) == Acknowledged then |c.reports| else |c.reports| - 1
  }

  /** Where the one outstanding request is: each stage holds it alone. */
  predicate OneToken(c: Channel)
    requires c.reports != []
  {
    var n := SettledCount(c);
    match c.lock
    case None =>
      && (LastStatus(c) == Queued || LastStatus(c) == Acknowledged) && c.requests == [] && c.acks == []
         && c.controller.Reading?
      && c.inbox.None? && c.reply.None? && c.accepted == |c.persisted| == n
    case Some(t) =>
      && t == n == |c.reports| - 1 && LastStatus(c) == Exchanging
      && var phase := c.reports[t].phase;
        || (c.requests == [phase] && c.acks == [] && c.controller.Reading? && c.inbox.None? && c.reply.None?
              && c.accepted == |c.persisted| == n)
        || (c.requests == [] && c.acks == [] && c.controller == Marking(phase) && c.accepted == n + 1
              && ((c.inbox == Some(phase) && c.reply.None? && |c.persisted| == n && c.samplerUp)
                  || (c.inbox.None? && c.reply == Some(true) && |c.persisted| == n + 1)
                  || (c.inbox.None? && c.reply == Some(false) && |c.persisted| == n && !c.samplerUp)))
        || (c.requests == [] && c.acks == [] && c.controller == Acknowledging(phase) && c.inbox.None? && c.reply.None?
              && c.accepted == |c.persisted| == n + 1)
        || (c.requests == [] && c.acks == [phase] && c.controller.Reading? && c.inbox.None? && c.reply.None?
              && c.accepted == |c.persisted| == n + 1)
  }

  /** What outlives a stopped controller: at most one acknowledgement and one command are still under way. */
  predicate Remnants(c: Channel)
    requires c.reports != []
  {
    var n := SettledCount(c);
    && (match c.lock
        case None => LastStatus(c) != Exchanging && c.acks == []
        case Some(t) =>
          && t == n == |c.reports| - 1 && LastStatus(c) == Exchanging
          && (c.acks == [] || (c.acks == [c.reports[t].phase] && |c.persisted| == n + 1)))
    && (c.inbox.Some? ==>
          |c.persisted| < |c.reports| && |c.persisted| < |ORDERED| && c.inbox.value == ORDERED[|c.persisted|]
            && c.acks == [])
  }

  predicate ChannelInv(c: Channel) {
    && InOrder(c)
    && !c.rejected
    && SettledCount(c) <= |c.persisted| <= |c.reports|
    && c.persisted == ORDERED[..|c.persisted|]
    && (if c.controller.Stopped? then Remnants(c) else OneToken(c))
  }

  lemma InitialChannel()
    ensures ChannelInv(INITIAL_CHANNEL)
  {}

  predicate Kept(c: Channel, c': Channel) {
    && ChannelInv(c')
    && c.reports != [] && c'.reports != []
    && |c'.reports| == |c.reports| && SettledCount(c) <= SettledCount(c') && |c.persisted| <= |c'.persisted|
  }

  lemma WorkerStepKeeps(c: Channel, step: ChannelStep)
    requires ChannelInv(c) && Enabled(c, step) && (step.TakeLock? || step.ReadAck? || step.ReadEof?)
    ensures Kept(c, Perform(c, step))
  {}

  lemma ControllerStepKeeps(c: Channel, step: ChannelStep)
    requires ChannelInv(c) && Enabled(c, step)
    requires step.ReadRequest? || step.TakeReply?
    ensures Kept(c, Perform(c, step))
  {
    if step.ReadRequest? {
      var t := c.lock.value;
      assert c.requests == [ORDERED[t]] && c.accepted == t && Advanced(t, ORDERED[t]) == Ok(t + 1);
      assert c.requests[1..] == [];
    } else {
      assert c.controller == Marking(c.reports[c.lock.value].phase);
    }
  }

  lemma AckStepKeeps(c: Channel, step: ChannelStep)
    requires ChannelInv(c) && Enabled(c, step) && (step.WriteAck? || step.ControllerFails?)
    ensures Kept(c, Perform(c, step))
  {}

  lemma SamplerStepKeeps(c: Channel, step: ChannelStep)
    requires ChannelInv(c) && Enabled(c, step) && (step.Persist? || step.SamplerFails?)
    ensures Kept(c, Perform(c, step))
  {
    assert step.Persist? ==> c.inbox.value == ORDERED[|c.persisted|];
    assert step.Persist? ==> ORDERED[..|c.persisted| + 1] == ORDERED[..|c.persisted|] + [ORDERED[|c.persisted|]];
  }

  /**
   * No step of the channel, failure or not, breaks the order, rejects a phase or acknowledges what is not persisted.
   */
  lemma ChannelStepKeeps(c: Channel, step: ChannelStep)
    requires ChannelInv(c) && Enabled(c, step)
    ensures Kept(c, Perform(c, step))
  {
    hide Perform, ChannelInv;
    if step.TakeLock? || step.ReadAck? || step.ReadEof? {
      WorkerStepKeeps(c, step);
    } else if step.Persist? || step.SamplerFails? {
      SamplerStepKeeps(c, step);
    } else if step.WriteAck? || step.ControllerFails? {
      AckStepKeeps(c, step);
    } else {
      ControllerStepKeeps(c, step);
    }
  }

  lemma SpawnKeeps(c: Channel, phase: ScenarioPhase)
    requires ChannelInv(c) && Settled(c) && |c.reports| < |ORDERED| && phase == ORDERED[|c.reports|]
    ensures ChannelInv(Spawned(c, phase))
  {
    var c' := Spawned(c, phase);
    assert LastStatus(c) == Acknowledged;
  }

  /** `report` returns without error only once its phase, and every earlier one, is persisted. */
  lemma AcknowledgedIsPersisted(c: Channel, t: nat)
    requires ChannelInv(c) && t < |c.reports| && c.reports[t].status == Acknowledged
    ensures t < |c.persisted| && ORDERED[..t + 1] <= c.persisted
  {}
}
