/** Which process start times a sampler run is bound to: the first ones answered, even by a capture that fails later. */
module StartTimes {
  import opened Machine
  import opened Telemetry
  import opened Replay
  import Phases

  /** The server's start time, where an event's scrape answers it. */
  function ServerAnswer(event: SamplerEvent): Option<u64> {
    match event
    case Interval(_, Scrape(Ok(Some(process)), _, _, _)) => Some(process.startTimeTicks)
    case _ => None
  }

  /** The generator is asked about only behind a server that is the one remembered. */
  function RtcAnswer(event: SamplerEvent, server: Option<u64>): Option<u64> {
    match event
    case Interval(_, Scrape(Ok(Some(process)), Ok(Some(rtc)), _, _)) =>
      if server == Some(process.startTimeTicks) then Some(rtc.startTimeTicks) else None
    case _ => None
  }

  function FirstServer(events: seq<SamplerEvent>): Option<u64> {
    if events == [] then None
    else
      var before := FirstServer(events[..|events| - 1]);
      if before.Some? then before else ServerAnswer(events[|events| - 1])
  }

  function FirstRtc(events: seq<SamplerEvent>): Option<u64> {
    if events == [] then None
    else
      var before := FirstRtc(events[..|events| - 1]);
      if before.Some? then before else RtcAnswer(events[|events| - 1], FirstServer(events))
  }

  lemma FirstSnoc(events: seq<SamplerEvent>, event: SamplerEvent)
    ensures FirstServer(events + [event])
         == if FirstServer(events).Some? then FirstServer(events) else ServerAnswer(event)
    ensures FirstRtc(events + [event])
         == if FirstRtc(events).Some? then FirstRtc(events) else RtcAnswer(event, FirstServer(events + [event]))
  {
    assert (events + [event])[..|events|] == events;
  }

  predicate Remembers(s: Sampler, events: seq<SamplerEvent>) {
    s.serverStartTime == FirstServer(events) && s.rtcStartTime == FirstRtc(events)
  }

  lemma CaptureRemembers(s: Sampler, events: seq<SamplerEvent>, finalSample: bool, elapsedMs: u64, scrape: Scrape)
    requires Remembers(s, events)
    ensures Remembers(AfterRecord(s, finalSample, elapsedMs, scrape), events + [Interval(elapsedMs, scrape)])
  {
    hide CpuPercentMilli, AdvancedSample, FirstServer, FirstRtc;
    FirstSnoc(events, Interval(elapsedMs, scrape));
  }

  lemma {:induction false} EventsRemember(s: Sampler, before: seq<SamplerEvent>, events: seq<SamplerEvent>)
    requires Remembers(s, before)
    ensures AfterEvents(s, events).Ok? ==> Remembers(AfterEvents(s, events).value, before + events)
  {
    hide AfterRecord, Remembers, Phases.Advanced;
    if events == [] {
      assert before + events == before;
    } else if AfterEvents(s, events).Ok? {
      var init, last := events[..|events| - 1], events[|events| - 1];
      EventsRemember(s, before, init);
      assert before + events == before + init + [last];
      match last
      case Interval(elapsedMs, scrape) =>
        CaptureRemembers(AfterEvents(s, init).value, before + init, false, elapsedMs, scrape);
      case Mark(phase, elapsedMs) => PhaseRemembers(AfterEvents(s, init).value, before + init, phase, elapsedMs);
    }
  }

  lemma PhaseRemembers(s: Sampler, events: seq<SamplerEvent>, phase: Phases.ScenarioPhase, elapsedMs: u64)
    requires Remembers(s, events)
    ensures AfterPhase(s, phase, elapsedMs).Ok? ==>
      Remembers(AfterPhase(s, phase, elapsedMs).value, events + [Mark(phase, elapsedMs)])
  {
    hide FirstServer, FirstRtc;
    FirstSnoc(events, Mark(phase, elapsedMs));
  }

  /**
   * The first start times a run sees bind it: every sample it writes is of those two processes, whichever captures
   * failed before or after they were seen.
   */
  lemma FirstAnswersBind(hz: u64, first: SamplerEvent, events: seq<SamplerEvent>, last: SamplerEvent)
    requires first.Interval? && last.Interval? && SamplerRun(hz, first, events, last).Ok?
    ensures var all := [first] + events + [last];
      forall record | record in SamplerRun(hz, first, events, last).value.output && record.outcome.Sample? ::
        && Some(record.outcome.server.startTimeTicks) == FirstServer(all)
        && (record.outcome.rtc.Some? ==> Some(record.outcome.rtc.value.startTimeTicks) == FirstRtc(all))
  {
    hide AfterRecord, AfterEvents, FirstServer, FirstRtc;
    var fresh' := NewSampler(hz);
    var start := AfterRecord(fresh', false, first.elapsedMs, first.scrape);
    NothingSeen(hz);
    CaptureRemembers(fresh', [], false, first.elapsedMs, first.scrape);
    assert [] + [first] == [first];
    StartsStay(fresh', false, first.elapsedMs, first.scrape);
    EventsRemember(start, [first], events);
    EventsKeepStarts(start, events);
    var s := AfterEvents(start, events).value;
    CaptureRemembers(s, [first] + events, true, last.elapsedMs, last.scrape);
    StartsStay(s, true, last.elapsedMs, last.scrape);
    var log := SamplerRun(hz, first, events, last).value.output;
    forall record | record in log && record.outcome.Sample?
      ensures Some(record.outcome.server.startTimeTicks) == FirstServer([first] + events + [last])
      ensures record.outcome.rtc.Some? ==>
        Some(record.outcome.rtc.value.startTimeTicks) == FirstRtc([first] + events + [last])
    {
      var i :| 0 <= i < |log| && log[i] == record;
      assert StartKept(AfterRecord(s, true, last.elapsedMs, last.scrape), log[i]);
    }
  }

  lemma NothingSeen(hz: u64)
    ensures Remembers(NewSampler(hz), []) && StartsKept(NewSampler(hz))
  {}
}
