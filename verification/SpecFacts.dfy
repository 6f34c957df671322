/** What a specification admits, what it sets the server up for, and which results validate against it. */
module SpecFacts {
  import opened Machine
  import opened Ledger
  import opened Workload
  import Sums

  predicate HasVideo(spec: ScenarioSpec) {
    spec.VideoGallery? || spec.MixedConference?
  }

  /**
   * Every kind of scenario has the same limits: at most 64 rooms of at most 100 peers for at most an hour, at least two
   * peers, three with video, and at most ten cameras, on peers of their own and all of them audible in a conference.
   */
  lemma BoundsAreUniform(spec: ScenarioSpec)
    ensures spec.InBounds() <==>
      && 1 <= spec.RoomCount() <= 64
      && (if HasVideo(spec) then 3 else 2) <= spec.PeersPerRoom() <= 100
      && 1 <= spec.DurationSeconds() <= 3_600
      && spec.AudioPublishersPerRoom() <= spec.PeersPerRoom()
      && (HasVideo(spec) <==> spec.VideoPublishersPerRoom() > 0)
      && spec.VideoPublishersPerRoom() <= spec.PeersPerRoom() && spec.VideoPublishersPerRoom() <= 10
      && (spec.MixedConference? ==> spec.VideoPublishersPerRoom() <= spec.AudioPublishersPerRoom())
  {}

  /** A specification is valid if it is in bounds and its plan stays within the limits, which no smoke run can leave. */
  lemma ValidMeans(spec: ScenarioSpec)
    ensures spec.Valid() <==>
      && spec.InBounds() && spec.Plan().Ok?
      && spec.Plan().value.offeredPackets <= 100_000_000 && spec.Plan().value.expectedDeliveries <= 1_000_000_000
  {
    hide AudioPlan, VideoPlan, MixedPlan;
    if spec.InBounds() && spec.Smoke? {
      Sums.MulMonotone(spec.receivers, 99, spec.packets);
      assert spec.receivers * spec.packets <= 99 * 180_000;
    }
  }

  /** The server is set up for exactly the sessions of a run, and for all that is heard and seen in its rooms. */
  lemma PolicyAdmitsRun(spec: ScenarioSpec)
    requires spec.InBounds()
    ensures var p := PolicyFor(spec);
      && p.mediaWorkers == 1 && p.roomSize == spec.PeersPerRoom()
      && p.maxPreAuthSessions == spec.RoomCount() * spec.PeersPerRoom()
      && spec.AudioPublishersPerRoom() <= p.maxActiveAudioSpeakers
      && p.maxActiveAudioSpeakers
         == (if spec.AudioMesh? || spec.MixedConference? then spec.AudioPublishersPerRoom() else 4)
      && spec.VideoPublishersPerRoom() <= p.maxVideoDownloadsPerReceiver
      && p.maxBitrateIn == 8_000_000 && p.maxBitrateOut == 10_000_000
  {
    Sums.MulMonotone(spec.RoomCount(), 64, spec.PeersPerRoom());
  }

  /** Profiles tell the four kinds of scenario apart. */
  lemma ProfilesTell(a: ScenarioSpec, b: ScenarioSpec)
    ensures a.Profile() == b.Profile() <==>
      a.Smoke? == b.Smoke? && a.AudioMesh? == b.AudioMesh? && a.VideoGallery? == b.VideoGallery?
    ensures a.Profile() == "opus-fanout-smoke-v3" <==> a.Smoke?
    ensures a.Profile() == "opus-20ms-audio-mesh-v2" <==> a.AudioMesh?
    ensures a.Profile() == "vp8-simulcast-gallery-v2" <==> a.VideoGallery?
    ensures a.Profile() == "opus-vp8-mixed-conference-v2" <==> a.MixedConference?
  {
    assert |"opus-fanout-smoke-v3"| == 20 && |"opus-20ms-audio-mesh-v2"| == 23 && |"vp8-simulcast-gallery-v2"| == 24;
    assert |"opus-vp8-mixed-conference-v2"| == 28;
  }

  /** A run in which nothing is amiss: the planned totals, no discrepancy in any category, and some time. */
  predicate AsPlanned(o: Observation, plan: WorkloadPlan) {
    && o.offeredPackets == plan.offeredPackets && o.offeredPayloadBytes == plan.offeredPayloadBytes
    && o.deliveredPackets == plan.expectedDeliveries && o.deliveredPayloadBytes == plan.expectedDeliveryPayloadBytes
    && o.correctness == CorrectnessSummary(0, 0, 0, 0, 0)
    && o.elapsedMs > 0
  }

  /** What a result says its run observed. */
  function ObservationOf(r: ScenarioResult): Observation {
    Observation(r.offeredPackets, r.offeredPayloadBytes, r.deliveredPackets, r.deliveredPayloadBytes, r.correctness,
                r.elapsedMs, r.maxSendLagMs)
  }

  /** A result validates if and only if it is what a valid run as planned completes with: no field is left unchecked. */
  lemma ValidatesExactly(r: ScenarioResult, spec: ScenarioSpec)
    ensures r.Validates(spec) <==>
      spec.Valid() && spec.Plan().Ok?
      && exists o :: AsPlanned(o, spec.Plan().value) && Completed(spec, o) == Ok(r)
  {
    hide ScenarioSpec.Plan, ScenarioSpec.Valid, PolicyFor, ScenarioSpec.Profile;
    ZeroMeansClean(r.correctness);
    if r.Validates(spec) {
      assert Completed(spec, ObservationOf(r)) == Ok(r);
    }
  }

  lemma ZeroMeansClean(c: CorrectnessSummary)
    ensures c.DiscrepancyCount() == 0 <==> c == CorrectnessSummary(0, 0, 0, 0, 0)
  {}

  /** A completed result keeps every measurement of its run, but for a time of zero. */
  lemma CompletedKeepsObservation(spec: ScenarioSpec, o: Observation)
    ensures Completed(spec, o).Ok? <==> spec.Plan().Ok?
    ensures Completed(spec, o).Ok? ==>
      && ObservationOf(Completed(spec, o).value) == o.(elapsedMs := if o.elapsedMs == 0 then 1 else o.elapsedMs)
      && Completed(spec, o).value.scenario == spec
  {
    hide ScenarioSpec.Plan, PolicyFor, ScenarioSpec.Profile;
  }
}
