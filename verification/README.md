# Verification model of the o-sfu load harness

The load harness drives real RTC peers against an SFU and acts as a gate: every receiver must get exactly the planned
packets, in order and uncorrupted. This project models the code that makes that statement trustworthy, and proves that
its parts agree with each other.

| file | what it models |
|---|---|
| `Machine.dfy`, `Sums.dfy` | fixed-width, saturating and checked integers; sums and counts |
| `Codec.dfy` | the identity codec: header, magic search, payload body, the two payload prefixes |
| `Sources.dfy`, `Emission.dfy` | audio and video sources as objects, and what a video source emits over a whole run |
| `Schedule.dfy` | the measured send loop, its deadlines, warmup, and the offered counters |
| `Ledger.dfy`, `LedgerFacts.dfy`, `Delivery.dfy` | the packet ledger, its conservation laws, and its verdict on the payloads themselves |
| `Workload.dfy`, `SpecFacts.dfy` | specifications, their limits and policy, the closed-form plan, and which results validate |
| `Expectations.dfy`, `PlanAgreement.dfy` | the expected streams, and their agreement with the plan |
| `Gate.dfy`, `Forwarding.dfy` | merging, the final verdict, and the way from what is sent to that verdict |
| `Phases.dfy`, `PhaseSync.dfy`, `PhaseSafety.dfy`, `PhaseProgress.dfy`, `PhaseWork.dfy` | the phase protocol of any number of peers: channel, barrier, measured task, safety, progress, and what the steps of a run add up to |
| `Framing.dfy` | reading phase frames from a buffered stream |
| `Telemetry.dfy`, `StartTimes.dfy`, `TelemetryReader.dfy` | the sampler, the processes it is bound to, the log it writes, and the reader of that log |
| `CpuAverage.dfy`, `CpuBound.dfy` | the whole-window CPU average and its error bound over every sampler run |
| `Replay.dfy`, `CpuRefusals.dfy` | which logs a run can leave, and the exact limit of that bound |
| `Smoothing.dfy`, `PhaseGaps.dfy` | chart series, gaps at phase transitions, and the moving average |
| `FoldedProfile.dfy`, `FoldedLines.dfy`, `Ranking.dfy` | folded-stack aggregation, how its lines are read, and the ranked tables |
| `ScenarioKeys.dfy`, `PairRuns.dfy` | scenario keys, sort plus `dedup`, pairing of runs and its verdict |

Objects that the code updates in place (sources, ledger, observation, sampler, phase sequence, profile, buffered stream)
are classes whose methods are proved against functions of the old state; the laws are then proved about those functions.
The phase protocol is a transition system over its steps: an interleaving is a sequence of steps, and the death of a peer,
of the measured task, of the controller or of the sampler is a step of its own.

## Assumptions

- tokio behaves as documented: the last arrival releases a barrier generation and exactly one waiter of it, any of them,
  is the leader; `notify_one` stores one permit; `notify_waiters` reaches every `Notified` created before it.
- A blocking report thread outlives the task that awaits it. A pipe delivers bytes in order.
- `usize` has 64 bits. Durations are nanosecond counts that saturate where `std::time::Duration` does.
- Constants of `o_sfu_rfc` follow section 4.2 of RFC 7741 (descriptor bits, 15-bit PictureID), section 9.1 of RFC 6386
  (frame-type bit) and section 3.1 of RFC 6716 (Opus TOC).

## Where the code does not do what it seems to

- **The CPU bound stops at refused samples.** The sampler moves its base with every capture; the reader turns a sample
  with invalid worker data into a gap and does not move its own. The ticks up to a refused base then count for no
  interval, while its time counts for the next one, and the average is given all the same.
  `CpuRefusals.BoundExactlyWhenNoRefusedBase` proves the exact condition over sampler runs: whatever processor time the
  run takes, its log stays within the bound if and only if it has no average or no refused sample is the base of a usable
  one. `CpuRefusals.OneRefusalHidesASecond` is a run of seven events with a worker number 64 in the second sample: an
  average of zero, where each process used one second out of two.
- **Scenario keys collide on specifications without a plan.** `load_run` does not validate what it reads. Smoke runs with no
  receivers and the same whole seconds share a key, so equal specifications need not be neighbours after the unstable sort,
  and `dedup` can leave one twice. `ScenarioKeys.KeyCollisions` gives exactly the colliding pairs, and
  `ScenarioKeys.DedupExactlyWhenKeysTell` exactly when sort plus `dedup` is enough. The verdict is not affected
  (`PairRuns.VerdictIsOneToOne`).
- **The fan-out series loses its alignment** as soon as one sample lacks a counter: such a sample pushes a value and no
  interval start, so every later value is gapped by another interval's start. `PhaseGaps.FanoutReadsOwnStarts` proves that
  each ratio is gapped by its own start if and only if no sample before a ratio lacks a counter; in
  `PhaseGaps.FanoutBlendsPhases` a ratio across a phase transition is kept.

## Model

| member | source | states |
|---|---|---|
| Codec.EncodePayload | src/client/media.rs:479-502 | the buffer loop yields prefix, header and a body in which every byte is the one its position and identity determine, at exactly the wanted length |
| Codec.InspectEncoded | src/client/media.rs:504-552 | every identity, encoded behind a prefix without an earlier magic, is read back as itself with a matching payload |
| Codec.MatchesExactlyEncodings | src/client/media.rs:504-552 | a payload is reported as matching an identity if and only if it is that identity's encoding under some clean prefix |
| Codec.CorruptionIsDetected | src/client/media.rs:504-572 | any change of a body byte, or of the length behind a complete header, makes `payload_matches` false and leaves the identity readable |
| Codec.MatchesByOctets | src/client/media.rs:534-573 | a complete payload matches if and only if each body octet follows from its position and from five octets of the payload's own header |
| Codec.SwappedBody | src/client/media.rs:504-573 | one packet's header over another's body is read back as the header's identity, and matches if and only if the five bound octets of the two add up to the same modulo 256 |
| Codec.OneBoundOctetIsSeen | src/client/media.rs:562-573 | so a body whose identity differs in exactly one bound octet is always reported |
| Codec.SlippedBodyIsSeen | src/client/media.rs:562-573 | an octet that stands where its neighbour belongs is reported at every offset below 255 |
| Codec.InspectsAfterPrefix | src/client/media.rs:504-552 | what is found behind a clean prefix is that identity, whatever the body holds |
| Codec.MagicBehindPrefix | src/client/media.rs:504-515 | the first magic found behind a clean prefix is the one at its end |
| Codec.ParseInvertsHeader | src/client/media.rs:479-552 | reading a written header gives the identity back |
| Codec.HeaderInvertsParse | src/client/media.rs:479-552 | writing a parsed header gives the same octets back: the header codec loses nothing |
| Codec.VideoPrefixIsClean | src/client/media.rs:467-477 | for every PictureID, TL0PICIDX, layer and fragment, no window of the descriptor and frame header reads as the magic |
| Codec.AudioPrefixIsClean | src/client/media.rs:239-266 | nor does the Opus table of contents |
| Sources.MediaTimeline.Advance | src/client/media.rs:204-208 | returns the deadline reached and moves to the next one, saturating |
| Sources.MediaTimeline.Reset | src/client/media.rs:210-212 | the next deadline is the first one again |
| Sources.AudioSource.NextPacket | src/client/media.rs:239-266 | deadline, RTP numbering with wrap-around, and the encoded payload of one packet, and the state after it |
| Sources.AudioPayloadInspects | src/client/media.rs:239-266 | an audio payload is inspected as its own identity with a matching body |
| Sources.AppendVideoLayer | src/client/media.rs:392-465 | the fragment loop appends exactly the burst the layer's numbering determines, frame marks included, and advances that numbering by it |
| Sources.VideoSource.NextFrame | src/client/media.rs:330-381 | one frame is both layers' bursts, low first, and moves the ordinals of its own phase only |
| Sources.FragmentInspects | src/client/media.rs:392-465 | every fragment is inspected as its own identity with a matching body, whatever numbering the layer has reached |
| Emission.EmissionMatchesPlan | src/client/media.rs:330-465 | over any number of frames each layer emits exactly the closed-form packet count; ordinals and sequence numbers are gapless, the marker is on the last fragment only, each packet carries its frame's deadline, and the octets in front of the identity give the start bit, one PictureID per frame (one more than the last modulo 2^15), TL0PICIDX, the frame type and the key frame's size |
| Emission.OrdinalsAreGapless | src/client/media.rs:330-465 | packet k of a layer carries ordinal k and the layer's stream identity, whichever frame it belongs to |
| Emission.EmittedOnTime | src/client/media.rs:330-381 | every packet carries the deadline of the frame it names |
| Emission.ClosedFormCountsFrames | src/model.rs:665-677 | the `div_ceil` closed form equals the frame-by-frame count |
| Emission.NumberingAfter | src/client/media.rs:330-465 | after n frames of one phase the counters have advanced by what was emitted, and the other phase's ordinals have not moved |
| Emission.LayerGrows | src/client/media.rs:330-381 | one layer's packets are its frames' bursts one after the other |
| Schedule.ScheduleIsComplete | src/client/scenario.rs:405-422 | the turns taken are every remaining audio packet and every remaining video frame once, each kind in order |
| Schedule.ScheduleIsSorted | src/client/scenario.rs:405-422 | deadlines never go back over the whole loop |
| Schedule.ScheduleFitsTarget | src/client/scenario.rs:390-394 | every deadline lies within the target duration |
| Schedule.StaggeredStartsInside | src/client/media.rs:186-198 | a staggered first deadline lies within the first interval |
| Schedule.StaggeredDeadlinesDiffer | src/client/media.rs:186-213 | two staggered publishers of one kind never share a deadline, over the whole run |
| Schedule.PeerMedia.SendMeasured | src/client/scenario.rs:443-465 | the loop takes exactly the schedule, emits exactly the sources' packets at the deadlines and with the numbering of their turn, and books their saturated number and bytes and the largest lag |
| Schedule.PeerMedia.SendWarmup | src/client/scenario.rs:509-531 | warmup sends its own ordinals, moves the audio numbering and timeline on by its packets, and leaves the video source where warmup frames leave it |
| Schedule.PeerMedia.ResetTimelines | src/client/scenario.rs:396-403 | both timelines stand at their first deadline, nothing else of a source moves |
| Schedule.ObserveSends | src/client/scenario.rs:533-546 | booking packets one by one adds up to their number and bytes, saturating, and to the largest lag of any of them |
| Ledger.PacketLedger.Observe | src/client/scenario.rs:772-822 | one payload changes the ledger as its classification says, and in no other way |
| Ledger.PacketLedger.Record | src/client/scenario.rs:796-822 | unknown ordinal, duplicate, mismatch, out of order, first sight: counters and stream state of each case |
| Ledger.AdvanceOrdinal | src/client/scenario.rs:819-821 | the loop reaches the least unseen ordinal |
| Ledger.PacketLedger.IsComplete | src/client/scenario.rs:744-746 | complete if and only if every stream's next ordinal is its length |
| Ledger.PacketLedger.Finish | src/client/scenario.rs:828-836 | missing packets are the unseen ones of all streams, saturating |
| LedgerFacts.TallyConserves | src/client/scenario.rs:796-822 | each arrival on a stream is delivered, a duplicate or out of range; seen ordinals are the delivered ones; mismatches and reorderings are at most those |
| LedgerFacts.SeenMeansArrived | src/client/scenario.rs:796-822 | a stream has seen exactly the ordinals that arrived |
| LedgerFacts.LedgerDecomposes | src/client/scenario.rs:772-822 | after any run the ledger is put together from each stream's own arrivals and the unaccounted ones |
| LedgerFacts.InterleavingInvariance | src/client/scenario.rs:772-822 | runs with the same arrivals per stream and as many strays leave the same ledger |
| LedgerFacts.EventsAreConserved | src/client/scenario.rs:772-822 | payloads seen are warmup, delivered, duplicate and unexpected ones, nothing lost |
| LedgerFacts.DeliveredAndMissing | src/client/scenario.rs:828-836 | delivered and missing add up to the expected total |
| LedgerFacts.CompleteMeansNothingMissing | src/client/scenario.rs:824-836 | `is_complete` holds if and only if `finish` reports nothing missing |
| LedgerFacts.ExactStream | src/client/scenario.rs:796-822 | a stream shows no discrepancy if and only if its arrivals are ordinals 0 to n-1 in order with matching bodies |
| LedgerFacts.SummaryCounts | src/client/scenario.rs:828-836 | category by category, the final summary is the saturated total over all streams and strays |
| LedgerFacts.SummaryIsExact | src/model.rs:414-420 | the discrepancy count is zero if and only if nothing unexpected arrived and every stream is exact |
| LedgerFacts.ExactTotals | src/client/scenario.rs:815-818 | an exact receiver has counted its planned packets and bytes |
| Delivery.LedgerVerdict | src/client/scenario.rs:772-836 | over the payloads themselves: no discrepancy if and only if delivery was exact |
| Delivery.ExactReceiverTotals | src/client/scenario.rs:815-818 | exact delivery fixes the delivered packet and byte counters |
| Delivery.OnlyRoutesMatter | src/client/scenario.rs:772-822 | the final ledger depends only on each route's own arrival order |
| Delivery.RouteArrivals | src/client/scenario.rs:784-793 | with distinct keys, what the ledger counts on a stream are the payloads of that stream's route |
| Workload.RunObservation.Merge | src/model.rs:451-465 | merging adds the counters, saturating, and keeps the later time and the larger lag |
| Workload.CollectObservations | src/client/scenario.rs:548-556 | joining tasks in finishing order merges all their observations |
| Expectations.FeaturedIsAnother | src/client/scenario.rs:688-700 | a featured source is never the peer itself, is a publisher, and is absent only when there is nobody else to watch |
| Expectations.SourceIdIsInjective | src/client/scenario.rs:702-709 | no two peers of a run share a source identity |
| Expectations.ExpectedAudioStreams | src/client/scenario.rs:631-651 | the loop builds one stream for each other publisher, or fails where one of them cannot be built |
| Expectations.ExpectedVideoStreams | src/client/scenario.rs:653-686 | likewise, one layer per publisher: high for the featured one, low for the others |
| Expectations.AudioTotals | src/client/scenario.rs:631-651 | audio expectations are built and total the other publishers' packets and bytes |
| Expectations.VideoTotals | src/client/scenario.rs:653-686 | video expectations are built and total one high layer at most and low layers for the rest |
| Machine.AddAndSubUndo | src/model.rs:679-682 | checked addition succeeds exactly where checked subtraction undoes it |
| SpecFacts.BoundsAreUniform | src/model.rs:77-214 | in terms of rooms, peers, publishers and duration, all four kinds of scenario have the same limits |
| SpecFacts.ValidMeans | src/model.rs:326-338 | valid if and only if in bounds with a plan of at most a hundred million packets and a billion deliveries; no smoke run can exceed these |
| SpecFacts.PolicyAdmitsRun | src/model.rs:385-401 | the server policy has room for exactly the sessions of a run, and for every speaker and camera of a room |
| SpecFacts.ProfilesTell | src/model.rs:264-272 | each kind of scenario has its own profile name |
| SpecFacts.ValidatesExactly | src/model.rs:525-568 | a result validates if and only if it is what a valid run completes with that offered and delivered as planned without a discrepancy: no field is left unchecked |
| SpecFacts.CompletedKeepsObservation | src/model.rs:492-509 | a completed result keeps every measurement of its run, but for a time of zero |
| PlanAgreement.PlanOfTopology | src/model.rs:290-324 | every specification within the public bounds has a plan, and no checked operation of it overflows |
| PlanAgreement.AudioPlanComputes | src/model.rs:571-593 | the checked audio arithmetic computes the plain products |
| PlanAgreement.VideoPlanComputes | src/model.rs:595-636 | so does the checked video arithmetic |
| PlanAgreement.MixedSplits | src/model.rs:638-663 | a mixed plan is the sum of its audio and its video part in every total |
| PlanAgreement.ExpectedTotals | src/client/scenario.rs:631-686 | every receiver's expectations are built without error, under distinct keys, and total what its topology says |
| PlanAgreement.RoomRoutes | src/model.rs:614-627 | summing routes over the peers of a room gives the closed-form low and high route counts |
| PlanAgreement.PlanEqualsExpectations | src/model.rs:571-658 | planned routes, deliveries and delivery bytes are the sums over all rooms and peers of the streams their ledgers start from |
| Gate.MergingIsOrderless | src/client/scenario.rs:198-205 | a merged counter is the true total over all rooms and peers, cut off at the maximum, in whatever order tasks finish |
| Gate.CountersAreAdditive | src/model.rs:414-465 | merging with saturating adds loses no discrepancy, packet or byte |
| Gate.RunReceiver | src/client/scenario.rs:466-478 | a receiver's ledger, fed with its payloads, yields the observation the gate is stated about |
| Gate.OfferedTotals | src/model.rs:290-324 | the planned offer is the sum over rooms and peers of what each publisher sends |
| Gate.ReceiverVerdict | src/client/scenario.rs:772-836 | one receiver's discrepancies are zero if and only if it was served exactly, and then its totals are the planned ones |
| Gate.MergedDiscrepancyVerdict | src/model.rs:414-465 | the merged discrepancy count is zero if and only if every receiver was served exactly |
| Gate.MergedDeliveries | src/model.rs:492-509 | exact service everywhere gives the planned delivery counters |
| Gate.MergedOffers | src/model.rs:492-509 | finished senders give the planned offered counters |
| Gate.GateVerdict | src/model.rs:525-568 | the completed result validates if and only if every receiver of every room got each planned packet once, in order and intact, and nothing but warmup besides |
| Forwarding.EmittedTotals | src/client/media.rs:330-381 | a run of frames sends the planned number of packets and bytes of each layer |
| Forwarding.SenderMatchesPlan | src/client/scenario.rs:443-465 | what the measured loop of a peer sends is what the plan books for it |
| Forwarding.SetUpPeer | src/client/scenario.rs:212-357 | the media a room sets up for a peer: its own source identity, audio and video sources for exactly the first publishers of each kind, and in a mixed conference each at its own slot of the first interval |
| Forwarding.RunSender | src/client/scenario.rs:431-465 | a peer set up as its room sets it up, through warmup, reset and the measured loop, sends its audio and its video run under its own identity, each packet at the deadline of the frame it names, and books what the plan offers for it |
| Forwarding.StreamSizes | src/client/scenario.rs:631-686 | every expected stream has as many places as its publisher sends packets of that kind and layer |
| Forwarding.WarmupLeavesReady | src/client/scenario.rs:509-531 | warmup leaves a source ready to measure: same identity, both measured ordinals at zero |
| Forwarding.StreamPublishers | src/client/scenario.rs:631-709 | every expected stream comes from a publisher of the same room, under that publisher's source identity |
| Forwarding.SentIsExact | src/client/scenario.rs:443-465 | what the publisher of a stream has sent on it is exactly what a receiver's plan for that stream asks for |
| Forwarding.FaithfulForwardingIsExact | src/client/scenario.rs:431-480 | if each measured stream arrives as its publisher's measured loop sent it, interleaved in any way with others and with warmup, the receiver was served exactly |
| Forwarding.LosslessRunValidates | src/client/scenario.rs:431-480 | the whole way: when every peer of every room has run its sender and what is sent is forwarded in order, the completed result validates, in whatever order rooms and peers finish |
| Phases.PhaseSequence.Advance | src/phase.rs:134-144 | accepts the next ordered phase and nothing else; a refusal changes nothing |
| Phases.PhaseSequence.Finish | src/phase.rs:146-152 | finishes exactly when all phases were accepted |
| Phases.OfferAll | src/phase.rs:133-152 | what a sequence accepts is a prefix of the order, cut off at the first phase out of order, and complete only if it is the whole order |
| Phases.ChannelStepKeeps | src/controller.rs:413-453 | no step of lock, pipes, controller and sampler, failures included, breaks the order, rejects a phase, or acknowledges one that is not persisted |
| Phases.SpawnKeeps | src/phase.rs:88-98 | a report made after all earlier ones were acknowledged keeps the channel in order |
| Phases.AcknowledgedIsPersisted | src/phase.rs:100-129 | `report` returns Ok only once its phase, and every earlier one, is persisted |
| PhaseSafety.StepKeeps | src/client/scenario.rs:437-507 | every step of any peer, of the measured task, of the channel, and every death keeps the protocol invariant |
| PhaseSafety.RunKeeps | src/client/scenario.rs:437-507 | so every state of every run satisfies it |
| PhaseSafety.ArriveCounts | src/client/scenario.rs:468-471 | the arrival that completes a barrier generation finds every peer, dead or alive, in the same round |
| PhaseSafety.RoundsPassed | src/client/scenario.rs:482-507 | what a completed barrier round proves about all peers: warmup acknowledged, timelines reset, one start instant, everything received |
| PhaseSafety.LeaderMayReport | src/client/scenario.rs:468-471 | a leader finds exactly the reports its phase must follow, all acknowledged |
| PhaseSafety.ReporterKeeps | src/client/scenario.rs:77-88 | the measured task reports third, after the start instant, and raises the flag only then |
| PhaseSafety.EveryRunIsSafe | src/client/scenario.rs:437-507 | for any number of peers: persisted phases are an ordered prefix, each reported once; no warmup packet before persisted Warmup; no measured packet before persisted Measured, all timelines reset and the one start instant; Drain only after all peers finished receiving; rounds differ by at most one |
| PhaseProgress.HealthStays | src/phase.rs:100-129 | without a fault no error path is ever taken |
| PhaseProgress.NeverStuck | src/client/scenario.rs:77-101 | a fault-free state is complete, or some step is enabled, or the measured task sleeps towards a start instant still ahead |
| PhaseProgress.StalledTogether | src/client/scenario.rs:90-101 | when every peer waits, either all are done or the permit is stored and no broadcast was missed |
| PhaseProgress.RankFalls | src/client/scenario.rs:437-507 | every step but a fault and the passing of time lowers one natural-number measure |
| PhaseProgress.FaultFreeRunsEnd | src/client/scenario.rs:437-507 | a fault-free run has at most as many moves as its initial measure, however it interleaves |
| PhaseProgress.MaximalRunsComplete | src/client/scenario.rs:437-507 | a fault-free run that can only let time pass, with the start instant reached, has every peer done and every phase persisted |
| PhaseProgress.EveryRunCanComplete | src/client/scenario.rs:437-507 | every fault-free run, however far it has got, can be continued to a complete one |
| PhaseWork.WorkIsConserved | src/client/scenario.rs:443-465 | in every state of a run, each peer's sent packets are its send steps so far, and with what is left they make up what it started with; warmup likewise |
| PhaseWork.SendsAreGuarded | src/client/scenario.rs:437-507 | wherever a run takes a measured send, the measured phase is persisted, every peer has sent its whole warmup and reset its timelines, and the one start instant has come; wherever it takes a warmup send, its phase is persisted and no measured packet has been sent |
| PhaseWork.StartWasFixed | src/client/scenario.rs:498-501 | the start instant is fixed once, a whole second ahead of the clock, and never changes |
| PhaseWork.ClockTicks | src/client/scenario.rs:498-501 | the clock of a run is the number of its ticks |
| PhaseWork.FaultsAnytime | src/phase.rs:100-129 | whatever is up can go down in any state: a peer, the measured task, the controller, the sampler |
| PhaseWork.FaultsAreFinal | src/phase.rs:100-129 | what a fault has brought down takes no part in the rest of the run: no step of a dead peer or task, no phase accepted or persisted |
| PhaseWork.DrainMeansAllSent | src/client/scenario.rs:466-471 | even with faults, a persisted drain phase means that every peer has taken every send it had and received everything |
| PhaseWork.MaximalRunsSendAll | src/client/scenario.rs:437-507 | a fault-free run that can only let time pass, with the start instant reached, has taken every send of every peer |
| Framing.BufferedStream.ReadPhaseFrame | src/controller.rs:455-481 | one frame, the end or a failure, determined by the remaining bytes alone, and consumed exactly |
| Framing.BufferedStream.ReadAll | src/controller.rs:455-481 | repeated reading gives the frames of the byte stream and its outcome |
| Framing.ReadTwice | src/controller.rs:455-481 | two ways to split the same bytes into buffers are read alike |
| Framing.FramesAreLines | src/controller.rs:455-481 | every frame is one newline-terminated line of at most 256 bytes; the frames are a prefix of the stream, and all of it if and only if it ends cleanly |
| Framing.FramesRoundTrip | src/controller.rs:455-481 | any sequence of such lines is read back as itself |
| Telemetry.SamplerState.VerifyStartTimes | src/telemetry.rs:587-602 | a start time is remembered once and must hold from then on, even when the capture fails later |
| Telemetry.SamplerState.Capture | src/telemetry.rs:365-417 | result and state of one capture, whichever of its four answers fails |
| Telemetry.SamplerState.RecordSample | src/telemetry.rs:318-341 | one record is written, counted as sample or as error |
| Telemetry.SamplerState.RecordPhase | src/telemetry.rs:343-352 | a phase record is written exactly when the sequence accepts it |
| Telemetry.RunSampler | src/telemetry.rs:479-515 | the loop's log and summary over any events; a refused phase ends it with an error |
| StartTimes.FirstAnswersBind | src/telemetry.rs:587-602 | the first start times a run sees bind it: every sample it writes is of those processes, even if the capture that saw them failed |
| TelemetryReader.ParseSamples | src/report.rs:242-301 | the parse loop computes the reader's fold: malformed, legacy, undecodable and current lines, record limit and incomplete phases included |
| TelemetryReader.ParseCurrentRecord | src/report.rs:303-365 | what one decoded record adds to samples, phases and the unavailable count, and whether its schema version requires phases |
| TelemetryReader.SortIsStable | src/report.rs:294 | sorting by time keeps every sample, and for every log the samples of any one time stay in the order they had |
| TelemetryReader.RecordReadsBack | src/report.rs:391-446 | every value of a sample record, each traffic counter under its own name, can be read back off the sample |
| TelemetryReader.RecordReadsAsGap | src/report.rs:331-346 | an error or invalid worker data is read as a gap at its time, without any counter |
| TelemetryReader.ValidWorkers | src/report.rs:532-547 | worker data is valid if and only if it names at most 64 workers, numbered below 64, no two alike |
| TelemetryReader.EveryLineIsAccounted | src/report.rs:242-365 | whatever the lines are, each is a sample, an accepted phase, or counted as unavailable |
| TelemetryReader.PhasesReadInOrder | src/report.rs:354-362 | whatever the lines are, the phases read are the ordered ones from the first on, at times that do not go back |
| TelemetryReader.ReadingIsFaithful | src/report.rs:242-365 | within the record limit every sample, phase and unusable record is accounted for |
| TelemetryReader.FinishedLogIsComplete | src/telemetry.rs:479-515 | a run that ends without error leaves a log whose first record is an observation, whose only final record is last, and which holds all four phases; its counters count it |
| TelemetryReader.RunIsClocked | src/telemetry.rs:250-266 | one monotonic clock for observations and phase requests leaves observation times and phase times in order |
| TelemetryReader.WriterAndReaderAgree | src/report.rs:242-365 | the reader sees four ordered phases at times that do not go back, and usable and unavailable samples as the writer counted them, but for those it refuses for their workers |
| CpuAverage.WholeWindowAverage | src/report.rs:707-737 | the loop computes the weighted average of the points between usable endpoints, without 128-bit overflow |
| CpuAverage.WithheldExactlyWhen | src/report.rs:694-737 | the average is withheld if and only if an endpoint is unusable or a non-empty interval lacks its rate |
| CpuAverage.WithheldByFields | src/report.rs:694-737 | the same in the fields of the samples: which of them must be there, for each process |
| CpuAverage.ChainStays | src/telemetry.rs:435-477 | after every record, each rate is measured from the first capture at the latest earlier time |
| CpuAverage.RunKeepsChain | src/telemetry.rs:435-477 | so every log a sampler run leaves chains its rates, for both processes |
| CpuAverage.RateIsFloor | src/telemetry.rs:435-477 | a recorded rate r over a base satisfies r * hz * ms <= 1e8 * ticks < (r + 1) * hz * ms, unless it is the 64-bit maximum |
| CpuAverage.Telescopes | src/report.rs:707-737 | sampler intervals and report intervals telescope identically, whatever captures failed and whatever times repeat |
| CpuAverage.CaptureEnds | src/telemetry.rs:365-417 | the window's captures begin and end with the first and the last record's |
| CpuBound.BaseIsCaptured | src/telemetry.rs:435-477 | the base is the first capture at the latest time so far, refused or not |
| CpuBound.NoneRefused | src/report.rs:331-346 | a log in which the reader refuses nothing has no refused base |
| CpuBound.ReadSamplesChain | src/report.rs:331-346 | without a refused base, the samples the reader keeps form a chain of rates of their own |
| CpuBound.CpuAverageIsClose | src/report.rs:694-737 | over any sampler run in which no refused sample is the base of a usable one, an average A over W ms satisfies A*hz*W <= 1e8*ticks, and 1e8*ticks < (A+2)*hz*W unless a rate was clamped; it is withheld only for an unusable endpoint |
| Replay.AnyTicksCanBeWritten | src/telemetry.rs:365-515 | every log of a run can be left again with any other processor time that does not run backwards: some run on the same clock writes it |
| CpuRefusals.AverageByShape | src/report.rs:694-737 | whether an average is given does not depend on the amount of processor time |
| CpuRefusals.BoundExactlyWhenNoRefusedBase | src/report.rs:331-346 | over sampler runs, for either process, with failed scrapes and repeated times: whatever processor time a run takes, the bound holds if and only if there is no average or no refused sample is the base of a usable one |
| CpuRefusals.RefusedBaseBreaksBound | src/report.rs:331-346 | where one is, some run that differs in processor time alone leaves the bound |
| CpuRefusals.BurstIsLost | src/report.rs:331-346 | in every run whose processor time falls just before a refused base, it is averaged to zero |
| CpuRefusals.OneRefusalHidesASecond | src/report.rs:331-346 | a concrete run of seven events in which a second of processor time is averaged to zero |
| CpuRefusals.SlowClocksReach | src/telemetry.rs:365-417 | with at most fifty million clock ticks per second, 64 bits of ticks reach out of the bound over every span |
| Smoothing.ContiguousSegments | src/report/dashboard.rs:1207-1221 | the loop yields the maximal defined runs, in order |
| Smoothing.MovingAverage | src/report/dashboard.rs:1223-1253 | the segment-wise form equals the floored mean over the indices within the radius in the same run, and is defined at exactly the same indices |
| Smoothing.WindowIsStretch | src/report/dashboard.rs:1232-1238 | the averaged indices are exactly those reachable within the radius without crossing a gap |
| Smoothing.SmoothedIsMean | src/report/dashboard.rs:1232-1253 | a smoothed value is the whole part of the mean over exactly the indices within the radius in its run |
| Smoothing.SmoothedIsBetween | src/report/dashboard.rs:1239-1250 | a smoothed value keeps its timestamp and lies between the least and the greatest value of its window |
| PhaseGaps.PreviousValueStarts | src/report/dashboard.rs:934-947 | each defined slot's interval starts at the last defined time before it |
| PhaseGaps.DirectSeries | src/report/dashboard.rs:745-765 | a gauge series and its interval starts |
| PhaseGaps.CounterSeries | src/report/dashboard.rs:778-822 | the loop yields the rate between neighbouring readings, or a gap, and the start of every rate's interval |
| PhaseGaps.CounterIsRate | src/report/dashboard.rs:778-822 | a slot is there if and only if both readings are, time has passed and the counter has not fallen; then r * elapsed <= delta * scale < (r + 1) * elapsed, unless r is the 64-bit maximum |
| PhaseGaps.CounterIntervals | src/report/dashboard.rs:778-822 | a rate needs both neighbouring readings, and its interval lies between them |
| PhaseGaps.FanoutSeries | src/report/dashboard.rs:824-873 | the loop yields exactly the ratios between neighbouring samples that have both counters, and exactly one interval start for each sample that has both |
| PhaseGaps.FanoutIsRatio | src/report/dashboard.rs:824-873 | a ratio is there if and only if both counters are and, since the last sample with both, time passed, packets came in and forwarding did not fall; then it is bounded from both sides like a rate |
| PhaseGaps.FanoutAligned | src/report/dashboard.rs:824-873 | starts and values are aligned if and only if every sample has both counters; then they link like a counter's |
| PhaseGaps.FanoutReadsOwnStarts | src/report/dashboard.rs:824-873 | gapping reads every ratio's own start if and only if no sample before a ratio lacks a counter |
| PhaseGaps.FanoutBlendsPhases | src/report/dashboard.rs:375-405 | a concrete series in which a ratio across a phase transition is kept |
| PhaseGaps.NoRatioYet | src/report/dashboard.rs:824-873 | there is no ratio before a second sample with both counters |
| PhaseGaps.WorkerSeries | src/report/dashboard.rs:875-932 | one aligned column and its interval starts per worker that appears; an error if and only if the policy does not cover the workers shown |
| PhaseGaps.EnterSample | src/report/dashboard.rs:886-915 | one sample's workers enter their columns, or the sample is refused for too many, unknown or repeated ones |
| PhaseGaps.GapPhaseCrossings | src/report/dashboard.rs:375-405 | exactly the slots whose interval holds a marker become gaps, and the ungapped values are kept as raw values |
| PhaseGaps.GapsExactlyCrossings | src/report/dashboard.rs:375-405 | nothing is removed if and only if nothing crosses |
| PhaseGaps.GaugeStartsLink | src/report/dashboard.rs:934-947 | neighbouring gauge slots are linked: the later interval starts at the earlier slot |
| PhaseGaps.CounterStartsLink | src/report/dashboard.rs:778-822 | so are neighbouring counter slots, on every input |
| PhaseGaps.SortedSamplesGiveOrderedSlots | src/report.rs:294 | sorted samples give gauge, counter and worker slots in time order |
| PhaseGaps.RunSharesAPhase | src/report/dashboard.rs:375-405 | after gapping, no phase begins between two slots of one run |
| PhaseGaps.SmoothingStaysInPhase | src/report/dashboard.rs:1223-1253 | every slot averaged into another one lies in the same phase, and so does the interval of every rate that remains |
| FoldedProfiles.AddCount | src/profile/report.rs:781-787 | one bucket grows by the count, or the addition is refused exactly when it would overflow |
| FoldedProfiles.FoldedProfile.AddLine | src/profile/report.rs:546-589 | all or nothing: a line is refused with no trace, or counted in every bucket it belongs to; refused exactly when it does not parse or the total would overflow |
| FoldedProfiles.FoldedProfile.Parse | src/profile/report.rs:511-544 | the accepted lines are those that parse and fit; the others are counted, and the diagnostics name the first eight of them in order; too many lines are an error |
| FoldedLines.LineRoundTrip | src/profile/report.rs:546-563 | any frames and count, joined by semicolons and written in decimal, are read back as themselves, from thread root to leaf |
| FoldedLines.LineReads | src/profile/report.rs:546-557 | with empty pieces, leading zeros or a plus sign too, a line is read as exactly the pieces that hold something and the count written, and refused if the count is zero or beyond 64 bits or nothing is left |
| FoldedLines.LineIsRefused | src/profile/report.rs:546-552 | a line without a space, or with anything but a count behind its last one, is refused |
| FoldedLines.MarkedFrames | src/profile/report.rs:789-793 | which frames count as unresolved or as the kernel's, by what they begin with, contain or end with |
| FoldedProfiles.SampleRaises | src/profile/report.rs:546-589 | one more sample changes every bucket, counter and total as the sums over the accepted lines require |
| FoldedProfiles.NothingExceedsTotal | src/profile/report.rs:558-587 | every bucket and counter is at most the checked total |
| FoldedProfiles.ProfileInvariants | src/profile/report.rs:546-589 | self cost is part of inclusive cost, unresolved leaves are part of unresolved stacks, and nothing exceeds the total |
| Ranking.RenderRanked | src/profile/report.rs:691-729 | rows are the top of the ranking; in a partition the row for the others is the sum of the entries not shown, and absent only when that is zero |
| Ranking.RankingIsUnique | src/profile/report.rs:767-779 | the sort leaves no choice: two rankings of one map are the same |
| Ranking.RenderSelf | src/profile/report.rs:432-440 | shown leaf symbols and the row for the others add up to all samples |
| ScenarioKeys.KeyHoldsRate | src/report.rs:1644-1666 | the key holds the planned deliveries and the whole number of them a second |
| ScenarioKeys.KeysSortKinds | src/report.rs:1644-1666 | keys sort smoke runs before meshes, galleries and conferences, and within a kind by deliveries a second |
| ScenarioKeys.KeyCollisions | src/report.rs:1644-1667 | exactly when two different specifications share a key |
| ScenarioKeys.PlannedSpecsTell | src/report.rs:1644-1667 | specifications with a plan, hence all valid ones, never share a key |
| ScenarioKeys.DedupExactlyWhenKeysTell | src/comparison.rs:725-731 | whatever order the unstable sort leaves equal keys in, `dedup` lists each specification once if and only if no repeated one shares its key |
| ScenarioKeys.DedupFailsWithoutPlans | src/comparison.rs:725-731 | a concrete list on which it does not |
| PairRuns.PairAll | src/comparison.rs:732-773 | the loop collects each specification's pair or issue in order |
| PairRuns.ContractIsAllButMeasured | src/report.rs:1627-1638 | two runs have the same contract if and only if they are equal in everything but delivery, correctness, time and lag |
| PairRuns.EachSpecOnce | src/comparison.rs:724-773 | each specification gets one pair, with an issue exactly when the two runs differ in more than their measurements, or the one issue that says what is wrong |
| PairRuns.VerdictIsOneToOne | src/comparison.rs:160-162 | `workloads_match` holds if and only if both sides are non-empty and each specification has exactly one run on either side, equal but for their measurements, on every input |
| PairRuns.ExactMeansAllValidate | src/comparison.rs:163-168 | `exact` holds if and only if moreover no load failed and every run on either side validates |

## Left out

- RTP header extensions: a video packet carries its frame mark; where the bits of the mark lie, and the constant level of the audio extension, are not modelled.
- Process spawning, signals, perf and Inferno commands, HTTP scraping, `/proc` and `getconf` parsing, file writing: only the values they feed in are modelled; an I/O failure is a failed answer, a stopped controller or a stopped sampler.
- `src/client/protocol.rs` and `src/client/rtc.rs`: wrappers over code that is not part of this model; a receiver is the sequence of payloads it hands to the ledger.
- JSON and error texts: records are datatypes and an error is one failure value; `errors` and `diagnostics` keep only their number or line.
- JSON decoding: a line arrives as malformed, legacy, undecodable or decoded, with the sample or the gap that decoding would give.
- Wall clock: time is an abstract clock that never goes back; pacing and timeouts are not modelled, the lag of each send and `elapsed_ms` are arbitrary values of a peer's run.
- Markdown, Mermaid and SVG rendering, number formatting, URL and asset-name checks, CLI arguments: presentation.
- `counter_rate`, `server_cpu_ticks`, `cpu_micros_per_million` and `pacing_valid`: single formulas that would only add easy members.
- Line trimming and Unicode: folded lines arrive trimmed, text is a sequence of characters.
- The library sorts are modelled by what they return: `sort_unstable_by` in `ranked` as selection of the first remaining entry, `sort_unstable_by_key` as any rearrangement in key order.
- CpuRefusals.BoundExactlyWhenNoRefusedBase: stated where 64 bits of ticks can amount to two units of the average over the whole log (`TicksReach`), because beyond that a burst need not leave the bound; up to fifty million clock ticks per second every log meets this. The bound itself is proved without it.
- PhaseProgress.MaximalRunsComplete: says nothing about real speed; that time passes and enabled steps are taken is the scheduler's part.
- `peers_per_room` of a smoke run with 2^32 - 1 receivers wraps in a release build, as modelled; a debug build would panic.
