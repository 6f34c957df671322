/** The measured send loop of one peer: which media comes next, when it is due, and what is offered in total. */
module Schedule {
  import opened Machine
  import opened Codec
  import opened Sources
  import opened Sums
  import Emission

  datatype MediaTurn = AudioTurn | VideoTurn

  /** Deadline number k of a timeline. */
  function DeadlineAt(first: nat, interval: nat, k: nat): nat {
    SaturatingDuration(first + k * interval)
  }

  lemma DeadlineAdvances(first: nat, interval: nat, k: nat)
    ensures SaturatingDuration(DeadlineAt(first, interval, k) + interval) == DeadlineAt(first, interval, k + 1)
    ensures DeadlineAt(first, interval, k) <= DeadlineAt(first, interval, k + 1)
  {
    assert (k + 1) * interval == k * interval + interval;
  }

  /** The sources of a peer as their first deadlines, with the work each has to do. */
  datatype MediaPlan = MediaPlan(audio: Option<nat>, audioCount: u32, video: Option<nat>, videoCount: u32)
  {
    function AudioDue(k: nat): Option<nat> {
      if audio.Some? && k < audioCount then Some(DeadlineAt(audio.value, AUDIO_FRAME_INTERVAL, k)) else None
    }

    function VideoDue(k: nat): Option<nat> {
      if video.Some? && k < videoCount then Some(DeadlineAt(video.value, VIDEO_FRAME_INTERVAL, k)) else None
    }

    function AudioLeft(k: nat): nat {
      if audio.Some? && k < audioCount then audioCount - k else 0
    }

    function VideoLeft(k: nat): nat {
      if video.Some? && k < videoCount then videoCount - k else 0
    }

    function TargetDuration(): nat {
      var a, v := SaturatingDuration(AUDIO_FRAME_INTERVAL * audioCount),
        SaturatingDuration(VIDEO_FRAME_INTERVAL * videoCount);
      if a < v then v else a
    }
  }

  function TurnFor(audioDue: Option<nat>, videoDue: Option<nat>): Option<MediaTurn> {
    match (audioDue, videoDue)
    case (Some(a), Some(v)) => if a <= v then Some(AudioTurn) else Some(VideoTurn)
    case (None, Some(_)) => Some(VideoTurn)
    case (Some(_), None) => Some(AudioTurn)
    case (None, None) => None
  }

  /** One turn taken: its medium, its number within that medium, and the deadline its packets carry. */
  datatype Turn = Turn(media: MediaTurn, index: nat, emittedAt: nat)

  /** The turns still to come after `a` audio packets and `v` video frames. */
  function TurnsFrom(plan: MediaPlan, a: nat, v: nat): seq<Turn>
    decreases plan.AudioLeft(a) + plan.VideoLeft(v)
  {
    match TurnFor(plan.AudioDue(a), plan.VideoDue(v))
    case Some(AudioTurn) => [Turn(AudioTurn, a, plan.AudioDue(a).value)] + TurnsFrom(plan, a + 1, v)
    case Some(VideoTurn) => [Turn(VideoTurn, v, plan.VideoDue(v).value)] + TurnsFrom(plan, a, v + 1)
    case None => []
  }

  /** Numbers of the turns of one medium, in the order they are taken. */
  function IndicesOf(turns: seq<Turn>, media: MediaTurn): seq<nat> {
    if turns == [] then []
    else if turns[0].media == media then [turns[0].index] + IndicesOf(turns[1..], media)
    else IndicesOf(turns[1..], media)
  }

  function Range(from: nat, n: nat): seq<nat> {
    seq(n, i requires 0 <= i < n => from + i)
  }

  /** The loop takes every remaining audio packet and every remaining video frame exactly once, each kind in order. */
  lemma {:induction false} ScheduleIsComplete(plan: MediaPlan, a: nat, v: nat)
    ensures IndicesOf(TurnsFrom(plan, a, v), AudioTurn) == Range(a, plan.AudioLeft(a))
    ensures IndicesOf(TurnsFrom(plan, a, v), VideoTurn) == Range(v, plan.VideoLeft(v))
    ensures |TurnsFrom(plan, a, v)| == plan.AudioLeft(a) + plan.VideoLeft(v)
    decreases plan.AudioLeft(a) + plan.VideoLeft(v)
  {
    var turns := TurnsFrom(plan, a, v);
    match TurnFor(plan.AudioDue(a), plan.VideoDue(v))
    case Some(AudioTurn) =>
      ScheduleIsComplete(plan, a + 1, v);
      assert turns[1..] == TurnsFrom(plan, a + 1, v);
    case Some(VideoTurn) =>
      ScheduleIsComplete(plan, a, v + 1);
      assert turns[1..] == TurnsFrom(plan, a, v + 1);
    case None =>
  }

  /** No turn is due before any turn already taken, and none before `bound`. */
  predicate SortedFrom(turns: seq<Turn>, bound: nat) {
    && (forall i | 0 <= i < |turns| :: bound <= turns[i].emittedAt)
    && forall i, j | 0 <= i < j < |turns| :: turns[i].emittedAt <= turns[j].emittedAt
  }

  /** Merging the two timelines by deadline emits nondecreasing deadlines. */
  lemma {:induction false} ScheduleIsSorted(plan: MediaPlan, a: nat, v: nat, bound: nat)
    requires plan.AudioDue(a).Some? ==> bound <= plan.AudioDue(a).value
    requires plan.VideoDue(v).Some? ==> bound <= plan.VideoDue(v).value
    ensures SortedFrom(TurnsFrom(plan, a, v), bound)
    decreases plan.AudioLeft(a) + plan.VideoLeft(v)
  {
    hide DeadlineAt;
    match TurnFor(plan.AudioDue(a), plan.VideoDue(v))
    case Some(AudioTurn) =>
      DeadlineAdvances(plan.audio.value, AUDIO_FRAME_INTERVAL, a);
      ScheduleIsSorted(plan, a + 1, v, plan.AudioDue(a).value);
    case Some(VideoTurn) =>
      DeadlineAdvances(plan.video.value, VIDEO_FRAME_INTERVAL, v);
      ScheduleIsSorted(plan, a, v + 1, plan.VideoDue(v).value);
    case None =>
  }

  /** Both timelines start within their first interval, as `new` and `staggered` leave them. */
  predicate StartsInFirstInterval(plan: MediaPlan) {
    && (plan.audio.Some? ==> plan.audio.value <= AUDIO_FRAME_INTERVAL)
    && (plan.video.Some? ==> plan.video.value <= VIDEO_FRAME_INTERVAL)
  }

  lemma DeadlineWithin(first: nat, interval: nat, k: nat, count: nat)
    requires first <= interval && k < count
    ensures DeadlineAt(first, interval, k) <= SaturatingDuration(interval * count)
  {
    assert interval * count == count * interval >= (k + 1) * interval == k * interval + interval by {
      MulMonotone(k + 1, count, interval);
    }
  }

  /** Every deadline of the measured run lies within the target duration. */
  lemma {:induction false} ScheduleFitsTarget(plan: MediaPlan, a: nat, v: nat)
    requires StartsInFirstInterval(plan)
    ensures forall t | t in TurnsFrom(plan, a, v) :: t.emittedAt <= plan.TargetDuration()
    decreases plan.AudioLeft(a) + plan.VideoLeft(v)
  {
    hide DeadlineAt;
    match TurnFor(plan.AudioDue(a), plan.VideoDue(v))
    case Some(AudioTurn) =>
      DeadlineWithin(plan.audio.value, AUDIO_FRAME_INTERVAL, a, plan.audioCount);
      ScheduleFitsTarget(plan, a + 1, v);
    case Some(VideoTurn) =>
      DeadlineWithin(plan.video.value, VIDEO_FRAME_INTERVAL, v, plan.videoCount);
      ScheduleFitsTarget(plan, a, v + 1);
    case None =>
  }

  lemma StaggeredStartsInside(interval: nat, index: u32, count: u32)
    requires interval <= DURATION_MAX
    ensures StaggeredStart(interval, index, count) <= interval
  {
    var n := if count == 0 then 1 else count;
    var slot := if index + 1 <= n then index + 1 else n;
    MulMonotone(slot, n, interval / n);
    assert n * (interval / n) <= interval;
  }

  /** Two staggered publishers of one kind never share a deadline, however long the run. */
  lemma StaggeredDeadlinesDiffer(interval: nat, count: u32, i: u32, j: u32, k: u32, l: u32)
    requires 0 < count <= interval <= 1_000_000_000 && i < count && j < count && i != j
    ensures DeadlineAt(StaggeredStart(interval, i, count), interval, k)
         != DeadlineAt(StaggeredStart(interval, j, count), interval, l)
  {
    if i < j {
      EarlierSlot(interval, count, i, j, k, l);
    } else {
      EarlierSlot(interval, count, j, i, l, k);
    }
  }

  lemma EarlierSlot(interval: nat, count: u32, i: u32, j: u32, k: u32, l: u32)
    requires 0 < count <= interval <= 1_000_000_000 && i < j < count
    ensures DeadlineAt(StaggeredStart(interval, i, count), interval, k)
         != DeadlineAt(StaggeredStart(interval, j, count), interval, l)
  {
    var first, later := StaggeredStart(interval, i, count), StaggeredStart(interval, j, count);
    SlotGap(interval, count, i, j);
    DeadlineIsExact(first, interval, k);
    DeadlineIsExact(later, interval, l);
    hide DeadlineAt, StaggeredStart;
    RowsNeverMeet(interval, k, l, later - first);
  }

  /** Two slots of one interval are less than the interval apart. */
  lemma SlotGap(interval: nat, count: u32, i: u32, j: u32)
    requires 0 < count <= interval <= 1_000_000_000 && i < j < count
    ensures 0 < StaggeredStart(interval, i, count) < StaggeredStart(interval, j, count) <= interval
  {
    var step := interval / count;
    StepFits(interval, count);
    SlotIs(interval, count, i);
    SlotIs(interval, count, j);
    hide StaggeredStart;
    MulMonotone(j + 1, count, step);
    MulMonotone(i + 2, j + 1, step);
    MulMonotone(1, i + 1, step);
    assert (i + 2) * step == (i + 1) * step + step;
  }

  lemma StepFits(interval: nat, count: u32)
    requires 0 < count <= interval
    ensures interval / count > 0 && count * (interval / count) <= interval
  {}

  lemma SlotIs(interval: nat, count: u32, i: u32)
    requires i < count && interval <= 1_000_000_000
    ensures StaggeredStart(interval, i, count) == (i + 1) * (interval / count)
  {
    MulMonotone(i + 1, count, interval / count);
    assert interval / count * (i + 1) == (i + 1) * (interval / count);
  }

  lemma DeadlineIsExact(first: nat, interval: nat, k: u32)
    requires first <= interval <= 1_000_000_000
    ensures DeadlineAt(first, interval, k) == first + k * interval
  {
    MulMonotone(k, U32_SIZE, interval);
    MulMonotone(interval, 1_000_000_000, U32_SIZE);
  }

  lemma RowsNeverMeet(interval: nat, k: nat, l: nat, gap: nat)
    requires 0 < gap < interval
    ensures k * interval != l * interval + gap
  {
    if k <= l {
      MulMonotone(k, l, interval);
    } else {
      MulMonotone(l + 1, k, interval);
      assert (l + 1) * interval == l * interval + interval;
    }
  }

  const WARMUP_AUDIO_PACKETS: u32 := 5
  const WARMUP_VIDEO_FRAMES: u32 := 2

  function AudioLength(p: AudioPacket): nat { |p.payload| }
  function VideoLength(p: VideoPacket): nat { |p.payload| }

  /** What one peer sends: its sources and how much measured work each of them has. */
  class PeerMedia {
    const audio: AudioSource?
    const audioPacketCount: u32
    const video: VideoSource?
    const videoFrameCount: u32

    constructor (audio: AudioSource?, audioPacketCount: u32, video: VideoSource?, videoFrameCount: u32)
      ensures this.audio == audio && this.audioPacketCount == audioPacketCount
      ensures this.video == video && this.videoFrameCount == videoFrameCount
    {
      this.audio, this.audioPacketCount, this.video, this.videoFrameCount :=
        audio, audioPacketCount, video, videoFrameCount;
    }

    ghost predicate Valid() {
      && (audio != null ==> audio.timeline.interval == AUDIO_FRAME_INTERVAL)
      && (video != null ==> video.Valid())
      && (audio != null && video != null ==> audio.timeline != video.timeline)
    }

    ghost function Repr(): set<object> {
      (if audio != null then {audio, audio.timeline} else {}) + (if video != null then video.Repr() else {})
    }

    ghost function Plan(): MediaPlan {
      MediaPlan(if audio != null then Some(audio.timeline.firstEmittedAt) else None, audioPacketCount,
                if video != null then Some(video.timeline.firstEmittedAt) else None, videoFrameCount)
    }

    /** Both timelines stand where they do after `a` audio packets and `v` video frames of the measured run. */
    ghost predicate At(a: nat, v: nat)
      reads Repr()
    {
      && (audio != null ==>
            audio.timeline.nextEmittedAt == DeadlineAt(audio.timeline.firstEmittedAt, AUDIO_FRAME_INTERVAL, a))
      && (video != null ==>
            video.timeline.nextEmittedAt == DeadlineAt(video.timeline.firstEmittedAt, VIDEO_FRAME_INTERVAL, v))
    }

    ghost function VideoStateNow(): VideoState
      requires video != null
      reads Repr()
    {
      video.State()
    }

    method ResetTimelines()
      requires Valid()
      requires audio != null ==> audio.timeline.firstEmittedAt <= DURATION_MAX
      requires video != null ==> video.timeline.firstEmittedAt <= DURATION_MAX
      modifies if audio != null then {audio.timeline} else {}, if video != null then {video.timeline} else {}
      ensures At(0, 0)
      ensures video != null ==>
        video.State() == old(video.State()).(nextEmittedAt := video.timeline.firstEmittedAt)
    {
      if audio != null {
        audio.timeline.Reset();
      }
      if video != null {
        video.timeline.Reset();
      }
    }

    /** Where the audio source stands after n packets from a given standing. */
    ghost predicate AudioMoved(nextEmittedAt: nat, rtpTimestamp: u32, sequenceNumber: u16, n: nat)
      requires audio != null
      reads Repr()
    {
      && audio.timeline.nextEmittedAt
         == (if n == 0 then nextEmittedAt else DeadlineAt(nextEmittedAt, AUDIO_FRAME_INTERVAL, n))
      && audio.nextRtpTimestamp == Wrap32(rtpTimestamp + n * AUDIO_TIMESTAMP_STEP)
      && audio.nextSequenceNumber == Wrap16(sequenceNumber + n)
    }

    /** Warmup traffic: its own phase and ordinals, so nothing of it counts towards the measured streams. */
    method SendWarmup() returns (audioPackets: seq<AudioPacket>, videoPackets: seq<VideoPacket>)
      requires Valid()
      modifies Repr()
      ensures Valid()
      ensures |audioPackets| == if audio != null then WARMUP_AUDIO_PACKETS as int else 0
      ensures forall k: u32 | k < |audioPackets| :: audioPackets[k].payload == AudioPayload(audio.source, Warmup, k)
      ensures audio != null ==>
        AudioMoved(old(audio.timeline.nextEmittedAt), old(audio.nextRtpTimestamp), old(audio.nextSequenceNumber),
                   WARMUP_AUDIO_PACKETS)
      ensures video != null ==> videoPackets == Emission.Emitted(old(video.State()), Warmup, WARMUP_VIDEO_FRAMES)
      ensures video != null ==>
        VideoStateNow() == Emission.StateAfter(old(video.State()), Warmup, WARMUP_VIDEO_FRAMES)
      ensures video == null ==> videoPackets == []
    {
      hide AudioPayload, FramePackets, FrameStateAfter, SaturatingDuration, Wrap16, Wrap32, DeadlineAt;
      audioPackets, videoPackets := [], [];
      ghost var start := if video != null then VideoStateNow() else FreshState(0, 0);
      ghost var due: nat, rtp: u32, number: u16 := 0, 0, 0;
      if audio != null {
        due, rtp, number := audio.timeline.nextEmittedAt, audio.nextRtpTimestamp, audio.nextSequenceNumber;
        Unmoved(rtp, number);
        for ordinal := 0 to WARMUP_AUDIO_PACKETS
          invariant |audioPackets| == ordinal && AudioMoved(due, rtp, number, ordinal)
          invariant forall k: u32 | k < ordinal :: audioPackets[k].payload == AudioPayload(audio.source, Warmup, k)
          invariant video != null ==> VideoStateNow() == start
        {
          FirstAdvance(due, AUDIO_FRAME_INTERVAL);
          DeadlineAdvances(due, AUDIO_FRAME_INTERVAL, ordinal);
          WrapAdd(rtp + ordinal * AUDIO_TIMESTAMP_STEP, AUDIO_TIMESTAMP_STEP);
          WrapAdd(number + ordinal, 1);
          var packet := audio.NextPacket(Warmup, ordinal);
          audioPackets := audioPackets + [packet];
        }
      }
      if video != null {
        for frame := 0 to WARMUP_VIDEO_FRAMES
          invariant VideoStateNow() == Emission.StateAfter(start, Warmup, frame)
          invariant videoPackets == Emission.Emitted(start, Warmup, frame)
          invariant audio != null ==> AudioMoved(due, rtp, number, WARMUP_AUDIO_PACKETS)
        {
          var packets := video.NextFrame(Warmup, frame);
          videoPackets := videoPackets + packets;
        }
      }
    }

    function NextTurn(audioOrdinal: u32, videoFrame: u32): Option<MediaTurn>
      reads Repr()
    {
      TurnFor(if audio != null && audioOrdinal < audioPacketCount then Some(audio.timeline.nextEmittedAt) else None,
              if video != null && videoFrame < videoFrameCount then Some(video.timeline.nextEmittedAt) else None)
    }

    /**
     * The measured loop: takes turns until none is due. The turns are exactly the schedule, the packets exactly what
     * the sources emit for the whole run, the offered counters their saturated totals, and the send lag the largest of
     * those read off the clock, one for each packet sent.
     */
    method SendMeasured(lag: nat -> u64) returns (
      ghost turns: seq<Turn>, audioPackets: seq<AudioPacket>, videoPackets: seq<VideoPacket>,
      offeredPackets: u64, offeredPayloadBytes: u64, maxSendLagMs: u64)
      requires Valid() && At(0, 0)
      modifies Repr()
      ensures turns == TurnsFrom(Plan(), 0, 0)
      ensures audio != null ==>
        && AudioRun(audioPackets, audio.source, audioPacketCount)
        && AudioNumbered(audioPackets, audio.timeline.firstEmittedAt, old(audio.nextRtpTimestamp),
                         old(audio.nextSequenceNumber))
      ensures audio == null ==> audioPackets == []
      ensures video != null ==> videoPackets == Emission.Emitted(old(video.State()), Measured, videoFrameCount)
      ensures video == null ==> videoPackets == []
      ensures Booked(audioPackets, videoPackets, lag, offeredPackets, offeredPayloadBytes, maxSendLagMs)
    {
      hide Booked, Sat, SaturatingAdd, SumOf, DeadlineAt, TurnsFrom, AudioPayload, FramePackets, FrameStateAfter,
           Emission.Emitted, Emission.StateAfter, Emission.OfLayer, AudioRun, SaturatingDuration, Wrap16, Wrap32,
           LargestLag, AudioNumbered;
      NothingBooked(lag);
      ghost var start := if video != null then VideoStateNow() else FreshState(0, 0);
      Begins(start);
      AudioRunBegins(if audio != null then audio.source else 0);
      ghost var rtp: u32 := if audio != null then audio.nextRtpTimestamp else 0;
      ghost var number: u16 := if audio != null then audio.nextSequenceNumber else 0;
      NumberedBegins(if audio != null then audio.timeline.firstEmittedAt else 0, rtp, number);
      turns, audioPackets, videoPackets, offeredPackets, offeredPayloadBytes, maxSendLagMs := [], [], [], 0, 0, 0;
      var audioOrdinal: u32, videoFrame: u32 := 0, 0;
      while NextTurn(audioOrdinal, videoFrame).Some?
        invariant Valid() && At(audioOrdinal, videoFrame)
        invariant audioOrdinal <= audioPacketCount && videoFrame <= videoFrameCount
        invariant turns + TurnsFrom(Plan(), audioOrdinal, videoFrame) == TurnsFrom(Plan(), 0, 0)
        invariant audio != null ==> AudioRun(audioPackets, audio.source, audioOrdinal)
        invariant |audioPackets| == audioOrdinal
        invariant audio != null ==> AudioNumbered(audioPackets, audio.timeline.firstEmittedAt, rtp, number)
        invariant audio != null ==> audio.nextRtpTimestamp == Wrap32(rtp + audioOrdinal * AUDIO_TIMESTAMP_STEP)
        invariant audio != null ==> audio.nextSequenceNumber == Wrap16(number + audioOrdinal)
        invariant audio == null ==> audioOrdinal == 0
        invariant video != null ==> VideoStateNow() == Emission.StateAfter(start, Measured, videoFrame)
        invariant video != null ==> videoPackets == Emission.Emitted(start, Measured, videoFrame)
        invariant video == null ==> videoFrame == 0 && videoPackets == []
        invariant Booked(audioPackets, videoPackets, lag, offeredPackets, offeredPayloadBytes, maxSendLagMs)
        decreases audioPacketCount - audioOrdinal + videoFrameCount - videoFrame
      {
        var turn := NextTurn(audioOrdinal, videoFrame).value;
        TurnsStep(Plan(), audioOrdinal, videoFrame);
        assert Some(turn) == TurnFor(Plan().AudioDue(audioOrdinal), Plan().VideoDue(videoFrame));
        match turn
        case AudioTurn =>
          DeadlineAdvances(audio.timeline.firstEmittedAt, AUDIO_FRAME_INTERVAL, audioOrdinal);
          var taken := Turn(AudioTurn, audioOrdinal, audio.timeline.nextEmittedAt);
          ghost var later := TurnsFrom(Plan(), audioOrdinal + 1, videoFrame);
          assert TurnsFrom(Plan(), audioOrdinal, videoFrame) == [taken] + later;
          MoveFirst(turns, taken, later);
          turns := turns + [taken];
          var packet := audio.NextPacket(Measured, audioOrdinal);
          AudioIsBooked(audioPackets, videoPackets, lag, offeredPackets, offeredPayloadBytes, maxSendLagMs, packet);
          offeredPackets := SaturatingAdd(offeredPackets, 1);
          offeredPayloadBytes := SaturatingAdd(offeredPayloadBytes, Sat(|packet.payload|));
          maxSendLagMs := OneMoreLag(maxSendLagMs, lag, |audioPackets| + |videoPackets|);
          AudioRunStep(audioPackets, audio.source, audioOrdinal, packet);
          NumberedStep(audioPackets, audio.timeline.firstEmittedAt, rtp, number, packet);
          audioPackets := audioPackets + [packet];
          audioOrdinal := audioOrdinal + 1;
        case VideoTurn =>
          DeadlineAdvances(video.timeline.firstEmittedAt, VIDEO_FRAME_INTERVAL, videoFrame);
          var taken := Turn(VideoTurn, videoFrame, video.timeline.nextEmittedAt);
          ghost var later := TurnsFrom(Plan(), audioOrdinal, videoFrame + 1);
          assert TurnsFrom(Plan(), audioOrdinal, videoFrame) == [taken] + later;
          MoveFirst(turns, taken, later);
          turns := turns + [taken];
          EmittedStep(start, videoFrame);
          NextFrameIsLater(VideoStateNow(), videoFrame);
          var packets := video.NextFrame(Measured, videoFrame);
          offeredPackets, offeredPayloadBytes, maxSendLagMs := ObserveSends(
            offeredPackets, offeredPayloadBytes, maxSendLagMs, packets, lag, audioPackets, videoPackets);
          videoPackets := videoPackets + packets;
          videoFrame := videoFrame + 1;
      }
      TurnsStep(Plan(), audioOrdinal, videoFrame);
    }
  }

  lemma Unmoved(rtpTimestamp: u32, sequenceNumber: u16)
    ensures Wrap32(rtpTimestamp) == rtpTimestamp && Wrap16(sequenceNumber) == sequenceNumber
  {}

  lemma FirstAdvance(first: nat, interval: nat)
    ensures SaturatingDuration(first + interval) == DeadlineAt(first, interval, 1)
  {}

  lemma MoveFirst(done: seq<Turn>, next: Turn, rest: seq<Turn>)
    ensures (done + [next]) + rest == done + ([next] + rest)
  {}

  /** The payloads of one audio publisher: ordinals 0..n-1, one packet each. */
  predicate AudioRun(packets: seq<AudioPacket>, source: u16, n: u32) {
    |packets| == n && forall k: u32 | k < n :: packets[k].payload == AudioPayload(source, Measured, k)
  }

  /** Packet k carries the k-th deadline, and the RTP numbering k packets on. */
  predicate AudioNumbered(packets: seq<AudioPacket>, first: nat, rtpTimestamp: u32, sequenceNumber: u16) {
    forall k | 0 <= k < |packets| ::
      && packets[k].emittedAt == DeadlineAt(first, AUDIO_FRAME_INTERVAL, k)
      && packets[k].rtpTimestamp == Wrap32(rtpTimestamp + k * AUDIO_TIMESTAMP_STEP)
      && packets[k].sequenceNumber == Wrap16(sequenceNumber + k)
  }

  lemma NumberedBegins(first: nat, rtpTimestamp: u32, sequenceNumber: u16)
    ensures AudioNumbered([], first, rtpTimestamp, sequenceNumber)
    ensures Wrap32(rtpTimestamp) == rtpTimestamp && Wrap16(sequenceNumber) == sequenceNumber
  {}

  lemma NumberedStep(packets: seq<AudioPacket>, first: nat, rtpTimestamp: u32, sequenceNumber: u16, packet: AudioPacket)
    requires AudioNumbered(packets, first, rtpTimestamp, sequenceNumber)
    requires packet.emittedAt == DeadlineAt(first, AUDIO_FRAME_INTERVAL, |packets|)
    requires packet.rtpTimestamp == Wrap32(rtpTimestamp + |packets| * AUDIO_TIMESTAMP_STEP)
    requires packet.sequenceNumber == Wrap16(sequenceNumber + |packets|)
    ensures AudioNumbered(packets + [packet], first, rtpTimestamp, sequenceNumber)
    ensures Wrap32(packet.rtpTimestamp + AUDIO_TIMESTAMP_STEP)
         == Wrap32(rtpTimestamp + (|packets| + 1) * AUDIO_TIMESTAMP_STEP)
    ensures Wrap16(packet.sequenceNumber + 1) == Wrap16(sequenceNumber + |packets| + 1)
  {
    hide DeadlineAt, Wrap16, Wrap32;
    WrapAdd(rtpTimestamp + |packets| * AUDIO_TIMESTAMP_STEP, AUDIO_TIMESTAMP_STEP);
    WrapAdd(sequenceNumber + |packets|, 1);
  }

  lemma AudioRunBegins(source: u16)
    ensures AudioRun([], source, 0)
  {}

  lemma AudioRunStep(packets: seq<AudioPacket>, source: u16, n: u32, packet: AudioPacket)
    requires AudioRun(packets, source, n) && n + 1 < U32_SIZE && packet.payload == AudioPayload(source, Measured, n)
    ensures AudioRun(packets + [packet], source, n + 1)
  {
    hide AudioPayload;
  }

  lemma TurnsStep(plan: MediaPlan, a: nat, v: nat)
    ensures TurnsFrom(plan, a, v) ==
      match TurnFor(plan.AudioDue(a), plan.VideoDue(v))
      case Some(AudioTurn) => [Turn(AudioTurn, a, plan.AudioDue(a).value)] + TurnsFrom(plan, a + 1, v)
      case Some(VideoTurn) => [Turn(VideoTurn, v, plan.VideoDue(v).value)] + TurnsFrom(plan, a, v + 1)
      case None => []
  {}

  lemma EmittedStep(s: VideoState, n: u32)
    ensures Emission.StateAfter(s, Measured, n + 1) == FrameStateAfter(Emission.StateAfter(s, Measured, n), Measured, n)
    ensures Emission.Emitted(s, Measured, n + 1)
         == Emission.Emitted(s, Measured, n) + FramePackets(Emission.StateAfter(s, Measured, n), Measured, n)
  {}

  lemma NextFrameIsLater(s: VideoState, frame: u32)
    ensures FrameStateAfter(s, Measured, frame).nextEmittedAt
         == SaturatingDuration(s.nextEmittedAt + VIDEO_FRAME_INTERVAL)
  {}

  lemma Begins(s: VideoState)
    ensures Emission.StateAfter(s, Measured, 0) == s && Emission.Emitted(s, Measured, 0) == []
  {}

  /** The largest lag of the first n packets sent. */
  function LargestLag(lag: nat -> u64, n: nat): u64 {
    if n == 0 then 0
    else if LargestLag(lag, n - 1) < lag(n - 1) then lag(n - 1)
    else LargestLag(lag, n - 1)
  }

  function OneMoreLag(largest: u64, lag: nat -> u64, n: nat): (more: u64)
    ensures largest == LargestLag(lag, n) ==> more == LargestLag(lag, n + 1)
  {
    if largest < lag(n) then lag(n) else largest
  }

  /** The offered counters and the send lag after some audio and some video packets. */
  ghost predicate Booked(audio: seq<AudioPacket>, video: seq<VideoPacket>, lag: nat -> u64, packets: u64, bytes: u64,
                         largest: u64)
  {
    && packets == Sat(|audio| + |video|)
    && bytes == Sat(SumOf(audio, AudioLength) + SumOf(video, VideoLength))
    && largest == LargestLag(lag, |audio| + |video|)
  }

  lemma NothingBooked(lag: nat -> u64)
    ensures Booked([], [], lag, 0, 0, 0)
  {
    hide SumOf;
    SaturatingSum(0, 0);
    SumOfNone<AudioPacket>(AudioLength);
    SumOfNone<VideoPacket>(VideoLength);
  }

  lemma AudioIsBooked(audio: seq<AudioPacket>, video: seq<VideoPacket>, lag: nat -> u64, packets: u64, bytes: u64,
                      largest: u64, packet: AudioPacket)
    requires Booked(audio, video, lag, packets, bytes, largest)
    ensures Booked(audio + [packet], video, lag, SaturatingAdd(packets, 1), SaturatingAdd(bytes, Sat(|packet.payload|)),
                   OneMoreLag(largest, lag, |audio| + |video|))
  {
    hide Sat, SaturatingAdd, SumOf, LargestLag;
    SaturatingSum(|audio| + |video|, 1);
    SaturatingSum(SumOf(audio, AudioLength) + SumOf(video, VideoLength), |packet.payload|);
    SumOfAppend(audio, [packet], AudioLength);
    SumOfOne(packet, AudioLength);
  }

  lemma VideoIsBooked(audio: seq<AudioPacket>, video: seq<VideoPacket>, lag: nat -> u64, packets: u64, bytes: u64,
                      largest: u64, packet: VideoPacket)
    requires Booked(audio, video, lag, packets, bytes, largest)
    ensures Booked(audio, video + [packet], lag, SaturatingAdd(packets, 1), SaturatingAdd(bytes, Sat(|packet.payload|)),
                   OneMoreLag(largest, lag, |audio| + |video|))
  {
    hide Sat, SaturatingAdd, SumOf, LargestLag;
    SaturatingSum(|audio| + |video|, 1);
    SaturatingSum(SumOf(audio, AudioLength) + SumOf(video, VideoLength), |packet.payload|);
    SumOfAppend(video, [packet], VideoLength);
    SumOfOne(packet, VideoLength);
  }

  /** Books every packet of one frame, one `observe_send` each. */
  method ObserveSends(packets: u64, bytes: u64, largest: u64, sent: seq<VideoPacket>, lag: nat -> u64,
                      audio: seq<AudioPacket>, video: seq<VideoPacket>)
    returns (packets': u64, bytes': u64, largest': u64)
    requires Booked(audio, video, lag, packets, bytes, largest)
    ensures Booked(audio, video + sent, lag, packets', bytes', largest')
  {
    hide Booked, Sat, SaturatingAdd;
    packets', bytes', largest' := packets, bytes, largest;
    assert video + sent[..0] == video;
    for i := 0 to |sent|
      invariant Booked(audio, video + sent[..i], lag, packets', bytes', largest')
    {
      VideoIsBooked(audio, video + sent[..i], lag, packets', bytes', largest', sent[i]);
      assert video + sent[..i] + [sent[i]] == video + sent[..i + 1];
      packets' := SaturatingAdd(packets', 1);
      bytes' := SaturatingAdd(bytes', Sat(|sent[i].payload|));
      largest' := OneMoreLag(largest', lag, |audio| + |video| + i);
    }
    assert sent[..|sent|] == sent;
  }
}
