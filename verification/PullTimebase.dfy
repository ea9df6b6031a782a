/**
 The common timeline of received audio and video: each medium starts on its own arrival time, and once sender
 reports are known for both, their NTP times are used, shifted so that audio continues where it was.
 */
module PullTimebase {
  import opened Common
  import opened RtpNtpMapping

  const VIDEO_CLOCK := 90_000
  const AUDIO_CLOCK := 48_000
  const MAX_DEVIATION_US := 500_000

  datatype Kind = Video | Audio

  datatype Medium = Medium(mapper: Mapper, started: bool, baseRtp: U32, baseTimeUs: int)

  datatype Timebase = Timebase(video: Medium, audio: Medium, active: bool, offsetUs: int) {
    function Of(kind: Kind): Medium { if kind.Video? then video else audio }
  }

  /** What one call sees: the packet, the latest sender report of each medium (ntp 0: none yet) and the clock. */
  datatype Observation = Observation(kind: Kind, rtp: U32, videoReport: Report, audioReport: Report, nowUs: int)

  function FreshMedium(clockRate: nat): Medium {
    Medium(Mapper(clockRate, MAX_DEVIATION_US, false, 0, 0, 0), false, 0, 0)
  }

  function FreshTimebase(): Timebase { Timebase(FreshMedium(VIDEO_CLOCK), FreshMedium(AUDIO_CLOCK), false, 0) }

  function Fallback(m: Medium, rtp: U32): int {
    m.baseTimeUs + DeltaToUs(RtpDelta(rtp, m.baseRtp), m.mapper.clockRate)
  }

  function Start(m: Medium, rtp: U32, nowUs: int): Medium {
    if m.started then m else m.(started := true, baseRtp := rtp, baseTimeUs := nowUs)
  }

  /** Takes the report, over a cleared mapper if it does not continue the timeline; tells whether it did not. */
  function Observe(m: Medium, report: Report): (Medium, bool) {
    if report.ntp == 0 then (m, false)
    else
      var (mapper, result) := Update(m.mapper, report.rtp, report.ntp);
      if result == Discontinuity then
        (m.(mapper := Update(Cleared(mapper), report.rtp, report.ntp).0), true)
      else (m.(mapper := mapper), false)
  }

  function Low32(rtp: nat): U32 { rtp % TWO_32 }

  predicate CanActivate(b: Timebase, audioReport: Report) {
    && !b.active && b.video.mapper.ready && b.audio.mapper.ready
    && b.video.started && b.audio.started && audioReport.ntp != 0
  }

  function Activate(b: Timebase, audioReport: Report): Timebase {
    var at := Low32(audioReport.rtp);
    b.(active := true, offsetUs := Fallback(b.audio, at) - TimeOf(b.audio.mapper, at))
  }

  /** Where the timeline places a timestamp of a medium. */
  function Place(b: Timebase, kind: Kind, rtp: U32): int {
    var m := b.Of(kind);
    if b.active && m.mapper.ready then TimeOf(m.mapper, rtp) + b.offsetUs else Fallback(m, rtp)
  }

  function Started(b: Timebase, o: Observation): Timebase {
    if o.kind.Video? then b.(video := Start(b.video, o.rtp, o.nowUs))
    else b.(audio := Start(b.audio, o.rtp, o.nowUs))
  }

  function Observed(b: Timebase, o: Observation): (Timebase, bool) {
    var (video, videoJump) := Observe(b.video, o.videoReport);
    var (audio, audioJump) := Observe(b.audio, o.audioReport);
    (b.(video := video, audio := audio, active := b.active && !videoJump && !audioJump), videoJump || audioJump)
  }

  /** The timeline after an observation, and whether it was rebuilt. */
  function Step(b: Timebase, o: Observation): (Timebase, bool) {
    var (seen, jumped) := Observed(Started(b, o), o);
    if CanActivate(seen, o.audioReport) then (Activate(seen, o.audioReport), true) else (seen, jumped)
  }

  function Run(b: Timebase, run: seq<Observation>): Timebase {
    if run == [] then b else Step(Run(b, run[..|run| - 1]), run[|run| - 1]).0
  }

  // ---------- what every call keeps ----------

  /** Both media are on sender time, or neither is. */
  ghost predicate Aligned(b: Timebase) {
    && Tuned(b.video, VIDEO_CLOCK) && Tuned(b.audio, AUDIO_CLOCK)
    && (b.active ==> b.video.mapper.ready && b.audio.mapper.ready && b.video.started && b.audio.started)
  }

  ghost predicate Tuned(m: Medium, clockRate: nat) {
    && m.mapper.clockRate == clockRate && m.mapper.maxDeviationUs == MAX_DEVIATION_US
    && m.mapper.srNtpUs == NtpToUs(m.mapper.srNtp)
  }

  lemma ObserveKeeps(m: Medium, report: Report, clockRate: nat)
    requires Tuned(m, clockRate) && clockRate > 0
    ensures var (n, jumped) := Observe(m, report);
      && Tuned(n, clockRate)
      && (m.mapper.ready ==> n.mapper.ready)
      && n.started == m.started && n.baseRtp == m.baseRtp && n.baseTimeUs == m.baseTimeUs
      && (jumped ==> m.mapper.ready && n.mapper.srRtp == report.rtp)
  {
  }

  lemma StepKeeps(b: Timebase, o: Observation)
    requires Aligned(b)
    ensures Aligned(Step(b, o).0)
  {
    var s := Started(b, o);
    ObserveKeeps(s.video, o.videoReport, VIDEO_CLOCK);
    ObserveKeeps(s.audio, o.audioReport, AUDIO_CLOCK);
  }

  lemma {:induction false} RunKeeps(run: seq<Observation>)
    ensures Aligned(Run(FreshTimebase(), run))
  {
    if run == [] {
    } else {
      RunKeeps(run[..|run| - 1]);
      StepKeeps(Run(FreshTimebase(), run[..|run| - 1]), run[|run| - 1]);
    }
  }

  /** In every reachable state the timeline places audio and video the same way: no call can mix the two. */
  lemma NeverMixed(run: seq<Observation>, video: U32, audio: U32)
    ensures var b := Run(FreshTimebase(), run);
      Place(b, Video, video) - Place(b, Audio, audio)
      == if b.active then TimeOf(b.video.mapper, video) - TimeOf(b.audio.mapper, audio)
         else Fallback(b.video, video) - Fallback(b.audio, audio)
  {
    RunKeeps(run);
  }

  // ---------- when the sender's time is used ----------

  predicate Usable(report: Report) { report.ntp != 0 && report.rtp < TWO_32 }

  /** A medium has a mapping from its first usable report on. */
  lemma ReadyExactly(m: Medium, report: Report, clockRate: nat)
    requires Tuned(m, clockRate) && clockRate > 0
    ensures Observe(m, report).0.mapper.ready <==> m.mapper.ready || Usable(report)
  {
  }

  ghost predicate Prepared(b: Timebase, o: Observation) {
    && (b.video.mapper.ready || Usable(o.videoReport)) && (b.audio.mapper.ready || Usable(o.audioReport))
    && (b.video.started || o.kind.Video?) && (b.audio.started || o.kind.Audio?)
  }

  /**
   After a call the sender's time is in use if and only if both media have started and have had a usable report, and
   either an audio report is at hand or it was in use before and no report breaks it.
   */
  lemma ActiveExactly(b: Timebase, o: Observation)
    requires Aligned(b)
    ensures Step(b, o).0.active <==>
              Prepared(b, o) && (o.audioReport.ntp != 0 || (b.active && !Observed(Started(b, o), o).1))
  {
    var s := Started(b, o);
    ObserveKeeps(s.video, o.videoReport, VIDEO_CLOCK);
    ObserveKeeps(s.audio, o.audioReport, AUDIO_CLOCK);
    ReadyExactly(s.video, o.videoReport, VIDEO_CLOCK);
    ReadyExactly(s.audio, o.audioReport, AUDIO_CLOCK);
  }

  // ---------- continuity ----------

  /** The first packet of a medium is placed at its arrival time unless the sender timeline is already in use. */
  lemma FirstPacketAtArrival(b: Timebase, o: Observation)
    requires Aligned(b) && !b.Of(o.kind).started && !Step(b, o).0.active
    ensures Place(Step(b, o).0, o.kind, o.rtp) == o.nowUs
  {
  }

  /** Every timestamp in reach of the points `from`, `to` and `by` has distances that add up. */
  predicate Reachable(t: U32, audioReport: U32, base: U32, anchor: U32) {
    && InReach(t, base, audioReport)
    && InReach(t, anchor, audioReport)
  }

  /**
   Switching audio from its arrival timeline to the sender's moves no audio timestamp in reach by more than a
   microsecond, or by more than two if the report that triggers the switch is not the mapper's anchor.
   */
  lemma ActivationContinuous(b: Timebase, o: Observation, t: U32)
    requires Aligned(b) && Step(b, o).0.active && (!b.active || Observed(Started(b, o), o).1)
    requires var seen := Observed(Started(b, o), o).0;
      Reachable(t, Low32(o.audioReport.rtp), seen.audio.baseRtp, seen.audio.mapper.srRtp)
    ensures var (after, rebuilt) := Step(b, o);
      && rebuilt
      && Abs(Place(after, Audio, t) - Fallback(after.audio, t))
         <= (if after.audio.mapper.srRtp == Low32(o.audioReport.rtp) then 1 else 2)
  {
    var seen := Observed(Started(b, o), o).0;
    ObserveKeeps(Started(b, o).video, o.videoReport, VIDEO_CLOCK);
    ObserveKeeps(Started(b, o).audio, o.audioReport, AUDIO_CLOCK);
    ShiftAgrees(seen.audio, Low32(o.audioReport.rtp), t);
  }

  /** A report with a 32-bit RTP timestamp is the anchor after it was observed. */
  lemma ReportBecomesAnchor(m: Medium, report: Report, clockRate: nat)
    requires Tuned(m, clockRate) && clockRate > 0 && report.ntp != 0 && report.rtp < TWO_32
    ensures Observe(m, report).0.mapper.ready && Observe(m, report).0.mapper.srRtp == report.rtp
  {
  }

  /** With a well-formed audio report the switch is within one microsecond. */
  lemma ActivationWithinMicrosecond(b: Timebase, o: Observation, t: U32)
    requires Aligned(b) && Step(b, o).0.active && (!b.active || Observed(Started(b, o), o).1)
    requires o.audioReport.rtp < TWO_32 && InReach(t, Started(b, o).audio.baseRtp, o.audioReport.rtp)
    ensures Abs(Place(Step(b, o).0, Audio, t) - Fallback(Step(b, o).0.audio, t)) <= 1
  {
    var s := Started(b, o);
    assert Tuned(s.audio, AUDIO_CLOCK);
    ReportBecomesAnchor(s.audio, o.audioReport, AUDIO_CLOCK);
    ObserveKeeps(s.audio, o.audioReport, AUDIO_CLOCK);
    assert Observed(s, o).0.audio == Observe(s.audio, o.audioReport).0;
    SelfReach(t, o.audioReport.rtp);
    ActivationContinuous(b, o, t);
  }

  lemma SelfReach(t: U32, at: U32)
    ensures InReach(t, at, at) && Low32(at) == at
  {
  }

  lemma ShiftAgrees(m: Medium, at: U32, t: U32)
    requires m.mapper.clockRate == AUDIO_CLOCK && Reachable(t, at, m.baseRtp, m.mapper.srRtp)
    ensures Abs((TimeOf(m.mapper, t) - TimeOf(m.mapper, at)) - (Fallback(m, t) - Fallback(m, at)))
         <= (if m.mapper.srRtp == at then 1 else 2)
  {
    DistanceVia(t, at, m.baseRtp, AUDIO_CLOCK);
    DistanceVia(t, at, m.mapper.srRtp, AUDIO_CLOCK);
  }

  function ReportOf(o: Observation, kind: Kind): Report { if kind.Video? then o.videoReport else o.audioReport }

  /**
   A call that does not rebuild the timeline moves no timestamp in reach, of either medium, by more than the
   allowed deviation plus a microsecond, and by nothing before sender reports are in use.
   */
  lemma StepStable(b: Timebase, o: Observation, kind: Kind, t: U32)
    requires Aligned(b) && b.Of(kind).started && !Step(b, o).1
    requires var report := ReportOf(o, kind);
      report.rtp < TWO_32 ==> InReach(t, b.Of(kind).mapper.srRtp, report.rtp)
    ensures Step(b, o).0.active == b.active && Step(b, o).0.Of(kind).started
    ensures Abs(Place(Step(b, o).0, kind, t) - Place(b, kind, t)) <= (if b.active then MAX_DEVIATION_US + 1 else 0)
  {
    var s := Started(b, o);
    ObserveKeeps(s.video, o.videoReport, VIDEO_CLOCK);
    ObserveKeeps(s.audio, o.audioReport, AUDIO_CLOCK);
    ObserveMoves(s.Of(kind), ReportOf(o, kind), t);
  }

  lemma ObserveMoves(m: Medium, report: Report, t: U32)
    requires (m.mapper.ready ==> Sound(m.mapper)) && m.mapper.maxDeviationUs == MAX_DEVIATION_US
    requires !Observe(m, report).1 && (report.rtp < TWO_32 ==> InReach(t, m.mapper.srRtp, report.rtp))
    ensures m.mapper.ready ==>
      Abs(TimeOf(Observe(m, report).0.mapper, t) - TimeOf(m.mapper, t)) <= MAX_DEVIATION_US + 1
  {
    if m.mapper.ready && report.ntp != 0 && Update(m.mapper, report.rtp, report.ntp).1 == Accepted {
      UpdateStable(m.mapper, report.rtp, report.ntp, t);
    }
  }
}
