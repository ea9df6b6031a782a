/**
 The publishing side's use of the bitrate controller: the controller proposes, the encoder may refuse, and after
 a refusal the controller is pinned to the rate the encoder still has.
 */
module PushBitrate {
  import opened Common
  import opened BitrateControl

  const QUEUE_LIMIT := 3

  datatype Encoder = Encoder(minRate: nat, maxRate: nat, targetRate: nat)

  /** `willing` is whether the codec library takes the new rate. */
  function SetBitrate(e: Encoder, rate: nat, willing: bool): (Encoder, bool) {
    if rate < e.minRate || rate > e.maxRate || !willing then (e, false) else (e.(targetRate := rate), true)
  }

  /** What the encoder demands of its configuration. */
  predicate EncoderAccepts(width: int, height: int, fps: int, e: Encoder) {
    && width > 0 && height > 0 && width % 2 == 0 && height % 2 == 0 && fps > 0
    && e.minRate != 0 && e.minRate <= e.targetRate <= e.maxRate && e.maxRate <= 0x7FFF_FFFF / 1000
  }

  function TargetRate(width: int, height: int, fps: int): (rate: nat)
    ensures 300 <= rate <= 6000
  {
    Max(300, Min(6000, width * height * fps / 8000))
  }

  function EncoderFor(width: int, height: int, fps: int): Encoder {
    var target := TargetRate(width, height, fps);
    Encoder(Max(200, target / 2), target * 3 / 2, target)
  }

  function ConfigFor(e: Encoder): Config {
    DefaultConfig().(minRate := e.minRate, initialRate := e.targetRate, maxRate := e.targetRate,
                     congestedDepth := QUEUE_LIMIT - 1, stableDepth := 1)
  }

  /** The configuration that leaves the controller no choice but `rate`. */
  function PinnedConfig(rate: nat): Config {
    DefaultConfig().(minRate := rate, initialRate := rate, maxRate := rate)
  }

  datatype Session = Session(controller: Controller, encoder: Option<Encoder>, drops: nat, failures: nat)

  /** How far a start gets: the connection or codec, the tracks, the worker thread. */
  datatype Launch = NotOpened | WithoutTracks | WithoutWorker | Launched

  datatype Step =
    | Start(width: int, height: int, fps: int, launch: Launch)
    | Stop
    | Dropped
    | SendFailed
    | Evaluate(durationMs: nat, depth: nat, willing: bool)

  function FreshSession(): Session { Session(Idle(), None, 0, 0) }

  function StartSession(s: Session, width: int, height: int, fps: int, launch: Launch): Session {
    var e := EncoderFor(width, height, fps);
    if s.encoder.Some? || launch.NotOpened? || !EncoderAccepts(width, height, fps, e) then s
    else if !ConfigFor(e).Usable() then s.(controller := Idle())
    else
      var prepared := s.(controller := Initialize(ConfigFor(e)));
      match launch
      case WithoutTracks => prepared
      case WithoutWorker => prepared.(drops := 0, failures := 0)
      case _ => prepared.(encoder := Some(e), drops := 0, failures := 0)
  }

  function FeedbackOf(s: Session, durationMs: nat, depth: nat): Feedback {
    Feedback(durationMs, depth, s.drops, s.failures)
  }

  /** The new session, and the rate that was requested of the encoder, if any. */
  function EvaluateSession(s: Session, durationMs: nat, depth: nat, willing: bool): (Session, Option<nat>) {
    var (controller, wanted) := Update(s.controller, FeedbackOf(s, durationMs, depth));
    var drained := s.(controller := controller, drops := 0, failures := 0);
    if wanted.None? then (drained, None)
    else if s.encoder.Some? && SetBitrate(s.encoder.value, wanted.value, willing).1 then
      (drained.(encoder := Some(SetBitrate(s.encoder.value, wanted.value, willing).0)), wanted)
    else (drained.(controller := Initialize(PinnedConfig(s.controller.rate))), wanted)
  }

  function Perform(s: Session, step: Step): (Session, Option<nat>) {
    match step
    case Start(width, height, fps, launch) => (StartSession(s, width, height, fps, launch), None)
    case Stop => (Session(Reset(s.controller), None, 0, 0), None)
    case Dropped => (s.(drops := s.drops + 1), None)
    case SendFailed => (s.(failures := s.failures + 1), None)
    case Evaluate(durationMs, depth, willing) => EvaluateSession(s, durationMs, depth, willing)
  }

  function Run(s: Session, run: seq<Step>): Session {
    if run == [] then s else Perform(Run(s, run[..|run| - 1]), run[|run| - 1]).0
  }

  /** One kilobit per second for every 8000 pixels per second, between 300 and 6000. */
  lemma TargetRateExactly(width: int, height: int, fps: int)
    ensures var rate, pixels := TargetRate(width, height, fps), width * height * fps;
      && (300 < rate < 6000 ==> 8000 * rate <= pixels < 8000 * (rate + 1))
      && (rate == 300 <==> pixels < 8000 * 301) && (rate == 6000 <==> pixels >= 8000 * 6000)
  {
  }

  /** More pixels or more frames never get a lower rate. */
  lemma TargetRateMonotone(width: nat, height: nat, fps: nat, width': nat, height': nat, fps': nat)
    requires width <= width' && height <= height' && fps <= fps'
    ensures TargetRate(width, height, fps) <= TargetRate(width', height', fps')
  {
    ProductMonotone(width, width', height);
    ProductMonotone(height, height', width');
    ProductMonotone(width * height, width' * height', fps);
    ProductMonotone(fps, fps', width' * height');
    QuotientMonotone(width * height * fps, width' * height' * fps', 8000);
  }

  // ---------- controller and encoder agree ----------

  /** The encoder has the controller's rate and can take every rate the controller may choose. */
  predicate Agree(s: Session) {
    && Sound(s.controller)
    && (s.encoder.Some? ==>
          && s.controller.ready
          && s.encoder.value.targetRate == s.controller.rate
          && s.encoder.value.minRate <= s.controller.config.minRate
          && s.controller.config.maxRate <= s.encoder.value.maxRate)
  }

  /** Setting up never fails over bitrates: the derived configurations are always acceptable. */
  lemma SetupIsUsable(width: int, height: int, fps: int)
    ensures var e := EncoderFor(width, height, fps);
      && ConfigFor(e).Usable() && e.maxRate <= 9000
      && e.minRate <= e.targetRate <= e.maxRate
  {
  }

  lemma PinnedIsUsable(rate: nat)
    ensures PinnedConfig(rate).Usable() <==> rate > 0
  {
  }

  lemma PerformAgrees(s: Session, step: Step)
    requires Agree(s)
    ensures Agree(Perform(s, step).0)
    ensures var wanted := Perform(s, step).1;
      wanted.Some? && s.encoder.Some? ==> s.encoder.value.minRate <= wanted.value <= s.encoder.value.maxRate
  {
    match step {
      case Start(width, height, fps, _) =>
        SetupIsUsable(width, height, fps);
      case Evaluate(durationMs, depth, willing) =>
        UpdateSound(s.controller, FeedbackOf(s, durationMs, depth));
        PinnedIsUsable(s.controller.rate);
      case _ =>
    }
  }

  /**
   Over every run of starts, stops, drops, failures and evaluations with any pattern of refusals, the
   controller's rate is the encoder's rate.
   */
  lemma {:induction false} NeverDisagree(run: seq<Step>)
    ensures Agree(Run(FreshSession(), run))
  {
    if run == [] {
    } else {
      NeverDisagree(run[..|run| - 1]);
      PerformAgrees(Run(FreshSession(), run[..|run| - 1]), run[|run| - 1]);
    }
  }

  /** In a reachable session only the codec library can refuse: no request is out of the encoder's range. */
  lemma OnlyTheCodecRefuses(run: seq<Step>, durationMs: nat, depth: nat, willing: bool)
    ensures var s := Run(FreshSession(), run);
      var wanted := EvaluateSession(s, durationMs, depth, willing).1;
      wanted.Some? && s.encoder.Some? ==> SetBitrate(s.encoder.value, wanted.value, willing).1 == willing
  {
    NeverDisagree(run);
    PerformAgrees(Run(FreshSession(), run), Evaluate(durationMs, depth, willing));
  }

  /** A start succeeds exactly for a proper format when every stage does, and then runs at the format's rate. */
  lemma StartInstallsExactly(s: Session, width: int, height: int, fps: int, launch: Launch)
    requires s.encoder.None?
    ensures var n := StartSession(s, width, height, fps, launch);
      && (n.encoder.Some? <==>
            launch.Launched? && width > 0 && height > 0 && width % 2 == 0 && height % 2 == 0 && fps > 0)
      && (n.encoder.Some? ==>
            && n.encoder.value.targetRate == n.controller.rate == TargetRate(width, height, fps)
            && n.controller.ready && n.drops == n.failures == 0)
  {
    SetupIsUsable(width, height, fps);
  }

  /** A willing encoder follows the controller, and the counted drops and failures are used up. */
  lemma EncoderFollows(run: seq<Step>, durationMs: nat, depth: nat)
    requires Run(FreshSession(), run).encoder.Some?
    ensures var s := Run(FreshSession(), run);
      var n := EvaluateSession(s, durationMs, depth, true).0;
      && n.encoder.Some? && n.encoder.value.targetRate == Update(s.controller, FeedbackOf(s, durationMs, depth)).0.rate
      && n.drops == n.failures == 0
  {
    OnlyTheCodecRefuses(run, durationMs, depth, true);
    NeverDisagree(run);
    UpdateSound(Run(FreshSession(), run).controller, FeedbackOf(Run(FreshSession(), run), durationMs, depth));
  }

  /** A packet dropped or not sent since the last evaluation alone lowers the encoder's rate, down to its minimum. */
  lemma TroubleLowersEncoder(run: seq<Step>, durationMs: nat, depth: nat)
    requires var s := Run(FreshSession(), run);
      s.encoder.Some? && s.controller.rate > s.controller.config.minRate && (s.drops > 0 || s.failures > 0)
    requires durationMs > 0
    ensures var s := Run(FreshSession(), run);
      var n := EvaluateSession(s, durationMs, depth, true).0;
      n.encoder.Some?
      && n.encoder.value.targetRate == Reduced(s.controller.config, s.controller.rate) < s.controller.rate
  {
    var s := Run(FreshSession(), run);
    NeverDisagree(run);
    EncoderFollows(run, durationMs, depth);
    LowersExactly(s.controller, FeedbackOf(s, durationMs, depth));
  }

  /** The next evaluation counts every drop and every failed send. */
  lemma DropLowersEncoder(run: seq<Step>, trouble: Step, durationMs: nat, depth: nat)
    requires var s := Run(FreshSession(), run); s.encoder.Some? && s.controller.rate > s.controller.config.minRate
    requires (trouble.Dropped? || trouble.SendFailed?) && durationMs > 0
    ensures var s := Run(FreshSession(), run);
      Target(EvaluateSession(Perform(s, trouble).0, durationMs, depth, true).0) < Target(s)
  {
    assert (run + [trouble])[..|run|] == run;
    NeverDisagree(run);
    TroubleLowersEncoder(run + [trouble], durationMs, depth);
  }

  /** Stopping removes the encoder and what was counted, and the controller is back at its initial rate. */
  lemma StopEffect(run: seq<Step>)
    ensures var s := Run(FreshSession(), run);
      var n := Perform(s, Stop).0;
      && n.encoder.None? && n.drops == n.failures == 0
      && (s.controller.ready ==> n.controller == s.controller.(rate := s.controller.config.initialRate,
                                                               stableMs := 0, holdMs := 0))
  {
  }

  // ---------- a refusal ends adaptation ----------

  predicate Pinned(s: Session) { s.controller.ready && s.controller.config.minRate == s.controller.config.maxRate }

  predicate WithoutStart(run: seq<Step>) { forall i :: 0 <= i < |run| ==> !run[i].Start? }

  lemma RefusalPins(s: Session, durationMs: nat, depth: nat, willing: bool)
    requires Agree(s)
    requires var (n, wanted) := EvaluateSession(s, durationMs, depth, willing);
      wanted.Some? && !(s.encoder.Some? && SetBitrate(s.encoder.value, wanted.value, willing).1)
    ensures var n := EvaluateSession(s, durationMs, depth, willing).0;
      Pinned(n) && Agree(n) && n.encoder == s.encoder && n.controller.rate == s.controller.rate
  {
    PerformAgrees(s, Evaluate(durationMs, depth, willing));
    UpdateSound(s.controller, FeedbackOf(s, durationMs, depth));
    PinnedIsUsable(s.controller.rate);
  }

  /** Once pinned, no step but a new start asks for another rate, so neither side changes. */
  lemma {:induction false} PinnedUntilStart(s: Session, run: seq<Step>, next: Step)
    requires Agree(s) && Pinned(s) && WithoutStart(run) && !next.Start?
    ensures var n := Run(s, run);
      && Agree(n) && Pinned(n) && n.controller.rate == s.controller.rate
      && Perform(n, next).1 == None
      && (n.encoder.Some? ==> n.encoder == s.encoder)
  {
    if run == [] {
    } else {
      var k := |run| - 1;
      assert WithoutStart(run[..k]) && !run[k].Start?;
      PinnedUntilStart(s, run[..k], run[k]);
      PerformAgrees(Run(s, run[..k]), run[k]);
    }
    var n := Run(s, run);
    if next.Evaluate? {
      PinnedStays(n.controller, FeedbackOf(n, next.durationMs, next.depth));
    }
  }

  // ---------- the encoder's rate recovers slowly ----------

  function Duration(run: seq<Step>): nat {
    if run == [] then 0
    else Duration(run[..|run| - 1]) + (if run[|run| - 1].Evaluate? then run[|run| - 1].durationMs else 0)
  }

  predicate WithinSession(run: seq<Step>) { forall i :: 0 <= i < |run| ==> !run[i].Start? && !run[i].Stop? }

  predicate DefaultPace(c: Config) { c.holdMs == 3000 && c.stableMs == 8000 }

  predicate SlowSince(s: Session, elapsed: nat) {
    && Agree(s) && s.controller.ready && DefaultPace(s.controller.config)
    && (Pinned(s) || HeldSince(s.controller, elapsed))
  }

  function Target(s: Session): nat { if s.encoder.Some? then s.encoder.value.targetRate else 0 }

  lemma SlowStep(s: Session, step: Step, elapsed: nat)
    requires SlowSince(s, elapsed) && !step.Start? && !step.Stop?
    ensures var spent := if step.Evaluate? then step.durationMs else 0;
      && SlowSince(Perform(s, step).0, elapsed + spent)
      && (Target(Perform(s, step).0) > Target(s) ==> elapsed + spent >= 11_000)
  {
    PerformAgrees(s, step);
    if step.Evaluate? {
      var f := FeedbackOf(s, step.durationMs, step.depth);
      UpdateSound(s.controller, f);
      HeldSinceIf(s, f, elapsed);
      PinnedIsUsable(s.controller.rate);
    }
  }

  lemma HeldSinceIf(s: Session, f: Feedback, elapsed: nat)
    requires SlowSince(s, elapsed)
    ensures var (n, wanted) := Update(s.controller, f);
      if Pinned(s) then wanted == None && n.config == s.controller.config
      else HeldSince(n, elapsed + f.durationMs) && (n.rate > s.controller.rate ==> elapsed + f.durationMs >= 11_000)
  {
    if Pinned(s) {
      PinnedStays(s.controller, f);
    } else {
      HeldSinceKept(s.controller, f, elapsed);
    }
  }

  lemma {:induction false} SlowRun(s: Session, run: seq<Step>)
    requires SlowSince(s, 0) && WithinSession(run)
    ensures SlowSince(Run(s, run), Duration(run))
  {
    if run == [] {
    } else {
      var k := |run| - 1;
      assert WithinSession(run[..k]) && !run[k].Start? && !run[k].Stop?;
      SlowRun(s, run[..k]);
      SlowStep(Run(s, run[..k]), run[k], Duration(run[..k]));
    }
  }

  /**
   In every reachable session, after an evaluation under pressure the encoder's rate is raised only when the
   evaluated periods add up to eleven seconds, whatever was refused in between.
   */
  lemma EncoderRecoversSlowly(before: seq<Step>, pressure: Step, between: seq<Step>, last: Step)
    requires pressure.Evaluate? && pressure.durationMs > 0 && WithinSession(between) && last.Evaluate?
    requires var s := Run(FreshSession(), before);
      && s.encoder.Some?
      && Congested(s.controller.config, FeedbackOf(s, pressure.durationMs, pressure.depth))
      && var n := Run(Perform(s, pressure).0, between);
      Target(Perform(n, last).0) > Target(n)
    ensures Duration(between) + last.durationMs >= 11_000
  {
    var s := Run(FreshSession(), before);
    NeverDisagree(before);
    PacedRun(before);
    var low := Perform(s, pressure).0;
    PerformAgrees(s, pressure);
    CongestionLowers(s.controller, FeedbackOf(s, pressure.durationMs, pressure.depth));
    PinnedIsUsable(s.controller.rate);
    assert SlowSince(low, 0);
    SlowRun(low, between);
    SlowStep(Run(low, between), last, Duration(between));
  }

  /** Every configuration a session ever has keeps the default pace. */
  lemma {:induction false} PacedRun(run: seq<Step>)
    ensures DefaultPace(Run(FreshSession(), run).controller.config)
  {
    if run == [] {
    } else {
      PacedRun(run[..|run| - 1]);
      NeverDisagree(run[..|run| - 1]);
      var s := Run(FreshSession(), run[..|run| - 1]);
      if run[|run| - 1].Evaluate? {
        UpdateSound(s.controller, FeedbackOf(s, run[|run| - 1].durationMs, run[|run| - 1].depth));
      }
    }
  }
}
