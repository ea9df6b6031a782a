/** The jitter controller's fields as its notifications update them, against JitterTarget. */
module AdaptiveJitterController {
  import opened Common
  import opened JitterTarget

  /** One turn of the loop: a window that brings no change uses up all the stable time. */
  lemma SettleUnfolds(s: Controller)
    requires InRange(s) && s.stable >= 0
    ensures s.stable < s.config.window ==> Settle(s) == s
    ensures s.stable >= s.config.window ==>
      var n := OneWindow(s);
      InRange(n) && n.stable == s.stable - s.config.window
      && Settle(s) == (if n.target == s.target then Settle(n.(stable := 0)) else Settle(n))
  {
    if s.stable >= s.config.window {
      DecreaseInRange(s.(stable := s.stable - s.config.window));
    }
  }

  class AdaptiveJitterController {
    const config: Config
    var arrivalBaselineInitialized: bool
    var lastMediaTimestampUs: I64
    var lastArrivalTimestampUs: I64
    var stablePlaybackDurationUs: I64
    var latestJitterSampleUs: I64
    var estimatedJitterUs: I64
    var maximumJitterSampleUs: I64
    var targetBufferUs: I64
    var counts: Counts

    ghost function Value(): Controller
      reads this
    {
      Controller(config,
                 if arrivalBaselineInitialized then Baseline(lastMediaTimestampUs, lastArrivalTimestampUs)
                 else NoBaseline,
                 stablePlaybackDurationUs,
                 Jitter(latestJitterSampleUs, estimatedJitterUs, maximumJitterSampleUs),
                 targetBufferUs, counts)
    }

    /** An unusable configuration is replaced by the default one. */
    constructor (wanted: Config)
      ensures Value() == Create(wanted) && Sound(Value())
    {
      var usable := wanted.minTarget > 0
        && wanted.initialTarget >= wanted.minTarget && wanted.maxTarget >= wanted.initialTarget;
      if usable {
        var range: I64 := wanted.maxTarget - wanted.minTarget;
        usable := wanted.safetyMargin >= 0 && wanted.safetyMargin <= range
          && wanted.multiplier != 0 && wanted.multiplier < 0x1_0000_0000
          && wanted.hysteresis >= 0 && wanted.hysteresis <= range
          && wanted.underrunIncrease > 0 && wanted.lateIncrease > 0 && wanted.window > 0 && wanted.step > 0;
      }
      var chosen := if usable then wanted else DefaultConfig();
      config := chosen;
      arrivalBaselineInitialized, lastMediaTimestampUs, lastArrivalTimestampUs := false, 0, 0;
      stablePlaybackDurationUs := 0;
      latestJitterSampleUs, estimatedJitterUs, maximumJitterSampleUs := 0, 0, 0;
      targetBufferUs := chosen.initialTarget;
      counts := Counts(0, 0, 0, 0, 0, 0, 0);
    }

    method ObserveArrival(mediaUs: I64, arrivalUs: I64)
      requires Sound(Value())
      modifies this
      ensures Value() == JitterTarget.ObserveArrival(old(Value()), mediaUs, arrivalUs) && Sound(Value())
    {
      PerformKeeps(Value(), Arrival(mediaUs, arrivalUs));
      if mediaUs <= 0 || arrivalUs <= 0 {
        counts := counts.(ignored := counts.ignored + 1);
        return;
      }
      if !arrivalBaselineInitialized {
        lastMediaTimestampUs, lastArrivalTimestampUs := mediaUs, arrivalUs;
        arrivalBaselineInitialized := true;
        return;
      }
      if mediaUs <= lastMediaTimestampUs || arrivalUs < lastArrivalTimestampUs {
        counts := counts.(ignored := counts.ignored + 1);
        return;
      }
      RecordSample(mediaUs, arrivalUs);
      var desired := CalculateDesiredTarget();
      IncreaseTarget(desired);
    }

    method RecordSample(mediaUs: I64, arrivalUs: I64)
      requires Sound(Value()) && Sampled(Value(), mediaUs, arrivalUs)
      modifies this
      ensures Value() == Record(old(Value()), mediaUs, arrivalUs)
    {
      var mediaInterval: I64 := mediaUs - lastMediaTimestampUs;
      var arrivalInterval: I64 := arrivalUs - lastArrivalTimestampUs;
      lastMediaTimestampUs, lastArrivalTimestampUs := mediaUs, arrivalUs;
      var sample: I64 :=
        if arrivalInterval >= mediaInterval then arrivalInterval - mediaInterval else mediaInterval - arrivalInterval;
      counts := counts.(samples := counts.samples + 1);
      latestJitterSampleUs := sample;
      maximumJitterSampleUs := Max(maximumJitterSampleUs, sample);
      estimatedJitterUs := Smoothed(estimatedJitterUs, sample);
    }

    method NotifyUnderrun(missingUs: I64)
      requires Sound(Value())
      modifies this
      ensures Value() == JitterTarget.NotifyUnderrun(old(Value()), missingUs) && Sound(Value())
    {
      PerformKeeps(Value(), Underrun(missingUs));
      if missingUs <= 0 {
        return;
      }
      counts := counts.(underruns := counts.underruns + 1);
      stablePlaybackDurationUs := 0;
      IncreaseTarget(SaturatingAdd(targetBufferUs, Max(config.underrunIncrease, missingUs)));
    }

    method NotifyLateFrame()
      requires Sound(Value())
      modifies this
      ensures Value() == JitterTarget.NotifyLateFrame(old(Value())) && Sound(Value())
    {
      PerformKeeps(Value(), LateFrame);
      counts := counts.(late := counts.late + 1);
      stablePlaybackDurationUs := 0;
      IncreaseTarget(SaturatingAdd(targetBufferUs, config.lateIncrease));
    }

    method NotifyStablePlayback(playedUs: I64)
      requires Sound(Value())
      modifies this
      ensures Value() == JitterTarget.NotifyStablePlayback(old(Value()), playedUs) && Sound(Value())
    {
      PerformKeeps(Value(), Stable(playedUs));
      if playedUs <= 0 {
        return;
      }
      stablePlaybackDurationUs := SaturatingAdd(stablePlaybackDurationUs, playedUs);
      while stablePlaybackDurationUs >= config.window
        invariant InRange(Value()) && stablePlaybackDurationUs >= 0
        invariant Settle(Value()) == JitterTarget.NotifyStablePlayback(old(Value()), playedUs)
        decreases stablePlaybackDurationUs
      {
        SettleUnfolds(Value());
        var previous := targetBufferUs;
        UseOneWindow();
        if targetBufferUs == previous {
          stablePlaybackDurationUs := 0;
        }
      }
      SettleUnfolds(Value());
    }

    method UseOneWindow()
      requires InRange(Value()) && stablePlaybackDurationUs >= config.window
      modifies this`stablePlaybackDurationUs, this`targetBufferUs, this`counts
      ensures Value() == OneWindow(old(Value()))
      ensures stablePlaybackDurationUs == old(stablePlaybackDurationUs) - config.window
    {
      stablePlaybackDurationUs := stablePlaybackDurationUs - config.window;
      DecreaseInRange(Value());
      DecreaseTarget();
    }

    method Reset()
      modifies this
      ensures Value() == JitterTarget.Reset(old(Value()))
    {
      arrivalBaselineInitialized, lastMediaTimestampUs, lastArrivalTimestampUs := false, 0, 0;
      stablePlaybackDurationUs := 0;
      latestJitterSampleUs, estimatedJitterUs := 0, 0;
      targetBufferUs := config.initialTarget;
      counts := counts.(resets := counts.resets + 1);
    }

    method CalculateDesiredTarget() returns (desired: I64)
      requires InRange(Value())
      ensures desired == Desired(Value())
    {
      desired := SaturatingAdd(config.minTarget, config.safetyMargin);
      var estimate: I64 := Max(estimatedJitterUs, 0);
      var margin: I64 := I64_MAX;
      MarginFits(estimate, config.multiplier);
      if estimate <= I64_MAX / config.multiplier {
        margin := estimate * config.multiplier;
      }
      desired := ClampTarget(config, SaturatingAdd(desired, margin));
    }

    method IncreaseTarget(requestedUs: I64)
      requires InRange(Value())
      modifies this`targetBufferUs, this`stablePlaybackDurationUs, this`counts
      ensures Value() == Increase(old(Value()), requestedUs)
    {
      var newTarget := ClampTarget(config, requestedUs);
      if newTarget <= targetBufferUs {
        return;
      }
      var increase: I64 := newTarget - targetBufferUs;
      if increase < config.hysteresis {
        return;
      }
      targetBufferUs := newTarget;
      counts := counts.(raises := counts.raises + 1);
      stablePlaybackDurationUs := 0;
    }

    method DecreaseTarget()
      requires InRange(Value())
      modifies this`targetBufferUs, this`counts
      ensures Value() == Decrease(old(Value()))
    {
      var desired := CalculateDesiredTarget();
      if targetBufferUs <= desired {
        return;
      }
      var stepped: I64 := Max(desired, targetBufferUs - config.step);
      var decrease: I64 := targetBufferUs - stepped;
      if decrease < config.hysteresis {
        return;
      }
      targetBufferUs := ClampTarget(config, stepped);
      counts := counts.(cuts := counts.cuts + 1);
    }
  }
}
