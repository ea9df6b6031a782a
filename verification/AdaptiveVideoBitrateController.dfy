/** The controller's fields as its methods update them, against BitrateControl. */
module AdaptiveVideoBitrateController {
  import opened Common
  import B = BitrateControl

  class AdaptiveVideoBitrateController {
    var config: B.Config
    var currentBitrateKbps: nat
    var stableDurationMs: nat
    var holdRemainingMs: nat
    var initialized: bool

    ghost function Value(): B.Controller
      reads this
    {
      B.Controller(config, currentBitrateKbps, stableDurationMs, holdRemainingMs, initialized)
    }

    constructor ()
      ensures Value() == B.Idle()
    {
      config := B.DefaultConfig();
      currentBitrateKbps, stableDurationMs, holdRemainingMs := 0, 0, 0;
      initialized := false;
    }

    method Initialize(wanted: B.Config) returns (ok: bool)
      modifies this
      ensures Value() == B.Initialize(wanted) && ok == wanted.Usable()
    {
      stableDurationMs, holdRemainingMs := 0, 0;
      var bitrateValid :=
        wanted.minRate > 0 && wanted.initialRate >= wanted.minRate && wanted.initialRate <= wanted.maxRate;
      var adjustmentValid :=
        wanted.decreasePercent > 0 && wanted.decreasePercent < 100 && wanted.increaseStep > 0 && wanted.stableMs > 0;
      if !bitrateValid || !adjustmentValid || wanted.congestedDepth <= wanted.stableDepth {
        config, currentBitrateKbps, initialized := B.DefaultConfig(), 0, false;
        return false;
      }
      config, currentBitrateKbps, initialized := wanted, wanted.initialRate, true;
      return true;
    }

    method Reset()
      modifies this
      ensures Value() == B.Reset(old(Value()))
    {
      stableDurationMs, holdRemainingMs := 0, 0;
      if initialized {
        currentBitrateKbps := config.initialRate;
      }
    }

    method Update(f: B.Feedback) returns (rate: Option<nat>)
      modifies this
      ensures (Value(), rate) == B.Update(old(Value()), f)
    {
      if !initialized || f.durationMs == 0 {
        return None;
      }
      if B.Congested(config, f) {
        stableDurationMs := 0;
        holdRemainingMs := config.holdMs;
        var reduced := CalculateReducedBitrate();
        if reduced >= currentBitrateKbps {
          return None;
        }
        currentBitrateKbps := reduced;
        return Some(reduced);
      }
      if holdRemainingMs > 0 {
        if f.durationMs >= holdRemainingMs {
          holdRemainingMs := 0;
        } else {
          holdRemainingMs := holdRemainingMs - f.durationMs;
        }
        stableDurationMs := 0;
        return None;
      }
      if !B.Stable(config, f) {
        stableDurationMs := 0;
        return None;
      }
      stableDurationMs := stableDurationMs + f.durationMs;
      if stableDurationMs < config.stableMs {
        return None;
      }
      stableDurationMs := 0;
      if currentBitrateKbps >= config.maxRate {
        return None;
      }
      currentBitrateKbps := Min(currentBitrateKbps + config.increaseStep, config.maxRate);
      return Some(currentBitrateKbps);
    }

    /** At least one kbps below the current rate, down to the minimum. */
    method CalculateReducedBitrate() returns (reduced: nat)
      ensures reduced == B.Reduced(config, currentBitrateKbps)
    {
      if currentBitrateKbps <= config.minRate {
        return config.minRate;
      }
      var reduction := Max(currentBitrateKbps * config.decreasePercent / 100, 1);
      if reduction >= currentBitrateKbps - config.minRate {
        return config.minRate;
      }
      return currentBitrateKbps - reduction;
    }
  }
}
