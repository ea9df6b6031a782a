/** The push transport's encoder, controller and pressure counters, updated in place, against PushBitrate. */
module RtcPushTransport {
  import opened Common
  import B = BitrateControl
  import opened PushBitrate
  import C = AdaptiveVideoBitrateController

  class H264Encoder {
    const minBitrateKbps: nat
    const maxBitrateKbps: nat
    var targetBitrateKbps: nat

    ghost function Value(): Encoder
      reads this
    {
      Encoder(minBitrateKbps, maxBitrateKbps, targetBitrateKbps)
    }

    constructor (config: Encoder)
      ensures Value() == config
    {
      minBitrateKbps, maxBitrateKbps, targetBitrateKbps := config.minRate, config.maxRate, config.targetRate;
    }

    method SetBitrate(bitrateKbps: nat, willing: bool) returns (applied: bool)
      modifies this
      ensures (Value(), applied) == PushBitrate.SetBitrate(old(Value()), bitrateKbps, willing)
    {
      if bitrateKbps < minBitrateKbps || bitrateKbps > maxBitrateKbps {
        return false;
      }
      if !willing {
        return false;
      }
      targetBitrateKbps := bitrateKbps;
      return true;
    }
  }

  class RtcPushTransport {
    const controller: C.AdaptiveVideoBitrateController
    var encoder: H264Encoder?
    var queueDropCount: nat
    var sendFailureCount: nat

    ghost function EncoderValue(): Option<Encoder>
      reads this, encoder
    {
      if encoder == null then None else Some(encoder.Value())
    }

    ghost function Value(): Session
      reads this, controller, encoder
    {
      Session(controller.Value(), EncoderValue(), queueDropCount, sendFailureCount)
    }

    constructor ()
      ensures Value() == FreshSession() && fresh(controller)
    {
      controller := new C.AdaptiveVideoBitrateController();
      encoder := null;
      queueDropCount, sendFailureCount := 0, 0;
    }

    method ResetVideoBitrateFeedback()
      modifies this`queueDropCount, this`sendFailureCount
      ensures queueDropCount == 0 && sendFailureCount == 0
    {
      queueDropCount := 0;
      sendFailureCount := 0;
    }

    /** Publishing that is already running stays as it is. */
    method StartPublishVideo(width: int, height: int, fps: int, launch: Launch) returns (ok: bool)
      modifies this, controller
      ensures Value() == StartSession(old(Value()), width, height, fps, launch)
      ensures encoder != old(encoder) ==> fresh(encoder)
      ensures ok == EncoderValue().Some?
    {
      if encoder != null {
        return true;
      }
      if launch.NotOpened? {
        return false;
      }
      var created := InitializeVideoEncoder(width, height, fps);
      if created == null || launch.WithoutTracks? {
        return false;
      }
      ResetVideoBitrateFeedback();
      if launch.WithoutWorker? {
        return false;
      }
      encoder := created;
      return true;
    }

    /** The adaptive range tops out at the initial target; the encoder itself would allow half as much again. */
    method InitializeVideoEncoder(width: int, height: int, fps: int) returns (created: H264Encoder?)
      modifies controller
      ensures var config := EncoderFor(width, height, fps);
        if EncoderAccepts(width, height, fps, config)
        then created != null && fresh(created) && created.Value() == config
             && controller.Value() == B.Initialize(ConfigFor(config))
        else created == null && controller.Value() == old(controller.Value())
    {
      var estimated := width * height * fps / 8000;
      var target := Max(300, Min(6000, estimated));
      var config := Encoder(Max(200, target / 2), target * 3 / 2, target);
      SetupIsUsable(width, height, fps);
      if !EncoderAccepts(width, height, fps, config) {
        return null;
      }
      created := new H264Encoder(config);
      var adaptive := B.DefaultConfig();
      adaptive := adaptive.(minRate := config.minRate, initialRate := config.targetRate);
      adaptive := adaptive.(maxRate := config.targetRate, congestedDepth := QUEUE_LIMIT - 1, stableDepth := 1);
      var ok := controller.Initialize(adaptive);
      if !ok {
        return null;
      }
    }

    method StopPublishVideo()
      modifies this, controller
      ensures Value() == Perform(old(Value()), Stop).0
    {
      encoder := null;
      controller.Reset();
      ResetVideoBitrateFeedback();
    }

    method EvaluateVideoBitrate(sampleDurationMs: nat, queueDepth: nat, willing: bool)
      modifies this, controller, encoder
      ensures encoder == old(encoder)
      ensures Value() == EvaluateSession(old(Value()), sampleDurationMs, queueDepth, willing).0
    {
      var feedback := B.Feedback(sampleDurationMs, queueDepth, queueDropCount, sendFailureCount);
      ResetVideoBitrateFeedback();
      var previous := controller.currentBitrateKbps;
      var wanted := controller.Update(feedback);
      if wanted.None? {
        return;
      }
      var applied := false;
      if encoder != null {
        applied := encoder.SetBitrate(wanted.value, willing);
      }
      if applied {
        return;
      }
      var ok := controller.Initialize(
        B.DefaultConfig().(minRate := previous, initialRate := previous, maxRate := previous));
    }
  }
}
