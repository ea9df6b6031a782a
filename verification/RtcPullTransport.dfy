/** The pull transport's timebase fields and the two mappers it owns, updated in place, against PullTimebase. */
module RtcPullTransport {
  import opened Common
  import opened RtpNtpMapping
  import opened PullTimebase
  import M = RtpNtpTimeMapper

  class RtcPullTransport {
    const videoTimeMapper: M.RtpNtpTimeMapper
    const audioTimeMapper: M.RtpNtpTimeMapper
    var videoTimebaseInitialized: bool
    var videoBaseRtp: U32
    var videoBaseTimeUs: int
    var audioTimebaseInitialized: bool
    var audioBaseRtp: U32
    var audioBaseTimeUs: int
    var rtcpTimebaseActive: bool
    var ntpToLocalOffsetUs: int

    ghost predicate Valid()
      reads this
    {
      && videoTimeMapper != audioTimeMapper
      && videoTimeMapper.clockRate == VIDEO_CLOCK
      && audioTimeMapper.clockRate == AUDIO_CLOCK
    }

    ghost function Value(): Timebase
      reads this, videoTimeMapper, audioTimeMapper
    {
      Timebase(Medium(videoTimeMapper.Value(), videoTimebaseInitialized, videoBaseRtp, videoBaseTimeUs),
               Medium(audioTimeMapper.Value(), audioTimebaseInitialized, audioBaseRtp, audioBaseTimeUs),
               rtcpTimebaseActive, ntpToLocalOffsetUs)
    }

    constructor ()
      ensures Valid() && fresh(videoTimeMapper) && fresh(audioTimeMapper) && Value() == FreshTimebase()
    {
      videoTimeMapper := new M.RtpNtpTimeMapper(VIDEO_CLOCK, MAX_DEVIATION_US);
      audioTimeMapper := new M.RtpNtpTimeMapper(AUDIO_CLOCK, MAX_DEVIATION_US);
      videoTimebaseInitialized, videoBaseRtp, videoBaseTimeUs := false, 0, 0;
      audioTimebaseInitialized, audioBaseRtp, audioBaseTimeUs := false, 0, 0;
      rtcpTimebaseActive := false;
      ntpToLocalOffsetUs := 0;
    }

    /** Submits a report and, if it breaks the mapper's timeline, starts over from it. */
    method Submit(mapper: M.RtpNtpTimeMapper, report: Report) returns (jumped: bool)
      modifies mapper
      ensures forall m: Medium :: m.mapper == old(mapper.Value()) ==>
        Observe(m, report) == (m.(mapper := mapper.Value()), jumped)
    {
      jumped := false;
      if report.ntp != 0 {
        var result := mapper.UpdateSenderReport(report.rtp, report.ntp);
        if result == Discontinuity {
          mapper.Reset();
          result := mapper.UpdateSenderReport(report.rtp, report.ntp);
          jumped := true;
        }
      }
    }

    method MapFallbackTimestamp(kind: Kind, rtp: U32) returns (time: int)
      requires Valid()
      ensures time == Fallback(Value().Of(kind), rtp)
    {
      if kind.Video? {
        time := videoBaseTimeUs + TruncDiv(RtpDelta(rtp, videoBaseRtp) * MICROS, VIDEO_CLOCK);
      } else {
        time := audioBaseTimeUs + TruncDiv(RtpDelta(rtp, audioBaseRtp) * MICROS, AUDIO_CLOCK);
      }
    }

    method StartFallback(kind: Kind, rtp: U32, nowUs: int)
      modifies this
      ensures Value() == (if kind.Video? then old(Value()).(video := Start(old(Value()).video, rtp, nowUs))
                          else old(Value()).(audio := Start(old(Value()).audio, rtp, nowUs)))
    {
      if kind.Video? && !videoTimebaseInitialized {
        videoBaseRtp, videoBaseTimeUs, videoTimebaseInitialized := rtp, nowUs, true;
      }
      if kind.Audio? && !audioTimebaseInitialized {
        audioBaseRtp, audioBaseTimeUs, audioTimebaseInitialized := rtp, nowUs, true;
      }
    }

    method ObserveReports(o: Observation) returns (jumped: bool)
      requires Valid()
      modifies this`rtcpTimebaseActive, videoTimeMapper, audioTimeMapper
      ensures (Value(), jumped) == Observed(old(Value()), o)
    {
      var videoJump := Submit(videoTimeMapper, o.videoReport);
      if videoJump {
        rtcpTimebaseActive := false;
      }
      var audioJump := Submit(audioTimeMapper, o.audioReport);
      if audioJump {
        rtcpTimebaseActive := false;
      }
      jumped := videoJump || audioJump;
    }

    /** Takes up the sender timeline once both media have a report and a fallback timeline. */
    method ActivateIfReady(audioReport: Report) returns (activated: bool)
      requires Valid()
      modifies this`rtcpTimebaseActive, this`ntpToLocalOffsetUs
      ensures activated == CanActivate(old(Value()), audioReport)
      ensures Value() == if activated then Activate(old(Value()), audioReport) else old(Value())
    {
      activated := false;
      if !rtcpTimebaseActive && videoTimeMapper.ready && audioTimeMapper.ready
         && videoTimebaseInitialized && audioTimebaseInitialized && audioReport.ntp != 0 {
        var audioNtpUs := audioTimeMapper.MapToNtpTimeUs(Low32(audioReport.rtp));
        if audioNtpUs.Some? {
          var audioFallbackUs := MapFallbackTimestamp(Audio, Low32(audioReport.rtp));
          ntpToLocalOffsetUs := audioFallbackUs - audioNtpUs.value;
          rtcpTimebaseActive := true;
          activated := true;
        }
      }
    }

    method PlaceTimestamp(kind: Kind, rtp: U32) returns (time: int)
      requires Valid()
      ensures time == Place(Value(), kind, rtp)
    {
      if rtcpTimebaseActive {
        var mapped: Option<int>;
        if kind.Video? {
          mapped := videoTimeMapper.MapToNtpTimeUs(rtp);
        } else {
          mapped := audioTimeMapper.MapToNtpTimeUs(rtp);
        }
        if mapped.Some? {
          return mapped.value + ntpToLocalOffsetUs;
        }
      }
      time := MapFallbackTimestamp(kind, rtp);
    }

    /** The timestamp is what the timeline after this call says; `changed` asks for pending frames to be dropped. */
    method ResolveMediaTimestamp(o: Observation) returns (time: int, changed: bool)
      requires Valid()
      modifies this, videoTimeMapper, audioTimeMapper
      ensures Valid() && (Value(), changed) == Step(old(Value()), o)
      ensures time == Place(Value(), o.kind, o.rtp)
    {
      StartFallback(o.kind, o.rtp, o.nowUs);
      assert Value() == Started(old(Value()), o);
      var jumped := ObserveReports(o);
      var activated := ActivateIfReady(o.audioReport);
      changed := jumped || activated;
      time := PlaceTimestamp(o.kind, o.rtp);
    }
  }
}
