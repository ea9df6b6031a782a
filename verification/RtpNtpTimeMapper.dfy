/** The sender-report anchor as the mapper updates it in place, against RtpNtpMapping. */
module RtpNtpTimeMapper {
  import opened Common
  import opened RtpNtpMapping

  class RtpNtpTimeMapper {
    const clockRate: nat
    const maxDeviationUs: int
    var ready: bool
    var srRtpTimestamp: U32
    var srNtpTimestamp: nat
    var srNtpTimeUs: int

    ghost function Value(): Mapper
      reads this
    {
      Mapper(clockRate, maxDeviationUs, ready, srRtpTimestamp, srNtpTimestamp, srNtpTimeUs)
    }

    constructor (clockRate: nat, maxDeviationUs: int)
      ensures Value() == Mapper(clockRate, maxDeviationUs, false, 0, 0, 0)
    {
      this.clockRate := clockRate;
      this.maxDeviationUs := maxDeviationUs;
      ready := false;
      srRtpTimestamp := 0;
      srNtpTimestamp := 0;
      srNtpTimeUs := 0;
    }

    method UpdateSenderReport(rtp: nat, ntp: nat) returns (result: UpdateResult)
      modifies this
      ensures (Value(), result) == Update(old(Value()), rtp, ntp)
    {
      if clockRate == 0 || maxDeviationUs <= 0 || rtp > TWO_32 - 1 || ntp == 0 {
        return Invalid;
      }
      var newRtp: U32 := rtp;
      var newNtpUs := NtpToUs(ntp);
      if !ready {
        srRtpTimestamp, srNtpTimestamp, srNtpTimeUs, ready := newRtp, ntp, newNtpUs, true;
        return Accepted;
      }
      if srRtpTimestamp == newRtp && srNtpTimestamp == ntp {
        return Unchanged;
      }
      var rtpDelta := RtpDelta(newRtp, srRtpTimestamp);
      var expectedNtpUs := srNtpTimeUs + DeltaToUs(rtpDelta, clockRate);
      var deviationUs := if newNtpUs >= expectedNtpUs then newNtpUs - expectedNtpUs else expectedNtpUs - newNtpUs;
      if deviationUs > maxDeviationUs {
        return Discontinuity;
      }
      srRtpTimestamp, srNtpTimestamp, srNtpTimeUs := newRtp, ntp, newNtpUs;
      return Accepted;
    }

    method MapToNtpTimeUs(rtp: U32) returns (time: Option<int>)
      ensures time == MapToNtp(Value(), rtp)
    {
      if !ready || clockRate == 0 {
        return None;
      }
      var rtpDelta := RtpDelta(rtp, srRtpTimestamp);
      return Some(srNtpTimeUs + DeltaToUs(rtpDelta, clockRate));
    }

    method Reset()
      modifies this
      ensures Value() == Cleared(old(Value()))
    {
      ready := false;
      srRtpTimestamp := 0;
      srNtpTimestamp := 0;
      srNtpTimeUs := 0;
    }
  }
}
