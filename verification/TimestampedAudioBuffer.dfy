/** The circular buffer behind a user's audio timeline, updated in place. */
module TimestampedAudioBuffer {
  import opened Common
  import opened AudioTimeline

  /** The slot `i` places after `pos` in a ring of `capacity` slots. */
  function Ring(pos: nat, i: nat, capacity: nat): nat
    requires pos < capacity && i <= capacity
  {
    if pos + i < capacity then pos + i else pos + i - capacity
  }

  lemma RingIsMod(pos: nat, i: nat, capacity: nat)
    requires pos < capacity && i <= capacity
    ensures (pos + i) % capacity == Ring(pos, i, capacity) < capacity
  {
    var wraps := if pos + i < capacity then 0 else 1;
    QuotientUnique(pos + i, capacity, wraps, pos + i - wraps * capacity);
  }

  /** Seen from the write position, the buffered frames are the last ones of the ring. */
  lemma RingSeenFromEnd(pos: nat, available: nat, i: nat, capacity: nat)
    requires pos < capacity && available <= capacity && i < capacity
    ensures var end := Ring(pos, available, capacity);
      Ring(pos, i, capacity) == if i < available then Ring(end, capacity - available + i, capacity)
                                else Ring(end, i - available, capacity)
  {
  }

  lemma SamplesShowPcm<F>(frame: AudioFrame<F>, rate: int, from: nat, silence: F)
    requires from <= |frame.pcm|
    ensures forall i :: 0 <= i < |frame.pcm| - from ==>
              frame.pcm[from..][i] == Value(Samples(frame, rate, from)[i], silence)
  {
    forall i | 0 <= i < |frame.pcm| - from
      ensures frame.pcm[from..][i] == Value(Samples(frame, rate, from)[i], silence)
    {
      assert Samples(frame, rate, from)[i] == Sample(frame, rate, from + i);
    }
  }

  class TimestampedAudioBuffer<F(0)> {
    const config: Config
    const silence: F
    const buffer: array<F>
    var readPosition: nat
    var writePosition: nat
    var available: nat
    var initialized: bool
    var anchorUs: int
    var readOffset: nat
    var writeOffset: nat
    ghost var stream: seq<Slot<F>>

    /** The ring holds exactly the newest `available` frames of the stream, in order. */
    ghost predicate Valid()
      reads this, buffer
    {
      && buffer.Length == config.capacity
      && readOffset + available == writeOffset == |stream|
      && available <= config.capacity
      && (config.capacity == 0 ==> readPosition == writePosition == 0)
      && (config.capacity > 0 ==>
            && readPosition < config.capacity
            && writePosition == Ring(readPosition, available, config.capacity)
            && forall i :: 0 <= i < available ==>
                 buffer[Ring(readPosition, i, config.capacity)] == Value(stream[readOffset + i], silence))
    }

    ghost function Abstract(): Timeline<F>
      reads this
    {
      Timeline(initialized, anchorUs, stream, readOffset)
    }

    constructor (sampleRate: int, channels: int, maxDurationMs: nat, maxGapMs: nat, discontinuityMs: nat, zero: F)
      ensures Valid() && fresh(buffer) && Abstract() == EmptyTimeline()
      ensures config.rate == sampleRate && config.channels == channels && silence == zero
    {
      var capacity := if sampleRate > 0 && channels > 0 then sampleRate * maxDurationMs / 1000 else 0;
      config := Config(sampleRate, channels, capacity,
                       if sampleRate > 0 then sampleRate * maxGapMs / 1000 else 0,
                       if sampleRate > 0 then sampleRate * discontinuityMs / 1000 else 0);
      silence := zero;
      buffer := new F[capacity](_ => zero);
      readPosition, writePosition, available := 0, 0, 0;
      initialized, anchorUs, readOffset, writeOffset := false, 0, 0, 0;
      stream := [];
    }

    method Push(frame: AudioFrame<F>) returns (result: PushResult)
      requires Valid()
      modifies this, buffer
      ensures Valid() && (Abstract(), result) == AudioTimeline.Push(config, old(Abstract()), frame)
    {
      if !config.Configured() || !frame.IsValid() || frame.sampleRate != config.rate
        || frame.channels != config.channels || frame.timestampUs <= 0 {
        return Invalid;
      }
      if !initialized {
        RestartAt(frame);
        return Accepted;
      }
      var expected := TimestampAt(anchorUs, writeOffset, config.rate);
      var difference := UsToFrames(frame.timestampUs - expected, config.rate);
      if difference > config.discontinuity || difference < 0 - config.discontinuity {
        RestartAt(frame);
        return AcceptedAfterReset;
      }
      var skip := 0;
      result := Accepted;
      if difference > 0 {
        if difference > config.maxGap {
          RestartAt(frame);
          return AcceptedAfterReset;
        }
        WriteSilence(difference);
        result := AcceptedWithSilence;
      } else if difference < 0 {
        skip := -difference;
        if skip >= |frame.pcm| {
          return DroppedLate;
        }
      }
      SamplesShowPcm(frame, config.rate, skip, silence);
      WriteFrames(frame.pcm[skip..], Samples(frame, config.rate, skip));
    }

    method RestartAt(frame: AudioFrame<F>)
      requires Valid() && config.Configured()
      modifies this, buffer
      ensures Valid() && Abstract() == Restart(config, frame)
    {
      ResetTimeline(frame.timestampUs);
      SamplesShowPcm(frame, config.rate, 0, silence);
      WriteFrames(frame.pcm, Samples(frame, config.rate, 0));
    }

    method ReadAt(start: int, output: array<F>, frameCount: nat) returns (result: ReadResult)
      requires Valid() && output != buffer && frameCount <= output.Length
      modifies this, output
      ensures Valid() && output[frameCount..] == old(output[frameCount..])
      ensures !Readable(config, start, frameCount) ==>
                Abstract() == old(Abstract()) && result == ReadResult(0, 0, 0) && output[..] == old(output[..])
      ensures Readable(config, start, frameCount) ==>
                var (after, plan, filled) := Read(config, old(Abstract()), start, frameCount, silence);
                Abstract() == after && result == plan && output[..frameCount] == filled
    {
      if frameCount == 0 || !config.Configured() || start <= 0 {
        return ReadResult(0, 0, 0);
      }
      ghost var before := Abstract();
      forall i | 0 <= i < frameCount {
        output[i] := silence;
      }
      result := FillFrom(start, output, frameCount);
      ReadOutputUnique(config, before, start, frameCount, silence, output[..frameCount]);
    }

    /** The part of a read that looks at the buffer; `output` has been filled with silence. */
    method FillFrom(start: int, output: array<F>, frameCount: nat) returns (result: ReadResult)
      requires Valid() && output != buffer && frameCount <= output.Length && Readable(config, start, frameCount)
      modifies this, output
      ensures Valid() && result == Plan(config, old(Abstract()), start, frameCount)
      ensures var kept := AfterDiscard(config, old(Abstract()), start);
        Abstract() == kept.(readOffset := kept.readOffset + result.copied)
      ensures forall i :: 0 <= i < output.Length ==>
                output[i] == if i < frameCount && IsCopied(config, old(Abstract()), start, frameCount, i)
                             then Value(stream[CopiedPlace(config, old(Abstract()), start, frameCount, i)], silence)
                             else old(output[i])
    {
      if !initialized || available == 0 {
        return ReadResult(0, 0, frameCount);
      }
      DiscardLate(start);
      if available == 0 {
        return ReadResult(0, 0, frameCount);
      }
      var leading := LeadingSilence(start, frameCount);
      if leading >= frameCount {
        return ReadResult(leading, 0, 0);
      }
      var readable := Min(frameCount - leading, available);
      ReadFrames(output, leading, readable);
      return ReadResult(leading, readable, frameCount - leading - readable);
    }

    /** Drops the buffered frames that are already too old for a read at `start`. */
    method DiscardLate(start: int)
      requires Valid() && config.Configured()
      modifies this
      ensures Valid() && Abstract() == Discard(config, old(Abstract()), start)
    {
      var first := TimestampAt(anchorUs, readOffset, config.rate);
      if start > first {
        var late := UsToFrames(start - first, config.rate);
        if late > 0 {
          DiscardFrames(Min(late, available));
        }
      }
    }

    /** How many frames of silence come before the first buffered frame. */
    method LeadingSilence(start: int, frameCount: nat) returns (leading: nat)
      requires Valid() && config.Configured()
      ensures leading == Leading(config, Abstract(), start, frameCount) <= frameCount
    {
      var first := TimestampAt(anchorUs, readOffset, config.rate);
      leading := 0;
      if start < first {
        var missing := UsToFrames(first - start, config.rate);
        if missing > 0 {
          leading := Min(missing, frameCount);
        }
      }
    }

    method Reset()
      requires Valid()
      modifies this
      ensures Valid() && Abstract() == EmptyTimeline()
    {
      readPosition, writePosition, available := 0, 0, 0;
      initialized, anchorUs, readOffset, writeOffset := false, 0, 0, 0;
      stream := [];
    }

    method ResetTimeline(timestampUs: int)
      requires Valid()
      modifies this
      ensures Valid() && Abstract() == Timeline(true, timestampUs, [], 0)
    {
      readPosition, writePosition, available := 0, 0, 0;
      initialized, anchorUs, readOffset, writeOffset := true, timestampUs, 0, 0;
      stream := [];
    }

    method WriteFrames(data: seq<F>, ghost slots: seq<Slot<F>>)
      requires Valid() && config.capacity > 0 && |data| == |slots|
      requires forall i :: 0 <= i < |data| ==> data[i] == Value(slots[i], silence)
      modifies this, buffer
      ensures Valid() && Abstract() == Append(config, old(Abstract()), slots)
    {
      var count := |data|;
      if count == 0 {
        assert stream + slots == stream;
        return;
      }
      if count >= config.capacity {
        var skipped := count - config.capacity;
        forall i | 0 <= i < config.capacity {
          buffer[i] := data[skipped + i];
        }
        writeOffset := writeOffset + count;
        readOffset := writeOffset - config.capacity;
        readPosition, writePosition, available := 0, 0, config.capacity;
        stream := stream + slots;
        return;
      }
      WriteChunk(data, slots);
    }

    method WriteSilence(count: nat)
      requires Valid() && config.capacity > 0
      modifies this, buffer
      ensures Valid() && Abstract() == Append(config, old(Abstract()), Silence(count))
    {
      if count == 0 {
        assert stream + Silence(count) == stream;
        return;
      }
      if count >= config.capacity {
        forall i | 0 <= i < config.capacity {
          buffer[i] := silence;
        }
        writeOffset := writeOffset + count;
        readOffset := writeOffset - config.capacity;
        readPosition, writePosition, available := 0, 0, config.capacity;
        stream := stream + Silence(count);
        return;
      }
      WriteChunk(seq(count, _ => silence), Silence(count));
    }

    /** A write that fits: makes room, copies, and moves the write position. */
    method WriteChunk(data: seq<F>, ghost slots: seq<Slot<F>>)
      requires Valid() && |data| == |slots| && 0 < |data| < config.capacity
      requires forall i :: 0 <= i < |data| ==> data[i] == Value(slots[i], silence)
      modifies this, buffer
      ensures Valid() && Abstract() == Append(config, old(Abstract()), slots)
    {
      MakeRoom(|data|);
      ghost var frames, n := available, |data|;
      ghost var kept := buffer[..];
      CopyIn(data);
      forall i | 0 <= i < frames + n
        ensures buffer[Ring(readPosition, i, config.capacity)]
             == Value((stream + slots)[readOffset + i], silence)
      {
        RingSeenFromEnd(readPosition, frames, i, config.capacity);
        if i < frames {
          assert buffer[Ring(readPosition, i, config.capacity)] == kept[Ring(readPosition, i, config.capacity)];
        } else {
          assert data[i - frames] == Value(slots[i - frames], silence);
        }
      }
      RingIsMod(writePosition, |data|, config.capacity);
      writePosition := (writePosition + |data|) % config.capacity;
      available := available + |data|;
      writeOffset := writeOffset + |data|;
      stream := stream + slots;
    }

    /** Copies `data` into the ring from the write position on, in at most two pieces. */
    method CopyIn(data: seq<F>)
      requires buffer.Length == config.capacity && |data| < config.capacity && writePosition < config.capacity
      modifies buffer
      ensures forall i :: 0 <= i < |data| ==> buffer[Ring(writePosition, i, config.capacity)] == data[i]
      ensures forall i :: |data| <= i < config.capacity ==>
                buffer[Ring(writePosition, i, config.capacity)] == old(buffer[Ring(writePosition, i, config.capacity)])
    {
      var firstCopy := Min(|data|, config.capacity - writePosition);
      forall i | 0 <= i < firstCopy {
        buffer[writePosition + i] := data[i];
      }
      var secondCopy := |data| - firstCopy;
      if secondCopy > 0 {
        forall i | 0 <= i < secondCopy {
          buffer[i] := data[firstCopy + i];
        }
      }
    }

    method MakeRoom(required: nat)
      requires Valid() && 0 < required < config.capacity
      modifies this
      ensures Valid() && available + required <= config.capacity
      ensures unchanged(`stream, `writeOffset, `initialized, `anchorUs)
      ensures readOffset == Max(old(readOffset), writeOffset + required - config.capacity)
    {
      var free := config.capacity - available;
      if required > free {
        DiscardFrames(required - free);
      }
    }

    method DiscardFrames(count: nat)
      requires Valid()
      modifies this
      ensures Valid() && unchanged(`stream, `writeOffset, `initialized, `anchorUs, `writePosition)
      ensures readOffset == Min(old(readOffset) + count, writeOffset)
    {
      if count == 0 || available == 0 || config.capacity == 0 {
        return;
      }
      var discard := Min(count, available);
      RingIsMod(readPosition, discard, config.capacity);
      ghost var start := readPosition;
      readPosition := (readPosition + discard) % config.capacity;
      available := available - discard;
      readOffset := readOffset + discard;
      forall i | 0 <= i < available
        ensures Ring(readPosition, i, config.capacity) == Ring(start, discard + i, config.capacity)
      {
      }
      if available == 0 {
        readPosition := writePosition;
        readOffset := writeOffset;
      }
    }

    /** Copies the oldest `count` frames into `output` from index `at` on, in at most two pieces, and consumes them. */
    method ReadFrames(output: array<F>, at: nat, count: nat)
      requires Valid() && output != buffer && count <= available && at + count <= output.Length
      modifies this, output
      ensures Valid() && unchanged(`stream, `writeOffset, `initialized, `anchorUs)
      ensures readOffset == old(readOffset) + count
      ensures forall i :: 0 <= i < output.Length ==>
                output[i] == if at <= i < at + count then Value(stream[old(readOffset) + i - at], silence)
                             else old(output[i])
    {
      if count == 0 || available == 0 {
        return;
      }
      var firstCopy := Min(count, config.capacity - readPosition);
      forall i | 0 <= i < firstCopy {
        output[at + i] := buffer[readPosition + i];
      }
      var secondCopy := count - firstCopy;
      if secondCopy > 0 {
        forall i | 0 <= i < secondCopy {
          output[at + firstCopy + i] := buffer[i];
        }
      }
      assert forall i :: 0 <= i < count ==> output[at + i] == buffer[Ring(readPosition, i, config.capacity)];
      assert forall i :: at <= i < at + count ==> output[i] == buffer[Ring(readPosition, i - at, config.capacity)];
      DiscardFrames(count);
    }
  }
}
