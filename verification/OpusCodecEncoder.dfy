/**
 The encoder's PCM buffer and output queue, updated in place, against the framing of OpusFraming. The codec is
 represented by `successes`, the number of its calls in one operation that succeed before one fails.
 */
module OpusCodecEncoder {
  import opened Common
  import opened OpusFraming

  /** What EncodeBufferedFrames amounts to. */
  function Encoded<S>(c: Config, f: Framing<S>, flush: bool, zero: S, successes: nat): (Framing<S>, bool) {
    if flush then Flush(c, f, zero, successes) else EncodeReady(c, f, successes)
  }

  lemma EncodeStep<S>(c: Config, f: Framing<S>, flush: bool, zero: S, successes: nat)
    requires HasBlock(c, f) && successes > 0
    ensures Encoded(c, f, flush, zero, successes) == Encoded(c, EncodeOne(c, f), flush, zero, successes - 1)
  {
  }

  lemma PadStep<S>(c: Config, f: Framing<S>, zero: S, successes: nat)
    requires c.Usable() && Within(c, f) && !HasBlock(c, f) && Tail(c, f) > 0
    ensures HasBlock(c, Padded(c, f, zero))
    ensures Flush(c, f, zero, successes) == Flush(c, Padded(c, f, zero), zero, successes)
  {
    NextMultiple(f.encoded, c.required);
    var g := EncodeOne(c, Padded(c, f, zero));
    assert Tail(c, g) == 0;
    NextMultiple(g.encoded, c.required);
    if successes > 0 {
      assert EncodeReady(c, Padded(c, f, zero), successes) == EncodeReady(c, g, successes - 1);
    }
  }

  lemma EncodedEnds<S>(c: Config, f: Framing<S>, flush: bool, zero: S, successes: nat)
    requires !HasBlock(c, f) && (flush ==> Tail(c, f) == 0)
    ensures Encoded(c, f, flush, zero, successes) == (f, true)
  {
  }

  lemma EncodedFails<S>(c: Config, f: Framing<S>, flush: bool, zero: S)
    requires HasBlock(c, f)
    ensures Encoded(c, f, flush, zero, 0) == (f, false)
  {
  }

  lemma NextTimestamp<S>(c: Config, f: Framing<S>)
    requires HasBlock(c, f)
    ensures Next(c, EncodeOne(c, f)) == Next(c, f) + c.frameUs
  {
  }

  /** Two sequences with the same tail have the same first `n` elements of it and the same rest. */
  lemma SliceTail<S>(xs: seq<S>, i: nat, ys: seq<S>, j: nat, n: nat)
    requires i <= |xs| && j <= |ys| && xs[i..] == ys[j..] && i + n <= |xs|
    ensures j + n <= |ys| && xs[i..i + n] == ys[j..j + n] && xs[i + n..] == ys[j + n..]
  {
    assert |xs[i..]| == |ys[j..]|;
    assert xs[i..i + n] == xs[i..][..n] && ys[j..j + n] == ys[j..][..n];
    assert xs[i + n..] == xs[i..][n..] && ys[j + n..] == ys[j..][n..];
  }

  class OpusCodecEncoder<S(==)> {
    const config: Config
    const silence: S
    var pcmBuffer: seq<S>
    var pcmReadOffset: nat
    var nextTimestampUs: int
    var hasTimestamp: bool
    var outputQueue: seq<Frame<S>>
    ghost var framing: Framing<S>

    ghost predicate Valid()
      reads this
    {
      && Framed(config, framing)
      && pcmReadOffset <= |pcmBuffer|
      && pcmBuffer[pcmReadOffset..] == framing.stream[framing.encoded * config.required..]
      && hasTimestamp == framing.started
      && (hasTimestamp ==> nextTimestampUs == Next(config, framing))
      && outputQueue == framing.queue
    }

    constructor (config: Config, silence: S)
      requires config.Usable()
      ensures Valid() && this.config == config && this.silence == silence && framing == Fresh()
    {
      this.config := config;
      this.silence := silence;
      pcmBuffer := [];
      pcmReadOffset := 0;
      nextTimestampUs := 0;
      hasTimestamp := false;
      outputQueue := [];
      framing := Fresh();
    }

    /** Input of another sample rate or channel count, or without samples, is refused and changes nothing. */
    method PushInput(pcm: seq<S>, sampleRate: nat, channels: nat, timestampUs: int, successes: nat)
      returns (ok: bool)
      requires Valid()
      modifies this
      ensures Valid()
      ensures var accepted := pcm != [] && sampleRate == OPUS_RATE && channels == config.channels;
        (framing, ok) == if accepted then Push(config, old(framing), pcm, timestampUs, successes)
                         else (old(framing), false)
    {
      if pcm == [] || sampleRate != OPUS_RATE || channels != config.channels {
        return false;
      }
      var bufferedFrames := (|pcmBuffer| - pcmReadOffset) / config.channels;
      if !hasTimestamp {
        nextTimestampUs := timestampUs;
        hasTimestamp := true;
      } else {
        var expected := nextTimestampUs + bufferedFrames * 1_000_000 / OPUS_RATE;
        var difference := timestampUs - expected;
        if difference > RESET_THRESHOLD_US || difference < -RESET_THRESHOLD_US {
          pcmBuffer := [];
          pcmReadOffset := 0;
          nextTimestampUs := timestampUs;
        }
      }
      pcmBuffer := pcmBuffer + pcm;
      AcceptFramed(config, framing, pcm, timestampUs);
      framing := Accept(config, framing, pcm, timestampUs);
      ok := EncodeBufferedFrames(false, successes);
    }

    /** Encodes what is buffered; the last, incomplete block only on a flush, padded with silence. */
    method EncodeBufferedFrames(flush: bool, successes: nat) returns (ok: bool)
      requires Valid()
      modifies this
      ensures Valid()
      ensures (framing, ok) == Encoded(config, old(framing), flush, silence, successes)
    {
      var remaining := successes;
      while true
        invariant Valid()
        invariant Encoded(config, framing, flush, silence, remaining)
               == Encoded(config, old(framing), flush, silence, successes)
        decreases |pcmBuffer| - pcmReadOffset
      {
        var ready := PrepareBlock(flush, remaining);
        if !ready {
          break;
        }
        if remaining == 0 {
          EncodedFails(config, framing, flush, silence);
          return false;
        }
        EncodeStep(config, framing, flush, silence, remaining);
        EncodeBlock();
        remaining := remaining - 1;
      }
      Compact();
      ok := true;
    }

    /** Whether there is a block to encode; a flush makes one of what is left. */
    method PrepareBlock(flush: bool, ghost remaining: nat) returns (ready: bool)
      requires Valid()
      modifies this`pcmBuffer, this`pcmReadOffset, this`framing
      ensures Valid()
      ensures Encoded(config, framing, flush, silence, remaining)
           == Encoded(config, old(framing), flush, silence, remaining)
      ensures if ready then HasBlock(config, framing) && |pcmBuffer| - pcmReadOffset >= config.required
              else Encoded(config, framing, flush, silence, remaining) == (framing, true)
      ensures |pcmBuffer| - pcmReadOffset <= Max(old(|pcmBuffer| - pcmReadOffset), config.required)
      ensures ready && old(|pcmBuffer| - pcmReadOffset) < config.required ==>
                0 < old(|pcmBuffer| - pcmReadOffset) && |pcmBuffer| - pcmReadOffset == config.required
    {
      NextMultiple(framing.encoded, config.required);
      var available := |pcmBuffer| - pcmReadOffset;
      if available < config.required {
        if !flush || available == 0 {
          EncodedEnds(config, framing, flush, silence, remaining);
          return false;
        }
        PadStep(config, framing, silence, remaining);
        PadLastBlock();
      }
      ready := true;
    }

    method PadLastBlock()
      requires Valid() && 0 < |pcmBuffer| - pcmReadOffset < config.required
      modifies this`pcmBuffer, this`pcmReadOffset, this`framing
      ensures Valid() && framing == Padded(config, old(framing), silence)
      ensures |pcmBuffer| - pcmReadOffset == config.required
    {
      ghost var was := framing;
      if pcmReadOffset > 0 {
        pcmBuffer := pcmBuffer[pcmReadOffset..];
        pcmReadOffset := 0;
      }
      pcmBuffer := pcmBuffer + Zeros(config.required - |pcmBuffer|, silence);
      framing := Padded(config, framing, silence);
      PaddedFramed(config, was, silence);
    }

    method EncodeBlock()
      requires Valid() && |pcmBuffer| - pcmReadOffset >= config.required
      modifies this
      ensures HasBlock(config, old(framing))
      ensures Valid() && framing == EncodeOne(config, old(framing))
      ensures |pcmBuffer| - pcmReadOffset == old(|pcmBuffer| - pcmReadOffset) - config.required
    {
      NextMultiple(framing.encoded, config.required);
      EncodeOneFramed(config, framing);
      SliceTail(pcmBuffer, pcmReadOffset, framing.stream, framing.encoded * config.required, config.required);
      assert Next(config, EncodeOne(config, framing)) == Next(config, framing) + config.frameUs by {
        NextTimestamp(config, framing);
      }
      var frame := Frame(pcmBuffer[pcmReadOffset..pcmReadOffset + config.required], nextTimestampUs);
      Queue(frame);
      pcmReadOffset := pcmReadOffset + config.required;
      nextTimestampUs := nextTimestampUs + config.frameUs;
      framing := EncodeOne(config, framing);
    }

    /** A full queue gives up its oldest frame. */
    method Queue(frame: Frame<S>)
      modifies this`outputQueue
      ensures outputQueue == Enqueue(old(outputQueue), frame)
    {
      if |outputQueue| >= MAX_QUEUED {
        outputQueue := outputQueue[1..];
      }
      outputQueue := outputQueue + [frame];
    }

    /** Drops consumed samples from the buffer; nothing that is still to be encoded is lost. */
    method Compact()
      requires Valid()
      modifies this`pcmBuffer, this`pcmReadOffset
      ensures Valid() && pcmBuffer[pcmReadOffset..] == old(pcmBuffer[pcmReadOffset..])
      ensures pcmReadOffset < 4 * config.required
    {
      if pcmReadOffset == |pcmBuffer| {
        pcmBuffer := [];
        pcmReadOffset := 0;
      } else if pcmReadOffset >= config.required * 4 {
        pcmBuffer := pcmBuffer[pcmReadOffset..];
        pcmReadOffset := 0;
      }
    }

    method Flush(successes: nat) returns (ok: bool)
      requires Valid()
      modifies this
      ensures Valid() && (framing, ok) == OpusFraming.Flush(config, old(framing), silence, successes)
    {
      ok := EncodeBufferedFrames(true, successes);
    }

    method PullEncoded() returns (frame: Option<Frame<S>>)
      requires Valid()
      modifies this
      ensures Valid() && (framing, frame) == Pull(old(framing))
    {
      if outputQueue == [] {
        return None;
      }
      frame := Some(outputQueue[0]);
      outputQueue := outputQueue[1..];
      framing := Pull(framing).0;
    }
  }
}
