/**
 The media timeline of one user's audio, as a plain sequence: what a push appends, what a read takes,
 and how far a sample can end up from its own media time. Times are compared on a scale of
 1 / sample_rate microseconds, on which one sample period is exactly PERIOD.
 */
module AudioTimeline {
  import opened Common

  const PERIOD := 1_000_000

  datatype Config = Config(rate: int, channels: int, capacity: nat, maxGap: nat, discontinuity: nat) {
    predicate Configured() { rate > 0 && channels > 0 && capacity > 0 }
  }

  /** One block of interleaved PCM; an element of `pcm` holds the samples of all channels at one instant. */
  datatype AudioFrame<F> = AudioFrame(sampleRate: int, channels: int, timestampUs: int, pcm: seq<F>) {
    predicate IsValid() { pcm != [] && channels > 0 && sampleRate > 0 }
  }

  /** A place of the timeline: inserted silence, or a pushed sample with its own scaled media time. */
  datatype Slot<F> = Quiet | Heard(pcm: F, time: int)

  /** `stream` is everything ever written since the anchor; the frames before `readOffset` are gone. */
  datatype Timeline<F> = Timeline(initialized: bool, anchor: int, stream: seq<Slot<F>>, readOffset: nat) {
    function Buffered(): int { |stream| - readOffset }
  }

  datatype PushResult = Accepted | AcceptedWithSilence | AcceptedAfterReset | DroppedLate | Invalid

  datatype ReadResult = ReadResult(leading: nat, copied: nat, trailing: nat)

  // ---------- rounding ----------

  /** Nearest integer to n / d, halves away from zero. */
  function RoundDiv(n: int, d: int): int
    requires d > 0
  {
    if n >= 0 then (2 * n + d) / (2 * d) else -((2 * -n + d) / (2 * d))
  }

  lemma RoundDivNear(n: int, d: int)
    requires d > 0
    ensures -d <= 2 * (RoundDiv(n, d) * d - n) <= d
  {
    var m := Abs(n);
    var q := (2 * m + d) / (2 * d);
    assert 2 * m + d == 2 * d * q + (2 * m + d) % (2 * d);
    assert 2 * (q * d) == 2 * d * q;
    assert -q * d == -(q * d);
  }

  function UsToFrames(us: int, rate: int): int
    requires rate > 0
  {
    RoundDiv(us * rate, PERIOD)
  }

  function FramesToUs(frames: int, rate: int): int
    requires rate > 0
  {
    RoundDiv(frames * PERIOD, rate)
  }

  function TimestampAt(anchor: int, offset: int, rate: int): int
    requires rate > 0
  {
    anchor + FramesToUs(offset, rate)
  }

  // ---------- push ----------

  function Sample<F>(frame: AudioFrame<F>, rate: int, i: nat): Slot<F>
    requires i < |frame.pcm|
  {
    Heard(frame.pcm[i], frame.timestampUs * rate + i * PERIOD)
  }

  function Samples<F>(frame: AudioFrame<F>, rate: int, from: nat): (slots: seq<Slot<F>>)
    requires from <= |frame.pcm|
    ensures |slots| == |frame.pcm| - from
  {
    seq(|frame.pcm| - from, i requires 0 <= i < |frame.pcm| - from => Sample(frame, rate, from + i))
  }

  function Silence<F>(count: nat): seq<Slot<F>> { seq(count, _ => Quiet) }

  /** Appends; what no longer fits is forgotten from the front. */
  function Append<F>(c: Config, t: Timeline<F>, slots: seq<Slot<F>>): Timeline<F>
    requires t.readOffset <= |t.stream|
  {
    t.(stream := t.stream + slots, readOffset := Max(t.readOffset, |t.stream| + |slots| - c.capacity))
  }

  function Restart<F>(c: Config, frame: AudioFrame<F>): Timeline<F> {
    Append(c, Timeline(true, frame.timestampUs, [], 0), Samples(frame, c.rate, 0))
  }

  predicate Acceptable<F>(c: Config, frame: AudioFrame<F>) {
    && c.Configured() && frame.IsValid()
    && frame.sampleRate == c.rate && frame.channels == c.channels && frame.timestampUs > 0
  }

  /** By how many frames the block starts after (or before) the end of what is buffered. */
  function Displacement<F>(c: Config, t: Timeline<F>, frame: AudioFrame<F>): int
    requires c.rate > 0
  {
    UsToFrames(frame.timestampUs - TimestampAt(t.anchor, |t.stream|, c.rate), c.rate)
  }

  function Push<F>(c: Config, t: Timeline<F>, frame: AudioFrame<F>): (Timeline<F>, PushResult)
    requires t.readOffset <= |t.stream|
  {
    if !Acceptable(c, frame) then (t, Invalid)
    else if !t.initialized then (Restart(c, frame), Accepted)
    else
      var d := Displacement(c, t, frame);
      if d > c.discontinuity || d + c.discontinuity < 0 then (Restart(c, frame), AcceptedAfterReset)
      else if d > 0 then
        if d > c.maxGap then (Restart(c, frame), AcceptedAfterReset)
        else (Append(c, Append(c, t, Silence(d)), Samples(frame, c.rate, 0)), AcceptedWithSilence)
      else if -d >= |frame.pcm| then (t, DroppedLate)
      else (Append(c, t, Samples(frame, c.rate, -d)), Accepted)
  }

  // ---------- read ----------

  function FirstTime<F>(c: Config, t: Timeline<F>): int
    requires c.rate > 0
  {
    TimestampAt(t.anchor, t.readOffset, c.rate)
  }

  /** Everything that is already too old for a read at `start` is forgotten. */
  function Discard<F>(c: Config, t: Timeline<F>, start: int): Timeline<F>
    requires c.rate > 0 && t.readOffset <= |t.stream|
  {
    var late := start - FirstTime(c, t);
    if late > 0 then t.(readOffset := Min(t.readOffset + Max(UsToFrames(late, c.rate), 0), |t.stream|)) else t
  }

  function Leading<F>(c: Config, t: Timeline<F>, start: int, count: nat): nat
    requires c.rate > 0
  {
    var early := FirstTime(c, t) - start;
    if early > 0 then Min(Max(UsToFrames(early, c.rate), 0), count) else 0
  }

  function Value<F>(slot: Slot<F>, silence: F): F { if slot.Heard? then slot.pcm else silence }

  function Values<F>(slots: seq<Slot<F>>, silence: F): seq<F> {
    seq(|slots|, i requires 0 <= i < |slots| => Value(slots[i], silence))
  }

  function Zeros<F>(count: nat, silence: F): seq<F> { seq(count, _ => silence) }

  /** What a read reports, from what is buffered after the discard. */
  function Plan<F>(c: Config, t: Timeline<F>, start: int, count: nat): ReadResult
    requires c.rate > 0 && t.readOffset <= |t.stream|
  {
    if !t.initialized || t.Buffered() == 0 then ReadResult(0, 0, count)
    else
      var kept := Discard(c, t, start);
      if kept.Buffered() == 0 then ReadResult(0, 0, count)
      else
        var leading := Leading(c, kept, start, count);
        var copied := Min(count - leading, kept.Buffered());
        ReadResult(leading, copied, count - leading - copied)
  }

  function AfterDiscard<F>(c: Config, t: Timeline<F>, start: int): Timeline<F>
    requires c.rate > 0 && t.readOffset <= |t.stream|
  {
    if !t.initialized || t.Buffered() == 0 then t else Discard(c, t, start)
  }

  /** A read of `count` frames at `start`: the frames it consumes and the output it fills. */
  function Read<F>(c: Config, t: Timeline<F>, start: int, count: nat, silence: F): (Timeline<F>, ReadResult, seq<F>)
    requires c.rate > 0 && t.readOffset <= |t.stream|
  {
    var plan := Plan(c, t, start, count);
    var kept := AfterDiscard(c, t, start);
    var from := kept.readOffset;
    if plan.copied > kept.Buffered() then (kept, plan, Zeros(count, silence))
    else (kept.(readOffset := from + plan.copied), plan,
          Zeros(plan.leading, silence) + Values(kept.stream[from..from + plan.copied], silence)
            + Zeros(plan.trailing, silence))
  }

  /** The parts of a read always add up, and it never copies more than is buffered. */
  lemma ReadCovers<F>(c: Config, t: Timeline<F>, start: int, count: nat, silence: F)
    requires c.rate > 0 && t.readOffset <= |t.stream|
    ensures var (after, plan, output) := Read(c, t, start, count, silence);
      && plan.leading + plan.copied + plan.trailing == count == |output|
      && plan.copied <= AfterDiscard(c, t, start).Buffered()
      && after.stream == t.stream && t.readOffset <= after.readOffset <= |t.stream|
  {
  }

  // ---------- accuracy ----------

  /** A slot's place on the timeline is within half a period plus half a microsecond of its own media time. */
  ghost predicate Placed<F>(c: Config, anchor: int, k: nat, slot: Slot<F>) {
    slot.Heard? ==> 2 * Abs(anchor * c.rate + k * PERIOD - slot.time) <= PERIOD + c.rate
  }

  ghost predicate Aligned<F>(c: Config, t: Timeline<F>) {
    && t.readOffset <= |t.stream|
    && forall k :: 0 <= k < |t.stream| ==> Placed(c, t.anchor, k, t.stream[k])
  }

  lemma TimestampNear(anchor: int, offset: int, rate: int)
    requires rate > 0
    ensures -rate <= 2 * (TimestampAt(anchor, offset, rate) * rate - (anchor * rate + offset * PERIOD)) <= rate
  {
    RoundDivNear(offset * PERIOD, rate);
    assert TimestampAt(anchor, offset, rate) * rate == anchor * rate + FramesToUs(offset, rate) * rate;
  }

  lemma DisplacementNear<F>(c: Config, t: Timeline<F>, frame: AudioFrame<F>)
    requires c.rate > 0
    ensures var d := Displacement(c, t, frame);
      2 * Abs(t.anchor * c.rate + (|t.stream| + d) * PERIOD - frame.timestampUs * c.rate) <= PERIOD + c.rate
  {
    var expected := TimestampAt(t.anchor, |t.stream|, c.rate);
    TimestampNear(t.anchor, |t.stream|, c.rate);
    RoundDivNear((frame.timestampUs - expected) * c.rate, PERIOD);
    assert (frame.timestampUs - expected) * c.rate == frame.timestampUs * c.rate - expected * c.rate;
  }

  /** Appending samples that start at the right place keeps the timeline aligned. */
  lemma AppendAligned<F>(c: Config, t: Timeline<F>, frame: AudioFrame<F>, from: nat, d: int)
    requires Aligned(c, t) && from <= |frame.pcm| && d + from == 0
    requires 2 * Abs(t.anchor * c.rate + (|t.stream| + d) * PERIOD - frame.timestampUs * c.rate) <= PERIOD + c.rate
    ensures Aligned(c, Append(c, t, Samples(frame, c.rate, from)))
  {
    var after := Append(c, t, Samples(frame, c.rate, from));
    forall k | 0 <= k < |after.stream| ensures Placed(c, after.anchor, k, after.stream[k]) {
      if k < |t.stream| {
        assert Placed(c, t.anchor, k, t.stream[k]);
      } else {
        var i := from + (k - |t.stream|);
        assert after.stream[k] == Sample(frame, c.rate, i);
        assert k == |t.stream| + d + i;
        assert k * PERIOD == (|t.stream| + d) * PERIOD + i * PERIOD;
      }
    }
  }

  lemma SilenceAligned<F>(c: Config, t: Timeline<F>, count: nat)
    requires Aligned(c, t)
    ensures Aligned(c, Append(c, t, Silence(count)))
  {
    var after := Append(c, t, Silence(count));
    forall k | 0 <= k < |after.stream| ensures Placed(c, after.anchor, k, after.stream[k]) {
      if k < |t.stream| {
        assert Placed(c, t.anchor, k, t.stream[k]);
      }
    }
  }

  lemma PushAligned<F>(c: Config, t: Timeline<F>, frame: AudioFrame<F>)
    requires Aligned(c, t)
    ensures Aligned(c, Push(c, t, frame).0)
  {
    if Acceptable(c, frame) {
      AppendAligned(c, Timeline(true, frame.timestampUs, [], 0), frame, 0, 0);
      if t.initialized {
        var d := Displacement(c, t, frame);
        DisplacementNear(c, t, frame);
        if 0 < d <= c.maxGap {
          SilenceAligned(c, t, d);
          AppendAligned(c, Append(c, t, Silence(d)), frame, 0, 0);
        } else if d <= 0 && -d < |frame.pcm| {
          AppendAligned(c, t, frame, -d, d);
        }
      }
    }
  }

  /** Where reading goes on is due at `start` plus the leading silence, up to half a period and half a microsecond. */
  lemma StartNear<F>(c: Config, t: Timeline<F>, start: int, count: nat)
    requires c.rate > 0 && t.readOffset <= |t.stream| && Plan(c, t, start, count).copied > 0
    ensures var due := start * c.rate + Plan(c, t, start, count).leading * PERIOD;
      2 * Abs(due - (t.anchor * c.rate + AfterDiscard(c, t, start).readOffset * PERIOD)) <= PERIOD + c.rate
  {
    var kept := AfterDiscard(c, t, start);
    var first := FirstTime(c, kept);
    TimestampNear(t.anchor, kept.readOffset, c.rate);
    if first > start {
      LeadingNear(c, kept, start, count);
    } else {
      DiscardNear(c, t, start);
    }
  }

  /** The place of a copied slot is within half a period plus half a microsecond of the requested time. */
  lemma ReadNear<F>(c: Config, t: Timeline<F>, start: int, count: nat, j: nat)
    requires c.rate > 0 && t.readOffset <= |t.stream|
    requires IsCopied(c, t, start, count, j)
    ensures var k := CopiedPlace(c, t, start, count, j);
      && 0 <= k < |t.stream|
      && 2 * Abs(start * c.rate + j * PERIOD - (t.anchor * c.rate + k * PERIOD)) <= PERIOD + c.rate
  {
    StartNear(c, t, start, count);
  }

  lemma LeadingNear<F>(c: Config, kept: Timeline<F>, start: int, count: nat)
    requires c.rate > 0 && FirstTime(c, kept) > start && Leading(c, kept, start, count) < count
    ensures 2 * Abs(start * c.rate + Leading(c, kept, start, count) * PERIOD - FirstTime(c, kept) * c.rate) <= PERIOD
  {
    var early := FirstTime(c, kept) - start;
    LeadingExact(c, kept, start, count);
    RoundDivNear(early * c.rate, PERIOD);
    assert early * c.rate == FirstTime(c, kept) * c.rate - start * c.rate;
  }

  lemma LeadingExact<F>(c: Config, kept: Timeline<F>, start: int, count: nat)
    requires c.rate > 0 && FirstTime(c, kept) > start && Leading(c, kept, start, count) < count
    ensures Leading(c, kept, start, count) == UsToFrames(FirstTime(c, kept) - start, c.rate)
  {
    assert (FirstTime(c, kept) - start) * c.rate > 0;
  }

  /** With no leading silence the first kept frame is the one due at `start`. */
  lemma DiscardNear<F>(c: Config, t: Timeline<F>, start: int)
    requires c.rate > 0 && t.readOffset <= |t.stream|
    requires Discard(c, t, start).Buffered() > 0 && FirstTime(c, Discard(c, t, start)) <= start
    ensures 2 * Abs(start * c.rate - (t.anchor * c.rate + Discard(c, t, start).readOffset * PERIOD)) <= PERIOD + c.rate
  {
    var late := start - FirstTime(c, t);
    TimestampNear(t.anchor, t.readOffset, c.rate);
    assert late * c.rate == start * c.rate - FirstTime(c, t) * c.rate;
    if late > 0 {
      RoundDivNear(late * c.rate, PERIOD);
      assert late * c.rate > 0;
    }
  }

  /** Which slot of the timeline a copied output index shows. */
  function CopiedPlace<F>(c: Config, t: Timeline<F>, start: int, count: nat, j: nat): int
    requires c.rate > 0 && t.readOffset <= |t.stream|
  {
    AfterDiscard(c, t, start).readOffset + j - Plan(c, t, start, count).leading
  }

  predicate IsCopied<F>(c: Config, t: Timeline<F>, start: int, count: nat, j: nat)
    requires c.rate > 0 && t.readOffset <= |t.stream|
  {
    var plan := Plan(c, t, start, count);
    plan.leading <= j < plan.leading + plan.copied
  }

  /** The output is silence except for the copied indices, which show consecutive slots. */
  lemma ReadOutput<F>(c: Config, t: Timeline<F>, start: int, count: nat, silence: F, j: nat)
    requires c.rate > 0 && t.readOffset <= |t.stream| && j < count
    ensures var output, k := Read(c, t, start, count, silence).2, CopiedPlace(c, t, start, count, j);
      && |output| == count
      && (if IsCopied(c, t, start, count, j)
          then 0 <= k < |t.stream| && output[j] == Value(t.stream[k], silence)
          else output[j] == silence)
  {
    ReadCovers(c, t, start, count, silence);
    var plan, kept := Plan(c, t, start, count), AfterDiscard(c, t, start);
    var from := kept.readOffset;
    var slots := kept.stream[from..from + plan.copied];
    ThreeParts(Zeros(plan.leading, silence), Values(slots, silence), Zeros(plan.trailing, silence), j);
    if IsCopied(c, t, start, count, j) {
      assert slots[j - plan.leading] == t.stream[from + j - plan.leading];
    }
  }

  lemma ThreeParts<T>(xs: seq<T>, ys: seq<T>, zs: seq<T>, j: nat)
    requires j < |xs| + |ys| + |zs|
    ensures (xs + ys + zs)[j]
         == if j < |xs| then xs[j] else if j < |xs| + |ys| then ys[j - |xs|] else zs[j - |xs| - |ys|]
  {
  }

  /** The read output is determined index by index. */
  lemma ReadOutputUnique<F>(c: Config, t: Timeline<F>, start: int, count: nat, silence: F, output: seq<F>)
    requires c.rate > 0 && t.readOffset <= |t.stream| && |output| == count
    requires forall j :: 0 <= j < count ==>
               output[j] == if IsCopied(c, t, start, count, j)
                            then Value(t.stream[CopiedPlace(c, t, start, count, j)], silence)
                            else silence
    ensures output == Read(c, t, start, count, silence).2
  {
    forall j | 0 <= j < count ensures output[j] == Read(c, t, start, count, silence).2[j] {
      ReadOutput(c, t, start, count, silence, j);
    }
    ReadCovers(c, t, start, count, silence);
  }

  datatype Op<F> = PushOp(frame: AudioFrame<F>) | ReadOp(start: int, count: nat) | ResetOp

  function EmptyTimeline<F>(): Timeline<F> { Timeline(false, 0, [], 0) }

  predicate Readable(c: Config, start: int, count: nat) { c.Configured() && count > 0 && start > 0 }

  function Step<F>(c: Config, t: Timeline<F>, op: Op<F>, silence: F): Timeline<F>
    requires t.readOffset <= |t.stream|
  {
    match op
    case PushOp(frame) => Push(c, t, frame).0
    case ReadOp(start, count) => if Readable(c, start, count) then Read(c, t, start, count, silence).0 else t
    case ResetOp => EmptyTimeline()
  }

  function Run<F>(c: Config, ops: seq<Op<F>>, silence: F): (t: Timeline<F>)
    ensures t.readOffset <= |t.stream|
  {
    if ops == [] then EmptyTimeline() else Step(c, Run(c, ops[..|ops| - 1], silence), ops[|ops| - 1], silence)
  }

  lemma {:induction false} RunAligned<F>(c: Config, ops: seq<Op<F>>, silence: F)
    ensures Aligned(c, Run(c, ops, silence))
  {
    if ops == [] {
    } else {
      var before, op := Run(c, ops[..|ops| - 1], silence), ops[|ops| - 1];
      RunAligned(c, ops[..|ops| - 1], silence);
      match op
      case PushOp(frame) => PushAligned(c, before, frame);
      case ReadOp(start, count) =>
        if Readable(c, start, count) {
          ReadCovers(c, before, start, count, silence);
          KeepsPlaces(c, before, Read(c, before, start, count, silence).0);
        }
      case ResetOp =>
    }
  }

  lemma KeepsPlaces<F>(c: Config, t: Timeline<F>, after: Timeline<F>)
    requires Aligned(c, t) && after.stream == t.stream && after.anchor == t.anchor && after.readOffset <= |after.stream|
    ensures Aligned(c, after)
  {
  }

  /**
   End-to-end accuracy: after any run of pushes, reads and resets, every pushed sample that a read copies
   out lands at an output index whose requested time is within one sample period plus one microsecond of
   the sample's own media time.
   */
  lemma EndToEnd<F>(c: Config, ops: seq<Op<F>>, silence: F, start: int, count: nat, j: nat)
    requires Readable(c, start, count) && IsCopied(c, Run(c, ops, silence), start, count, j)
    ensures var t := Run(c, ops, silence); var k := CopiedPlace(c, t, start, count, j);
      && 0 <= k < |t.stream| && j < count == |Read(c, t, start, count, silence).2|
      && Read(c, t, start, count, silence).2[j] == Value(t.stream[k], silence)
      && (t.stream[k].Heard? ==> Abs(start * c.rate + j * PERIOD - t.stream[k].time) <= PERIOD + c.rate)
  {
    var t := Run(c, ops, silence);
    RunAligned(c, ops, silence);
    ReadCovers(c, t, start, count, silence);
    ReadOutput(c, t, start, count, silence, j);
    ReadAccurate(c, t, start, count, j);
  }

  lemma ReadAccurate<F>(c: Config, t: Timeline<F>, start: int, count: nat, j: nat)
    requires c.rate > 0 && Aligned(c, t) && IsCopied(c, t, start, count, j)
    ensures var k := CopiedPlace(c, t, start, count, j);
      && 0 <= k < |t.stream|
      && (t.stream[k].Heard? ==> Abs(start * c.rate + j * PERIOD - t.stream[k].time) <= PERIOD + c.rate)
  {
    ReadNear(c, t, start, count, j);
    var k := CopiedPlace(c, t, start, count, j);
    assert Placed(c, t.anchor, k, t.stream[k]);
  }

  // ---------- completeness ----------

  /** A read pads its end only when nothing is left to copy. */
  lemma PadsOnlyWhenEmpty<F>(c: Config, t: Timeline<F>, start: int, count: nat, silence: F)
    requires c.rate > 0 && t.readOffset <= |t.stream| && (t.initialized || t.stream == [])
    ensures var (after, plan, _) := Read(c, t, start, count, silence);
      plan.trailing > 0 ==> after.readOffset == |after.stream|
  {
  }

  /** A discard goes no further than half a period and half a microsecond past `start`. */
  lemma DiscardStops<F>(c: Config, t: Timeline<F>, start: int)
    requires c.rate > 0 && t.readOffset <= |t.stream| && Discard(c, t, start).readOffset > t.readOffset
    ensures 2 * (t.anchor * c.rate + Discard(c, t, start).readOffset * PERIOD - start * c.rate) <= PERIOD + c.rate
  {
    var late := start - FirstTime(c, t);
    TimestampNear(t.anchor, t.readOffset, c.rate);
    RoundDivNear(late * c.rate, PERIOD);
    assert late * c.rate == start * c.rate - FirstTime(c, t) * c.rate;
  }

  /** The leading silence ends no later than half a period and half a microsecond after the first kept frame is due. */
  lemma LeadingStops<F>(c: Config, t: Timeline<F>, start: int, count: nat)
    requires c.rate > 0 && t.readOffset <= |t.stream| && t.initialized && AfterDiscard(c, t, start).Buffered() > 0
    ensures var kept := AfterDiscard(c, t, start);
      2 * (start * c.rate + Leading(c, kept, start, count) * PERIOD
           - (t.anchor * c.rate + kept.readOffset * PERIOD)) <= PERIOD + c.rate
  {
    var kept := AfterDiscard(c, t, start);
    if FirstTime(c, kept) > start {
      LeadingBelow(c, kept, start, count);
      TimestampNear(t.anchor, kept.readOffset, c.rate);
    } else {
      DiscardNear(c, t, start);
    }
  }

  lemma LeadingBelow<F>(c: Config, kept: Timeline<F>, start: int, count: nat)
    requires c.rate > 0 && FirstTime(c, kept) > start
    ensures 2 * (start * c.rate + Leading(c, kept, start, count) * PERIOD - FirstTime(c, kept) * c.rate) <= PERIOD
  {
    var early := FirstTime(c, kept) - start;
    RoundDivNear(early * c.rate, PERIOD);
    assert early * c.rate == FirstTime(c, kept) * c.rate - start * c.rate;
    assert early * c.rate > 0;
  }

  /** A buffered slot that is due at `place`, inside the request, is copied to an index. */
  lemma DueIsCopied<F>(c: Config, t: Timeline<F>, start: int, count: nat, k: nat) returns (j: nat)
    requires c.rate > 0 && t.initialized && t.readOffset <= k < |t.stream|
    requires var place := t.anchor * c.rate + k * PERIOD;
      2 * (place - start * c.rate) > PERIOD + c.rate &&
      2 * (start * c.rate + count * PERIOD - place) > PERIOD + c.rate
    ensures j < count && IsCopied(c, t, start, count, j) && CopiedPlace(c, t, start, count, j) == k
  {
    var kept := AfterDiscard(c, t, start);
    if kept.readOffset > t.readOffset {
      DiscardStops(c, t, start);
    }
    assert kept.readOffset <= k;
    LeadingStops(c, t, start, count);
    j := Leading(c, kept, start, count) + (k - kept.readOffset);
    assert start * c.rate + j * PERIOD < start * c.rate + count * PERIOD;
  }

  lemma {:induction false} RunStarted<F>(c: Config, ops: seq<Op<F>>, silence: F)
    ensures var t := Run(c, ops, silence); t.initialized || t.stream == []
  {
    if ops == [] {
    } else {
      RunStarted(c, ops[..|ops| - 1], silence);
    }
  }

  /**
   Nothing is missing: after any run of pushes, reads and resets, every buffered sample whose media time lies
   inside the requested interval by more than one sample period plus one microsecond is copied out, within that
   bound of its own media time.
   */
  lemma NothingMissing<F>(c: Config, ops: seq<Op<F>>, silence: F, start: int, count: nat, k: nat) returns (j: nat)
    requires Readable(c, start, count)
    requires var t := Run(c, ops, silence);
      && t.readOffset <= k < |t.stream| && t.stream[k].Heard?
      && t.stream[k].time - start * c.rate > PERIOD + c.rate
      && start * c.rate + count * PERIOD - t.stream[k].time > PERIOD + c.rate
    ensures var t := Run(c, ops, silence);
      && j < count == |Read(c, t, start, count, silence).2|
      && Read(c, t, start, count, silence).2[j] == t.stream[k].pcm
      && Abs(start * c.rate + j * PERIOD - t.stream[k].time) <= PERIOD + c.rate
  {
    var t := Run(c, ops, silence);
    RunStarted(c, ops, silence);
    RunAligned(c, ops, silence);
    assert Placed(c, t.anchor, k, t.stream[k]);
    j := DueIsCopied(c, t, start, count, k);
    EndToEnd(c, ops, silence, start, count, j);
  }

  /** Over every run, a read pads its end only when nothing is left to copy. */
  lemma PadsOnlyAtTheEnd<F>(c: Config, ops: seq<Op<F>>, silence: F, start: int, count: nat)
    requires Readable(c, start, count)
    ensures var (after, plan, _) := Read(c, Run(c, ops, silence), start, count, silence);
      plan.trailing > 0 ==> after.readOffset == |after.stream|
  {
    RunStarted(c, ops, silence);
    PadsOnlyWhenEmpty(c, Run(c, ops, silence), start, count, silence);
  }

  // ---------- what a push stores ----------

  /** The end of what has been written, on the scale of media times. */
  function EndTime<F>(c: Config, t: Timeline<F>): int { t.anchor * c.rate + |t.stream| * PERIOD }

  /** The pushed frame was taken as the beginning of a new timeline. */
  predicate Restarted<F>(t: Timeline<F>, frame: AudioFrame<F>, result: PushResult) {
    result.AcceptedAfterReset? || (result.Accepted? && !t.initialized)
  }

  /**
   Every sample of an acceptable frame is stored, unless it lies before the end of what has been written; the
   stored ones are consecutive and last, and stay buffered unless more newer ones follow than the buffer holds.
   */
  lemma PushStores<F>(c: Config, t: Timeline<F>, frame: AudioFrame<F>, i: nat)
    requires Aligned(c, t) && Acceptable(c, frame) && i < |frame.pcm|
    ensures var (after, result) := Push(c, t, frame);
      var k, sample := |after.stream| - |frame.pcm| + i, Sample(frame, c.rate, i);
      || (0 <= k && after.stream[k] == sample && (|frame.pcm| - i <= c.capacity ==> after.readOffset <= k))
      || (!Restarted(t, frame, result) && 2 * (sample.time - (EndTime(c, t) - PERIOD)) <= PERIOD + c.rate)
  {
    if t.initialized {
      DisplacementNear(c, t, frame);
    }
  }

  /** Without a restart what was written stays as it was, at its place, and only inserted silence lies in between. */
  lemma PushContinues<F>(c: Config, t: Timeline<F>, frame: AudioFrame<F>)
    requires Aligned(c, t) && Acceptable(c, frame)
    ensures var (after, result) := Push(c, t, frame);
      !Restarted(t, frame, result) ==>
        && after.anchor == t.anchor && t.stream <= after.stream
        && (forall k :: |t.stream| <= k < |after.stream| - |frame.pcm| ==> after.stream[k].Quiet?)
        && t.readOffset <= after.readOffset <= Max(t.readOffset, |after.stream| - c.capacity)
  {
  }

  /** A frame restarts the timeline only if it starts beyond the limits, and always if clearly beyond them. */
  lemma RestartsOnlyFar<F>(c: Config, t: Timeline<F>, frame: AudioFrame<F>)
    requires Aligned(c, t) && Acceptable(c, frame) && t.initialized
    ensures var distance := frame.timestampUs * c.rate - EndTime(c, t);
      var ahead, behind := (2 * Min(c.maxGap, c.discontinuity) + 1) * PERIOD, (2 * c.discontinuity + 1) * PERIOD;
      if Push(c, t, frame).1.AcceptedAfterReset?
      then 2 * distance >= ahead - c.rate || 2 * distance <= -behind + c.rate
      else -behind - c.rate <= 2 * distance <= ahead + c.rate
  {
    DisplacementNear(c, t, frame);
  }
}
