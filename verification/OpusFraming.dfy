/**
 How the Opus encoder cuts 48 kHz input into codec frames: consecutive blocks of the pushed PCM, stamped at a
 fixed pace. The codec itself is opaque; an emitted frame is the block it was given and its timestamp, and
 `successes` is how many encode calls of one operation succeed before one fails.
 */
module OpusFraming {
  import opened Common

  const OPUS_RATE := 48000
  const MAX_QUEUED := 100
  const RESET_THRESHOLD_US := 100_000

  predicate SupportedFrameSize(ms: nat) { ms == 5 || ms == 10 || ms == 20 || ms == 40 || ms == 60 }

  /** Samples of a block over all channels, and how long a block lasts. */
  datatype Config = Config(required: nat, channels: nat, frameUs: int) {
    predicate Usable() { required > 0 && channels > 0 && frameUs > 0 }
  }

  /** The framing of a supported frame size; anything else is refused. */
  function Configure(frameMs: nat, channels: nat): (r: Option<Config>)
    ensures r.Some? <==> SupportedFrameSize(frameMs) && 1 <= channels <= 2
    ensures r.Some? ==> r.value.Usable() && r.value.frameUs == frameMs * 1000
    ensures r.Some? ==> r.value.channels == channels && r.value.required == OPUS_RATE * frameMs / 1000 * channels
    ensures r.Some? ==> OPUS_RATE * frameMs / 1000 * 1_000_000 == r.value.frameUs * OPUS_RATE
  {
    if !SupportedFrameSize(frameMs) || channels == 0 || channels > 2 then None
    else
      var samples := OPUS_RATE * frameMs / 1000;
      Some(Config(samples * channels, channels, samples * 1_000_000 / OPUS_RATE))
  }

  datatype Frame<S> = Frame(pcm: seq<S>, timestampUs: int)

  /** `stream` is the input since the last reset, `encoded` how many of its blocks have been emitted. */
  datatype Framing<S> = Framing(started: bool, origin: int, stream: seq<S>, encoded: nat,
                                emitted: seq<Frame<S>>, queue: seq<Frame<S>>)

  function Fresh<S>(): Framing<S> { Framing(false, 0, [], 0, [], []) }

  function Next<S>(c: Config, f: Framing<S>): int { f.origin + f.encoded * c.frameUs }

  predicate Within<S>(c: Config, f: Framing<S>) { f.encoded * c.required <= |f.stream| }

  /** Where the next input sample is expected to start. */
  function Expected<S>(c: Config, f: Framing<S>): int
    requires c.Usable() && Within(c, f)
  {
    Next(c, f) + (|f.stream| - f.encoded * c.required) / c.channels * 1_000_000 / OPUS_RATE
  }

  predicate Jumps<S>(c: Config, f: Framing<S>, timestampUs: int)
    requires c.Usable() && Within(c, f)
  {
    f.started && Abs(timestampUs - Expected(c, f)) > RESET_THRESHOLD_US
  }

  function Accept<S>(c: Config, f: Framing<S>, pcm: seq<S>, timestampUs: int): Framing<S>
    requires c.Usable() && Within(c, f)
  {
    if !f.started then f.(started := true, origin := timestampUs - f.encoded * c.frameUs, stream := f.stream + pcm)
    else if Jumps(c, f, timestampUs) then f.(origin := timestampUs, stream := pcm, encoded := 0)
    else f.(stream := f.stream + pcm)
  }

  function Enqueue<S>(queue: seq<Frame<S>>, frame: Frame<S>): seq<Frame<S>> {
    (if |queue| >= MAX_QUEUED then queue[1..] else queue) + [frame]
  }

  predicate HasBlock<S>(c: Config, f: Framing<S>) { (f.encoded + 1) * c.required <= |f.stream| }

  function Block<S>(c: Config, f: Framing<S>): Frame<S>
    requires HasBlock(c, f)
  {
    Frame(f.stream[f.encoded * c.required..(f.encoded + 1) * c.required], Next(c, f))
  }

  function EncodeOne<S>(c: Config, f: Framing<S>): Framing<S>
    requires HasBlock(c, f)
  {
    f.(encoded := f.encoded + 1, emitted := f.emitted + [Block(c, f)], queue := Enqueue(f.queue, Block(c, f)))
  }

  /** Encodes complete blocks until there is none left or the codec fails; reports whether it failed. */
  function EncodeReady<S>(c: Config, f: Framing<S>, successes: nat): (Framing<S>, bool)
    decreases successes
  {
    if !HasBlock(c, f) then (f, true)
    else if successes == 0 then (f, false)
    else EncodeReady(c, EncodeOne(c, f), successes - 1)
  }

  function Push<S>(c: Config, f: Framing<S>, pcm: seq<S>, timestampUs: int, successes: nat): (Framing<S>, bool)
    requires c.Usable() && Within(c, f)
  {
    EncodeReady(c, Accept(c, f, pcm, timestampUs), successes)
  }

  function Tail<S>(c: Config, f: Framing<S>): int { |f.stream| - f.encoded * c.required }

  function Zeros<S>(count: nat, zero: S): seq<S> { seq(count, _ => zero) }

  function Padded<S>(c: Config, f: Framing<S>, zero: S): Framing<S> {
    f.(stream := f.stream + Zeros(if Tail(c, f) <= c.required then c.required - Tail(c, f) else 0, zero))
  }

  /** What Flush adds when all complete blocks are out: a last block padded with zeros, if anything is left. */
  function FlushTail<S>(c: Config, f: Framing<S>, zero: S, mayEncode: bool): (Framing<S>, bool) {
    if Tail(c, f) == 0 then (f, true)
    else
      var padded := Padded(c, f, zero);
      if !mayEncode || !HasBlock(c, padded) then (padded, false) else (EncodeOne(c, padded), true)
  }

  function Flush<S>(c: Config, f: Framing<S>, zero: S, successes: nat): (Framing<S>, bool) {
    var (g, ok) := EncodeReady(c, f, successes);
    if ok then FlushTail(c, g, zero, g.encoded - f.encoded < successes) else (g, false)
  }

  function Pull<S>(f: Framing<S>): (Framing<S>, Option<Frame<S>>) {
    if f.queue == [] then (f, None) else (f.(queue := f.queue[1..]), Some(f.queue[0]))
  }

  // ---------- what every operation keeps ----------

  /** The first `n` blocks of a stream, stamped from `origin` on. */
  function Blocks<S>(c: Config, stream: seq<S>, origin: int, n: nat): seq<Frame<S>>
    requires n * c.required <= |stream|
  {
    if n == 0 then []
    else
      assert n * c.required == (n - 1) * c.required + c.required;
      Blocks(c, stream, origin, n - 1)
      + [Frame(stream[(n - 1) * c.required..n * c.required], origin + (n - 1) * c.frameUs)]
  }

  predicate IsSuffix<T(==)>(xs: seq<T>, of: seq<T>) { |xs| <= |of| && xs == of[|of| - |xs|..] }

  /**
   The codec has been given exactly the first blocks of the stream, at a fixed pace, and the queue is the most
   recent part of what was emitted, at most a hundred frames.
   */
  predicate Framed<S(==)>(c: Config, f: Framing<S>) {
    && c.Usable() && Within(c, f)
    && (!f.started ==> f.stream == [] && f.encoded == 0)
    && IsSuffix(Blocks(c, f.stream, f.origin, f.encoded), f.emitted)
    && IsSuffix(f.queue, f.emitted) && |f.queue| <= MAX_QUEUED
  }

  lemma {:induction false} BlocksGrow<S>(c: Config, stream: seq<S>, more: seq<S>, origin: int, n: nat)
    requires n * c.required <= |stream|
    ensures Blocks(c, stream + more, origin, n) == Blocks(c, stream, origin, n)
  {
    if n == 0 {
    } else {
      assert n * c.required == (n - 1) * c.required + c.required;
      BlocksGrow(c, stream, more, origin, n - 1);
      var from, to := (n - 1) * c.required, n * c.required;
      assert (stream + more)[from..to] == stream[from..to];
    }
  }

  lemma {:induction false} BlocksCount<S>(c: Config, stream: seq<S>, origin: int, n: nat)
    requires n * c.required <= |stream|
    ensures |Blocks(c, stream, origin, n)| == n
  {
    if n == 0 {
    } else {
      assert n * c.required == (n - 1) * c.required + c.required;
      BlocksCount(c, stream, origin, n - 1);
    }
  }

  /** Frame number `i` given to the codec is the `i`-th block of the stream, `i` frame durations after its start. */
  lemma {:induction false} BlockAt<S>(c: Config, stream: seq<S>, origin: int, n: nat, i: nat)
    requires i < n && n * c.required <= |stream|
    ensures |Blocks(c, stream, origin, n)| == n && 0 <= i * c.required <= (i + 1) * c.required <= |stream|
    ensures Blocks(c, stream, origin, n)[i]
         == Frame(stream[i * c.required..(i + 1) * c.required], origin + i * c.frameUs)
  {
    BlocksCount(c, stream, origin, n);
    var m: nat := n - 1;
    assert n * c.required == m * c.required + c.required;
    if i < m {
      BlockAt(c, stream, origin, m, i);
      BlocksCount(c, stream, origin, m);
    }
  }

  lemma SuffixGrows<T>(xs: seq<T>, of: seq<T>, x: T)
    requires IsSuffix(xs, of)
    ensures IsSuffix(xs + [x], of + [x])
    ensures xs != [] ==> IsSuffix(xs[1..] + [x], of + [x])
  {
  }

  lemma AcceptFramed<S>(c: Config, f: Framing<S>, pcm: seq<S>, timestampUs: int)
    requires Framed(c, f)
    ensures Framed(c, Accept(c, f, pcm, timestampUs))
  {
    BlocksGrow(c, f.stream, pcm, f.origin, f.encoded);
  }

  lemma EncodeOneFramed<S>(c: Config, f: Framing<S>)
    requires Framed(c, f) && HasBlock(c, f) && f.started
    ensures Framed(c, EncodeOne(c, f))
  {
    SuffixGrows(Blocks(c, f.stream, f.origin, f.encoded), f.emitted, Block(c, f));
    SuffixGrows(f.queue, f.emitted, Block(c, f));
    BlocksStep(c, f);
  }

  /** Encoding adds `g.encoded - f.encoded` frames and the queue keeps as many of the latest as fit. */
  lemma {:induction false} EncodeReadyFramed<S>(c: Config, f: Framing<S>, successes: nat)
    requires Framed(c, f) && f.started
    ensures var (g, ok) := EncodeReady(c, f, successes);
      && Framed(c, g) && g.started && g.stream == f.stream && g.origin == f.origin
      && f.encoded <= g.encoded <= f.encoded + successes
      && (if ok then !HasBlock(c, g) else g.encoded == f.encoded + successes)
      && f.emitted <= g.emitted && |g.emitted| == |f.emitted| + g.encoded - f.encoded
      && |g.queue| == Min(MAX_QUEUED, |f.queue| + g.encoded - f.encoded)
    decreases successes
  {
    if HasBlock(c, f) && successes > 0 {
      EncodeOneFramed(c, f);
      EncodeReadyFramed(c, EncodeOne(c, f), successes - 1);
    }
  }

  lemma PushFramed<S>(c: Config, f: Framing<S>, pcm: seq<S>, timestampUs: int, successes: nat)
    requires Framed(c, f)
    ensures var (g, ok) := Push(c, f, pcm, timestampUs, successes);
      && Framed(c, g) && g.started && (ok ==> !HasBlock(c, g))
      && g.stream == Accept(c, f, pcm, timestampUs).stream && g.origin == Accept(c, f, pcm, timestampUs).origin
  {
    AcceptFramed(c, f, pcm, timestampUs);
    EncodeReadyFramed(c, Accept(c, f, pcm, timestampUs), successes);
  }

  lemma PullFramed<S>(c: Config, f: Framing<S>)
    requires Framed(c, f)
    ensures Framed(c, Pull(f).0)
  {
  }

  lemma PaddedFramed<S>(c: Config, f: Framing<S>, zero: S)
    requires Framed(c, f) && Tail(c, f) != 0
    ensures Framed(c, Padded(c, f, zero))
  {
    var padding := if Tail(c, f) <= c.required then c.required - Tail(c, f) else 0;
    BlocksGrow(c, f.stream, Zeros(padding, zero), f.origin, f.encoded);
  }

  lemma FlushTailFramed<S>(c: Config, f: Framing<S>, zero: S, mayEncode: bool)
    requires Framed(c, f) && !HasBlock(c, f)
    ensures var (g, ok) := FlushTail(c, f, zero, mayEncode); Framed(c, g) && (ok ==> Tail(c, g) == 0)
  {
    if Tail(c, f) != 0 {
      NextMultiple(f.encoded, c.required);
      PaddedFramed(c, f, zero);
      if mayEncode {
        EncodeOneFramed(c, Padded(c, f, zero));
      }
    }
  }

  // ---------- whole runs ----------

  datatype Op<S> =
    | PushOp(pcm: seq<S>, timestampUs: int, successes: nat)
    | FlushOp(successes: nat)
    | PullOp

  function Step<S>(c: Config, f: Framing<S>, op: Op<S>, zero: S): Framing<S>
    requires c.Usable() && Within(c, f)
  {
    match op
    case PushOp(pcm, timestampUs, successes) => Push(c, f, pcm, timestampUs, successes).0
    case FlushOp(successes) => Flush(c, f, zero, successes).0
    case PullOp => Pull(f).0
  }

  /** A flush keeps the framing whatever the codec does; if it succeeds, nothing is left to encode. */
  lemma FlushFramed<S>(c: Config, f: Framing<S>, zero: S, successes: nat)
    requires Framed(c, f)
    ensures var (g, ok) := Flush(c, f, zero, successes); Framed(c, g) && (ok ==> Tail(c, g) == 0)
  {
    if f.started {
      EncodeReadyFramed(c, f, successes);
    } else {
      assert EncodeReady(c, f, successes) == (f, true);
    }
    var (g, ok) := EncodeReady(c, f, successes);
    if ok {
      FlushTailFramed(c, g, zero, g.encoded - f.encoded < successes);
    }
  }

  lemma StepFramed<S>(c: Config, f: Framing<S>, op: Op<S>, zero: S)
    requires Framed(c, f)
    ensures Framed(c, Step(c, f, op, zero))
  {
    match op
    case PushOp(pcm, timestampUs, successes) => PushFramed(c, f, pcm, timestampUs, successes);
    case FlushOp(successes) => FlushFramed(c, f, zero, successes);
    case PullOp => PullFramed(c, f);
  }

  ghost function Run<S>(c: Config, ops: seq<Op<S>>, zero: S): (f: Framing<S>)
    requires c.Usable()
    ensures Within(c, f)
    decreases |ops|, 0
  {
    if ops == [] then Fresh()
    else
      var before := Run(c, ops[..|ops| - 1], zero);
      RunFramed(c, ops[..|ops| - 1], zero);
      StepFramed(c, before, ops[|ops| - 1], zero);
      Step(c, before, ops[|ops| - 1], zero)
  }

  /**
   Over every run of pushes with any timestamps, flushes and pulls, and with any codec failures, the codec has
   last been given exactly the first blocks of the stream since the last jump, at a fixed pace, and the queue is
   the most recent part of what was emitted, at most a hundred frames.
   */
  lemma {:induction false} RunFramed<S>(c: Config, ops: seq<Op<S>>, zero: S)
    requires c.Usable()
    ensures Framed(c, Run(c, ops, zero))
    decreases |ops|, 1
  {
    if ops == [] {
      assert Run(c, ops, zero) == Fresh();
    } else {
      RunFramed(c, ops[..|ops| - 1], zero);
      StepFramed(c, Run(c, ops[..|ops| - 1], zero), ops[|ops| - 1], zero);
    }
  }

  // ---------- the split of the input does not matter ----------

  datatype Input<S> = Input(pcm: seq<S>, timestampUs: int)

  function Concat<S>(inputs: seq<Input<S>>): seq<S> {
    if inputs == [] then [] else Concat(inputs[..|inputs| - 1]) + inputs[|inputs| - 1].pcm
  }

  /** Pushes the inputs one after another with a codec that does not fail. */
  ghost function PushAll<S>(c: Config, inputs: seq<Input<S>>): (f: Framing<S>)
    requires c.Usable()
    ensures Within(c, f)
    decreases |inputs|
  {
    if inputs == [] then Fresh()
    else
      var last := inputs[|inputs| - 1];
      var before := PushAll(c, inputs[..|inputs| - 1]);
      EncodeReadyWithin(c, Accept(c, before, last.pcm, last.timestampUs), |before.stream| + |last.pcm| + 1);
      Push(c, before, last.pcm, last.timestampUs, |before.stream| + |last.pcm| + 1).0
  }

  lemma {:induction false} EncodeReadyWithin<S>(c: Config, f: Framing<S>, successes: nat)
    requires Within(c, f)
    ensures Within(c, EncodeReady(c, f, successes).0)
    decreases successes
  {
    if HasBlock(c, f) && successes > 0 {
      EncodeReadyWithin(c, EncodeOne(c, f), successes - 1);
    }
  }

  ghost predicate SmoothAt<S>(c: Config, inputs: seq<Input<S>>, i: nat)
    requires c.Usable() && i < |inputs|
  {
    !Jumps(c, PushAll(c, inputs[..i]), inputs[i].timestampUs)
  }

  /** No input's timestamp is more than 100 ms away from where it is expected. */
  ghost predicate Steady<S>(c: Config, inputs: seq<Input<S>>)
    requires c.Usable()
  {
    forall i :: 0 <= i < |inputs| ==> SmoothAt(c, inputs, i)
  }

  lemma ProductAtLeast(n: nat, size: nat)
    requires size > 0
    ensures n * size >= n
  {
    assert n * (size - 1) >= 0;
    assert n * size == n * (size - 1) + n;
  }

  /** A codec that may succeed often enough leaves no complete block. */
  lemma {:induction false} EncodeReadyFinishes<S>(c: Config, f: Framing<S>, successes: nat)
    requires Framed(c, f) && f.started && successes > |f.stream| - f.encoded
    ensures EncodeReady(c, f, successes).1
    decreases successes
  {
    if HasBlock(c, f) {
      ProductAtLeast(f.encoded + 1, c.required);
      EncodeOneFramed(c, f);
      EncodeReadyFinishes(c, EncodeOne(c, f), successes - 1);
    }
  }

  /** `f` holds the blocks of `stream` from `origin` on and less than one block more. */
  ghost predicate Cut<S>(c: Config, f: Framing<S>, stream: seq<S>, origin: int) {
    && Framed(c, f) && f.stream == stream && f.origin == origin && !HasBlock(c, f)
    && f.emitted == Blocks(c, stream, origin, f.encoded)
  }

  lemma BlocksStep<S>(c: Config, f: Framing<S>)
    requires HasBlock(c, f) && Within(c, f)
    ensures Blocks(c, f.stream, f.origin, f.encoded + 1) == Blocks(c, f.stream, f.origin, f.encoded) + [Block(c, f)]
  {
    assert (f.encoded + 1 - 1) * c.required == f.encoded * c.required;
  }

  lemma {:induction false} EncodeReadyEmits<S>(c: Config, f: Framing<S>, successes: nat)
    requires Within(c, f) && f.emitted == Blocks(c, f.stream, f.origin, f.encoded)
    ensures var g := EncodeReady(c, f, successes).0;
      && Within(c, g) && g.stream == f.stream && g.origin == f.origin
      && g.emitted == Blocks(c, f.stream, f.origin, g.encoded)
    decreases successes
  {
    if HasBlock(c, f) && successes > 0 {
      BlocksStep(c, f);
      EncodeReadyEmits(c, EncodeOne(c, f), successes - 1);
    }
  }

  lemma PushCuts<S>(c: Config, f: Framing<S>, input: Input<S>, stream: seq<S>, origin: int)
    requires c.Usable() && (if f.started then Cut(c, f, stream, origin) else f == Fresh() && stream == [])
    requires !f.started ==> origin == input.timestampUs
    requires !Jumps(c, f, input.timestampUs)
    ensures var g := Push(c, f, input.pcm, input.timestampUs, |f.stream| + |input.pcm| + 1).0;
      g.started && Cut(c, g, stream + input.pcm, origin)
  {
    var accepted := Accept(c, f, input.pcm, input.timestampUs);
    AcceptFramed(c, f, input.pcm, input.timestampUs);
    BlocksGrow(c, f.stream, input.pcm, f.origin, f.encoded);
    EncodeEnough(c, accepted, |f.stream| + |input.pcm| + 1);
  }

  lemma EncodeEnough<S>(c: Config, f: Framing<S>, successes: nat)
    requires Framed(c, f) && f.started && f.emitted == Blocks(c, f.stream, f.origin, f.encoded)
    requires successes > |f.stream| - f.encoded
    ensures EncodeReady(c, f, successes).0.started && Cut(c, EncodeReady(c, f, successes).0, f.stream, f.origin)
  {
    EncodeReadyFramed(c, f, successes);
    EncodeReadyFinishes(c, f, successes);
    EncodeReadyEmits(c, f, successes);
  }

  lemma {:induction false} PushAllCuts<S>(c: Config, inputs: seq<Input<S>>)
    requires c.Usable() && inputs != [] && Steady(c, inputs)
    ensures PushAll(c, inputs).started && Cut(c, PushAll(c, inputs), Concat(inputs), inputs[0].timestampUs)
  {
    var n := |inputs| - 1;
    var before, last := PushAll(c, inputs[..n]), inputs[n];
    SteadyFrom(c, inputs);
    if n == 0 {
    } else {
      PushAllCuts(c, inputs[..n]);
    }
    assert SmoothAt(c, inputs, n);
    PushCuts(c, before, last, Concat(inputs[..n]), inputs[0].timestampUs);
  }

  /**
   Framing is insensitive to how the PCM is split: two steady series of inputs with the same concatenation
   and the same first timestamp give the codec the same frames and leave the same tail.
   */
  lemma SplitInsensitive<S>(c: Config, xs: seq<Input<S>>, ys: seq<Input<S>>)
    requires c.Usable() && xs != [] && ys != [] && Steady(c, xs) && Steady(c, ys)
    requires Concat(xs) == Concat(ys) && xs[0].timestampUs == ys[0].timestampUs
    ensures var f, g := PushAll(c, xs), PushAll(c, ys);
      f.emitted == g.emitted && f.stream == g.stream && f.encoded == g.encoded
  {
    PushAllCuts(c, xs);
    PushAllCuts(c, ys);
    var f, g := PushAll(c, xs), PushAll(c, ys);
    SameCount(c, f, g);
  }

  lemma SameQuotient(length: nat, size: nat, d: nat, e: nat)
    requires size > 0 && d * size <= length && length < (e + 1) * size
    ensures d <= e
  {
    assert d > e ==> (d - e - 1) * size >= 0;
    assert d * size == (d - e - 1) * size + (e + 1) * size;
  }

  lemma SameCount<S>(c: Config, f: Framing<S>, g: Framing<S>)
    requires c.Usable() && Within(c, f) && Within(c, g) && !HasBlock(c, f) && !HasBlock(c, g) && f.stream == g.stream
    ensures f.encoded == g.encoded
  {
    SameQuotient(|f.stream|, c.required, f.encoded, g.encoded);
    SameQuotient(|f.stream|, c.required, g.encoded, f.encoded);
  }

  // ---------- nothing is lost at the end ----------

  function Payload<S>(frames: seq<Frame<S>>): seq<S> {
    if frames == [] then [] else Payload(frames[..|frames| - 1]) + frames[|frames| - 1].pcm
  }

  lemma PayloadAppend<S>(frames: seq<Frame<S>>, frame: Frame<S>)
    ensures Payload(frames + [frame]) == Payload(frames) + frame.pcm
  {
    assert (frames + [frame])[..|frames|] == frames;
  }

  lemma LastPayload<S>(c: Config, stream: seq<S>, origin: int, n: nat, from: nat, to: nat)
    requires from == n * c.required && to == (n + 1) * c.required && from <= to <= |stream|
    requires Payload(Blocks(c, stream, origin, n)) == stream[..from]
    ensures Payload(Blocks(c, stream, origin, n + 1)) == stream[..to]
  {
    PayloadAppend(Blocks(c, stream, origin, n), Frame(stream[from..to], origin + n * c.frameUs));
    PrefixSplit(stream, from, to);
  }

  lemma {:induction false} BlocksPayload<S>(c: Config, stream: seq<S>, origin: int, n: nat, end: nat)
    requires end == n * c.required && end <= |stream|
    ensures Payload(Blocks(c, stream, origin, n)) == stream[..end]
    decreases n
  {
    if n == 0 {
      assert Blocks(c, stream, origin, 0) == [];
    } else {
      var m: nat := n - 1;
      NextMultiple(m, c.required);
      BlocksPayload(c, stream, origin, m, end - c.required);
      LastPayload(c, stream, origin, m, end - c.required, end);
    }
  }

  lemma PrefixSplit<S>(s: seq<S>, from: nat, to: nat)
    requires from <= to <= |s|
    ensures s[..from] + s[from..to] == s[..to]
  {
  }

  lemma NextMultiple(n: nat, size: nat)
    ensures (n + 1) * size == n * size + size
  {
  }

  lemma FlushTailPads<S>(c: Config, f: Framing<S>, zero: S)
    requires Framed(c, f) && f.started && !HasBlock(c, f) && Tail(c, f) > 0
    requires f.emitted == Blocks(c, f.stream, f.origin, f.encoded)
    ensures var (g, ok) := FlushTail(c, f, zero, true);
      && ok && g.encoded == f.encoded + 1
      && g.stream == f.stream + Zeros(c.required - Tail(c, f), zero)
      && g.encoded * c.required == |g.stream|
      && g.emitted == Blocks(c, g.stream, f.origin, g.encoded)
  {
    NextMultiple(f.encoded, c.required);
    var padded := Padded(c, f, zero);
    assert Within(c, padded) && HasBlock(c, padded);
    BlocksGrow(c, f.stream, Zeros(c.required - Tail(c, f), zero), f.origin, f.encoded);
    BlocksStep(c, padded);
  }

  /** `f` has handed over the whole stream, which is `input` with `padding` zeros behind it. */
  ghost predicate Complete<S>(c: Config, f: Framing<S>, input: seq<S>, origin: int, zero: S, padding: nat) {
    && padding < c.required
    && f.stream == input + Zeros(padding, zero)
    && f.encoded * c.required == |f.stream|
    && f.emitted == Blocks(c, f.stream, origin, f.encoded)
    && Payload(f.emitted) == f.stream
  }

  /**
   Flushing a steady series of inputs hands the codec every sample that was pushed, followed by less than one
   block of silence, and by none at all when the input ended on a block boundary.
   */
  lemma FlushCoversEverything<S>(c: Config, inputs: seq<Input<S>>, zero: S, successes: nat)
    requires c.Usable() && inputs != [] && Steady(c, inputs) && successes > 0
    ensures var f := PushAll(c, inputs);
      var padding := if Tail(c, f) == 0 then 0 else c.required - Tail(c, f);
      && Flush(c, f, zero, successes).1
      && padding >= 0
      && Complete(c, Flush(c, f, zero, successes).0, Concat(inputs), inputs[0].timestampUs, zero, padding)
  {
    PushAllCuts(c, inputs);
    var f := PushAll(c, inputs);
    TailBound(c, f);
    var g := Flush(c, f, zero, successes).0;
    if Tail(c, f) == 0 {
      assert f.stream + Zeros(0, zero) == f.stream;
    } else {
      FlushTailPads(c, f, zero);
    }
    BlocksPayload(c, g.stream, f.origin, g.encoded, |g.stream|);
    assert g.stream[..|g.stream|] == g.stream;
  }

  lemma TailBound<S>(c: Config, f: Framing<S>)
    requires Within(c, f) && !HasBlock(c, f)
    ensures 0 <= Tail(c, f) < c.required
  {
    assert (f.encoded + 1) * c.required == f.encoded * c.required + c.required;
  }

  // ---------- what counts as a jump ----------

  /** How long the samples of a stream last. */
  function StreamTime(c: Config, length: nat): int
    requires c.Usable()
  {
    length / c.channels * 1_000_000 / OPUS_RATE
  }

  /** Counting from the blocks that are out gives the same time as counting from the start. */
  lemma ExpectedIsStreamTime<S>(frameMs: nat, channels: nat, c: Config, f: Framing<S>)
    requires Configure(frameMs, channels) == Some(c) && Within(c, f)
    ensures Expected(c, f) == f.origin + StreamTime(c, |f.stream|)
  {
    var samples, tail := OPUS_RATE * frameMs / 1000, |f.stream| - f.encoded * c.required;
    assert f.encoded * c.required == f.encoded * samples * channels;
    QuotientShift(f.encoded * samples, tail, channels);
    assert f.encoded * samples * 1_000_000 == f.encoded * c.frameUs * OPUS_RATE by {
      assert f.encoded * samples * 1_000_000 == f.encoded * (samples * 1_000_000);
      assert f.encoded * (c.frameUs * OPUS_RATE) == f.encoded * c.frameUs * OPUS_RATE;
    }
    QuotientShift(f.encoded * c.frameUs, tail / channels * 1_000_000, OPUS_RATE);
  }

  /** Every input is within 100 ms of where the samples before it end. */
  ghost predicate OnTime<S>(c: Config, inputs: seq<Input<S>>)
    requires c.Usable()
  {
    forall i :: 0 <= i < |inputs| ==> Punctual(c, inputs, i)
  }

  predicate Punctual<S>(c: Config, inputs: seq<Input<S>>, i: nat)
    requires c.Usable() && i < |inputs|
  {
    Abs(inputs[i].timestampUs - (inputs[0].timestampUs + StreamTime(c, |Concat(inputs[..i])|))) <= RESET_THRESHOLD_US
  }

  lemma OnTimePrefix<S>(c: Config, inputs: seq<Input<S>>)
    requires c.Usable() && |inputs| > 1
    ensures OnTime(c, inputs) <==> OnTime(c, inputs[..|inputs| - 1]) && Punctual(c, inputs, |inputs| - 1)
  {
    var n := |inputs| - 1;
    forall i | 0 <= i < n ensures Punctual(c, inputs, i) <==> Punctual(c, inputs[..n], i) {
      assert inputs[..n][..i] == inputs[..i];
    }
  }

  lemma LastJumps<S>(frameMs: nat, channels: nat, c: Config, inputs: seq<Input<S>>)
    requires Configure(frameMs, channels) == Some(c) && |inputs| > 1 && Steady(c, inputs[..|inputs| - 1])
    ensures var n := |inputs| - 1;
      Jumps(c, PushAll(c, inputs[..n]), inputs[n].timestampUs) <==> !Punctual(c, inputs, n)
  {
    var n := |inputs| - 1;
    PushAllCuts(c, inputs[..n]);
    ExpectedIsStreamTime(frameMs, channels, c, PushAll(c, inputs[..n]));
  }

  lemma SmoothAtPrefix<S>(c: Config, inputs: seq<Input<S>>, n: nat, i: nat)
    requires c.Usable() && i < n <= |inputs|
    ensures SmoothAt(c, inputs[..n], i) <==> SmoothAt(c, inputs, i)
  {
    assert inputs[..n][..i] == inputs[..i];
  }

  lemma SteadyFrom<S>(c: Config, inputs: seq<Input<S>>)
    requires c.Usable() && inputs != []
    ensures Steady(c, inputs) <==> Steady(c, inputs[..|inputs| - 1]) && SmoothAt(c, inputs, |inputs| - 1)
  {
    var n := |inputs| - 1;
    forall i | 0 <= i < n ensures SmoothAt(c, inputs[..n], i) <==> SmoothAt(c, inputs, i) {
      SmoothAtPrefix(c, inputs, n, i);
    }
  }

  /** The encoder sees no jump exactly when every input is within 100 ms of the end of the samples before it. */
  lemma {:induction false} SteadyIsOnTime<S>(frameMs: nat, channels: nat, c: Config, inputs: seq<Input<S>>)
    requires Configure(frameMs, channels) == Some(c) && inputs != []
    ensures Steady(c, inputs) <==> OnTime(c, inputs)
    decreases |inputs|
  {
    var n := |inputs| - 1;
    SteadyFrom(c, inputs);
    if n == 0 {
      assert inputs[..0] == [];
      assert Punctual(c, inputs, 0);
    } else {
      SteadyIsOnTime(frameMs, channels, c, inputs[..n]);
      OnTimePrefix(c, inputs);
      if Steady(c, inputs[..n]) {
        LastJumps(frameMs, channels, c, inputs);
      }
    }
  }

  // ---------- a jump starts afresh ----------

  /** Encoding depends on the stream alone, not on what was emitted before it. */
  lemma {:induction false} EncodeReadyAlike<S>(c: Config, f: Framing<S>, g: Framing<S>, before: seq<Frame<S>>,
                                               successes: nat)
    requires f.stream == g.stream && f.origin == g.origin && f.encoded == g.encoded
    requires f.emitted == before + g.emitted
    ensures var (f', okF) := EncodeReady(c, f, successes);
      var (g', okG) := EncodeReady(c, g, successes);
      && f'.stream == g'.stream && f'.origin == g'.origin && f'.encoded == g'.encoded
      && f'.emitted == before + g'.emitted && okF == okG
    decreases successes
  {
    if HasBlock(c, f) && successes > 0 {
      assert EncodeOne(c, f).emitted == before + EncodeOne(c, g).emitted;
      EncodeReadyAlike(c, EncodeOne(c, f), EncodeOne(c, g), before, successes - 1);
    }
  }

  /** After a jump the encoder goes on as a new one would from that input; what was left over is dropped. */
  lemma JumpStartsAfresh<S>(c: Config, f: Framing<S>, pcm: seq<S>, timestampUs: int, successes: nat)
    requires c.Usable() && Within(c, f) && Jumps(c, f, timestampUs)
    ensures var (g, okG) := Push(c, f, pcm, timestampUs, successes);
      var (h, okH) := Push(c, Fresh(), pcm, timestampUs, successes);
      && g.stream == h.stream == pcm && g.origin == h.origin == timestampUs && g.encoded == h.encoded
      && g.emitted == f.emitted + h.emitted && okG == okH
  {
    assert f.emitted + [] == f.emitted;
    assert [] + pcm == pcm;
    EncodeReadyAlike(c, Accept(c, f, pcm, timestampUs), Accept(c, Fresh(), pcm, timestampUs), f.emitted, successes);
    EncodeReadyStream(c, Accept(c, Fresh(), pcm, timestampUs), successes);
  }

  lemma {:induction false} EncodeReadyStream<S>(c: Config, f: Framing<S>, successes: nat)
    ensures var g := EncodeReady(c, f, successes).0; g.stream == f.stream && g.origin == f.origin
    decreases successes
  {
    if HasBlock(c, f) && successes > 0 {
      EncodeReadyStream(c, EncodeOne(c, f), successes - 1);
    }
  }

  // ---------- first in, first out ----------

  /** The number of the next frame to be handed out, counted from the first one emitted. */
  function Position<S>(f: Framing<S>): int { |f.emitted| - |f.queue| }

  /** A pull hands out the oldest frame that is waiting, and only that one. */
  lemma PullIsOldest<S>(c: Config, ops: seq<Op<S>>, zero: S)
    requires c.Usable() && Run(c, ops, zero).queue != []
    ensures var f := Run(c, ops, zero);
      && 0 <= Position(f) < |f.emitted| && Pull(f).1 == Some(f.emitted[Position(f)])
      && Pull(f).0.emitted == f.emitted && Position(Pull(f).0) == Position(f) + 1
  {
    RunFramed(c, ops, zero);
  }

  /** Frames are skipped only where more than a hundred are waiting. */
  ghost predicate MovesOn<S>(f: Framing<S>, g: Framing<S>) {
    f.emitted <= g.emitted && Position(g) == Max(Position(f), |g.emitted| - MAX_QUEUED)
  }

  lemma PushMovesOn<S>(c: Config, f: Framing<S>, pcm: seq<S>, timestampUs: int, successes: nat)
    requires Framed(c, f)
    ensures MovesOn(f, Push(c, f, pcm, timestampUs, successes).0)
  {
    AcceptFramed(c, f, pcm, timestampUs);
    EncodeReadyFramed(c, Accept(c, f, pcm, timestampUs), successes);
  }

  lemma FlushMovesOn<S>(c: Config, f: Framing<S>, zero: S, successes: nat)
    requires Framed(c, f)
    ensures MovesOn(f, Flush(c, f, zero, successes).0)
  {
    if f.started {
      EncodeReadyFramed(c, f, successes);
    }
  }

  lemma StepMovesOn<S>(c: Config, f: Framing<S>, op: Op<S>, zero: S)
    requires Framed(c, f)
    ensures var g := Step(c, f, op, zero);
      f.emitted <= g.emitted && Position(f) <= Position(g) && (!op.PullOp? ==> MovesOn(f, g))
  {
    match op
    case PushOp(pcm, timestampUs, successes) => PushMovesOn(c, f, pcm, timestampUs, successes);
    case FlushOp(successes) => FlushMovesOn(c, f, zero, successes);
    case PullOp =>
  }

  lemma {:induction false} RunMovesOn<S>(c: Config, ops: seq<Op<S>>, i: nat, zero: S)
    requires c.Usable() && i <= |ops|
    ensures var f, g := Run(c, ops[..i], zero), Run(c, ops, zero);
      f.emitted <= g.emitted && Position(f) <= Position(g)
    decreases |ops|
  {
    if i == |ops| {
      assert ops[..i] == ops;
    } else {
      var before := ops[..|ops| - 1];
      RunFramed(c, before, zero);
      RunMovesOn(c, before, i, zero);
      assert before[..i] == ops[..i];
      StepMovesOn(c, Run(c, before, zero), ops[|ops| - 1], zero);
    }
  }

  /** Over every run, a later pull hands out a frame that was emitted later: nothing twice, nothing out of order. */
  lemma PullsInOrder<S>(c: Config, ops: seq<Op<S>>, i: nat, j: nat, zero: S)
    requires c.Usable() && i < j < |ops| && ops[i].PullOp? && ops[j].PullOp?
    requires Run(c, ops[..i], zero).queue != [] && Run(c, ops[..j], zero).queue != []
    ensures var f, g := Run(c, ops[..i], zero), Run(c, ops[..j], zero);
      && 0 <= Position(f) < Position(g) < |g.emitted|
      && Pull(f).1 == Some(g.emitted[Position(f)]) && Pull(g).1 == Some(g.emitted[Position(g)])
  {
    PullIsOldest(c, ops[..i], zero);
    PullIsOldest(c, ops[..j], zero);
    assert ops[..i + 1][..i] == ops[..i];
    assert Run(c, ops[..i + 1], zero) == Pull(Run(c, ops[..i], zero)).0;
    RunMovesOn(c, ops[..j], i + 1, zero);
    assert ops[..j][..i + 1] == ops[..i + 1];
  }
}
