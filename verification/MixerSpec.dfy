/**
 The audio mixer at its lock boundaries: the mixing thread reserves a media interval, mixes unlocked and
 commits only if the cursor has not moved; the playback callback pops, pads and rebuffers; user changes
 clear the queue. A chunk element stands for the samples of all channels at one instant.
 */
module MixerSpec {
  import opened Common

  const INT64_MAX := 0x7FFF_FFFF_FFFF_FFFF
  const MICROSECONDS := 1_000_000
  const QUEUE_LIMIT := 5
  const CHUNK_MS := 10
  const RECOVERY_MS := 100
  const UINT32_MAX := 0xFFFF_FFFF

  datatype Chunk<T> = Chunk(start: int, frameCount: nat, data: seq<T>) {
    function ValidFrames(): nat { Min(|data|, frameCount) }
  }

  datatype Config = Config(rate: int, mixFrames: nat, threshold: nat) {
    predicate Usable() { rate > 0 && mixFrames > 0 && threshold > 0 && Duration() > 0 }
    function Duration(): int { FramesToMicroseconds(mixFrames, rate) }
  }

  /** `reserved` is the mixing thread's own note of the interval it is mixing. */
  datatype Mixer<T> = Mixer(queue: seq<Chunk<T>>, offset: nat, cursor: int, cursorReady: bool, underrun: nat,
                            clock: Option<int>, reserved: Option<int>)

  function Fresh<T>(): Mixer<T> { Mixer([], 0, 0, false, 0, None, None) }

  /** Initialisation succeeds exactly for usable formats. */
  function Configure(rate: int, channels: int): Option<Config> {
    if rate <= 0 || channels <= 0 || channels > 8 then None
    else
      var mixFrames, threshold := rate * CHUNK_MS / 1000, rate * RECOVERY_MS / 1000;
      if mixFrames == 0 || threshold == 0 || mixFrames > UINT32_MAX || threshold > UINT32_MAX then None
      else Some(Config(rate, mixFrames, threshold))
  }

  // ---------- time ----------

  function FramesToMicroseconds(frames: nat, rate: int): int {
    if rate <= 0 || frames == 0 then 0
    else
      var wholeSeconds, remaining := frames / rate, frames % rate;
      if wholeSeconds > INT64_MAX / MICROSECONDS then INT64_MAX
      else Min(wholeSeconds * MICROSECONDS + remaining * MICROSECONDS / rate, INT64_MAX)
  }

  /** The conversion by whole seconds and remainder is the rounded-down quotient, saturated. */
  lemma FramesToMicrosecondsIsFloor(frames: nat, rate: int)
    requires rate > 0
    ensures FramesToMicroseconds(frames, rate) == Min(frames * MICROSECONDS / rate, INT64_MAX)
  {
    var w, r := frames / rate, frames % rate;
    var q := r * MICROSECONDS / rate;
    assert frames == w * rate + r;
    assert frames * MICROSECONDS == (w * MICROSECONDS) * rate + r * MICROSECONDS by {
      assert (w * rate) * MICROSECONDS == (w * MICROSECONDS) * rate;
    }
    QuotientShift(w * MICROSECONDS, r * MICROSECONDS, rate);
    assert w > INT64_MAX / MICROSECONDS ==> w * MICROSECONDS > INT64_MAX;
  }

  lemma FramesToMicrosecondsMonotone(a: nat, b: nat, rate: int)
    requires a <= b
    ensures 0 <= FramesToMicroseconds(a, rate) <= FramesToMicroseconds(b, rate)
  {
    if rate > 0 {
      FramesToMicrosecondsIsFloor(a, rate);
      FramesToMicrosecondsIsFloor(b, rate);
      QuotientMonotone(a * MICROSECONDS, b * MICROSECONDS, rate);
    }
  }

  // ---------- the steps under the queue lock ----------

  /** What EnterRebufferingLocked and ResetPlaybackTimeline do to the queue, the cursor and the clock. */
  function Rebuffered<T>(m: Mixer<T>): Mixer<T> { Mixer([], 0, 0, false, 0, None, m.reserved) }

  function Next(cursor: int): int { if cursor < INT64_MAX then cursor + 1 else cursor }

  function Cleared<T>(m: Mixer<T>): Mixer<T> {
    if m.clock.Some? then Mixer([], 0, Next(m.clock.value), true, 0, m.clock, m.reserved)
    else Mixer([], 0, 0, false, 0, None, m.reserved)
  }

  /**
   The mixing thread's first critical section. `initial` is the start time the user buffers offer and
   `covered` whether one of them covers the chunk at the cursor.
   */
  function Reserve<T>(c: Config, m: Mixer<T>, initial: Option<int>, covered: bool): Mixer<T> {
    if m.reserved.Some? || |m.queue| >= QUEUE_LIMIT then m
    else if !m.cursorReady && initial.None? then m
    else
      var ready := if m.cursorReady then m else m.(cursor := initial.value, cursorReady := true);
      if ready.cursor <= 0 || ready.cursor > INT64_MAX - c.Duration() || !covered then ready
      else ready.(cursor := ready.cursor + c.Duration(), reserved := Some(ready.cursor))
  }

  predicate Unmoved<T>(c: Config, m: Mixer<T>) {
    m.reserved.Some? && m.cursorReady && m.cursor == m.reserved.value + c.Duration()
  }

  /** The second critical section when some user covered the whole interval. */
  function Commit<T>(c: Config, m: Mixer<T>, data: seq<T>): Mixer<T> {
    if !Unmoved(c, m) || |m.queue| >= QUEUE_LIMIT then m.(reserved := None)
    else m.(queue := m.queue + [Chunk(m.reserved.value, c.mixFrames, data)], reserved := None)
  }

  /** The second critical section when no user did. */
  function Abandon<T>(c: Config, m: Mixer<T>): Mixer<T> {
    (if Unmoved(c, m) then Rebuffered(m) else m).(reserved := None)
  }

  /** What the pop loop takes from the queue, and the media time right after the last frame taken. */
  datatype Draw<T> = Draw(queue: seq<Chunk<T>>, offset: nat, taken: seq<T>, end: Option<int>)

  function DrawFrom<T>(c: Config, queue: seq<Chunk<T>>, offset: nat, count: nat): Draw<T>
    decreases |queue|
  {
    if count == 0 || queue == [] then Draw(queue, offset, [], None)
    else
      var chunk := queue[0];
      var valid := chunk.ValidFrames();
      if offset >= valid then DrawFrom(c, queue[1..], 0, count)
      else
        var copied := Min(valid - offset, count);
        var taken := chunk.data[offset..offset + copied];
        var end := chunk.start + FramesToMicroseconds(offset + copied, c.rate);
        if offset + copied < valid then Draw(queue, offset + copied, taken, Some(end))
        else
          var rest := DrawFrom(c, queue[1..], 0, count - copied);
          rest.(taken := taken + rest.taken, end := if rest.end.Some? then rest.end else Some(end))
  }

  function Silent<T>(count: nat, silence: T): seq<T> { seq(count, _ => silence) }

  function Advance(clock: Option<int>, time: int): Option<int> { if time > 0 then Some(time) else clock }

  /** A callback that ran out of mixed audio: count the underrun and rebuffer, or let the clock run on. */
  function Underrun<T>(c: Config, m: Mixer<T>, end: Option<int>, count: nat, silent: nat): Mixer<T> {
    if end.None? && m.clock.None? then m.(underrun := 0)
    else
      var underrun := if silent < count then silent else m.underrun + silent;
      if underrun >= c.threshold then Rebuffered(m)
      else
        var next := if end.Some? then end.value + FramesToMicroseconds(silent, c.rate)
                    else m.clock.value + FramesToMicroseconds(count, c.rate);
        m.(underrun := underrun, clock := Advance(m.clock, next),
           cursor := if m.cursorReady then Next(next) else m.cursor)
  }

  /** What a callback makes of its draw: the clock follows it, or the missing frames are accounted for. */
  function Played<T>(c: Config, m: Mixer<T>, end: Option<int>, count: nat, silent: nat): Mixer<T> {
    if silent == 0 then m.(underrun := 0, clock := if end.Some? then Advance(m.clock, end.value) else m.clock)
    else Underrun(c, m, end, count, silent)
  }

  /** One playback callback of `count` frames: the new state and the output; a callback for nothing does nothing. */
  function Pop<T>(c: Config, m: Mixer<T>, count: nat, silence: T): (Mixer<T>, seq<T>) {
    if count == 0 then (m, [])
    else
      var draw := DrawFrom(c, m.queue, m.offset, count);
      var silent := if |draw.taken| <= count then count - |draw.taken| else 0;
      (Played(c, m.(queue := draw.queue, offset := draw.offset), draw.end, count, silent),
       draw.taken + Silent(silent, silence))
  }

  datatype Step<T> =
    | ReserveStep(initial: Option<int>, covered: bool)
    | CommitStep(data: seq<T>)
    | AbandonStep
    | PopStep(count: nat)
    | ClearStep
    | ResetStep

  function Apply<T>(c: Config, m: Mixer<T>, step: Step<T>, silence: T): Mixer<T> {
    match step
    case ReserveStep(initial, covered) => Reserve(c, m, initial, covered)
    case CommitStep(data) => if m.reserved.Some? && |data| == c.mixFrames then Commit(c, m, data) else m
    case AbandonStep => if m.reserved.Some? then Abandon(c, m) else m
    case PopStep(count) => Pop(c, m, count, silence).0
    case ClearStep => Cleared(m)
    case ResetStep => Rebuffered(m)
  }

  function Run<T>(c: Config, steps: seq<Step<T>>, silence: T): Mixer<T> {
    if steps == [] then Fresh() else Apply(c, Run(c, steps[..|steps| - 1], silence), steps[|steps| - 1], silence)
  }
}
