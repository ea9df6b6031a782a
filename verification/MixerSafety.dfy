/** What every interleaving of the mixer's steps keeps. */
module MixerSafety {
  import opened Common
  import opened MixerSpec

  // ---------- the queue is contiguous ----------

  predicate ChunkOk<T>(c: Config, chunk: Chunk<T>) {
    chunk.frameCount == |chunk.data| == c.mixFrames && chunk.start > 0
  }

  /** Chunks abut in media time. */
  predicate Abutting<T>(c: Config, queue: seq<Chunk<T>>) {
    && (forall i :: 0 <= i < |queue| ==> ChunkOk(c, queue[i]))
    && forall i :: 0 <= i < |queue| - 1 ==> queue[i].start + c.Duration() == queue[i + 1].start
  }

  function End<T>(c: Config, queue: seq<Chunk<T>>): int
    requires queue != []
  {
    queue[|queue| - 1].start + c.Duration()
  }

  /**
   The queue holds at most five abutting chunks and ends at the cursor, or at the start of the interval
   being mixed when that reservation still stands; a running clock is behind the cursor, and an underrun
   is shorter than the rebuffering threshold.
   */
  predicate Contiguous<T>(c: Config, m: Mixer<T>) {
    && c.Usable() && Abutting(c, m.queue) && |m.queue| <= QUEUE_LIMIT
    && OffsetFits(c, m.queue, m.offset)
    && (m.queue != [] ==> m.cursorReady && if m.reserved.Some? then Unmoved(c, m) && End(c, m.queue) == m.reserved.value
                                           else End(c, m.queue) == m.cursor)
    && (m.reserved.Some? ==> m.reserved.value > 0 && |m.queue| < QUEUE_LIMIT)
    && (m.clock.Some? ==> m.clock.value > 0 && m.cursorReady && m.clock.value <= m.cursor)
    && m.underrun < c.threshold
  }

  predicate OffsetFits<T>(c: Config, queue: seq<Chunk<T>>, offset: nat) {
    if queue == [] then offset == 0 else offset < c.mixFrames
  }

  lemma RestAbutting<T>(c: Config, queue: seq<Chunk<T>>)
    requires Abutting(c, queue) && queue != []
    ensures ChunkOk(c, queue[0]) && Abutting(c, queue[1..])
    ensures if queue[1..] == [] then End(c, queue) == queue[0].start + c.Duration()
            else End(c, queue[1..]) == End(c, queue) && queue[1..][0].start == queue[0].start + c.Duration()
  {
    assert forall i :: 0 <= i < |queue[1..]| ==> queue[1..][i] == queue[i + 1];
  }

  lemma {:induction false} DrawAbutting<T>(c: Config, queue: seq<Chunk<T>>, offset: nat, count: nat)
    requires c.Usable() && Abutting(c, queue) && OffsetFits(c, queue, offset)
    ensures var d := DrawFrom(c, queue, offset, count);
      && Abutting(c, d.queue) && |d.queue| <= |queue| && OffsetFits(c, d.queue, d.offset)
      && (d.queue != [] ==> queue != [] && End(c, d.queue) == End(c, queue) && |d.taken| == count)
      && |d.taken| <= count
    decreases |queue|
  {
    if count > 0 && queue != [] {
      RestAbutting(c, queue);
      var copied := Min(c.mixFrames - offset, count);
      if offset + copied >= c.mixFrames {
        DrawAbutting(c, queue[1..], 0, count - copied);
      }
    }
  }

  /** Every chunk ends at or before the end of the queue. */
  lemma {:induction false} EndAfterStart<T>(c: Config, queue: seq<Chunk<T>>, i: nat)
    requires c.Usable() && Abutting(c, queue) && i < |queue|
    ensures queue[i].start + c.Duration() <= End(c, queue)
    decreases |queue| - i
  {
    if i < |queue| - 1 {
      assert queue[i].start + c.Duration() == queue[i + 1].start;
      EndAfterStart(c, queue, i + 1);
    }
  }

  lemma {:induction false} DrawEnd<T>(c: Config, queue: seq<Chunk<T>>, offset: nat, count: nat)
    requires c.Usable() && Abutting(c, queue) && OffsetFits(c, queue, offset)
    ensures var d := DrawFrom(c, queue, offset, count);
      d.end.Some? ==> queue != [] && 0 < d.end.value <= End(c, queue)
    decreases |queue|
  {
    if count > 0 && queue != [] {
      RestAbutting(c, queue);
      EndAfterStart(c, queue, 0);
      var copied := Min(c.mixFrames - offset, count);
      FramesToMicrosecondsMonotone(offset + copied, c.mixFrames, c.rate);
      if offset + copied >= c.mixFrames {
        DrawEnd(c, queue[1..], 0, count - copied);
      }
    }
  }

  lemma UnderrunContiguous<T>(c: Config, m: Mixer<T>, end: Option<int>, count: nat, silent: nat)
    requires c.Usable() && m.queue == [] && m.offset == 0
    requires m.reserved.Some? ==> m.reserved.value > 0
    requires m.clock.Some? ==> m.clock.value > 0 && m.cursorReady
    requires end.Some? ==> end.value > 0 && m.cursorReady
    requires m.underrun < c.threshold
    ensures Contiguous(c, Underrun(c, m, end, count, silent))
  {
    FramesToMicrosecondsMonotone(0, silent, c.rate);
    FramesToMicrosecondsMonotone(0, count, c.rate);
  }

  lemma PopContiguous<T>(c: Config, m: Mixer<T>, count: nat, silence: T)
    requires Contiguous(c, m)
    ensures Contiguous(c, Pop(c, m, count, silence).0)
  {
    DrawAbutting(c, m.queue, m.offset, count);
    DrawEnd(c, m.queue, m.offset, count);
    var draw := DrawFrom(c, m.queue, m.offset, count);
    var left := m.(queue := draw.queue, offset := draw.offset);
    if |draw.taken| < count {
      UnderrunContiguous(c, left, draw.end, count, count - |draw.taken|);
    }
  }

  lemma ReserveContiguous<T>(c: Config, m: Mixer<T>, initial: Option<int>, covered: bool)
    requires Contiguous(c, m)
    ensures Contiguous(c, Reserve(c, m, initial, covered))
  {
  }

  lemma CommitContiguous<T>(c: Config, m: Mixer<T>, data: seq<T>)
    requires Contiguous(c, m) && m.reserved.Some? && |data| == c.mixFrames
    ensures Contiguous(c, Commit(c, m, data))
    // The second look at the queue length never finds it full.
    ensures Unmoved(c, m) ==> Commit(c, m, data).queue == m.queue + [Chunk(m.reserved.value, c.mixFrames, data)]
  {
  }

  lemma StepContiguous<T>(c: Config, m: Mixer<T>, step: Step<T>, silence: T)
    requires Contiguous(c, m)
    ensures Contiguous(c, Apply(c, m, step, silence))
  {
    match step
    case ReserveStep(initial, covered) => ReserveContiguous(c, m, initial, covered);
    case CommitStep(data) =>
      if m.reserved.Some? && |data| == c.mixFrames {
        CommitContiguous(c, m, data);
      }
    case PopStep(count) => PopContiguous(c, m, count, silence);
    case _ =>
  }

  /** Timeline contiguity over every interleaving. */
  lemma {:induction false} RunContiguous<T>(c: Config, steps: seq<Step<T>>, silence: T)
    requires c.Usable()
    ensures Contiguous(c, Run(c, steps, silence))
  {
    if steps == [] {
    } else {
      RunContiguous(c, steps[..|steps| - 1], silence);
      StepContiguous(c, Run(c, steps[..|steps| - 1], silence), steps[|steps| - 1], silence);
    }
  }

  /** Every initialised mixer satisfies the configuration conditions, and its chunks last at least 5 ms. */
  lemma ConfiguredUsable(rate: int, channels: int)
    requires Configure(rate, channels).Some?
    ensures Configure(rate, channels).value.Usable() && Configure(rate, channels).value.Duration() >= 5000
  {
    var c := Configure(rate, channels).value;
    FramesToMicrosecondsIsFloor(c.mixFrames, rate);
    assert c.mixFrames * 1000 <= rate * CHUNK_MS < (c.mixFrames + 1) * 1000;
    var excess := c.mixFrames * MICROSECONDS - 5000 * rate;
    assert excess >= 0;
    QuotientShift(5000, excess, rate);
    QuotientMonotone(0, excess, rate);
  }

  /** Exactly the rates from 100 Hz on with up to eight channels are accepted, as long as the frame counts fit. */
  lemma ConfiguredExactly(rate: int, channels: int)
    ensures Configure(rate, channels).Some? <==>
              100 <= rate && 1 <= channels <= 8 && rate * RECOVERY_MS / 1000 <= UINT32_MAX
    ensures Configure(rate, channels).Some? ==>
              var c := Configure(rate, channels).value;
              && c.rate == rate && c.mixFrames * 1000 <= rate * CHUNK_MS < (c.mixFrames + 1) * 1000
              && c.threshold * 1000 <= rate * RECOVERY_MS < (c.threshold + 1) * 1000
  {
  }

  /** If a chunk has more than one frame, the first one ends well before the chunk does. */
  lemma ConfiguredFrames(rate: int, channels: int)
    requires Configure(rate, channels).Some?
    ensures var c := Configure(rate, channels).value;
      c.mixFrames > 1 ==> c.Duration() > FramesToMicroseconds(1, c.rate) + 1
  {
    var c := Configure(rate, channels).value;
    if c.mixFrames > 1 {
      ConfiguredUsable(rate, channels);
      FramesToMicrosecondsIsFloor(1, rate);
      FramesToMicrosecondsIsFloor(2, rate);
      FramesToMicrosecondsMonotone(2, c.mixFrames, rate);
      DoubledQuotient(MICROSECONDS, rate);
    }
  }

  lemma DoubledQuotient(a: nat, d: int)
    requires d > 0
    ensures 0 <= 2 * (a / d) <= 2 * a / d
  {
    var q := a / d;
    QuotientMonotone(0, a, d);
    QuotientShift(2 * q, 2 * a - 2 * q * d, d);
    QuotientMonotone(0, 2 * a - 2 * q * d, d);
  }

  // ---------- a pop takes what is there and pads with silence ----------

  /** The frames still to be played, in order. */
  function Playable<T>(queue: seq<Chunk<T>>, offset: nat): seq<T> {
    if queue == [] then []
    else if offset >= queue[0].ValidFrames() then Playable(queue[1..], 0)
    else queue[0].data[offset..queue[0].ValidFrames()] + Playable(queue[1..], 0)
  }

  lemma TakeInside<T>(data: seq<T>, offset: nat, valid: nat, count: nat, rest: seq<T>)
    requires offset + count <= valid <= |data|
    ensures var all := data[offset..valid] + rest;
      all[..count] == data[offset..offset + count] && all[count..] == data[offset + count..valid] + rest
  {
  }

  lemma TakeAcross<T>(head: seq<T>, rest: seq<T>, n: nat)
    requires n <= |rest|
    ensures (head + rest)[..|head| + n] == head + rest[..n] && (head + rest)[|head| + n..] == rest[n..]
  {
  }

  /** `d` takes the first `count` of `all`, or all of them, and leaves the rest playable. */
  ghost predicate Takes<T>(d: Draw<T>, all: seq<T>, count: nat) {
    var n := Min(count, |all|);
    d.taken == all[..n] && Playable(d.queue, d.offset) == all[n..]
  }

  lemma DrawTakesInside<T>(c: Config, queue: seq<Chunk<T>>, offset: nat, count: nat)
    requires queue != [] && 0 < count && offset + count < queue[0].ValidFrames()
    ensures Takes(DrawFrom(c, queue, offset, count), Playable(queue, offset), count)
  {
    TakeInside(queue[0].data, offset, queue[0].ValidFrames(), count, Playable(queue[1..], 0));
    var d := DrawFrom(c, queue, offset, count);
    assert d.queue == queue && d.offset == offset + count && d.taken == queue[0].data[offset..offset + count];
    assert Min(count, |Playable(queue, offset)|) == count;
  }

  lemma DrawTakesAcross<T>(c: Config, queue: seq<Chunk<T>>, offset: nat, count: nat)
    requires queue != [] && offset < queue[0].ValidFrames() <= offset + count
    requires var left := count - (queue[0].ValidFrames() - offset);
      Takes(DrawFrom(c, queue[1..], 0, left), Playable(queue[1..], 0), left)
    ensures Takes(DrawFrom(c, queue, offset, count), Playable(queue, offset), count)
  {
    var head, rest := queue[0].data[offset..queue[0].ValidFrames()], Playable(queue[1..], 0);
    var n := Min(count - |head|, |rest|);
    TakeAcross(head, rest, n);
    assert Min(count, |head + rest|) == |head| + n;
    var d, r := DrawFrom(c, queue, offset, count), DrawFrom(c, queue[1..], 0, count - |head|);
    assert d.taken == head + r.taken && d.queue == r.queue && d.offset == r.offset;
  }

  lemma {:induction false} DrawTakes<T>(c: Config, queue: seq<Chunk<T>>, offset: nat, count: nat)
    ensures Takes(DrawFrom(c, queue, offset, count), Playable(queue, offset), count)
    decreases |queue|
  {
    if count > 0 && queue != [] {
      var valid := queue[0].ValidFrames();
      if offset >= valid {
        DrawTakes(c, queue[1..], 0, count);
      } else if offset + count < valid {
        DrawTakesInside(c, queue, offset, count);
      } else {
        DrawTakes(c, queue[1..], 0, count - (valid - offset));
        DrawTakesAcross(c, queue, offset, count);
      }
    }
  }

  /** PopAudio is "take the first frames, pad with silence"; unless it rebuffers, the rest stays playable. */
  lemma PopTakes<T>(c: Config, m: Mixer<T>, count: nat, silence: T)
    ensures var (after, output) := Pop(c, m, count, silence); var all := Playable(m.queue, m.offset);
      var n := Min(count, |all|);
      && |output| == count && output == all[..n] + Silent(count - n, silence)
      && (Playable(after.queue, after.offset) == all[n..])
  {
    DrawTakes(c, m.queue, m.offset, count);
    var draw := DrawFrom(c, m.queue, m.offset, count);
    var all := Playable(m.queue, m.offset);
    assert |all| < count ==> all[|all|..] == [];
  }

  // ---------- the clock ----------

  /** The first chunk's rest does not lie before the clock. */
  predicate InStep<T>(c: Config, m: Mixer<T>) {
    m.clock.Some? && m.queue != [] ==> m.clock.value <= m.queue[0].start + FramesToMicroseconds(m.offset, c.rate)
  }

  /** The media time a draw reaches lies at or after its start, and is where the rest goes on. */
  ghost predicate Forward<T>(c: Config, queue: seq<Chunk<T>>, offset: nat, count: nat, d: Draw<T>) {
    match d.end
    case None => d.queue == queue && d.offset == offset && (queue == [] || count == 0)
    case Some(end) =>
      && queue != [] && queue[0].start + FramesToMicroseconds(offset, c.rate) <= end
      && end == if d.queue == [] then End(c, queue) else d.queue[0].start + FramesToMicroseconds(d.offset, c.rate)
  }

  lemma ForwardAcross<T>(c: Config, queue: seq<Chunk<T>>, offset: nat, count: nat)
    requires c.Usable() && Abutting(c, queue) && queue != [] && offset < c.mixFrames <= offset + count
    requires var left := count - (c.mixFrames - offset);
      Forward(c, queue[1..], 0, left, DrawFrom(c, queue[1..], 0, left))
    ensures Forward(c, queue, offset, count, DrawFrom(c, queue, offset, count))
  {
    RestAbutting(c, queue);
    FramesToMicrosecondsMonotone(offset, c.mixFrames, c.rate);
    FramesToMicrosecondsMonotone(0, c.mixFrames, c.rate);
    var left := count - (c.mixFrames - offset);
    var rest := DrawFrom(c, queue[1..], 0, left);
    var d := DrawFrom(c, queue, offset, count);
    assert d.queue == rest.queue && d.offset == rest.offset;
    assert d.end == if rest.end.Some? then rest.end else Some(queue[0].start + c.Duration());
  }

  lemma {:induction false} DrawForward<T>(c: Config, queue: seq<Chunk<T>>, offset: nat, count: nat)
    requires c.Usable() && Abutting(c, queue) && OffsetFits(c, queue, offset)
    ensures Forward(c, queue, offset, count, DrawFrom(c, queue, offset, count))
    decreases |queue|
  {
    if count > 0 && queue != [] {
      if offset + count >= c.mixFrames {
        RestAbutting(c, queue);
        DrawForward(c, queue[1..], 0, count - (c.mixFrames - offset));
        ForwardAcross(c, queue, offset, count);
      } else {
        assert ChunkOk(c, queue[0]);
        FramesToMicrosecondsMonotone(offset, offset + count, c.rate);
      }
    }
  }

  predicate NotBefore(before: Option<int>, after: Option<int>) {
    before.Some? && after.Some? ==> before.value <= after.value
  }

  /** When nothing queued lies before the clock, a callback moves the clock forward or stops it, and keeps it so. */
  lemma PopAdvances<T>(c: Config, m: Mixer<T>, count: nat, silence: T)
    requires Contiguous(c, m) && InStep(c, m)
    ensures var after := Pop(c, m, count, silence).0; NotBefore(m.clock, after.clock) && InStep(c, after)
  {
    DrawForward(c, m.queue, m.offset, count);
    DrawAbutting(c, m.queue, m.offset, count);
    FramesToMicrosecondsMonotone(0, count, c.rate);
    var draw := DrawFrom(c, m.queue, m.offset, count);
    if |draw.taken| <= count {
      FramesToMicrosecondsMonotone(0, count - |draw.taken|, c.rate);
    }
  }

  // ---------- what a reservation that still stands says about the clock ----------

  /** A callback or a clearing of the queue has put the cursor one microsecond after the clock. */
  predicate CursorAtClock<T>(m: Mixer<T>) { m.clock.Some? && m.cursor == Next(m.clock.value) }

  /** While the cursor check would pass, the clock has not passed the reserved start, or the cursor stands at it. */
  predicate Reserved<T>(c: Config, m: Mixer<T>) {
    m.clock.Some? && Unmoved(c, m) ==> m.clock.value <= m.reserved.value || CursorAtClock(m)
  }

  /** A callback that ran out of frames moves the cursor to the clock, or stops the clock. */
  lemma UnderrunReserved<T>(c: Config, m: Mixer<T>, end: Option<int>, count: nat, silent: nat)
    requires m.clock.Some? ==> m.clock.value > 0 && m.cursorReady
    requires end.Some? ==> end.value > 0
    ensures Reserved(c, Underrun(c, m, end, count, silent))
  {
    FramesToMicrosecondsMonotone(0, count, c.rate);
    FramesToMicrosecondsMonotone(0, silent, c.rate);
  }

  lemma PopReserved<T>(c: Config, m: Mixer<T>, count: nat, silence: T)
    requires Contiguous(c, m) && Reserved(c, m)
    ensures Reserved(c, Pop(c, m, count, silence).0)
  {
    DrawAbutting(c, m.queue, m.offset, count);
    DrawEnd(c, m.queue, m.offset, count);
    var draw := DrawFrom(c, m.queue, m.offset, count);
    if |draw.taken| < count {
      UnderrunReserved(c, m.(queue := draw.queue, offset := draw.offset), draw.end, count, count - |draw.taken|);
    }
  }

  lemma StepReserved<T>(c: Config, m: Mixer<T>, step: Step<T>, silence: T)
    requires Contiguous(c, m) && Reserved(c, m)
    ensures Reserved(c, Apply(c, m, step, silence))
  {
    if step.PopStep? {
      PopReserved(c, m, step.count, silence);
    }
  }

  lemma {:induction false} RunReserved<T>(c: Config, steps: seq<Step<T>>, silence: T)
    requires c.Usable()
    ensures Reserved(c, Run(c, steps, silence))
  {
    if steps == [] {
    } else {
      RunReserved(c, steps[..|steps| - 1], silence);
      RunContiguous(c, steps[..|steps| - 1], silence);
      StepReserved(c, Run(c, steps[..|steps| - 1], silence), steps[|steps| - 1], silence);
    }
  }

  // ---------- when a commit is late ----------

  /** What the mixing thread can see at its cursor check: nothing is queued and the cursor stands at the clock. */
  predicate Late<T>(c: Config, m: Mixer<T>) { Unmoved(c, m) && m.queue == [] && CursorAtClock(m) }

  /**
   In every reachable state in which a commit passes the cursor check on an empty queue, it queues audio before
   the clock if and only if it is late.
   */
  lemma LateCommit<T>(c: Config, steps: seq<Step<T>>, data: seq<T>, silence: T)
    requires c.Usable() && c.Duration() > 1 && |data| == c.mixFrames
    requires Unmoved(c, Run(c, steps, silence)) && Run(c, steps, silence).queue == []
    ensures var m := Run(c, steps, silence); !InStep(c, Commit(c, m, data)) <==> Late(c, m)
  {
    RunContiguous(c, steps, silence);
    RunReserved(c, steps, silence);
  }

  ghost predicate CanGoBack<T>(c: Config, m: Mixer<T>, silence: T) {
    exists count: nat :: !NotBefore(m.clock, Pop(c, m, count, silence).0.clock)
  }

  /** A late chunk of more than one frame lets the clock go back: playing its first frame is enough. */
  lemma LateFrameGoesBack<T>(c: Config, m: Mixer<T>, data: seq<T>, silence: T)
    requires Contiguous(c, m) && Late(c, m) && |data| == c.mixFrames && c.mixFrames > 1
    requires c.Duration() > FramesToMicroseconds(1, c.rate) + 1
    ensures !NotBefore(m.clock, Pop(c, Commit(c, m, data), 1, silence).0.clock)
  {
    FramesToMicrosecondsMonotone(0, 1, c.rate);
    var draw := DrawFrom(c, Commit(c, m, data).queue, 0, 1);
    assert draw.end == Some(m.reserved.value + FramesToMicroseconds(1, c.rate)) && |draw.taken| == 1;
  }

  /** A late chunk of a single frame ends at the cursor, so playing it cannot move the clock back. */
  lemma SingleFrameGoesOn<T>(c: Config, m: Mixer<T>, data: seq<T>, count: nat, silence: T)
    requires Contiguous(c, m) && Late(c, m) && |data| == c.mixFrames == 1
    ensures NotBefore(m.clock, Pop(c, Commit(c, m, data), count, silence).0.clock)
  {
    var queue := Commit(c, m, data).queue;
    FramesToMicrosecondsMonotone(0, count, c.rate);
    if count > 0 {
      FramesToMicrosecondsMonotone(0, count - 1, c.rate);
      assert DrawFrom(c, queue[1..], 0, count - 1).end == None;
      assert DrawFrom(c, queue, 0, count).end == Some(m.cursor);
    }
  }

  /**
   For every accepted format and every reachable state in which a commit passes the cursor check on an empty
   queue: some callback after it moves the clock back if and only if the commit is late and a chunk has more
   than one frame.
   */
  lemma GoesBackExactly<T>(rate: int, channels: int, c: Config, steps: seq<Step<T>>, data: seq<T>, silence: T)
    requires Configure(rate, channels) == Some(c) && |data| == c.mixFrames
    requires Unmoved(c, Run(c, steps, silence)) && Run(c, steps, silence).queue == []
    ensures var m := Run(c, steps, silence);
      CanGoBack(c, Commit(c, m, data), silence) <==> Late(c, m) && c.mixFrames > 1
  {
    ConfiguredUsable(rate, channels);
    ConfiguredFrames(rate, channels);
    RunContiguous(c, steps, silence);
    LateCommit(c, steps, data, silence);
    var m := Run(c, steps, silence);
    var committed := Commit(c, m, data);
    if Late(c, m) && c.mixFrames > 1 {
      LateFrameGoesBack(c, m, data, silence);
    } else {
      CommitContiguous(c, m, data);
      forall count: nat ensures NotBefore(committed.clock, Pop(c, committed, count, silence).0.clock) {
        if Late(c, m) {
          SingleFrameGoesOn(c, m, data, count, silence);
        } else {
          PopAdvances(c, committed, count, silence);
        }
      }
    }
  }

  // ---------- the clock over whole runs ----------

  /** No commit of the run is late; callbacks and clearings may fall anywhere. */
  ghost predicate Timely<T>(c: Config, steps: seq<Step<T>>, silence: T) {
    forall i :: 0 <= i < |steps| && steps[i].CommitStep? ==> !Late(c, Run(c, steps[..i], silence))
  }

  lemma TimelyPrefix<T>(c: Config, steps: seq<Step<T>>, silence: T, n: nat)
    requires Timely(c, steps, silence) && n <= |steps|
    ensures Timely(c, steps[..n], silence)
  {
    forall i | 0 <= i < n && steps[..n][i].CommitStep? ensures !Late(c, Run(c, steps[..n][..i], silence)) {
      assert steps[..n][..i] == steps[..i];
    }
  }

  lemma StepInStep<T>(c: Config, m: Mixer<T>, step: Step<T>, silence: T)
    requires Contiguous(c, m) && InStep(c, m) && Reserved(c, m) && (step.CommitStep? ==> !Late(c, m))
    ensures var after := Apply(c, m, step, silence); InStep(c, after) && NotBefore(m.clock, after.clock)
  {
    if step.PopStep? {
      PopAdvances(c, m, step.count, silence);
    }
  }

  lemma {:induction false} TimelyInStep<T>(c: Config, steps: seq<Step<T>>, silence: T)
    requires c.Usable() && Timely(c, steps, silence)
    ensures InStep(c, Run(c, steps, silence))
  {
    if steps == [] {
    } else {
      var before := steps[..|steps| - 1];
      TimelyPrefix(c, steps, silence, |before|);
      TimelyInStep(c, before, silence);
      LastStepInStep(c, steps, silence);
    }
  }

  lemma LastStepInStep<T>(c: Config, steps: seq<Step<T>>, silence: T)
    requires c.Usable() && Timely(c, steps, silence) && steps != []
    requires InStep(c, Run(c, steps[..|steps| - 1], silence))
    ensures InStep(c, Run(c, steps, silence))
    ensures NotBefore(Run(c, steps[..|steps| - 1], silence).clock, Run(c, steps, silence).clock)
  {
    var last := |steps| - 1;
    RunContiguous(c, steps[..last], silence);
    RunReserved(c, steps[..last], silence);
    assert steps[last].CommitStep? ==> !Late(c, Run(c, steps[..last], silence));
    StepInStep(c, Run(c, steps[..last], silence), steps[last], silence);
  }

  /** Over every timely run, with any callbacks and clearings in between, the clock never moves back; it only stops. */
  lemma ClockNeverBack<T>(c: Config, steps: seq<Step<T>>, silence: T)
    requires c.Usable() && Timely(c, steps, silence) && steps != []
    ensures NotBefore(Run(c, steps[..|steps| - 1], silence).clock, Run(c, steps, silence).clock)
  {
    TimelyPrefix(c, steps, silence, |steps| - 1);
    TimelyInStep(c, steps[..|steps| - 1], silence);
    LastStepInStep(c, steps, silence);
  }

  // ---------- undisturbed reservations ----------

  predicate Disturbs<T>(step: Step<T>) { step.PopStep? || step.ClearStep? }

  /** No callback and no clearing of the queue falls between a reservation and its commit. */
  ghost predicate Undisturbed<T>(c: Config, steps: seq<Step<T>>, silence: T) {
    forall i :: 0 <= i < |steps| && Run(c, steps[..i], silence).reserved.Some? ==> !Disturbs(steps[i])
  }

  lemma UndisturbedPrefix<T>(c: Config, steps: seq<Step<T>>, silence: T, n: nat)
    requires Undisturbed(c, steps, silence) && n <= |steps|
    ensures Undisturbed(c, steps[..n], silence)
  {
    forall i | 0 <= i < n && Run(c, steps[..n][..i], silence).reserved.Some? ensures !Disturbs(steps[..n][i]) {
      assert steps[..n][..i] == steps[..i];
    }
  }

  /** The reserved interval does not start before the clock. */
  predicate Ahead<T>(m: Mixer<T>) { m.clock.Some? && m.reserved.Some? ==> m.clock.value <= m.reserved.value }

  lemma StepAhead<T>(c: Config, m: Mixer<T>, step: Step<T>, silence: T)
    requires Contiguous(c, m) && Ahead(m) && (m.reserved.Some? ==> !Disturbs(step))
    ensures Ahead(Apply(c, m, step, silence))
  {
  }

  lemma {:induction false} UndisturbedAhead<T>(c: Config, steps: seq<Step<T>>, silence: T)
    requires c.Usable() && Undisturbed(c, steps, silence)
    ensures Ahead(Run(c, steps, silence))
  {
    if steps == [] {
    } else {
      var last := |steps| - 1;
      UndisturbedPrefix(c, steps, silence, last);
      UndisturbedAhead(c, steps[..last], silence);
      RunContiguous(c, steps[..last], silence);
      assert Run(c, steps[..last], silence).reserved.Some? ==> !Disturbs(steps[last]);
      StepAhead(c, Run(c, steps[..last], silence), steps[last], silence);
    }
  }

  /** In particular a run whose reservations nothing disturbs is timely. */
  lemma UndisturbedIsTimely<T>(c: Config, steps: seq<Step<T>>, silence: T)
    requires c.Usable() && c.Duration() > 1 && Undisturbed(c, steps, silence)
    ensures Timely(c, steps, silence)
  {
    forall i | 0 <= i < |steps| && steps[i].CommitStep? ensures !Late(c, Run(c, steps[..i], silence)) {
      UndisturbedPrefix(c, steps, silence, i);
      UndisturbedAhead(c, steps[..i], silence);
    }
  }

  // ---------- the cursor check does not catch every stale chunk ----------

  const EXAMPLE := Config(48000, 480, 4800)

  function Tone(): seq<int> { seq(480, _ => 1) }

  lemma ExampleTimes()
    ensures FramesToMicroseconds(480, 48000) == 10000 && FramesToMicroseconds(48, 48000) == 1000
    ensures FramesToMicroseconds(0, 48000) == 0 && EXAMPLE.Usable()
  {
  }

  lemma Extend<T>(c: Config, steps: seq<Step<T>>, step: Step<T>, silence: T)
    ensures Run(c, steps + [step], silence) == Apply(c, Run(c, steps, silence), step, silence)
  {
    assert (steps + [step])[..|steps|] == steps;
  }

  /** One chunk is played, then a callback finds nothing: the cursor is one microsecond past the clock. */
  lemma PlayedThenDry() returns (steps: seq<Step<int>>)
    ensures Run(EXAMPLE, steps, 0) == Mixer([], 0, 20002, true, 480, Some(20001), None)
  {
    ExampleTimes();
    steps := [] + [ReserveStep(Some(1), true)];
    Extend(EXAMPLE, [], ReserveStep(Some(1), true), 0);
    assert Run(EXAMPLE, steps, 0) == Mixer([], 0, 10001, true, 0, None, Some(1));
    Extend(EXAMPLE, steps, CommitStep(Tone()), 0);
    steps := steps + [CommitStep(Tone())];
    assert Run(EXAMPLE, steps, 0) == Mixer([Chunk(1, 480, Tone())], 0, 10001, true, 0, None, None);
    Extend(EXAMPLE, steps, PopStep(480), 0);
    steps := steps + [PopStep(480)];
    assert Run(EXAMPLE, steps, 0) == Mixer([], 0, 10001, true, 0, Some(10001), None);
    Extend(EXAMPLE, steps, PopStep(480), 0);
    steps := steps + [PopStep(480)];
  }

  /** A second dry callback between reserve and commit moves the cursor onto the reserved value: the chunk is late. */
  lemma StaleChunkMovesClockBack() returns (steps: seq<Step<int>>, count: nat)
    ensures var before := Run(EXAMPLE, steps, 0); var after := Pop(EXAMPLE, before, count, 0).0;
      before.clock.Some? && after.clock.Some? && after.clock.value < before.clock.value
  {
    ExampleTimes();
    steps := PlayedThenDry();
    Extend(EXAMPLE, steps, ReserveStep(None, true), 0);
    steps := steps + [ReserveStep(None, true)];
    assert Run(EXAMPLE, steps, 0) == Mixer([], 0, 30002, true, 480, Some(20001), Some(20002));
    Extend(EXAMPLE, steps, PopStep(480), 0);
    steps := steps + [PopStep(480)];
    assert Run(EXAMPLE, steps, 0) == Mixer([], 0, 30002, true, 960, Some(30001), Some(20002));
    Extend(EXAMPLE, steps, CommitStep(Tone()), 0);
    steps := steps + [CommitStep(Tone())];
    assert Run(EXAMPLE, steps, 0) == Mixer([Chunk(20002, 480, Tone())], 0, 30002, true, 960, Some(30001), None);
    count := 48;
  }
}
