/** What each step of the mixer does to the clock, the cursor and the frames still to be played. */
module MixerEffects {
  import opened Common
  import opened MixerSpec
  import opened MixerSafety

  // ---------- reserving, clearing ----------

  /** Where the next interval would start: at the cursor, or where the user buffers offer to start. */
  function NextStart<T>(m: Mixer<T>, initial: Option<int>): Option<int> {
    if m.cursorReady then Some(m.cursor) else initial
  }

  predicate CanReserve<T>(c: Config, m: Mixer<T>, initial: Option<int>, covered: bool) {
    && m.reserved.None? && |m.queue| < QUEUE_LIMIT && covered
    && NextStart(m, initial).Some? && 0 < NextStart(m, initial).value <= INT64_MAX - c.Duration()
  }

  /** An interval is reserved exactly when there is room and audio for it; the queue and the clock stay. */
  lemma ReserveEffect<T>(c: Config, m: Mixer<T>, initial: Option<int>, covered: bool)
    requires m.reserved.None?
    ensures var after := Reserve(c, m, initial, covered);
      && (after.reserved.Some? <==> CanReserve(c, m, initial, covered))
      && (after.reserved.Some? ==> after.reserved == NextStart(m, initial) && Unmoved(c, after))
      && after.queue == m.queue && after.offset == m.offset && after.clock == m.clock
  {
  }

  /**
   A user change leaves nothing to play and the clock as it was. With a running clock the next interval starts one
   microsecond after it; without one, wherever the user buffers offer.
   */
  lemma ClearEffect<T>(c: Config, m: Mixer<T>, initial: Option<int>)
    requires c.Usable() && m.reserved.None?
    ensures var after := Cleared(m);
      var start := if m.clock.Some? then Some(Next(m.clock.value)) else initial;
      && Playable(after.queue, after.offset) == [] && after.clock == m.clock && after.underrun == 0
      && (start.Some? && 0 < start.value <= INT64_MAX - c.Duration() ==>
            Reserve(c, after, initial, true).reserved == start)
  {
  }

  /** A clear also refuses the interval being mixed, unless that ends exactly one microsecond after the clock. */
  lemma ClearRefuses<T>(c: Config, m: Mixer<T>, data: seq<T>)
    requires m.reserved.Some? && m.clock.Some? && c.Duration() > 0
    ensures var after := Commit(c, Cleared(m), data);
      && after.clock == m.clock && after.reserved.None?
      && (after.queue != [] <==> m.reserved.value + c.Duration() == Next(m.clock.value))
  {
  }

  // ---------- when the clock stops ----------

  /** How many frames of a callback find nothing to play. */
  function Missing<T>(m: Mixer<T>, count: nat): nat {
    count - Min(count, |Playable(m.queue, m.offset)|)
  }

  /** Missing frames in a row, over callbacks that find nothing at all. */
  function InARow<T>(m: Mixer<T>, count: nat): nat {
    if Missing(m, count) < count then Missing(m, count) else m.underrun + count
  }

  predicate Stops<T>(c: Config, m: Mixer<T>, step: Step<T>) {
    || step.ResetStep?
    || (step.AbandonStep? && Unmoved(c, m))
    || (step.PopStep? && Missing(m, step.count) > 0 && InARow(m, step.count) >= c.threshold)
  }

  /** In every reachable state, a running clock stops exactly at these steps, and a user change is not one of them. */
  lemma ClockStopsExactly<T>(c: Config, steps: seq<Step<T>>, step: Step<T>, silence: T)
    requires c.Usable() && Run(c, steps, silence).clock.Some?
    ensures var m := Run(c, steps, silence); Apply(c, m, step, silence).clock.None? <==> Stops(c, m, step)
  {
    if step.PopStep? {
      DrawTakes(c, Run(c, steps, silence).queue, Run(c, steps, silence).offset, step.count);
    }
  }

  // ---------- where a callback leaves the clock ----------

  lemma PlayableExactly<T>(c: Config, m: Mixer<T>)
    requires Contiguous(c, m)
    ensures Playable(m.queue, m.offset) == [] <==> m.queue == []
  {
    assert m.queue != [] ==> ChunkOk(c, m.queue[0]);
  }

  /** The media time that follows what is played: that of the rest of the queue, or its end. */
  function TimeAfter<T>(c: Config, m: Mixer<T>, after: Mixer<T>): int
    requires m.queue != []
  {
    if after.queue == [] then End(c, m.queue) else after.queue[0].start + FramesToMicroseconds(after.offset, c.rate)
  }

  /** A callback that finds all its frames leaves the clock right after the last one. */
  lemma FullPopClock<T>(c: Config, m: Mixer<T>, count: nat, silence: T)
    requires Contiguous(c, m) && count > 0 && Missing(m, count) == 0
    ensures var after := Pop(c, m, count, silence).0;
      m.queue != [] && after.clock == Some(TimeAfter(c, m, after)) && after.underrun == 0
      && after.cursor == m.cursor && after.cursorReady
  {
    PlayableExactly(c, m);
    DrawTakes(c, m.queue, m.offset, count);
    DrawForward(c, m.queue, m.offset, count);
    DrawEnd(c, m.queue, m.offset, count);
  }

  /** The silence that a callback pads with, short of the threshold, lets the clock run on from `time`. */
  predicate RunsOn<T>(m: Mixer<T>, after: Mixer<T>, count: nat, time: int) {
    && after.queue == [] && after.clock == Some(time) && after.cursor == Next(time) && after.cursorReady
    && after.underrun == InARow(m, count)
  }

  /** ... from the end of what was queued, */
  lemma ShortPopClock<T>(c: Config, m: Mixer<T>, count: nat, silence: T)
    requires Contiguous(c, m) && m.queue != [] && Missing(m, count) > 0 && InARow(m, count) < c.threshold
    ensures var time := End(c, m.queue) + FramesToMicroseconds(Missing(m, count), c.rate);
      RunsOn(m, Pop(c, m, count, silence).0, count, time)
  {
    PlayableExactly(c, m);
    DrawTakes(c, m.queue, m.offset, count);
    DrawAbutting(c, m.queue, m.offset, count);
    DrawForward(c, m.queue, m.offset, count);
    DrawEnd(c, m.queue, m.offset, count);
    FramesToMicrosecondsMonotone(0, Missing(m, count), c.rate);
  }

  /** ... or from the clock when nothing was queued. */
  lemma DryPopClock<T>(c: Config, m: Mixer<T>, count: nat, silence: T)
    requires Contiguous(c, m) && m.queue == [] && m.clock.Some? && count > 0 && InARow(m, count) < c.threshold
    ensures var time := m.clock.value + FramesToMicroseconds(count, c.rate);
      RunsOn(m, Pop(c, m, count, silence).0, count, time)
  {
    FramesToMicrosecondsMonotone(0, count, c.rate);
  }

  // ---------- nothing is skipped ----------

  lemma {:induction false} PlayableAppends<T>(c: Config, queue: seq<Chunk<T>>, offset: nat, chunk: Chunk<T>)
    requires Abutting(c, queue) && OffsetFits(c, queue, offset) && ChunkOk(c, chunk)
    ensures Playable(queue + [chunk], offset) == Playable(queue, offset) + chunk.data
    decreases |queue|
  {
    if queue == [] {
      assert [chunk][1..] == [];
      assert chunk.data[0..chunk.ValidFrames()] == chunk.data;
    } else {
      RestAbutting(c, queue);
      PlayableAppends(c, queue[1..], 0, chunk);
      assert (queue + [chunk])[1..] == queue[1..] + [chunk];
      ConcatAssociates(queue[0].data[offset..queue[0].ValidFrames()], Playable(queue[1..], 0), chunk.data);
    }
  }

  /** What a step adds to the frames to be played. */
  function Queued<T>(c: Config, m: Mixer<T>, step: Step<T>): seq<T> {
    if step.CommitStep? && |step.data| == c.mixFrames && Unmoved(c, m) then step.data else []
  }

  /** What a step plays of them: the output of a callback without the silence at its end. */
  function Sounded<T>(c: Config, m: Mixer<T>, step: Step<T>, silence: T): seq<T> {
    if step.PopStep? then
      var output := Pop(c, m, step.count, silence).1;
      output[..Min(|output|, |Playable(m.queue, m.offset)|)]
    else []
  }

  /** A step that throws away what is queued. */
  predicate Discards<T>(c: Config, m: Mixer<T>, step: Step<T>) {
    step.ClearStep? || step.ResetStep? || (step.AbandonStep? && Unmoved(c, m))
  }

  lemma CommitConserves<T>(c: Config, m: Mixer<T>, data: seq<T>)
    requires Contiguous(c, m) && m.reserved.Some? && |data| == c.mixFrames
    ensures var after := Commit(c, m, data);
      Playable(after.queue, after.offset) == Playable(m.queue, m.offset) + Queued(c, m, CommitStep(data))
  {
    CommitContiguous(c, m, data);
    if Unmoved(c, m) {
      PlayableAppends(c, m.queue, m.offset, Chunk(m.reserved.value, c.mixFrames, data));
    }
  }

  lemma PopConserves<T>(c: Config, m: Mixer<T>, count: nat, silence: T)
    ensures var after := Pop(c, m, count, silence).0;
      Sounded(c, m, PopStep(count), silence) + Playable(after.queue, after.offset) == Playable(m.queue, m.offset)
  {
    var all := Playable(m.queue, m.offset);
    var n := Min(count, |all|);
    PopTakes(c, m, count, silence);
    assert Sounded(c, m, PopStep(count), silence) == all[..n];
    assert all == all[..n] + all[n..];
  }

  /** What is played and what is left to be played is what was to be played and what is added. */
  ghost predicate Conserved<T>(c: Config, m: Mixer<T>, step: Step<T>, after: Mixer<T>, silence: T) {
    Sounded(c, m, step, silence) + Playable(after.queue, after.offset)
      == Playable(m.queue, m.offset) + Queued(c, m, step)
  }

  lemma OtherConserves<T>(c: Config, m: Mixer<T>, step: Step<T>, silence: T)
    requires (step.ReserveStep? || step.AbandonStep?) && !Discards(c, m, step)
    ensures Conserved(c, m, step, Apply(c, m, step, silence), silence)
  {
  }

  lemma StepConserves<T>(c: Config, m: Mixer<T>, step: Step<T>, silence: T)
    requires Contiguous(c, m) && !Discards(c, m, step)
    ensures Conserved(c, m, step, Apply(c, m, step, silence), silence)
  {
    match step
    case PopStep(count) => PopConserves(c, m, count, silence);
    case CommitStep(data) =>
      if m.reserved.Some? && |data| == c.mixFrames {
        CommitConserves(c, m, data);
      }
    case _ => OtherConserves(c, m, step, silence);
  }

  function AllQueued<T>(c: Config, steps: seq<Step<T>>, silence: T): seq<T> {
    if steps == [] then []
    else
      var last := |steps| - 1;
      AllQueued(c, steps[..last], silence) + Queued(c, Run(c, steps[..last], silence), steps[last])
  }

  function AllSounded<T>(c: Config, steps: seq<Step<T>>, silence: T): seq<T> {
    if steps == [] then []
    else
      var last := |steps| - 1;
      AllSounded(c, steps[..last], silence) + Sounded(c, Run(c, steps[..last], silence), steps[last], silence)
  }

  ghost predicate Keeps<T>(c: Config, steps: seq<Step<T>>, silence: T) {
    forall i :: 0 <= i < |steps| ==> !Discards(c, Run(c, steps[..i], silence), steps[i])
  }

  lemma KeepsPrefix<T>(c: Config, steps: seq<Step<T>>, silence: T, n: nat)
    requires Keeps(c, steps, silence) && n <= |steps|
    ensures Keeps(c, steps[..n], silence)
  {
    forall i | 0 <= i < n ensures !Discards(c, Run(c, steps[..n][..i], silence), steps[..n][i]) {
      assert steps[..n][..i] == steps[..i] && steps[..n][i] == steps[i];
    }
  }

  /**
   Over every run in which nothing throws the queue away, the frames played and the frames still to be played are
   exactly the frames of the accepted commits, in order: rebuffering and underruns skip and repeat nothing.
   */
  lemma {:induction false} NothingSkipped<T>(c: Config, steps: seq<Step<T>>, silence: T)
    requires c.Usable() && Keeps(c, steps, silence)
    ensures var m := Run(c, steps, silence);
      AllSounded(c, steps, silence) + Playable(m.queue, m.offset) == AllQueued(c, steps, silence)
  {
    if steps == [] {
    } else {
      var last := |steps| - 1;
      var m, after := Run(c, steps[..last], silence), Run(c, steps, silence);
      KeepsPrefix(c, steps, silence, last);
      NothingSkipped(c, steps[..last], silence);
      RunContiguous(c, steps[..last], silence);
      assert !Discards(c, m, steps[last]);
      StepConserves(c, m, steps[last], silence);
      var sounded := Sounded(c, m, steps[last], silence);
      ConcatAssociates(AllSounded(c, steps[..last], silence), sounded, Playable(after.queue, after.offset));
      ConcatAssociates(AllSounded(c, steps[..last], silence), Playable(m.queue, m.offset), Queued(c, m, steps[last]));
    }
  }
}
