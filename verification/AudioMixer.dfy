/** The mixer's queue, cursor and clock, updated in place by each critical section. */
module AudioMixer {
  import opened Common
  import opened MixerSpec
  import opened MixerSafety

  class AudioMixer<T> {
    const config: Config
    const silence: T
    var mixedQueue: seq<Chunk<T>>
    var frontOffset: nat
    var mixCursorUs: int
    var cursorInitialized: bool
    var underrunFrames: nat
    var playbackClock: Option<int>
    var reservation: Option<int>

    ghost function Abstract(): Mixer<T>
      reads this
    {
      Mixer(mixedQueue, frontOffset, mixCursorUs, cursorInitialized, underrunFrames, playbackClock, reservation)
    }

    ghost predicate Valid()
      reads this
    {
      Contiguous(config, Abstract())
    }

    constructor (settings: Config, zero: T)
      requires settings.Usable()
      ensures Valid() && config == settings && silence == zero && Abstract() == Fresh()
    {
      config, silence := settings, zero;
      mixedQueue, frontOffset, mixCursorUs, cursorInitialized := [], 0, 0, false;
      underrunFrames, playbackClock, reservation := 0, None, None;
    }

    method EnterRebuffering()
      modifies this
      ensures Abstract() == Rebuffered(old(Abstract()))
    {
      mixedQueue, frontOffset, underrunFrames := [], 0, 0;
      mixCursorUs, cursorInitialized, playbackClock := 0, false, None;
    }

    method ResetPlaybackTimeline()
      requires Valid()
      modifies this
      ensures Valid() && Abstract() == Rebuffered(old(Abstract()))
    {
      EnterRebuffering();
    }

    method ClearMixedQueue()
      requires Valid()
      modifies this
      ensures Valid() && Abstract() == Cleared(old(Abstract()))
    {
      mixedQueue, frontOffset, underrunFrames := [], 0, 0;
      if playbackClock.Some? {
        mixCursorUs := if playbackClock.value < INT64_MAX then playbackClock.value + 1 else playbackClock.value;
        cursorInitialized := true;
      } else {
        mixCursorUs := 0;
        cursorInitialized := false;
      }
    }

    /** The mixing thread's first critical section; it waits while the queue is full or nothing can be mixed. */
    method ReserveChunk(initial: Option<int>, covered: bool)
      requires Valid() && reservation.None?
      modifies this
      ensures Valid() && Abstract() == Reserve(config, old(Abstract()), initial, covered)
    {
      if |mixedQueue| >= QUEUE_LIMIT {
        return;
      }
      if !cursorInitialized {
        if initial.None? {
          return;
        }
        mixCursorUs := initial.value;
        cursorInitialized := true;
      }
      if mixCursorUs <= 0 || mixCursorUs > INT64_MAX - config.Duration() || !covered {
        return;
      }
      reservation := Some(mixCursorUs);
      mixCursorUs := mixCursorUs + config.Duration();
    }

    /** The second critical section; `mixed` is the mixed chunk, or None when no user covered the interval. */
    method CommitChunk(mixed: Option<seq<T>>)
      requires Valid() && reservation.Some? && (mixed.Some? ==> |mixed.value| == config.mixFrames)
      modifies this
      ensures Valid() && Abstract() == if mixed.Some? then Commit(config, old(Abstract()), mixed.value)
                                       else Abandon(config, old(Abstract()))
    {
      ghost var before := Abstract();
      var start := reservation.value;
      reservation := None;
      var moved := !cursorInitialized || mixCursorUs != start + config.Duration();
      if mixed.None? {
        if !moved {
          EnterRebuffering();
        }
      } else if !moved && |mixedQueue| < QUEUE_LIMIT {
        CommitContiguous(config, before, mixed.value);
        mixedQueue := mixedQueue + [Chunk(start, config.mixFrames, mixed.value)];
      }
    }

    /** A callback for no frames returns before it touches anything. */
    method PopAudio(frameCount: nat) returns (output: seq<T>)
      requires Valid()
      modifies this
      ensures Valid() && (Abstract(), output) == Pop(config, old(Abstract()), frameCount, silence)
    {
      if frameCount == 0 {
        return [];
      }
      PopContiguous(config, Abstract(), frameCount, silence);
      var taken, end := TakeFrames(frameCount);
      var silent := frameCount - |taken|;
      output := taken + Silent(silent, silence);
      FinishPop(end, frameCount, silent);
    }

    /** Moves the clock over what was played, or accounts for the missing frames. */
    method FinishPop(end: Option<int>, frameCount: nat, silent: nat)
      requires silent <= frameCount
      modifies this
      ensures Abstract() == Played(config, old(Abstract()), end, frameCount, silent)
    {
      if silent == 0 {
        underrunFrames := 0;
        if end.Some? {
          UpdateClock(end.value);
        }
      } else {
        HandleUnderrun(end, frameCount, silent);
      }
    }

    /** The pop loop: takes at most `frameCount` frames off the queue and reports the media time reached. */
    method TakeFrames(frameCount: nat) returns (taken: seq<T>, end: Option<int>)
      modifies this`mixedQueue, this`frontOffset
      ensures Draw(mixedQueue, frontOffset, taken, end)
           == DrawFrom(config, old(mixedQueue), old(frontOffset), frameCount)
      ensures |taken| <= frameCount
    {
      taken, end := [], None;
      DrawStarts(config, mixedQueue, frontOffset, frameCount);
      while |taken| < frameCount && mixedQueue != []
        invariant DrawsOn(config, old(mixedQueue), old(frontOffset), frameCount,
                          Draw(mixedQueue, frontOffset, taken, end))
        decreases |mixedQueue|, frameCount - |taken|
      {
        DrawsFurther(config, old(mixedQueue), old(frontOffset), frameCount, Draw(mixedQueue, frontOffset, taken, end));
        taken, end := TakeFromFront(frameCount, taken, end);
      }
      DrawStops(config, old(mixedQueue), old(frontOffset), frameCount, Draw(mixedQueue, frontOffset, taken, end));
    }

    /** One turn of the loop: drops a used-up chunk, or copies as much of the first one as is still wanted. */
    method TakeFromFront(frameCount: nat, before: seq<T>, reached: Option<int>)
      returns (taken: seq<T>, end: Option<int>)
      requires mixedQueue != [] && |before| < frameCount
      modifies this`mixedQueue, this`frontOffset
      ensures Draw(mixedQueue, frontOffset, taken, end)
           == Turn(config, frameCount, Draw(old(mixedQueue), old(frontOffset), before, reached))
    {
      taken, end := before, reached;
      var chunk := mixedQueue[0];
      var valid := Min(|chunk.data|, chunk.frameCount);
      if frontOffset < valid {
        var copied := Min(valid - frontOffset, frameCount - |taken|);
        taken := taken + chunk.data[frontOffset..frontOffset + copied];
        frontOffset := frontOffset + copied;
        end := Some(chunk.start + FramesToMicroseconds(frontOffset, config.rate));
      }
      if frontOffset >= valid {
        mixedQueue := mixedQueue[1..];
        frontOffset := 0;
      }
    }

    method UpdateClock(time: int)
      modifies this`playbackClock
      ensures playbackClock == Advance(old(playbackClock), time)
    {
      if time > 0 {
        playbackClock := Some(time);
      }
    }

    method HandleUnderrun(end: Option<int>, frameCount: nat, silent: nat)
      requires 0 < silent <= frameCount
      modifies this
      ensures Abstract() == Underrun(config, old(Abstract()), end, frameCount, silent)
    {
      if end.None? && playbackClock.None? {
        underrunFrames := 0;
        return;
      }
      underrunFrames := if silent < frameCount then silent else underrunFrames + silent;
      if underrunFrames >= config.threshold {
        EnterRebuffering();
        return;
      }
      var next: int;
      if end.Some? {
        next := end.value + FramesToMicroseconds(silent, config.rate);
      } else {
        next := playbackClock.value + FramesToMicroseconds(frameCount, config.rate);
      }
      UpdateClock(next);
      if cursorInitialized {
        mixCursorUs := if next < INT64_MAX then next + 1 else next;
      }
    }
  }

  /** `done` is what the pop loop has reached on the way to its draw. */
  ghost predicate DrawsOn<T>(c: Config, queue: seq<Chunk<T>>, offset: nat, count: nat, done: Draw<T>) {
    |done.taken| <= count
    && var rest := DrawFrom(c, done.queue, done.offset, count - |done.taken|);
       DrawFrom(c, queue, offset, count)
       == Draw(rest.queue, rest.offset, done.taken + rest.taken, if rest.end.Some? then rest.end else done.end)
  }

  lemma DrawStarts<T>(c: Config, queue: seq<Chunk<T>>, offset: nat, count: nat)
    ensures DrawsOn(c, queue, offset, count, Draw(queue, offset, [], None))
  {
    var draw := DrawFrom(c, queue, offset, count);
    assert [] + draw.taken == draw.taken;
  }

  lemma DrawStops<T>(c: Config, queue: seq<Chunk<T>>, offset: nat, count: nat, done: Draw<T>)
    requires DrawsOn(c, queue, offset, count, done) && (|done.taken| == count || done.queue == [])
    ensures DrawFrom(c, queue, offset, count) == done
  {
    assert done.taken + [] == done.taken;
  }

  /** What one turn of the pop loop makes of what it has reached. */
  function Turn<T>(c: Config, count: nat, done: Draw<T>): Draw<T>
    requires done.queue != [] && |done.taken| < count
  {
    var chunk := done.queue[0];
    if done.offset >= chunk.ValidFrames() then Draw(done.queue[1..], 0, done.taken, done.end)
    else
      var upTo := done.offset + Min(chunk.ValidFrames() - done.offset, count - |done.taken|);
      var taken := done.taken + chunk.data[done.offset..upTo];
      var end := Some(chunk.start + FramesToMicroseconds(upTo, c.rate));
      if upTo >= chunk.ValidFrames() then Draw(done.queue[1..], 0, taken, end) else Draw(done.queue, upTo, taken, end)
  }

  lemma DrawsFurther<T>(c: Config, queue: seq<Chunk<T>>, offset: nat, count: nat, done: Draw<T>)
    requires DrawsOn(c, queue, offset, count, done) && |done.taken| < count && done.queue != []
    ensures DrawsOn(c, queue, offset, count, Turn(c, count, done))
    ensures var next := Turn(c, count, done);
      |next.queue| < |done.queue| || (next.queue == done.queue && |done.taken| < |next.taken|)
  {
    var chunk := done.queue[0];
    if done.offset < chunk.ValidFrames() {
      if chunk.ValidFrames() - done.offset <= count - |done.taken| {
        UsesUpDrawsOn(c, queue, offset, count, done);
      } else {
        CopyDrawsOn(c, queue, offset, count, done);
      }
    }
  }

  lemma UsesUpDrawsOn<T>(c: Config, queue: seq<Chunk<T>>, offset: nat, count: nat, done: Draw<T>)
    requires DrawsOn(c, queue, offset, count, done) && done.queue != []
    requires 0 < done.queue[0].ValidFrames() - done.offset <= count - |done.taken|
    ensures DrawsOn(c, queue, offset, count, Turn(c, count, done))
  {
    var chunk := done.queue[0];
    var piece := chunk.data[done.offset..chunk.ValidFrames()];
    var rest := DrawFrom(c, done.queue[1..], 0, count - |done.taken| - |piece|);
    assert done.taken + (piece + rest.taken) == done.taken + piece + rest.taken;
  }

  lemma CopyDrawsOn<T>(c: Config, queue: seq<Chunk<T>>, offset: nat, count: nat, done: Draw<T>)
    requires DrawsOn(c, queue, offset, count, done) && done.queue != []
    requires 0 < count - |done.taken| < done.queue[0].ValidFrames() - done.offset
    ensures DrawsOn(c, queue, offset, count, Turn(c, count, done))
  {
    var piece := done.queue[0].data[done.offset..done.offset + count - |done.taken|];
    assert done.taken + piece + [] == done.taken + piece;
  }
}
