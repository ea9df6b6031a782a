/** The reorder buffer as the source runs it: fields updated in place by nested loops. */
module RtpReorderBuffer {
  import opened Common
  import opened RtpReorderSpec

  const NANOSECONDS_PER_MILLISECOND := 1_000_000
  const LOSS_NOTIFY_INTERVAL := 500 * NANOSECONDS_PER_MILLISECOND

  class VideoRtpReorderBuffer {
    const config: Config
    var frames: map<nat, Frame>
    var nextSequence: Option<int>
    var sequenceInitialized: bool
    var highestSequence: int
    var lastLossNotification: int
    var statistics: Statistics
    ghost var discarded: nat
    ghost var seen: set<(int, nat)>

    ghost function Abstract(): State
      reads this
    {
      State(frames, nextSequence, sequenceInitialized, highestSequence, statistics, discarded, seen)
    }

    constructor (maxWaitMs: int, maxBufferedFrames: nat)
      ensures Abstract() == INITIAL && lastLossNotification == 0
      ensures config.maxFrames >= 2 && config.maxFrames >= maxBufferedFrames
      ensures config.maxWait >= NANOSECONDS_PER_MILLISECOND
    {
      config := Config(Max(maxWaitMs, 1) * NANOSECONDS_PER_MILLISECOND, Max(maxBufferedFrames, 2));
      frames, nextSequence, sequenceInitialized, highestSequence := map[], None, false, 0;
      lastLossNotification, statistics := 0, NO_STATISTICS;
      discarded, seen := 0, {};
    }

    method Reset()
      modifies this
      ensures Abstract() == INITIAL && lastLossNotification == 0
    {
      frames, nextSequence, sequenceInitialized, highestSequence := map[], None, false, 0;
      lastLossNotification, statistics := 0, NO_STATISTICS;
      discarded, seen := 0, {};
    }

    method Incoming(messages: seq<Message>, now: int) returns (output: seq<Message>, notifyLoss: bool)
      modifies this
      ensures var result := RtpReorderSpec.Incoming(config, old(Abstract()), messages, now);
        && Abstract() == result.state
        && output == PassedThrough(messages) + Flatten(result.blocks)
        && notifyLoss == (result.lost && (old(lastLossNotification) == 0
                                          || now - old(lastLossNotification) >= LOSS_NOTIFY_INTERVAL))
        && lastLossNotification == if notifyLoss then now else old(lastLossNotification)
    {
      output, notifyLoss := [], false;
      for i := 0 to |messages|
        invariant Abstract() == ReceiveAll(old(Abstract()), messages[..i], now)
        invariant output == PassedThrough(messages[..i])
        invariant lastLossNotification == old(lastLossNotification)
      {
        assert messages[..i + 1][..i] == messages[..i];
        if messages[i].Other? {
          output := output + [messages[i]];
        } else {
          BufferPacket(messages[i], now);
        }
      }
      assert messages[..|messages|] == messages;
      var released, frameLost := ReleaseReadyFrames(now);
      output := output + released;
      if frameLost && (lastLossNotification == 0 || now - lastLossNotification >= LOSS_NOTIFY_INTERVAL) {
        lastLossNotification := now;
        notifyLoss := true;
      }
    }

    method BufferPacket(m: Message, now: int)
      requires m.Binary?
      modifies this
      ensures Abstract() == Receive(old(Abstract()), m, now)
      ensures lastLossNotification == old(lastLossNotification)
    {
      statistics := statistics.(received := statistics.received + 1);
      if m.size < 12 || m.version != 2 || m.size < m.headerSize || m.size < m.headerSize + m.extensionSize {
        statistics := statistics.(invalid := statistics.invalid + 1);
        return;
      }
      var sequence := UnwrapSequence(m.sequence);
      if nextSequence.Some? && sequence < nextSequence.value {
        statistics := statistics.(late := statistics.late + 1);
        return;
      }
      var frame: Frame;
      if m.timestamp !in frames {
        frame := Frame(sequence, sequence, false, now, map[]);
      } else {
        frame := frames[m.timestamp];
        frame := frame.(minSequence := Min(frame.minSequence, sequence));
      }
      if sequence in frame.packets {
        frames := frames[m.timestamp := frame];
        statistics := statistics.(duplicate := statistics.duplicate + 1);
        return;
      }
      frame := frame.(packets := frame.packets[sequence := m]);
      if sequence < highestSequence {
        statistics := statistics.(reordered := statistics.reordered + 1);
      }
      if m.marker {
        frame := frame.(markerReceived := true, markerSequence := sequence);
      }
      frames := frames[m.timestamp := frame];
      seen := seen + {(sequence, m.timestamp)};
    }

    method UnwrapSequence(sequence: Sequence16) returns (unwrapped: int)
      modifies this
      ensures unwrapped == if old(sequenceInitialized) then Unwrap(sequence, old(highestSequence)) else sequence
      ensures Abstract() == old(Abstract()).(initialized := true,
                highest := if old(sequenceInitialized) then Max(old(highestSequence), unwrapped) else unwrapped)
      ensures lastLossNotification == old(lastLossNotification)
    {
      if !sequenceInitialized {
        sequenceInitialized := true;
        highestSequence := sequence;
        return highestSequence;
      }
      var candidate := highestSequence - highestSequence % SEQUENCE_MODULUS + sequence;
      if candidate + HALF_MODULUS < highestSequence {
        candidate := candidate + SEQUENCE_MODULUS;
      } else if candidate - HALF_MODULUS > highestSequence {
        candidate := candidate - SEQUENCE_MODULUS;
      }
      if candidate > highestSequence {
        highestSequence := candidate;
      }
      return candidate;
    }

    method FindOldestFrame() returns (oldest: nat)
      requires frames != map[]
      ensures IsOldest(frames, oldest)
    {
      var remaining := frames.Keys;
      oldest :| oldest in remaining;
      remaining := remaining - {oldest};
      while remaining != {}
        invariant remaining <= frames.Keys && oldest in frames
        invariant forall u :: u in frames && u !in remaining ==>
          frames[oldest].minSequence < frames[u].minSequence
          || (frames[oldest].minSequence == frames[u].minSequence && oldest <= u)
        decreases |remaining|
      {
        var t :| t in remaining;
        remaining := remaining - {t};
        if frames[t].minSequence < frames[oldest].minSequence
          || (frames[t].minSequence == frames[oldest].minSequence && t < oldest)
        {
          oldest := t;
        }
      }
    }

    method FindNextFrameSequence(current: nat) returns (result: Option<int>)
      requires current in frames
      ensures IsLaterSequence(frames, current, result)
    {
      var remaining := frames.Keys;
      result := None;
      ghost var found := current;
      while remaining != {}
        invariant remaining <= frames.Keys
        invariant result.None? ==> forall t :: StartsAfter(frames, current, t) ==> t in remaining
        invariant result.Some? ==> StartsAfter(frames, current, found) && frames[found].minSequence == result.value
        invariant result.Some? ==> forall t :: StartsAfter(frames, current, t) && t !in remaining ==>
          result.value <= frames[t].minSequence
        decreases |remaining|
      {
        var t :| t in remaining;
        remaining := remaining - {t};
        if t == current || frames[t].minSequence <= frames[current].minSequence {
          continue;
        }
        if result.None? || frames[t].minSequence < result.value {
          result := Some(frames[t].minSequence);
          found := t;
        }
      }
    }

    method ReleaseReadyFrames(now: int) returns (output: seq<Message>, frameLost: bool)
      modifies this
      ensures var result := Drain(config, old(Abstract()), now);
        Abstract() == result.state && output == Flatten(result.blocks) && frameLost == result.lost
      ensures lastLossNotification == old(lastLossNotification)
    {
      output, frameLost := [], false;
      ghost var blocks: seq<Block> := [];
      DrainStarts(config, Abstract(), now);
      while frames != map[]
        invariant output == Flatten(blocks)
        invariant lastLossNotification == old(lastLossNotification)
        invariant DrainContinues(config, old(Abstract()), now, Outcome(Abstract(), blocks, frameLost))
        decreases |frames|
      {
        ghost var before := Abstract();
        var oldest := FindOldestFrame();
        OldestUnique(frames, oldest);
        ErasureShrinks(frames, oldest);
        var verdict := JudgeOldest(oldest, now);
        if verdict.Wait? {
          break;
        }
        var run, lost := CarryOut(oldest, verdict, now);
        ghost var step := Perform(config, before, now);
        DrainAdvances(config, old(Abstract()), now, Outcome(before, blocks, frameLost));
        FlattenConcat(blocks, step.blocks);
        blocks := blocks + step.blocks;
        output := output + run;
        frameLost := frameLost || lost;
      }
      DrainStops(config, old(Abstract()), now, Outcome(Abstract(), blocks, frameLost));
    }

    /** The decision part of one pass of the release loop; Wait is the loop's exit. */
    method JudgeOldest(oldest: nat, now: int) returns (verdict: Verdict)
      requires frames != map[] && oldest == Oldest(frames)
      ensures verdict == Judge(config, Abstract(), now)
    {
      var frame := frames[oldest];
      var force := |frames| > config.maxFrames;
      var expired := now - frame.firstArrival >= config.maxWait;
      var next := FindNextFrameSequence(oldest);
      LaterSequenceUnique(frames, oldest, next);

      if !frame.markerReceived {
        if !force && (next.None? || !expired) {
          return Wait;
        }
        return DropUnmarked(if next.Some? then next.value else frame.minSequence + |frame.packets|);
      }

      var first := frame.minSequence;
      if nextSequence.Some? {
        first := nextSequence.value;
      } else if !force && !expired {
        return Wait;
      }
      if frame.markerSequence < first {
        return DropLate;
      }

      var span := frame.markerSequence - first + 1;
      var complete := span <= MAX_FRAME_PACKETS;
      if complete {
        complete := HasRun(frame, first);
      }
      if complete {
        return ReleaseFrom(first);
      }
      if !force && !expired {
        return Wait;
      }
      return DropIncomplete(if span > |frame.packets| then span - |frame.packets| else 1);
    }

    /** The updating part of one pass: counts, moves the next sequence number and erases the frame. */
    method CarryOut(oldest: nat, verdict: Verdict, now: int) returns (run: seq<Message>, lost: bool)
      requires frames != map[] && oldest == Oldest(frames)
      requires verdict == Judge(config, Abstract(), now) && !verdict.Wait?
      modifies this
      ensures var step := Perform(config, old(Abstract()), now);
        Abstract() == step.state && run == Flatten(step.blocks) && lost == step.lost
      ensures lastLossNotification == old(lastLossNotification)
    {
      var frame := frames[oldest];
      run, lost := [], false;
      match verdict {
        case DropUnmarked(next) =>
          statistics := statistics.(droppedFrames := statistics.droppedFrames + 1, missing := statistics.missing + 1);
          nextSequence := Some(next);
          discarded := discarded + |frame.packets|;
          lost := true;
        case DropLate =>
          statistics := statistics.(late := statistics.late + |frame.packets|);
        case DropIncomplete(missing) =>
          statistics := statistics.(droppedFrames := statistics.droppedFrames + 1,
                                    missing := statistics.missing + missing);
          nextSequence := Some(frame.markerSequence + 1);
          discarded := discarded + |frame.packets|;
          lost := true;
        case ReleaseFrom(first) =>
          run := ReleaseRun(frame, first);
          nextSequence := Some(frame.markerSequence + 1);
          discarded := discarded + if |run| <= |frame.packets| then |frame.packets| - |run| else 0;
          FlattenOne(Block(oldest, first, run));
      }
      frames := frames - {oldest};
    }

    method ReleaseRun(frame: Frame, first: int) returns (run: seq<Message>)
      requires first <= frame.markerSequence && GapFree(frame, first)
      modifies this`statistics
      ensures run == PacketRun(frame.packets, first, frame.markerSequence + 1)
      ensures statistics == old(statistics).(released := old(statistics).released + |run|,
                                             releasedFrames := old(statistics).releasedFrames + 1)
    {
      run := [];
      for sequence := first to frame.markerSequence + 1
        invariant run == PacketRun(frame.packets, first, sequence)
        invariant statistics == old(statistics).(released := old(statistics).released + |run|)
      {
        run := run + [frame.packets[sequence]];
        statistics := statistics.(released := statistics.released + 1);
      }
      statistics := statistics.(releasedFrames := statistics.releasedFrames + 1);
    }

    static method HasRun(frame: Frame, first: int) returns (complete: bool)
      requires first <= frame.markerSequence + 1
      ensures complete == GapFree(frame, first)
    {
      for sequence := first to frame.markerSequence + 1
        invariant forall q :: first <= q < sequence ==> q in frame.packets
      {
        if sequence !in frame.packets {
          return false;
        }
      }
      return true;
    }
  }

  /** `done` is what the release loop has reached and collected on the way to its outcome from `s`. */
  ghost predicate DrainContinues(c: Config, s: State, now: int, done: Outcome) {
    var rest := Drain(c, done.state, now);
    Drain(c, s, now) == Outcome(rest.state, done.blocks + rest.blocks, done.lost || rest.lost)
  }

  lemma DrainStarts(c: Config, s: State, now: int)
    ensures DrainContinues(c, s, now, Outcome(s, [], false))
  {
    var whole := Drain(c, s, now);
    assert [] + whole.blocks == whole.blocks;
  }

  lemma DrainStops(c: Config, s: State, now: int, done: Outcome)
    requires DrainContinues(c, s, now, done)
    requires done.state.frames == map[] || Judge(c, done.state, now).Wait?
    ensures Drain(c, s, now) == done
  {
    assert done.blocks + [] == done.blocks;
  }

  lemma DrainAdvances(c: Config, s: State, now: int, done: Outcome)
    requires DrainContinues(c, s, now, done)
    requires done.state.frames != map[] && !Judge(c, done.state, now).Wait?
    ensures var step := Perform(c, done.state, now);
      DrainContinues(c, s, now, Outcome(step.state, done.blocks + step.blocks, done.lost || step.lost))
  {
    var step := Perform(c, done.state, now);
    var rest := Drain(c, step.state, now);
    assert done.blocks + (step.blocks + rest.blocks) == done.blocks + step.blocks + rest.blocks;
  }

  lemma FlattenOne(b: Block)
    ensures Flatten([b]) == b.messages
  {
    assert [b][1..] == [];
  }
}
