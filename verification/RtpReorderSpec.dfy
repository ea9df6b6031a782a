/**
 The value-level model of the RTP reorder buffer: what one packet and one release
 decision do to the buffered frames. The class in RtpReorderBuffer.dfy is proved to
 compute these functions; the order, recovery and accounting theorems are about them.
 */
module RtpReorderSpec {
  import opened Common

  const MAX_FRAME_PACKETS := 4096
  const SEQUENCE_MODULUS := 65536
  const HALF_MODULUS := 32768

  type Sequence16 = n: nat | n < 65536

  /** A message on the receive chain; only binary messages are RTP. */
  datatype Message =
    | Other(id: int)
    | Binary(size: nat, version: nat, headerSize: nat, extensionSize: nat,
             sequence: Sequence16, timestamp: nat, marker: bool, id: int)
  {
    predicate WellFormed() {
      Binary? && size >= 12 && version == 2 && size >= headerSize && size >= headerSize + extensionSize
    }
  }

  /** The packets of one RTP timestamp that have arrived so far, by unwrapped sequence number. */
  datatype Frame = Frame(minSequence: int, markerSequence: int, markerReceived: bool,
                         firstArrival: int, packets: map<int, Message>)

  datatype Statistics = Statistics(received: nat, released: nat, reordered: nat, duplicate: nat, late: nat,
                                   invalid: nat, releasedFrames: nat, droppedFrames: nat, missing: nat)

  datatype Config = Config(maxWait: int, maxFrames: nat)

  /**
   `discarded` and `seen` are history: the packets erased without being released, and
   the (unwrapped sequence, RTP timestamp) pair of every packet that was buffered.
   */
  datatype State = State(frames: map<nat, Frame>, next: Option<int>, initialized: bool, highest: int,
                         stats: Statistics, discarded: nat, seen: set<(int, nat)>)

  /** A frame handed on: the messages of the consecutive sequence numbers from `first` on. */
  datatype Block = Block(timestamp: nat, first: int, messages: seq<Message>)

  const NO_STATISTICS := Statistics(0, 0, 0, 0, 0, 0, 0, 0, 0)
  const INITIAL := State(map[], None, false, 0, NO_STATISTICS, 0, {})

  // ---------- sequence numbers ----------

  function Unwrap(sequence: Sequence16, highest: int): int {
    var candidate := highest - highest % SEQUENCE_MODULUS + sequence;
    if candidate + HALF_MODULUS < highest then candidate + SEQUENCE_MODULUS
    else if candidate - HALF_MODULUS > highest then candidate - SEQUENCE_MODULUS
    else candidate
  }

  /** Unwrapping undoes truncation for every number within 32767 of the highest one, and is always near it. */
  lemma UnwrapRoundTrip(x: int, highest: int)
    requires highest - 32767 <= x <= highest + 32767
    ensures Unwrap(x % SEQUENCE_MODULUS, highest) == x
  {
    var low := x % SEQUENCE_MODULUS;
    var candidate := highest - highest % SEQUENCE_MODULUS + low;
    assert (candidate - x) % SEQUENCE_MODULUS == 0 by {
      assert candidate - x
          == SEQUENCE_MODULUS * (highest / SEQUENCE_MODULUS) - SEQUENCE_MODULUS * (x / SEQUENCE_MODULUS);
    }
    var k := (candidate - x) / SEQUENCE_MODULUS;
    assert candidate - x == SEQUENCE_MODULUS * k;
    assert -2 < k < 2;
  }

  lemma UnwrapCongruent(sequence: Sequence16, highest: int)
    ensures Unwrap(sequence, highest) % SEQUENCE_MODULUS == sequence
    ensures highest - HALF_MODULUS <= Unwrap(sequence, highest) <= highest + HALF_MODULUS
  {
    assert highest - highest % SEQUENCE_MODULUS == SEQUENCE_MODULUS * (highest / SEQUENCE_MODULUS);
  }

  // ---------- one packet ----------

  function SequenceOf(s: State, m: Message): int
    requires m.Binary?
  {
    if s.initialized then Unwrap(m.sequence, s.highest) else m.sequence
  }

  /** The frame for `timestamp` after it has been found or created for a packet numbered `sequence`. */
  function Opened(s: State, timestamp: nat, sequence: int, now: int): Frame {
    if timestamp in s.frames then
      s.frames[timestamp].(minSequence := Min(s.frames[timestamp].minSequence, sequence))
    else
      Frame(sequence, sequence, false, now, map[])
  }

  function WithPacket(frame: Frame, sequence: int, m: Message): Frame
    requires m.Binary?
  {
    var filled := frame.(packets := frame.packets[sequence := m]);
    if m.marker then filled.(markerReceived := true, markerSequence := sequence) else filled
  }

  function Counted(s: State): State { s.(stats := s.stats.(received := s.stats.received + 1)) }

  function Numbered(s: State, m: Message): State
    requires m.Binary?
  {
    var sequence := SequenceOf(s, m);
    s.(initialized := true, highest := if s.initialized then Max(s.highest, sequence) else sequence)
  }

  function Buffer(s: State, m: Message, sequence: int, now: int): State
    requires m.Binary?
  {
    if s.next.Some? && sequence < s.next.value then
      s.(stats := s.stats.(late := s.stats.late + 1))
    else
      var frame := Opened(s, m.timestamp, sequence, now);
      if sequence in frame.packets then
        s.(frames := s.frames[m.timestamp := frame], stats := s.stats.(duplicate := s.stats.duplicate + 1))
      else
        s.(frames := s.frames[m.timestamp := WithPacket(frame, sequence, m)],
           seen := s.seen + {(sequence, m.timestamp)},
           stats := s.stats.(reordered := s.stats.reordered + if sequence < s.highest then 1 else 0))
  }

  function Receive(s: State, m: Message, now: int): State
    requires m.Binary?
  {
    var counted := Counted(s);
    if !m.WellFormed() then counted.(stats := counted.stats.(invalid := counted.stats.invalid + 1))
    else Buffer(Numbered(counted, m), m, SequenceOf(s, m), now)
  }

  /** All messages of one call, in order; the non-RTP ones leave the buffer alone. */
  function ReceiveAll(s: State, messages: seq<Message>, now: int): State {
    if messages == [] then s
    else
      var before := ReceiveAll(s, messages[..|messages| - 1], now);
      var m := messages[|messages| - 1];
      if m.Binary? then Receive(before, m, now) else before
  }

  function PassedThrough(messages: seq<Message>): seq<Message> {
    if messages == [] then []
    else
      var m := messages[|messages| - 1];
      PassedThrough(messages[..|messages| - 1]) + if m.Binary? then [] else [m]
  }

  // ---------- one release decision ----------

  /** The frame with the smallest sequence number; ties go to the smallest timestamp. */
  ghost predicate IsOldest(frames: map<nat, Frame>, t: nat) {
    t in frames && forall u :: u in frames ==>
      frames[t].minSequence < frames[u].minSequence || (frames[t].minSequence == frames[u].minSequence && t <= u)
  }

  lemma OldestExists(frames: map<nat, Frame>)
    requires frames != map[]
    ensures exists t :: IsOldest(frames, t)
  {
    var some :| some in frames;
    var starts := set t | t in frames :: frames[t].minSequence;
    assert frames[some].minSequence in starts;
    var start := Least(starts);
    var first :| first in frames && frames[first].minSequence == start;
    var ties: set<int> := set t | t in frames && frames[t].minSequence == start :: t as int;
    assert first as int in ties;
    var oldest := Least(ties);
    assert IsOldest(frames, oldest) by {
      forall u | u in frames
        ensures start <= frames[u].minSequence && (frames[u].minSequence == start ==> oldest <= u)
      {
        assert frames[u].minSequence in starts;
        assert frames[u].minSequence == start ==> u as int in ties;
      }
    }
  }

  ghost function Oldest(frames: map<nat, Frame>): (t: nat)
    requires frames != map[]
    ensures IsOldest(frames, t)
  {
    OldestExists(frames);
    var t :| IsOldest(frames, t);
    t
  }

  lemma OldestUnique(frames: map<nat, Frame>, t: nat)
    requires IsOldest(frames, t)
    ensures frames != map[] && Oldest(frames) == t
  {
  }

  predicate StartsAfter(frames: map<nat, Frame>, current: nat, t: nat)
    requires current in frames
  {
    t in frames && t != current && frames[t].minSequence > frames[current].minSequence
  }

  /** Where the next frame starts: the least start above the current frame's start, if there is one. */
  ghost predicate IsLaterSequence(frames: map<nat, Frame>, current: nat, r: Option<int>)
    requires current in frames
  {
    match r
    case None => forall t :: !StartsAfter(frames, current, t)
    case Some(q) =>
      && (exists t :: StartsAfter(frames, current, t) && frames[t].minSequence == q)
      && forall t :: StartsAfter(frames, current, t) ==> q <= frames[t].minSequence
  }

  ghost function LaterSequence(frames: map<nat, Frame>, current: nat): (r: Option<int>)
    requires current in frames
    ensures IsLaterSequence(frames, current, r)
  {
    if exists t :: StartsAfter(frames, current, t) then
      var t :| StartsAfter(frames, current, t);
      var starts := set u | u in frames && StartsAfter(frames, current, u) :: frames[u].minSequence;
      assert forall u :: StartsAfter(frames, current, u) ==> frames[u].minSequence in starts;
      Some(Least(starts))
    else None
  }

  lemma LaterSequenceUnique(frames: map<nat, Frame>, current: nat, r: Option<int>)
    requires current in frames && IsLaterSequence(frames, current, r)
    ensures LaterSequence(frames, current) == r
  {
  }

  datatype Verdict =
    | Wait
    | DropUnmarked(next: int)
    | DropLate
    | DropIncomplete(missing: nat)
    | ReleaseFrom(first: int)

  predicate GapFree(frame: Frame, first: int) {
    forall q :: first <= q <= frame.markerSequence ==> q in frame.packets
  }

  /** What the release loop decides about the oldest frame. */
  ghost function Judge(c: Config, s: State, now: int): Verdict
    requires s.frames != map[]
  {
    var oldest := Oldest(s.frames);
    var frame := s.frames[oldest];
    var force := |s.frames| > c.maxFrames;
    var expired := now - frame.firstArrival >= c.maxWait;
    var later := LaterSequence(s.frames, oldest);
    var first := if s.next.Some? then s.next.value else frame.minSequence;
    var span := frame.markerSequence - first + 1;
    if !frame.markerReceived then
      if !force && (later.None? || !expired) then Wait
      else DropUnmarked(if later.Some? then later.value else frame.minSequence + |frame.packets|)
    else if s.next.None? && !force && !expired then Wait
    else if frame.markerSequence < first then DropLate
    else if span <= MAX_FRAME_PACKETS && GapFree(frame, first) then ReleaseFrom(first)
    else if !force && !expired then Wait
    else DropIncomplete(if span > |frame.packets| then span - |frame.packets| else 1)
  }

  /** The messages of the sequence numbers `first` up to but not including `end`. */
  function PacketRun(packets: map<int, Message>, first: int, end: int): (run: seq<Message>)
    requires forall q :: first <= q < end ==> q in packets
    ensures |run| == if first <= end then end - first else 0
    ensures forall i :: 0 <= i < |run| ==> run[i] == packets[first + i]
    decreases end - first
  {
    if first >= end then [] else PacketRun(packets, first, end - 1) + [packets[end - 1]]
  }

  datatype Outcome = Outcome(state: State, blocks: seq<Block>, lost: bool)

  /** Carries out a verdict other than Wait; it always erases the oldest frame. */
  ghost function Perform(c: Config, s: State, now: int): Outcome
    requires s.frames != map[] && !Judge(c, s, now).Wait?
  {
    var oldest := Oldest(s.frames);
    var frame := s.frames[oldest];
    var erased := s.(frames := s.frames - {oldest});
    match Judge(c, s, now)
    case DropUnmarked(next) =>
      Outcome(erased.(next := Some(next), discarded := s.discarded + |frame.packets|,
                      stats := s.stats.(droppedFrames := s.stats.droppedFrames + 1, missing := s.stats.missing + 1)),
              [], true)
    case DropLate =>
      Outcome(erased.(stats := s.stats.(late := s.stats.late + |frame.packets|)), [], false)
    case DropIncomplete(missing) =>
      Outcome(erased.(next := Some(frame.markerSequence + 1), discarded := s.discarded + |frame.packets|,
                      stats := s.stats.(droppedFrames := s.stats.droppedFrames + 1,
                                        missing := s.stats.missing + missing)),
              [], true)
    case ReleaseFrom(first) =>
      var run := PacketRun(frame.packets, first, frame.markerSequence + 1);
      Outcome(erased.(next := Some(frame.markerSequence + 1),
                      discarded := s.discarded + if |run| <= |frame.packets| then |frame.packets| - |run| else 0,
                      stats := s.stats.(released := s.stats.released + |run|,
                                        releasedFrames := s.stats.releasedFrames + 1)),
              [Block(oldest, first, run)], false)
  }

  /** The release loop: decide and carry out until there is nothing left or the oldest frame must wait. */
  ghost function Drain(c: Config, s: State, now: int): Outcome
    decreases |s.frames|
  {
    if s.frames == map[] || Judge(c, s, now).Wait? then Outcome(s, [], false)
    else
      var step := Perform(c, s, now);
      ErasureShrinks(s.frames, Oldest(s.frames));
      var rest := Drain(c, step.state, now);
      Outcome(rest.state, step.blocks + rest.blocks, step.lost || rest.lost)
  }

  lemma ErasureShrinks(frames: map<nat, Frame>, t: nat)
    requires t in frames
    ensures |frames - {t}| == |frames| - 1
  {
    assert (frames - {t}).Keys == frames.Keys - {t};
  }

  ghost function Incoming(c: Config, s: State, messages: seq<Message>, now: int): Outcome {
    Drain(c, ReceiveAll(s, messages, now), now)
  }

  function Flatten(blocks: seq<Block>): seq<Message> {
    if blocks == [] then [] else blocks[0].messages + Flatten(blocks[1..])
  }

  lemma {:induction false} FlattenConcat(xs: seq<Block>, ys: seq<Block>)
    ensures Flatten(xs + ys) == Flatten(xs) + Flatten(ys)
  {
    if xs == [] {
      assert xs + ys == ys;
    } else {
      FlattenConcat(xs[1..], ys);
      FlattenCons(xs[0], xs[1..] + ys);
      assert xs + ys == [xs[0]] + (xs[1..] + ys);
      ConcatAssociates(xs[0].messages, Flatten(xs[1..]), Flatten(ys));
    }
  }

  lemma FlattenCons(block: Block, rest: seq<Block>)
    ensures Flatten([block] + rest) == block.messages + Flatten(rest)
  {
    assert ([block] + rest)[1..] == rest;
  }
}
