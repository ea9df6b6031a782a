/** Whole-run guarantees of the reorder buffer: release order, bounded buffering and packet accounting. */
module RtpReorderOrder {
  import opened Common
  import opened RtpReorderSpec

  // ---------- what every call keeps ----------

  ghost predicate FrameConsistent(s: State, t: nat)
    requires t in s.frames
  {
    var frame := s.frames[t];
    && frame.minSequence in frame.packets
    && (forall q :: q in frame.packets ==>
          && frame.minSequence <= q <= s.highest
          && frame.packets[q].WellFormed()
          && frame.packets[q].timestamp == t
          && frame.packets[q].sequence == q % SEQUENCE_MODULUS
          && (q, t) in s.seen)
    && (frame.markerReceived ==>
          frame.markerSequence in frame.packets && frame.packets[frame.markerSequence].marker)
  }

  /** The next sequence number never exceeds the highest one plus one, and frames hold what their keys say. */
  ghost predicate Consistent(s: State) {
    && (s.frames != map[] ==> s.initialized)
    && (s.next.Some? ==> s.initialized && s.next.value <= s.highest + 1)
    && forall t :: t in s.frames ==> FrameConsistent(s, t)
  }

  lemma ReceiveConsistent(s: State, m: Message, now: int)
    requires Consistent(s) && m.Binary?
    ensures Consistent(Receive(s, m, now)) && s.seen <= Receive(s, m, now).seen
    ensures Receive(s, m, now).next == s.next
  {
    if m.WellFormed() {
      if s.initialized {
        UnwrapCongruent(m.sequence, s.highest);
      }
      var counted := Numbered(Counted(s), m);
      assert Consistent(counted) by {
        forall t | t in counted.frames ensures FrameConsistent(counted, t) {
          assert FrameConsistent(s, t);
        }
      }
      BufferConsistent(counted, m, SequenceOf(s, m), now);
    }
  }

  lemma BufferConsistent(s: State, m: Message, sequence: int, now: int)
    requires Consistent(s) && s.initialized && m.Binary? && m.WellFormed()
    requires sequence <= s.highest && sequence % SEQUENCE_MODULUS == m.sequence
    ensures Consistent(Buffer(s, m, sequence, now)) && s.seen <= Buffer(s, m, sequence, now).seen
    ensures Buffer(s, m, sequence, now).next == s.next
  {
    var result := Buffer(s, m, sequence, now);
    forall t | t in result.frames ensures FrameConsistent(result, t) {
      if t in s.frames {
        assert FrameConsistent(s, t);
      }
    }
  }

  lemma {:induction false} ReceiveAllConsistent(s: State, messages: seq<Message>, now: int)
    requires Consistent(s)
    ensures Consistent(ReceiveAll(s, messages, now)) && s.seen <= ReceiveAll(s, messages, now).seen
    ensures ReceiveAll(s, messages, now).next == s.next
  {
    if messages == [] {
    } else {
      ReceiveAllConsistent(s, messages[..|messages| - 1], now);
      var m := messages[|messages| - 1];
      if m.Binary? {
        ReceiveConsistent(ReceiveAll(s, messages[..|messages| - 1], now), m, now);
      }
    }
  }

  /** `r` is `s` with one frame erased and the next sequence number possibly moved. */
  ghost predicate Erased(s: State, t: nat, r: State) {
    && t in s.frames && r.frames == s.frames - {t}
    && r.highest == s.highest && r.initialized == s.initialized && r.seen == s.seen
    && (r.next == s.next || (r.next.Some? && r.next.value <= s.highest + 1))
  }

  lemma ErasedConsistent(s: State, t: nat, r: State)
    requires Consistent(s) && Erased(s, t, r)
    ensures Consistent(r)
  {
    forall u | u in r.frames ensures FrameConsistent(r, u) {
      assert FrameConsistent(s, u);
    }
  }

  lemma PerformErases(c: Config, s: State, now: int)
    requires Consistent(s) && s.frames != map[] && !Judge(c, s, now).Wait?
    ensures Erased(s, Oldest(s.frames), Perform(c, s, now).state)
  {
    var oldest := Oldest(s.frames);
    var frame := s.frames[oldest];
    assert FrameConsistent(s, oldest);
    BoundedCardinality(frame.packets.Keys, frame.minSequence, s.highest + 1);
    match LaterSequence(s.frames, oldest)
    case None =>
    case Some(q) =>
      var t :| StartsAfter(s.frames, oldest, t) && s.frames[t].minSequence == q;
      assert FrameConsistent(s, t);
  }

  // ---------- order ----------

  /** Each RTP timestamp owns a convex block of unwrapped sequence numbers. */
  ghost predicate Convex(seen: set<(int, nat)>) {
    forall a, b, c :: a in seen && b in seen && c in seen && a.0 <= b.0 <= c.0 && a.1 == c.1 ==> b.1 == a.1
  }

  ghost predicate AheadOfNext(s: State) {
    s.next.Some? ==> forall t, q :: t in s.frames && q in s.frames[t].packets ==> s.next.value <= q
  }

  ghost predicate InOrder(s: State) {
    Consistent(s) && Convex(s.seen) && AheadOfNext(s)
  }

  /** A gap-free run of one timestamp that ends at its marker packet. */
  ghost predicate IsWholeFrame(b: Block) {
    && b.messages != []
    && (forall i :: 0 <= i < |b.messages| ==>
          && b.messages[i].WellFormed()
          && b.messages[i].timestamp == b.timestamp
          && b.messages[i].sequence == (b.first + i) % SEQUENCE_MODULUS)
    && b.messages[|b.messages| - 1].marker
  }

  ghost predicate Ascending(blocks: seq<Block>) {
    && (forall i :: 0 <= i < |blocks| ==> IsWholeFrame(blocks[i]))
    && forall i, j :: 0 <= i < j < |blocks| ==> blocks[i].first + |blocks[i].messages| <= blocks[j].first
  }

  ghost predicate BlockBetween(before: Option<int>, b: Block, after: Option<int>) {
    && (before.Some? ==> before.value <= b.first)
    && after.Some? && b.first + |b.messages| <= after.value
  }

  /** Every block lies between two positions of the next sequence number, which does not retreat. */
  ghost predicate Between(before: Option<int>, blocks: seq<Block>, after: Option<int>) {
    && Ascending(blocks)
    && (before.Some? ==> after.Some? && before.value <= after.value)
    && forall i :: 0 <= i < |blocks| ==> BlockBetween(before, blocks[i], after)
  }

  lemma BetweenCompose(a: Option<int>, xs: seq<Block>, b: Option<int>, ys: seq<Block>, c: Option<int>)
    requires Between(a, xs, b) && Between(b, ys, c)
    ensures Between(a, xs + ys, c)
  {
    var all := xs + ys;
    forall i | 0 <= i < |all| ensures BlockBetween(a, all[i], c) {
      if i < |xs| {
        assert BlockBetween(a, xs[i], b);
      } else {
        assert BlockBetween(b, ys[i - |xs|], c);
      }
    }
  }

  lemma ReceiveInOrder(s: State, m: Message, now: int)
    requires Consistent(s) && AheadOfNext(s) && m.Binary?
    ensures AheadOfNext(Receive(s, m, now))
  {
    var result := Receive(s, m, now);
    forall t, q | result.next.Some? && t in result.frames && q in result.frames[t].packets
      ensures result.next.value <= q
    {
      if t in s.frames && q in s.frames[t].packets {
        assert s.next.value <= q;
      }
    }
  }

  lemma {:induction false} ReceiveAllInOrder(s: State, messages: seq<Message>, now: int)
    requires Consistent(s) && AheadOfNext(s)
    ensures AheadOfNext(ReceiveAll(s, messages, now))
  {
    if messages == [] {
    } else {
      var prefix := messages[..|messages| - 1];
      ReceiveAllInOrder(s, prefix, now);
      ReceiveAllConsistent(s, prefix, now);
      if messages[|messages| - 1].Binary? {
        ReceiveInOrder(ReceiveAll(s, prefix, now), messages[|messages| - 1], now);
      }
    }
  }

  /** Under convexity the oldest frame lies wholly before every other buffered packet. */
  lemma OldestComesFirst(s: State, p: int, t: nat, q: int)
    requires InOrder(s) && s.frames != map[]
    requires p in s.frames[Oldest(s.frames)].packets
    requires t in s.frames && t != Oldest(s.frames) && q in s.frames[t].packets
    ensures p < q
    ensures StartsAfter(s.frames, Oldest(s.frames), t)
  {
    var oldest := Oldest(s.frames);
    assert FrameConsistent(s, oldest) && FrameConsistent(s, t);
    var low, other := s.frames[oldest].minSequence, s.frames[t].minSequence;
    assert (low, oldest) in s.seen && (p, oldest) in s.seen && (q, t) in s.seen && (other, t) in s.seen;
  }

  /** Under convexity the first remaining packet lies after the erased frame's start and marker. */
  lemma RemainingFollow(s: State, r: State, t: nat, q: int)
    requires InOrder(s) && s.frames != map[] && Erased(s, Oldest(s.frames), r)
    requires t in r.frames && q in r.frames[t].packets
    ensures var frame := s.frames[Oldest(s.frames)];
      && frame.minSequence < q && (frame.markerReceived ==> frame.markerSequence < q)
      && StartsAfter(s.frames, Oldest(s.frames), t) && s.frames[t].minSequence <= q
  {
    var oldest := Oldest(s.frames);
    var frame := s.frames[oldest];
    assert FrameConsistent(s, oldest) && FrameConsistent(s, t);
    OldestComesFirst(s, frame.minSequence, t, q);
    if frame.markerReceived {
      OldestComesFirst(s, frame.markerSequence, t, q);
    }
  }

  /** The ways one verdict can move the next sequence number. */
  ghost predicate Moved(s: State, r: State)
    requires s.frames != map[]
  {
    var oldest := Oldest(s.frames);
    var frame, later := s.frames[oldest], LaterSequence(s.frames, oldest);
    || r.next == s.next
    || (frame.markerReceived && r.next == Some(frame.markerSequence + 1))
    || (later.Some? && r.next == later)
    || later.None?
  }

  lemma PerformMoves(c: Config, s: State, now: int)
    requires s.frames != map[] && !Judge(c, s, now).Wait?
    ensures Moved(s, Perform(c, s, now).state)
  {
  }

  lemma ErasedInOrder(s: State, r: State)
    requires InOrder(s) && s.frames != map[] && Erased(s, Oldest(s.frames), r) && Moved(s, r)
    ensures InOrder(r)
  {
    ErasedConsistent(s, Oldest(s.frames), r);
    forall t, q | r.next.Some? && t in r.frames && q in r.frames[t].packets
      ensures r.next.value <= q
    {
      RemainingFollow(s, r, t, q);
    }
  }

  lemma OldestAhead(s: State)
    requires InOrder(s) && s.frames != map[]
    ensures FrameConsistent(s, Oldest(s.frames))
    ensures s.next.Some? ==> s.next.value <= s.frames[Oldest(s.frames)].minSequence
  {
    assert FrameConsistent(s, Oldest(s.frames));
  }

  lemma RunIsWholeFrame(s: State, t: nat, first: int)
    requires t in s.frames && FrameConsistent(s, t) && s.frames[t].markerReceived
    requires first <= s.frames[t].markerSequence && GapFree(s.frames[t], first)
    ensures IsWholeFrame(Block(t, first, PacketRun(s.frames[t].packets, first, s.frames[t].markerSequence + 1)))
  {
  }

  lemma PerformBetween(c: Config, s: State, now: int)
    requires s.frames != map[] && !Judge(c, s, now).Wait? && FrameConsistent(s, Oldest(s.frames))
    requires s.next.Some? ==> s.next.value <= s.frames[Oldest(s.frames)].minSequence
    ensures var step := Perform(c, s, now); Between(s.next, step.blocks, step.state.next)
  {
    if Judge(c, s, now).ReleaseFrom? {
      RunIsWholeFrame(s, Oldest(s.frames), Judge(c, s, now).first);
    }
  }

  lemma {:induction false} DrainInOrder(c: Config, s: State, now: int)
    requires InOrder(s)
    ensures var result := Drain(c, s, now);
      InOrder(result.state) && result.state.seen == s.seen && Between(s.next, result.blocks, result.state.next)
    decreases |s.frames|
  {
    if s.frames != map[] && !Judge(c, s, now).Wait? {
      var step := Perform(c, s, now);
      PerformErases(c, s, now);
      PerformMoves(c, s, now);
      ErasedInOrder(s, step.state);
      OldestAhead(s);
      PerformBetween(c, s, now);
      ErasureShrinks(s.frames, Oldest(s.frames));
      DrainInOrder(c, step.state, now);
      var rest := Drain(c, step.state, now);
      BetweenCompose(s.next, step.blocks, step.state.next, rest.blocks, rest.state.next);
    }
  }

  datatype Call = Call(messages: seq<Message>, now: int)

  /** Any sequence of `incoming` calls with any clock readings. */
  ghost function Run(c: Config, s: State, calls: seq<Call>): Outcome {
    if calls == [] then Outcome(s, [], false)
    else
      var before := Run(c, s, calls[..|calls| - 1]);
      var call := calls[|calls| - 1];
      var step := Incoming(c, before.state, call.messages, call.now);
      Outcome(step.state, before.blocks + step.blocks, before.lost || step.lost)
  }

  lemma {:induction false} DrainConsistent(c: Config, s: State, now: int)
    requires Consistent(s)
    ensures Consistent(Drain(c, s, now).state) && Drain(c, s, now).state.seen == s.seen
    decreases |s.frames|
  {
    if s.frames != map[] && !Judge(c, s, now).Wait? {
      PerformErases(c, s, now);
      ErasedConsistent(s, Oldest(s.frames), Perform(c, s, now).state);
      ErasureShrinks(s.frames, Oldest(s.frames));
      DrainConsistent(c, Perform(c, s, now).state, now);
    }
  }

  /** Without any assumption: consistency holds over every run, so the next number never passes highest + 1. */
  lemma {:induction false} RunConsistent(c: Config, calls: seq<Call>)
    ensures Consistent(Run(c, INITIAL, calls).state)
  {
    if calls == [] {
    } else {
      var prefix, call := calls[..|calls| - 1], calls[|calls| - 1];
      RunConsistent(c, prefix);
      var s := Run(c, INITIAL, prefix).state;
      ReceiveAllConsistent(s, call.messages, call.now);
      DrainConsistent(c, ReceiveAll(s, call.messages, call.now), call.now);
    }
  }

  /**
   Ordered release: over any run whose buffered packets give each timestamp a convex block,
   every released frame is whole, and released sequence numbers strictly increase across frames and calls.
   */
  lemma {:induction false} ReleaseOrder(c: Config, calls: seq<Call>)
    requires Convex(Run(c, INITIAL, calls).state.seen)
    ensures var result := Run(c, INITIAL, calls);
      Ascending(result.blocks) && InOrder(result.state) && Between(None, result.blocks, result.state.next)
  {
    if calls == [] {
    } else {
      var prefix, call := calls[..|calls| - 1], calls[|calls| - 1];
      var before := Run(c, INITIAL, prefix);
      RunConsistent(c, prefix);
      var received := ReceiveAll(before.state, call.messages, call.now);
      ReceiveAllConsistent(before.state, call.messages, call.now);
      DrainConsistent(c, received, call.now);
      assert before.state.seen <= received.seen == Run(c, INITIAL, calls).state.seen;
      ReleaseOrder(c, prefix);
      ReceiveAllInOrder(before.state, call.messages, call.now);
      DrainInOrder(c, received, call.now);
      var step := Drain(c, received, call.now);
      BetweenCompose(None, before.blocks, before.state.next, step.blocks, step.state.next);
    }
  }

  lemma ConvexPrefix(c: Config, calls: seq<Call>)
    requires calls != [] && Convex(Run(c, INITIAL, calls).state.seen)
    ensures var before, call := Run(c, INITIAL, calls[..|calls| - 1]).state, calls[|calls| - 1];
      var received := ReceiveAll(before, call.messages, call.now);
      Convex(before.seen) && InOrder(received) && received.next == before.next
  {
    var prefix, call := calls[..|calls| - 1], calls[|calls| - 1];
    var before := Run(c, INITIAL, prefix).state;
    RunConsistent(c, prefix);
    ReceiveAllConsistent(before, call.messages, call.now);
    DrainConsistent(c, ReceiveAll(before, call.messages, call.now), call.now);
    ReleaseOrder(c, prefix);
    ReceiveAllInOrder(before, call.messages, call.now);
  }

  /** The next expected number never retreats: at no later point of a run is it below an earlier value. */
  lemma {:induction false} NextNeverRetreats(c: Config, calls: seq<Call>, n: nat)
    requires n <= |calls| && Convex(Run(c, INITIAL, calls).state.seen)
    ensures var early, late := Run(c, INITIAL, calls[..n]).state.next, Run(c, INITIAL, calls).state.next;
      early.Some? ==> late.Some? && early.value <= late.value
    decreases |calls|
  {
    if n == |calls| {
      assert calls[..n] == calls;
    } else {
      var last := |calls| - 1;
      ConvexPrefix(c, calls);
      NextNeverRetreats(c, calls[..last], n);
      assert calls[..last][..n] == calls[..n];
      var received := ReceiveAll(Run(c, INITIAL, calls[..last]).state, calls[last].messages, calls[last].now);
      DrainInOrder(c, received, calls[last].now);
    }
  }

  // ---------- bounded buffering ----------

  /** What is left after a call: few frames, and the oldest may still wait or cannot be told finished. */
  ghost predicate Settled(c: Config, s: State, now: int) {
    s.frames != map[] ==>
      && |s.frames| <= c.maxFrames
      && var oldest := Oldest(s.frames);
         || now - s.frames[oldest].firstArrival < c.maxWait
         || (!s.frames[oldest].markerReceived && LaterSequence(s.frames, oldest).None?)
  }

  lemma {:induction false} IncomingSettles(c: Config, s: State, messages: seq<Message>, now: int)
    ensures Settled(c, Incoming(c, s, messages, now).state, now)
  {
    DrainSettles(c, ReceiveAll(s, messages, now), now);
  }

  lemma {:induction false} DrainSettles(c: Config, s: State, now: int)
    ensures Settled(c, Drain(c, s, now).state, now)
    decreases |s.frames|
  {
    if s.frames != map[] && !Judge(c, s, now).Wait? {
      ErasureShrinks(s.frames, Oldest(s.frames));
      DrainSettles(c, Perform(c, s, now).state, now);
    }
  }

  /** A release loop reports a loss exactly when it gives up a frame. */
  lemma {:induction false} LossReported(c: Config, s: State, now: int)
    ensures var result := Drain(c, s, now);
      && s.stats.droppedFrames <= result.state.stats.droppedFrames
      && (result.lost <==> result.state.stats.droppedFrames > s.stats.droppedFrames)
    decreases |s.frames|
  {
    if s.frames != map[] && !Judge(c, s, now).Wait? {
      ErasureShrinks(s.frames, Oldest(s.frames));
      LossReported(c, Perform(c, s, now).state, now);
    }
  }

  /** Messages that are not RTP pass through, all of them and in their order. */
  lemma {:induction false} PassedThroughSplits(xs: seq<Message>, ys: seq<Message>)
    ensures PassedThrough(xs + ys) == PassedThrough(xs) + PassedThrough(ys)
  {
    if ys == [] {
      assert xs + ys == xs;
    } else {
      var last := |ys| - 1;
      PassedThroughSplits(xs, ys[..last]);
      assert (xs + ys)[..|xs + ys| - 1] == xs + ys[..last];
      ConcatAssociates(PassedThrough(xs), PassedThrough(ys[..last]), if ys[last].Binary? then [] else [ys[last]]);
    }
  }

  lemma PassedThroughOne(m: Message)
    ensures PassedThrough([m]) == if m.Other? then [m] else []
  {
  }

  // ---------- accounting ----------

  /** Every buffered packet, tagged with the frame that holds it. */
  function Held(frames: map<nat, Frame>): set<(nat, int)> {
    set t, q | t in frames && q in frames[t].packets :: (t, q)
  }

  function Tagged(t: nat, keys: set<int>): set<(nat, int)> {
    set q | q in keys :: (t, q)
  }

  lemma {:induction false} TaggedCardinality(t: nat, keys: set<int>)
    ensures |Tagged(t, keys)| == |keys|
    decreases |keys|
  {
    if forall q :: q !in keys {
      assert keys == {};
      assert Tagged(t, keys) == {};
    } else {
      var q :| q in keys;
      TaggedCardinality(t, keys - {q});
      assert Tagged(t, keys) == Tagged(t, keys - {q}) + {(t, q)};
      assert keys == keys - {q} + {q};
    }
  }

  lemma ErasureUnholds(frames: map<nat, Frame>, t: nat)
    requires t in frames
    ensures |Held(frames)| == |Held(frames - {t})| + |frames[t].packets|
  {
    var tagged := Tagged(t, frames[t].packets.Keys);
    TaggedCardinality(t, frames[t].packets.Keys);
    assert Held(frames) == Held(frames - {t}) + tagged;
    assert Held(frames - {t}) !! tagged;
  }

  ghost predicate Balanced(s: State) {
    s.stats.received == s.stats.invalid + s.stats.late + s.stats.duplicate + s.stats.released
                        + |Held(s.frames)| + s.discarded
  }

  lemma ReceiveHolds(s: State, m: Message, sequence: int, now: int)
    requires m.Binary?
    ensures var frame, r := Opened(s, m.timestamp, sequence, now), Buffer(s, m, sequence, now);
      var refused := (s.next.Some? && sequence < s.next.value) || sequence in frame.packets;
      Held(r.frames) == Held(s.frames) + if refused then {} else {(m.timestamp, sequence)}
  {
  }

  lemma ReceiveBalanced(s: State, m: Message, now: int)
    requires Balanced(s) && m.Binary?
    ensures Balanced(Receive(s, m, now))
  {
    if m.WellFormed() {
      ReceiveHolds(Numbered(Counted(s), m), m, SequenceOf(s, m), now);
    }
  }

  lemma PerformBalanced(c: Config, s: State, now: int)
    requires Balanced(s) && Consistent(s) && s.frames != map[] && !Judge(c, s, now).Wait?
    ensures Balanced(Perform(c, s, now).state)
  {
    var oldest := Oldest(s.frames);
    var frame := s.frames[oldest];
    ErasureUnholds(s.frames, oldest);
    if Judge(c, s, now).ReleaseFrom? {
      var first := Judge(c, s, now).first;
      IntervalCardinality(frame.packets.Keys, first, frame.markerSequence + 1);
    }
  }

  lemma {:induction false} IntervalCardinality(keys: set<int>, first: int, end: int)
    requires first <= end && forall q :: first <= q < end ==> q in keys
    ensures end - first <= |keys|
    decreases end - first
  {
    if first < end {
      IntervalCardinality(keys - {end - 1}, first, end - 1);
    }
  }

  lemma {:induction false} DrainBalanced(c: Config, s: State, now: int)
    requires Balanced(s) && Consistent(s)
    ensures Balanced(Drain(c, s, now).state)
    decreases |s.frames|
  {
    if s.frames != map[] && !Judge(c, s, now).Wait? {
      PerformBalanced(c, s, now);
      PerformErases(c, s, now);
      ErasedConsistent(s, Oldest(s.frames), Perform(c, s, now).state);
      ErasureShrinks(s.frames, Oldest(s.frames));
      DrainBalanced(c, Perform(c, s, now).state, now);
    }
  }

  lemma {:induction false} ReceiveAllBalanced(s: State, messages: seq<Message>, now: int)
    requires Balanced(s)
    ensures Balanced(ReceiveAll(s, messages, now))
  {
    if messages == [] {
    } else {
      var prefix := messages[..|messages| - 1];
      ReceiveAllBalanced(s, prefix, now);
      if messages[|messages| - 1].Binary? {
        ReceiveBalanced(ReceiveAll(s, prefix, now), messages[|messages| - 1], now);
      }
    }
  }

  /** Over every run, each received packet is in exactly one of six tallies. */
  lemma {:induction false} RunBalanced(c: Config, calls: seq<Call>)
    ensures Balanced(Run(c, INITIAL, calls).state)
  {
    if calls == [] {
      assert Held(INITIAL.frames) == {};
    } else {
      var prefix, call := calls[..|calls| - 1], calls[|calls| - 1];
      RunBalanced(c, prefix);
      RunConsistent(c, prefix);
      var s := Run(c, INITIAL, prefix).state;
      ReceiveAllBalanced(s, call.messages, call.now);
      ReceiveAllConsistent(s, call.messages, call.now);
      DrainBalanced(c, ReceiveAll(s, call.messages, call.now), call.now);
    }
  }

  // ---------- patience ----------

  /** Neither too many frames are buffered nor has any of them waited for too long. */
  ghost predicate Unpressed(c: Config, s: State, now: int) {
    |s.frames| <= c.maxFrames && forall t :: t in s.frames ==> now - s.frames[t].firstArrival < c.maxWait
  }

  ghost predicate NothingLost(s: State, result: Outcome) {
    && !result.lost
    && result.state.stats.droppedFrames == s.stats.droppedFrames
    && result.state.stats.missing == s.stats.missing
    && result.state.stats.late == s.stats.late
  }

  /** Without pressure the loop only ever releases. */
  lemma UnpressedReleases(c: Config, s: State, now: int)
    requires s.frames != map[] && Unpressed(c, s, now) && !Judge(c, s, now).Wait?
    requires var frame := s.frames[Oldest(s.frames)];
      (s.next.Some? ==> s.next.value <= frame.minSequence)
      && (frame.markerReceived ==> frame.minSequence <= frame.markerSequence)
    ensures Judge(c, s, now).ReleaseFrom?
  {
  }

  lemma ReleaseLosesNothing(c: Config, s: State, now: int)
    requires s.frames != map[] && Judge(c, s, now).ReleaseFrom?
    ensures NothingLost(s, Perform(c, s, now)) && Perform(c, s, now).state.frames == s.frames - {Oldest(s.frames)}
  {
  }

  lemma UnpressedPerform(c: Config, s: State, now: int)
    requires InOrder(s) && s.frames != map[] && Unpressed(c, s, now) && !Judge(c, s, now).Wait?
    ensures NothingLost(s, Perform(c, s, now)) && Unpressed(c, Perform(c, s, now).state, now)
  {
    OldestAhead(s);
    UnpressedReleases(c, s, now);
    ReleaseLosesNothing(c, s, now);
    ErasureShrinks(s.frames, Oldest(s.frames));
  }

  lemma {:induction false} UnpressedDrain(c: Config, s: State, now: int)
    requires InOrder(s) && Unpressed(c, s, now)
    ensures NothingLost(s, Drain(c, s, now))
    decreases |s.frames|
  {
    if s.frames != map[] && !Judge(c, s, now).Wait? {
      UnpressedPerform(c, s, now);
      PerformErases(c, s, now);
      PerformMoves(c, s, now);
      ErasedInOrder(s, Perform(c, s, now).state);
      ErasureShrinks(s.frames, Oldest(s.frames));
      UnpressedDrain(c, Perform(c, s, now).state, now);
    }
  }

  /**
   No impatient loss: in every reachable state, a call after which the received packets are neither too many
   frames nor waiting for too long drops no frame, counts none as missing or late when it releases, and
   reports no loss.
   */
  lemma NoImpatientLoss(c: Config, calls: seq<Call>, messages: seq<Message>, now: int)
    requires Convex(Run(c, INITIAL, calls + [Call(messages, now)]).state.seen)
    requires Unpressed(c, ReceiveAll(Run(c, INITIAL, calls).state, messages, now), now)
    ensures var s := Run(c, INITIAL, calls).state;
      NothingLost(ReceiveAll(s, messages, now), Incoming(c, s, messages, now))
  {
    var all := calls + [Call(messages, now)];
    assert all[..|all| - 1] == calls;
    var s := Run(c, INITIAL, calls).state;
    var received := ReceiveAll(s, messages, now);
    RunConsistent(c, calls);
    ReceiveAllConsistent(s, messages, now);
    DrainConsistent(c, received, now);
    assert s.seen <= received.seen == Run(c, INITIAL, all).state.seen;
    ReleaseOrder(c, calls);
    ReceiveAllInOrder(s, messages, now);
    UnpressedDrain(c, received, now);
  }
}
