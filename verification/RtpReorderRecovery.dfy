/** Recovery: a batch that holds every packet of whole frames comes out in order, however it was shuffled. */
module RtpReorderRecovery {
  import opened Common
  import opened RtpReorderSpec

  predicate SentPacket(sent: map<int, Message>, q: int) {
    q in sent && sent[q].WellFormed() && sent[q].sequence == q % SEQUENCE_MODULUS
  }

  predicate NoMarkerIn(sent: map<int, Message>, p: int, q: int) {
    forall r :: p <= r < q ==> SentPacket(sent, r) && !sent[r].marker
  }

  /** Two packets share a timestamp exactly when no marker lies between them; frames are within the packet limit. */
  predicate FrameLink(sent: map<int, Message>, p: int, q: int) {
    SentPacket(sent, p) && SentPacket(sent, q)
    && (sent[p].timestamp == sent[q].timestamp <==> NoMarkerIn(sent, p, q))
    && (NoMarkerIn(sent, p, q) ==> q - p < MAX_FRAME_PACKETS)
  }

  /** What the sender put on the wire as numbers n..m: whole frames, the last one closed by its marker. */
  ghost predicate SentFrames(sent: map<int, Message>, n: int, m: int) {
    && (forall q :: n <= q <= m ==> SentPacket(sent, q))
    && (forall p, q :: n <= p <= q <= m ==> FrameLink(sent, p, q))
    && (n <= m ==> SentPacket(sent, m) && sent[m].marker)
  }

  /** `messages` are the sent packets with the numbers `order`: any order, any duplicates, none missing. */
  ghost predicate Shuffled(sent: map<int, Message>, n: int, m: int, order: seq<int>, messages: seq<Message>) {
    && Drawn(sent, n, m, order, messages)
    && forall q :: n <= q <= m ==> q in order
  }

  ghost predicate Drawn(sent: map<int, Message>, n: int, m: int, order: seq<int>, messages: seq<Message>) {
    && |messages| == |order|
    && forall i :: 0 <= i < |order| ==> n <= order[i] <= m && order[i] in sent && messages[i] == sent[order[i]]
  }

  /** A buffered frame holds only arrived packets of its timestamp, and its marker if that has arrived. */
  ghost predicate FrameHolds(sent: map<int, Message>, arrived: set<int>, t: nat, f: Frame) {
    && f.minSequence in f.packets
    && (forall q :: q in f.packets ==>
          && q in arrived && SentPacket(sent, q) && f.packets[q] == sent[q]
          && sent[q].timestamp == t && f.minSequence <= q)
    && (forall q :: q in f.packets && f.packets[q].Binary? && f.packets[q].marker ==>
          f.markerReceived && f.markerSequence == q)
    && (f.markerReceived ==> f.markerSequence in f.packets && f.packets[f.markerSequence].Binary?
                             && f.packets[f.markerSequence].marker)
  }

  predicate PacketHeld(s: State, sent: map<int, Message>, q: int) {
    SentPacket(sent, q) && sent[q].timestamp in s.frames && q in s.frames[sent[q].timestamp].packets
  }

  /** The buffered frames are the arrived packets, grouped by timestamp. */
  ghost predicate Holds(s: State, sent: map<int, Message>, arrived: set<int>) {
    && (forall t :: t in s.frames ==> FrameHolds(sent, arrived, t, s.frames[t]))
    && forall q :: q in arrived ==> PacketHeld(s, sent, q)
  }

  /** A frame has one marker. */
  lemma OneMarker(sent: map<int, Message>, n: int, m: int, p: int, q: int)
    requires SentFrames(sent, n, m) && n <= p <= m && n <= q <= m && SentPacket(sent, p) && SentPacket(sent, q)
    requires sent[p].timestamp == sent[q].timestamp && sent[p].marker && sent[q].marker
    ensures p == q
  {
    assert FrameLink(sent, Min(p, q), Max(p, q));
  }

  lemma FrameReceives(sent: map<int, Message>, n: int, m: int, arrived: set<int>, q: int, f: Frame)
    requires SentFrames(sent, n, m) && n <= q <= m && SentPacket(sent, q) && q !in f.packets
    requires forall p :: p in arrived ==> n <= p <= m
    requires f.packets == map[] || FrameHolds(sent, arrived, sent[q].timestamp, f)
    requires f.packets == map[] ==> !f.markerReceived
    ensures FrameHolds(sent, arrived + {q}, sent[q].timestamp, WithPacket(f.(minSequence :=
              if f.packets == map[] then q else Min(f.minSequence, q)), q, sent[q]))
  {
    var started := f.(minSequence := if f.packets == map[] then q else Min(f.minSequence, q));
    var g := WithPacket(started, q, sent[q]);
    forall p | p in g.packets && g.packets[p].Binary? && g.packets[p].marker
      ensures g.markerReceived && g.markerSequence == p
    {
      if sent[q].marker {
        OneMarker(sent, n, m, p, q);
      }
    }
  }

  lemma ReceiveHolds(s: State, sent: map<int, Message>, n: int, m: int, arrived: set<int>, q: int, now: int)
    requires SentFrames(sent, n, m) && n <= q <= m && SentPacket(sent, q)
    requires forall p :: p in arrived ==> n <= p <= m
    requires Holds(s, sent, arrived) && s.initialized && s.next == Some(n)
    requires s.highest - 32767 <= q <= s.highest + 32767
    ensures var r := Receive(s, sent[q], now);
      && Holds(r, sent, arrived + {q}) && r.initialized && r.next == Some(n)
      && r.highest == Max(s.highest, q)
  {
    UnwrapRoundTrip(q, s.highest);
    var t := sent[q].timestamp;
    var r := Receive(s, sent[q], now);
    if t in s.frames {
      assert FrameHolds(sent, arrived, t, s.frames[t]);
      if q !in s.frames[t].packets {
        FrameReceives(sent, n, m, arrived, q, s.frames[t]);
      }
    } else {
      FrameReceives(sent, n, m, arrived, q, Frame(q, q, false, now, map[]));
    }
    assert FrameHolds(sent, arrived + {q}, t, r.frames[t]);
    forall u | u in r.frames ensures FrameHolds(sent, arrived + {q}, u, r.frames[u]) {
      if u != t {
        assert FrameHolds(sent, arrived, u, s.frames[u]);
      }
    }
    forall p | p in arrived + {q} ensures PacketHeld(r, sent, p) {
      if p in arrived {
        assert PacketHeld(s, sent, p);
      }
    }
  }

  ghost function Arrived(order: seq<int>): set<int> {
    set q | q in order
  }

  lemma {:induction false} ReceiveAllHolds(s: State, sent: map<int, Message>, n: int, m: int, order: seq<int>,
                                           messages: seq<Message>, now: int)
    requires SentFrames(sent, n, m) && m - n <= 32767 && s.frames == map[]
    requires Drawn(sent, n, m, order, messages)
    requires s.initialized && s.next == Some(n) && s.highest - 32767 <= n && m <= s.highest + 32767
    ensures var r := ReceiveAll(s, messages, now);
      && Holds(r, sent, Arrived(order)) && r.initialized && r.next == Some(n)
      && s.highest <= r.highest <= Max(s.highest, m)
  {
    if messages == [] {
      assert Arrived(order) == {} && ReceiveAll(s, messages, now) == s;
    } else {
      var last := |messages| - 1;
      ReceiveAllHolds(s, sent, n, m, order[..last], messages[..last], now);
      var q := order[last];
      assert messages[last] == sent[q] && SentPacket(sent, q);
      ReceiveHolds(ReceiveAll(s, messages[..last], now), sent, n, m, Arrived(order[..last]), q, now);
      ArrivedLast(order);
    }
  }

  lemma ArrivedLast(order: seq<int>)
    requires order != []
    ensures Arrived(order) == Arrived(order[..|order| - 1]) + {order[|order| - 1]}
  {
    assert order == order[..|order| - 1] + [order[|order| - 1]];
  }

  // ---------- release ----------

  ghost function From(sent: map<int, Message>, k: int, m: int): set<int> {
    set q | q in sent && k <= q <= m
  }

  /** The frame that contains `k` ends at the first marker from `k` on. */
  lemma {:induction false} FrameEnd(sent: map<int, Message>, n: int, k: int, m: int) returns (e: int)
    requires SentFrames(sent, n, m) && n <= k <= m
    ensures k <= e <= m && SentPacket(sent, e) && sent[e].marker && NoMarkerIn(sent, k, e)
    decreases m - k
  {
    assert SentPacket(sent, k);
    if sent[k].marker {
      e := k;
    } else {
      e := FrameEnd(sent, n, k + 1, m);
    }
  }

  /** The packets k..e are one frame and nothing after e belongs to it. */
  lemma FrameExtent(sent: map<int, Message>, n: int, k: int, e: int, m: int, q: int)
    requires SentFrames(sent, n, m) && n <= k <= e <= m && k <= q <= m
    requires SentPacket(sent, e) && sent[e].marker && NoMarkerIn(sent, k, e)
    ensures SentPacket(sent, k) && SentPacket(sent, q)
    ensures sent[q].timestamp == sent[k].timestamp <==> q <= e
    ensures e - k < MAX_FRAME_PACKETS
  {
    assert FrameLink(sent, k, q) && FrameLink(sent, k, e);
    if q <= e {
      assert NoMarkerIn(sent, k, q);
    } else {
      assert !NoMarkerIn(sent, k, q);
    }
  }

  /** Everything from `k` on has arrived and `k` is due: the frame of `k` is complete and the oldest. */
  lemma DueFrame(s: State, sent: map<int, Message>, n: int, k: int, e: int, m: int)
    requires SentFrames(sent, n, m) && n <= k <= e <= m && Holds(s, sent, From(sent, k, m))
    requires SentPacket(sent, e) && sent[e].marker && NoMarkerIn(sent, k, e)
    ensures SentPacket(sent, k) && s.frames != map[] && Oldest(s.frames) == sent[k].timestamp
    ensures var f := s.frames[sent[k].timestamp];
      && f.minSequence == k && f.markerReceived && f.markerSequence == e
      && forall q :: k <= q <= e ==> q in f.packets && q in sent && f.packets[q] == sent[q]
  {
    FrameExtent(sent, n, k, e, m, k);
    var t := sent[k].timestamp;
    forall q | k <= q <= e ensures q in From(sent, k, m) && PacketHeld(s, sent, q) && sent[q].timestamp == t {
      FrameExtent(sent, n, k, e, m, q);
    }
    assert PacketHeld(s, sent, k) && PacketHeld(s, sent, e);
    assert FrameHolds(sent, From(sent, k, m), t, s.frames[t]);
    forall u | u in s.frames && u != t ensures s.frames[u].minSequence > k {
      assert FrameHolds(sent, From(sent, k, m), u, s.frames[u]);
    }
    OldestUnique(s.frames, t);
    forall q | k <= q <= e ensures q in s.frames[t].packets && q in sent && s.frames[t].packets[q] == sent[q] {
      assert PacketHeld(s, sent, q) && sent[q].timestamp == t;
    }
  }

  lemma RestHolds(s: State, r: State, sent: map<int, Message>, n: int, k: int, e: int, m: int)
    requires SentFrames(sent, n, m) && n <= k <= e <= m && Holds(s, sent, From(sent, k, m))
    requires SentPacket(sent, e) && sent[e].marker && NoMarkerIn(sent, k, e)
    requires SentPacket(sent, k) && r.frames == s.frames - {sent[k].timestamp}
    ensures Holds(r, sent, From(sent, e + 1, m))
  {
    forall u | u in r.frames ensures FrameHolds(sent, From(sent, e + 1, m), u, r.frames[u]) {
      assert FrameHolds(sent, From(sent, k, m), u, s.frames[u]);
      forall q | q in r.frames[u].packets ensures q in From(sent, e + 1, m) {
        FrameExtent(sent, n, k, e, m, q);
      }
    }
    forall q | q in From(sent, e + 1, m) ensures PacketHeld(r, sent, q) {
      assert q in From(sent, k, m) && PacketHeld(s, sent, q);
      FrameExtent(sent, n, k, e, m, q);
    }
  }

  lemma DueRelease(c: Config, s: State, sent: map<int, Message>, n: int, k: int, e: int, m: int, now: int)
    requires SentFrames(sent, n, m) && n <= k <= e <= m && Holds(s, sent, From(sent, k, m)) && s.next == Some(k)
    requires SentPacket(sent, e) && sent[e].marker && NoMarkerIn(sent, k, e)
    ensures s.frames != map[] && Judge(c, s, now) == ReleaseFrom(k)
    ensures var step := Perform(c, s, now);
      && step.state.next == Some(e + 1) && !step.lost
      && Holds(step.state, sent, From(sent, e + 1, m))
      && (forall q :: k <= q <= e ==> q in sent)
      && Flatten(step.blocks) == PacketRun(sent, k, e + 1)
  {
    DueFrame(s, sent, n, k, e, m);
    FrameExtent(sent, n, k, e, m, e);
    var f := s.frames[sent[k].timestamp];
    assert GapFree(f, k);
    var step := Perform(c, s, now);
    RestHolds(s, step.state, sent, n, k, e, m);
    assert step.blocks[1..] == [];
    assert Flatten(step.blocks) == PacketRun(f.packets, k, e + 1);
  }

  lemma RunSplits(packets: map<int, Message>, k: int, e: int, end: int)
    requires k <= e <= end && forall q :: k <= q < end ==> q in packets
    ensures PacketRun(packets, k, end) == PacketRun(packets, k, e) + PacketRun(packets, e, end)
  {
  }

  lemma DrainThen(c: Config, s: State, now: int)
    requires s.frames != map[] && !Judge(c, s, now).Wait?
    ensures var step, whole := Perform(c, s, now), Drain(c, s, now);
      var rest := Drain(c, step.state, now);
      && whole.state == rest.state && whole.lost == (step.lost || rest.lost)
      && Flatten(whole.blocks) == Flatten(step.blocks) + Flatten(rest.blocks)
  {
    ErasureShrinks(s.frames, Oldest(s.frames));
    var step := Perform(c, s, now);
    FlattenConcat(step.blocks, Drain(c, step.state, now).blocks);
  }

  /** The outcome has handed on exactly the packets k..m in order and has nothing left. */
  ghost predicate Recovered(result: Outcome, sent: map<int, Message>, k: int, m: int) {
    && (forall q :: k <= q <= m ==> q in sent)
    && Flatten(result.blocks) == PacketRun(sent, k, m + 1) && !result.lost
    && result.state.frames == map[] && result.state.next == Some(m + 1)
  }

  lemma NothingLeft(s: State, sent: map<int, Message>, k: int, m: int)
    requires m < k && Holds(s, sent, From(sent, k, m))
    ensures s.frames == map[]
  {
    assert From(sent, k, m) == {};
    forall t: nat, f: Frame ensures !FrameHolds(sent, {}, t, f) {
      NoEmptyFrame(sent, t, f);
    }
  }

  /** A frame holds at least the packet it starts with. */
  lemma NoEmptyFrame(sent: map<int, Message>, t: nat, f: Frame)
    ensures !FrameHolds(sent, {}, t, f)
  {
  }

  lemma RecoveredThen(c: Config, s: State, sent: map<int, Message>, n: int, k: int, e: int, m: int, now: int)
    requires SentFrames(sent, n, m) && n <= k <= e <= m
    requires s.frames != map[] && !Judge(c, s, now).Wait? && !Perform(c, s, now).lost
    requires forall q :: k <= q <= e ==> q in sent
    requires Flatten(Perform(c, s, now).blocks) == PacketRun(sent, k, e + 1)
    requires Recovered(Drain(c, Perform(c, s, now).state, now), sent, e + 1, m)
    ensures Recovered(Drain(c, s, now), sent, k, m)
  {
    DrainThen(c, s, now);
    RunSplits(sent, k, e + 1, m + 1);
  }

  lemma {:induction false} DrainRecovers(c: Config, s: State, sent: map<int, Message>, n: int, k: int, m: int, now: int)
    requires SentFrames(sent, n, m) && n <= k <= m + 1 && Holds(s, sent, From(sent, k, m)) && s.next == Some(k)
    ensures Recovered(Drain(c, s, now), sent, k, m)
    decreases m + 1 - k
  {
    if k == m + 1 {
      NothingLeft(s, sent, k, m);
    } else {
      var e := FrameEnd(sent, n, k, m);
      DueRelease(c, s, sent, n, k, e, m, now);
      DrainRecovers(c, Perform(c, s, now).state, sent, n, e + 1, m, now);
      RecoveredThen(c, s, sent, n, k, e, m, now);
    }
  }

  /**
   Permutation recovery: from an empty buffer waiting for n, one batch that holds the packets n..m of
   whole frames in any order with any duplicates releases exactly those packets in order.
   */
  lemma PermutationRecovery(c: Config, s: State, sent: map<int, Message>, n: int, m: int,
                            order: seq<int>, messages: seq<Message>, now: int)
    requires s.frames == map[] && s.initialized && s.next == Some(n)
    requires SentFrames(sent, n, m) && Shuffled(sent, n, m, order, messages) && n <= m + 1
    requires m - n <= 32767 && s.highest - 32767 <= n && m <= s.highest + 32767
    ensures Recovered(Incoming(c, s, messages, now), sent, n, m)
  {
    ReceiveAllHolds(s, sent, n, m, order, messages, now);
    assert Arrived(order) == From(sent, n, m);
    DrainRecovers(c, ReceiveAll(s, messages, now), sent, n, n, m, now);
  }
}
