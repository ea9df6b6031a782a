/**
 What comes out when packets are lost for good: which frames of a damaged batch are released, told from the
 arrived sequence numbers alone.
 */
module RtpReorderLoss {
  import opened Common
  import opened RtpReorderSpec
  import opened RtpReorderRecovery

  // ---------- sets of arrived numbers ----------

  predicate SomeIn(arrived: set<int>, lo: int, hi: int)
    decreases hi - lo
  {
    lo <= hi && (lo in arrived || SomeIn(arrived, lo + 1, hi))
  }

  lemma {:induction false} OneIn(arrived: set<int>, lo: int, hi: int) returns (q: int)
    requires SomeIn(arrived, lo, hi)
    ensures q in arrived && lo <= q <= hi
    decreases hi - lo
  {
    if lo in arrived {
      q := lo;
    } else {
      q := OneIn(arrived, lo + 1, hi);
    }
  }

  lemma {:induction false} SomeInIf(arrived: set<int>, lo: int, hi: int, q: int)
    requires q in arrived && lo <= q <= hi
    ensures SomeIn(arrived, lo, hi)
    decreases hi - lo
  {
    if lo == q {
    } else {
      SomeInIf(arrived, lo + 1, hi, q);
    }
  }

  lemma NoneIn(arrived: set<int>, lo: int, hi: int)
    requires !SomeIn(arrived, lo, hi)
    ensures forall q :: q in arrived ==> q < lo || hi < q
  {
    forall q | q in arrived ensures q < lo || hi < q {
      if lo <= q <= hi {
        SomeInIf(arrived, lo, hi, q);
      }
    }
  }

  lemma NoneInIf(arrived: set<int>, lo: int, hi: int)
    requires forall q :: q in arrived ==> q < lo || hi < q
    ensures !SomeIn(arrived, lo, hi)
  {
    if SomeIn(arrived, lo, hi) {
      var q := OneIn(arrived, lo, hi);
    }
  }

  predicate AllIn(arrived: set<int>, lo: int, hi: int) { forall q :: lo <= q <= hi ==> q in arrived }

  predicate IsFirstFrom(arrived: set<int>, k: int, q: int) {
    q in arrived && k <= q && forall p :: p in arrived && k <= p ==> q <= p
  }

  predicate IsLastBefore(arrived: set<int>, k: int, q: int) {
    q in arrived && q < k && forall p :: p in arrived && p < k ==> p <= q
  }

  /** The first arrived number from `k` on, if there is one. */
  ghost function FirstFrom(arrived: set<int>, k: int): int {
    if q :| IsFirstFrom(arrived, k, q) then q else k
  }

  ghost function Rest(arrived: set<int>, k: int): set<int> { set q | q in arrived && k <= q }

  lemma FirstFromIs(arrived: set<int>, k: int, known: int)
    requires known in arrived && k <= known
    ensures IsFirstFrom(arrived, k, FirstFrom(arrived, k))
  {
    LeastExists(Rest(arrived, k), known);
    var q :| IsLeast(Rest(arrived, k), q);
    assert IsFirstFrom(arrived, k, q) by {
      forall p | p in arrived && k <= p ensures q <= p {
        assert p in Rest(arrived, k);
      }
    }
  }

  lemma FirstFromSkips(arrived: set<int>, k: int, l: int, known: int)
    requires k <= l && !SomeIn(arrived, k, l - 1) && known in arrived && l <= known
    ensures FirstFrom(arrived, k) == FirstFrom(arrived, l)
  {
    FirstFromIs(arrived, l, known);
    NoneIn(arrived, k, l - 1);
    assert IsFirstFrom(arrived, k, FirstFrom(arrived, l));
  }

  lemma {:induction false} LastBeforeExists(arrived: set<int>, k: int, known: int) returns (q: int)
    requires known in arrived && known < k
    ensures IsLastBefore(arrived, k, q)
    decreases k - known
  {
    if p :| p in arrived && known < p < k {
      q := LastBeforeExists(arrived, k, p);
    } else {
      q := known;
    }
  }

  // ---------- a damaged batch ----------

  /** The numbers k..e end with the first marker from `k` on. */
  predicate IsFrame(sent: map<int, Message>, k: int, e: int) {
    k <= e && SentPacket(sent, e) && sent[e].marker && NoMarkerIn(sent, k, e)
  }

  /**
   Whole frames n..m as they were sent, the numbers that arrived, and the number expected before them, which is
   unknown when nothing has been released yet.
   */
  datatype Sending = Sending(sent: map<int, Message>, n: int, m: int, arrived: set<int>, next: Option<int>) {
    ghost predicate Valid() {
      && SentFrames(sent, n, m) && n <= m + 1
      && (forall q :: q in arrived ==> n <= q <= m && SentPacket(sent, q))
      && (next.Some? ==> next.value <= n)
    }
  }

  ghost const NOTHING_SENT := Sending(map[], 0, -1, {}, None)

  type Batch = b: Sending | b.Valid() ghost witness NOTHING_SENT

  ghost function EndOf(b: Batch, k: int): (e: int)
    requires b.n <= k <= b.m
    ensures IsFrame(b.sent, k, e) && e <= b.m
    decreases b.m - k
  {
    assert SentPacket(b.sent, k);
    if b.sent[k].marker then k else EndOf(b, k + 1)
  }

  predicate StartsFrame(sent: map<int, Message>, n: int, k: int) {
    k == n || (SentPacket(sent, k - 1) && sent[k - 1].marker)
  }

  predicate IsMarker(sent: map<int, Message>, q: int) { SentPacket(sent, q) && sent[q].marker }

  /** The number after the last marker that arrived before `k`, unless something else has arrived since. */
  ghost function Told(b: Batch, k: int): Option<int> {
    if q :| IsLastBefore(b.arrived, k, q) then if IsMarker(b.sent, q) then Some(q + 1) else None else b.next
  }

  ghost function NextOr(next: Option<int>, arrived: set<int>, k: int): int {
    if next.Some? then next.value else FirstFrom(arrived, k)
  }

  /** Which number must come next at the frame that starts at `k`: the one told, otherwise whatever arrived first. */
  ghost function Expected(b: Batch, k: int): int { NextOr(Told(b, k), b.arrived, k) }

  /** The part of the frame k..e that comes out: from the expected number to the marker, if all of it arrived. */
  ghost function Piece(b: Batch, k: int, e: int): seq<Message> {
    assert forall q :: q in b.arrived ==> q in b.sent;
    if e in b.arrived && AllIn(b.arrived, Expected(b, k), e) then PacketRun(b.sent, Expected(b, k), e + 1) else []
  }

  /** What comes out of the frames from `k` on. */
  ghost function Output(b: Batch, k: int): seq<Message>
    requires b.n <= k <= b.m + 1
    decreases b.m + 1 - k
  {
    if k > b.m then [] else Piece(b, k, EndOf(b, k)) + Output(b, EndOf(b, k) + 1)
  }

  lemma ExpectedAfter(b: Batch, k: int, q: int)
    requires IsLastBefore(b.arrived, k, q)
    ensures Expected(b, k) == if IsMarker(b.sent, q) then q + 1 else FirstFrom(b.arrived, k)
  {
  }

  lemma ExpectedFirst(b: Batch, k: int)
    requires forall q :: q in b.arrived ==> k <= q
    ensures Expected(b, k) == if b.next.Some? then b.next.value else FirstFrom(b.arrived, k)
  {
  }

  lemma Extent(b: Batch, k: int, q: int)
    requires b.n <= k <= q <= b.m
    ensures SentPacket(b.sent, k) && SentPacket(b.sent, q)
    ensures b.sent[q].timestamp == b.sent[k].timestamp <==> q <= EndOf(b, k)
    ensures EndOf(b, k) - k < MAX_FRAME_PACKETS
  {
    FrameExtent(b.sent, b.n, k, EndOf(b, k), b.m, q);
  }

  // ---------- the oldest frame ----------

  ghost predicate HoldsFrom(s: State, b: Batch, k: int) { Holds(s, b.sent, Rest(b.arrived, k)) }

  /** The oldest buffered frame is the first one of which anything arrived, and holds what arrived of it. */
  ghost predicate IsOldestFrame(s: State, b: Batch, k: int)
    requires b.n <= k <= b.m
  {
    && SentPacket(b.sent, k) && s.frames != map[] && b.sent[k].timestamp in s.frames
    && Oldest(s.frames) == b.sent[k].timestamp
    && HoldsFrame(s.frames[b.sent[k].timestamp], b, k)
  }

  ghost predicate HoldsFrame(f: Frame, b: Batch, k: int)
    requires b.n <= k <= b.m
  {
    var e := EndOf(b, k);
    && IsFirstFrom(b.arrived, k, f.minSequence) && f.minSequence == FirstFrom(b.arrived, k) && f.minSequence <= e
    && (forall q :: q in f.packets <==> q in b.arrived && k <= q <= e)
    && (forall q :: q in f.packets ==> q in b.sent && f.packets[q] == b.sent[q])
    && (f.markerReceived <==> e in b.arrived) && (f.markerReceived ==> f.markerSequence == e)
  }

  lemma OldestFrame(s: State, b: Batch, k: int)
    requires b.n <= k <= b.m && HoldsFrom(s, b, k) && SomeIn(b.arrived, k, EndOf(b, k))
    ensures IsOldestFrame(s, b, k)
  {
    var e := EndOf(b, k);
    Extent(b, k, k);
    var t := b.sent[k].timestamp;
    var known := OneIn(b.arrived, k, e);
    assert known in Rest(b.arrived, k) && PacketHeld(s, b.sent, known);
    Extent(b, k, known);
    FrameOf(s, b, k);
    forall u | u in s.frames && u != t ensures s.frames[u].minSequence > e {
      assert FrameHolds(b.sent, Rest(b.arrived, k), u, s.frames[u]);
      Extent(b, k, s.frames[u].minSequence);
    }
    OldestUnique(s.frames, t);
  }

  lemma FrameOf(s: State, b: Batch, k: int)
    requires b.n <= k <= b.m && HoldsFrom(s, b, k)
    requires SentPacket(b.sent, k) && b.sent[k].timestamp in s.frames
    ensures HoldsFrame(s.frames[b.sent[k].timestamp], b, k)
  {
    var e, t := EndOf(b, k), b.sent[k].timestamp;
    var f := s.frames[t];
    assert FrameHolds(b.sent, Rest(b.arrived, k), t, f);
    forall q | q in f.packets ensures q in b.arrived && k <= q <= e {
      Extent(b, k, q);
    }
    forall q | q in b.arrived && k <= q <= e ensures q in f.packets {
      Extent(b, k, q);
      assert q in Rest(b.arrived, k) && PacketHeld(s, b.sent, q);
    }
    assert IsFirstFrom(b.arrived, k, f.minSequence);
    assert f.markerReceived ==> SentPacket(b.sent, f.markerSequence);
  }

  lemma OtherFrameRests(b: Batch, k: int, u: nat, f: Frame)
    requires b.n <= k <= b.m && SentPacket(b.sent, k) && u != b.sent[k].timestamp
    requires FrameHolds(b.sent, Rest(b.arrived, k), u, f)
    ensures FrameHolds(b.sent, Rest(b.arrived, EndOf(b, k) + 1), u, f)
  {
    forall q | q in f.packets ensures q in Rest(b.arrived, EndOf(b, k) + 1) {
      Extent(b, k, q);
    }
  }

  lemma RestStamp(b: Batch, k: int, q: int)
    requires b.n <= k <= b.m && SentPacket(b.sent, k) && q in Rest(b.arrived, EndOf(b, k) + 1)
    ensures q in Rest(b.arrived, k) && SentPacket(b.sent, q) && b.sent[q].timestamp != b.sent[k].timestamp
  {
    Extent(b, k, q);
  }

  /** Erasing the frame of `k` leaves the frames of the numbers after it. */
  lemma ErasedHolds(s: State, r: State, b: Batch, k: int)
    requires b.n <= k <= b.m && HoldsFrom(s, b, k)
    requires SentPacket(b.sent, k) && r.frames == s.frames - {b.sent[k].timestamp}
    ensures HoldsFrom(r, b, EndOf(b, k) + 1)
  {
    var rest := Rest(b.arrived, EndOf(b, k) + 1);
    forall u | u in r.frames ensures FrameHolds(b.sent, rest, u, r.frames[u]) {
      OtherFrameRests(b, k, u, s.frames[u]);
    }
    forall q | q in rest ensures PacketHeld(r, b.sent, q) {
      RestStamp(b, k, q);
      assert PacketHeld(s, b.sent, q);
    }
  }

  /** Whether anything arrived of a later frame. */
  predicate More(b: Batch, e: int) { SomeIn(b.arrived, e + 1, b.m) }

  lemma LaterIs(frames: map<nat, Frame>, t: nat, u: nat)
    requires t in frames && u in frames && u != t && frames[t].minSequence < frames[u].minSequence
    requires forall v :: v in frames && v != t ==> frames[u].minSequence <= frames[v].minSequence
    ensures LaterSequence(frames, t) == Some(frames[u].minSequence)
  {
    assert StartsAfter(frames, t, u);
    LaterSequenceUnique(frames, t, Some(frames[u].minSequence));
  }

  lemma NoneLater(frames: map<nat, Frame>, t: nat)
    requires t in frames && forall v :: v in frames ==> v == t
    ensures LaterSequence(frames, t) == None && |frames| == 1
  {
    assert frames.Keys == {t};
    LaterSequenceUnique(frames, t, None);
  }

  /** The next later frame starts with the first number that arrived after the oldest frame. */
  lemma LaterFrame(s: State, b: Batch, k: int)
    requires b.n <= k <= b.m && HoldsFrom(s, b, k) && IsOldestFrame(s, b, k) && More(b, EndOf(b, k))
    ensures LaterSequence(s.frames, b.sent[k].timestamp) == Some(FirstFrom(b.arrived, EndOf(b, k) + 1))
  {
    var u := LaterHolder(s, b, k);
    LaterHolderFirst(s, b, k, s.frames[u].minSequence);
    LaterIs(s.frames, b.sent[k].timestamp, u);
  }

  /** Another frame than the one of `k` starts after its end, with something that arrived. */
  lemma OtherFrame(s: State, b: Batch, k: int, u: nat)
    requires b.n <= k <= b.m && HoldsFrom(s, b, k) && SentPacket(b.sent, k)
    requires u in s.frames && u != b.sent[k].timestamp
    ensures s.frames[u].minSequence in b.arrived && s.frames[u].minSequence > EndOf(b, k)
  {
    assert FrameHolds(b.sent, Rest(b.arrived, k), u, s.frames[u]);
    Extent(b, k, s.frames[u].minSequence);
  }

  lemma OtherFrameFirst(s: State, b: Batch, k: int, u: nat, first: int)
    requires b.n <= k <= b.m && HoldsFrom(s, b, k) && SentPacket(b.sent, k)
    requires u in s.frames && u != b.sent[k].timestamp && IsFirstFrom(b.arrived, EndOf(b, k) + 1, first)
    ensures first <= s.frames[u].minSequence
  {
    OtherFrame(s, b, k, u);
  }

  lemma OnlyFrame(s: State, b: Batch, k: int, u: nat)
    requires b.n <= k <= b.m && HoldsFrom(s, b, k) && SentPacket(b.sent, k)
    requires u in s.frames && !More(b, EndOf(b, k))
    ensures u == b.sent[k].timestamp
  {
    if u != b.sent[k].timestamp {
      OtherFrame(s, b, k, u);
      NotMore(b, EndOf(b, k), s.frames[u].minSequence);
    }
  }

  lemma NotMore(b: Batch, e: int, q: int)
    requires q in b.arrived && !More(b, e)
    ensures q <= e
  {
    NoneIn(b.arrived, e + 1, b.m);
  }

  lemma LaterHolderFirst(s: State, b: Batch, k: int, first: int)
    requires b.n <= k <= b.m && HoldsFrom(s, b, k) && SentPacket(b.sent, k)
    requires IsFirstFrom(b.arrived, EndOf(b, k) + 1, first)
    ensures forall v :: v in s.frames && v != b.sent[k].timestamp ==> first <= s.frames[v].minSequence
  {
    forall v | v in s.frames && v != b.sent[k].timestamp ensures first <= s.frames[v].minSequence {
      OtherFrameFirst(s, b, k, v, first);
    }
  }

  lemma LaterHolder(s: State, b: Batch, k: int) returns (u: nat)
    requires b.n <= k <= b.m && HoldsFrom(s, b, k) && IsOldestFrame(s, b, k) && More(b, EndOf(b, k))
    ensures u in s.frames && u != b.sent[k].timestamp
    ensures s.frames[u].minSequence == FirstFrom(b.arrived, EndOf(b, k) + 1)
    ensures IsFirstFrom(b.arrived, EndOf(b, k) + 1, s.frames[u].minSequence)
  {
    var known := OneIn(b.arrived, EndOf(b, k) + 1, b.m);
    FirstFromIs(b.arrived, EndOf(b, k) + 1, known);
    var q := FirstFrom(b.arrived, EndOf(b, k) + 1);
    Extent(b, k, q);
    assert q in Rest(b.arrived, k) && PacketHeld(s, b.sent, q);
    u := b.sent[q].timestamp;
    assert FrameHolds(b.sent, Rest(b.arrived, k), u, s.frames[u]);
    Extent(b, k, s.frames[u].minSequence);
  }

  lemma LastFrame(s: State, b: Batch, k: int)
    requires b.n <= k <= b.m && HoldsFrom(s, b, k) && SentPacket(b.sent, k) && !More(b, EndOf(b, k))
    ensures forall u :: u in s.frames ==> u == b.sent[k].timestamp
  {
    forall u | u in s.frames ensures u == b.sent[k].timestamp {
      OnlyFrame(s, b, k, u);
    }
  }

  // ---------- one frame ----------

  predicate Waited(c: Config, f: Frame, now: int) { now - f.firstArrival >= c.maxWait }

  /** All of the frame that starts at `k` arrived and its first number is the one that must come next. */
  ghost predicate DueAt(b: Batch, k: int)
    requires b.n <= k <= b.m
  {
    && AllIn(b.arrived, k, EndOf(b, k)) && Expected(b, k) == k
    && (b.next.Some? || exists q :: q in b.arrived && q < k)
  }

  ghost predicate RipeAt(c: Config, s: State, b: Batch, k: int, now: int)
    requires b.n <= k <= b.m
  {
    SentPacket(b.sent, k) && b.sent[k].timestamp in s.frames ==>
      Waited(c, s.frames[b.sent[k].timestamp], now) || DueAt(b, k)
  }

  /** Every buffered frame has waited long enough to be given up, or is due and needs no waiting. */
  ghost predicate Ripe(c: Config, s: State, b: Batch, now: int) {
    forall k :: b.n <= k <= b.m && StartsFrame(b.sent, b.n, k) ==> RipeAt(c, s, b, k, now)
  }

  /** The next number is what is expected of the next frame of which anything arrived. */
  ghost predicate Agrees(s: State, b: Batch, k: int) {
    && (forall l, known :: k <= l <= known && !SomeIn(b.arrived, k, l - 1) && known in b.arrived ==>
          Expected(b, l) == NextOr(s.next, b.arrived, l))
    && (s.next.Some? ==> forall q :: q in b.arrived ==> (q < k <==> q < s.next.value))
    && (s.next.None? ==> b.next.None? && forall q :: q in b.arrived ==> k <= q)
  }

  ghost predicate Stage(s: State, b: Batch, k: int) { HoldsFrom(s, b, k) && Agrees(s, b, k) }

  /** At its frame, a stage's next number is not above anything still buffered and skips nothing that arrived. */
  lemma ExpectedHere(s: State, b: Batch, k: int)
    requires b.n <= k <= b.m && Agrees(s, b, k) && SomeIn(b.arrived, k, EndOf(b, k))
    ensures var x := Expected(b, k);
      && x == NextOr(s.next, b.arrived, k)
      && x <= FirstFrom(b.arrived, k) <= EndOf(b, k)
      && (AllIn(b.arrived, x, EndOf(b, k)) ==> k <= x)
  {
    var known := OneIn(b.arrived, k, EndOf(b, k));
    FirstFromIs(b.arrived, k, known);
    var x := Expected(b, k);
    assert AllIn(b.arrived, x, EndOf(b, k)) && x <= EndOf(b, k) ==> x in b.arrived;
  }

  lemma JudgeReleases(c: Config, s: State, b: Batch, k: int, now: int)
    requires b.n <= k <= b.m && Agrees(s, b, k) && RipeAt(c, s, b, k, now) && IsOldestFrame(s, b, k)
    requires EndOf(b, k) in b.arrived && AllIn(b.arrived, Expected(b, k), EndOf(b, k))
    ensures Judge(c, s, now) == ReleaseFrom(Expected(b, k))
  {
    var e, f := EndOf(b, k), s.frames[b.sent[k].timestamp];
    SomeInIf(b.arrived, k, e, e);
    ExpectedHere(s, b, k);
    Extent(b, k, e);
    assert GapFree(f, Expected(b, k));
  }

  lemma JudgeDrops(c: Config, s: State, b: Batch, k: int, now: int)
    requires b.n <= k <= b.m && Agrees(s, b, k) && RipeAt(c, s, b, k, now) && IsOldestFrame(s, b, k)
    requires EndOf(b, k) in b.arrived && !AllIn(b.arrived, Expected(b, k), EndOf(b, k))
    ensures Judge(c, s, now).DropIncomplete?
  {
    var e, f := EndOf(b, k), s.frames[b.sent[k].timestamp];
    SomeInIf(b.arrived, k, e, e);
    ExpectedHere(s, b, k);
    var q :| Expected(b, k) <= q <= e && q !in b.arrived;
    assert q !in f.packets && !GapFree(f, Expected(b, k));
  }

  lemma JudgeUnmarked(c: Config, s: State, b: Batch, k: int, now: int)
    requires b.n <= k <= b.m && RipeAt(c, s, b, k, now) && IsOldestFrame(s, b, k) && HoldsFrom(s, b, k)
    requires EndOf(b, k) !in b.arrived && More(b, EndOf(b, k))
    ensures Judge(c, s, now) == DropUnmarked(FirstFrom(b.arrived, EndOf(b, k) + 1))
  {
    LaterFrame(s, b, k);
  }

  // ---------- from one frame to the next ----------

  /** The last number before `l` that arrived lies in the frame of `k`, and is its marker if that arrived. */
  lemma LastInFrame(b: Batch, k: int, l: int) returns (q: int)
    requires b.n <= k <= b.m && SomeIn(b.arrived, k, EndOf(b, k))
    requires EndOf(b, k) < l && !SomeIn(b.arrived, EndOf(b, k) + 1, l - 1)
    ensures IsLastBefore(b.arrived, l, q) && k <= q <= EndOf(b, k) && (q == EndOf(b, k) <==> EndOf(b, k) in b.arrived)
    ensures IsMarker(b.sent, q) <==> q == EndOf(b, k)
  {
    var known := OneIn(b.arrived, k, EndOf(b, k));
    NoneIn(b.arrived, EndOf(b, k) + 1, l - 1);
    q := LastBeforeExists(b.arrived, l, known);
    assert SentPacket(b.sent, q);
  }

  /** What is expected after the frame of `k`. */
  ghost function NextAfter(b: Batch, k: int): int
    requires b.n <= k <= b.m
  {
    var e := EndOf(b, k);
    if e in b.arrived then e + 1 else FirstFrom(b.arrived, e + 1)
  }

  /** Something arrived of the frame of `k`, and its marker or a later frame tells that it has ended. */
  predicate Ends(b: Batch, k: int, e: int) { SomeIn(b.arrived, k, e) && (e in b.arrived || More(b, e)) }

  lemma NextAgrees(r: State, b: Batch, k: int)
    requires b.n <= k <= b.m && Ends(b, k, EndOf(b, k)) && r.next == Some(NextAfter(b, k))
    ensures Agrees(r, b, EndOf(b, k) + 1)
  {
    var e := EndOf(b, k);
    if e !in b.arrived {
      var later := OneIn(b.arrived, e + 1, b.m);
      FirstFromIs(b.arrived, e + 1, later);
    }
    forall l, known | e + 1 <= l <= known && !SomeIn(b.arrived, e + 1, l - 1) && known in b.arrived
      ensures Expected(b, l) == NextOr(r.next, b.arrived, l)
    {
      var q := LastInFrame(b, k, l);
      ExpectedAfter(b, l, q);
      FirstFromSkips(b.arrived, e + 1, l, known);
    }
  }

  lemma SkippedStage(s: State, b: Batch, k: int, e: int)
    requires k <= e && Stage(s, b, k) && !SomeIn(b.arrived, k, e)
    ensures Stage(s, b, e + 1)
  {
    NoneIn(b.arrived, k, e);
    assert Rest(b.arrived, k) == Rest(b.arrived, e + 1);
    forall l, known | e + 1 <= l <= known && !SomeIn(b.arrived, e + 1, l - 1) && known in b.arrived
      ensures Expected(b, l) == NextOr(s.next, b.arrived, l)
    {
      NoneIn(b.arrived, e + 1, l - 1);
      NoneInIf(b.arrived, k, l - 1);
    }
  }

  lemma FirstStage(s: State, b: Batch)
    requires Holds(s, b.sent, b.arrived) && s.next == b.next
    ensures Stage(s, b, b.n)
  {
    assert Rest(b.arrived, b.n) == b.arrived;
    forall l, known | b.n <= l <= known && !SomeIn(b.arrived, b.n, l - 1) && known in b.arrived
      ensures Expected(b, l) == NextOr(s.next, b.arrived, l)
    {
      NoneIn(b.arrived, b.n, l - 1);
      ExpectedFirst(b, l);
    }
  }

  /** The frame is erased, the number after it is expected, and its piece is handed on. */
  ghost predicate Turned(step: Outcome, s: State, b: Batch, k: int)
    requires b.n <= k <= b.m && SentPacket(b.sent, k)
  {
    && step.state.frames == s.frames - {b.sent[k].timestamp} && step.state.next == Some(NextAfter(b, k))
    && Flatten(step.blocks) == Piece(b, k, EndOf(b, k))
  }

  lemma ReleaseTurn(c: Config, s: State, t: nat, first: int, now: int)
    requires s.frames != map[] && Oldest(s.frames) == t && Judge(c, s, now) == ReleaseFrom(first)
    ensures forall q :: first <= q < s.frames[t].markerSequence + 1 ==> q in s.frames[t].packets
    ensures var step, end := Perform(c, s, now), s.frames[t].markerSequence + 1;
      && step.state.next == Some(end) && step.state.frames == s.frames - {t}
      && Flatten(step.blocks) == PacketRun(s.frames[t].packets, first, end)
  {
    var step := Perform(c, s, now);
    assert |step.blocks| == 1 && step.blocks[1..] == [];
  }

  lemma SameRun(packets: map<int, Message>, sent: map<int, Message>, first: int, end: int)
    requires forall q :: first <= q < end ==> q in packets && q in sent && packets[q] == sent[q]
    ensures PacketRun(packets, first, end) == PacketRun(sent, first, end)
  {
  }

  lemma PieceStart(b: Batch, k: int)
    requires b.n <= k <= b.m && EndOf(b, k) in b.arrived && AllIn(b.arrived, Expected(b, k), EndOf(b, k))
    ensures k <= Expected(b, k)
  {
    FirstFromIs(b.arrived, k, EndOf(b, k));
    if Expected(b, k) < k {
      var q := LastBeforeExists(b.arrived, k, Expected(b, k));
      ExpectedAfter(b, k, q);
    }
  }

  lemma ReleasedPiece(c: Config, s: State, b: Batch, k: int, now: int)
    requires b.n <= k <= b.m && IsOldestFrame(s, b, k) && k <= Expected(b, k)
    requires EndOf(b, k) in b.arrived && AllIn(b.arrived, Expected(b, k), EndOf(b, k))
    requires Judge(c, s, now) == ReleaseFrom(Expected(b, k))
    ensures Turned(Perform(c, s, now), s, b, k)
  {
    var x, t := Expected(b, k), b.sent[k].timestamp;
    SameRun(s.frames[t].packets, b.sent, x, EndOf(b, k) + 1);
    ReleaseTurn(c, s, t, x, now);
  }

  lemma ReleasesPiece(c: Config, s: State, b: Batch, k: int, now: int)
    requires b.n <= k <= b.m && Agrees(s, b, k) && RipeAt(c, s, b, k, now) && IsOldestFrame(s, b, k)
    requires EndOf(b, k) in b.arrived && AllIn(b.arrived, Expected(b, k), EndOf(b, k))
    ensures !Judge(c, s, now).Wait? && Turned(Perform(c, s, now), s, b, k)
  {
    JudgeReleases(c, s, b, k, now);
    PieceStart(b, k);
    ReleasedPiece(c, s, b, k, now);
  }

  lemma DropTurn(c: Config, s: State, b: Batch, k: int, now: int)
    requires b.n <= k <= b.m && SentPacket(b.sent, k) && EndOf(b, k) !in b.arrived
    requires s.frames != map[] && Oldest(s.frames) == b.sent[k].timestamp
    requires Judge(c, s, now) == DropUnmarked(FirstFrom(b.arrived, EndOf(b, k) + 1))
    ensures Turned(Perform(c, s, now), s, b, k)
  {
  }

  lemma DropsMarked(c: Config, s: State, b: Batch, k: int, now: int)
    requires b.n <= k <= b.m && Agrees(s, b, k) && RipeAt(c, s, b, k, now) && IsOldestFrame(s, b, k)
    requires EndOf(b, k) in b.arrived && !AllIn(b.arrived, Expected(b, k), EndOf(b, k))
    ensures !Judge(c, s, now).Wait? && Turned(Perform(c, s, now), s, b, k)
  {
    JudgeDrops(c, s, b, k, now);
  }

  lemma DropsUnmarked(c: Config, s: State, b: Batch, k: int, now: int)
    requires b.n <= k <= b.m && RipeAt(c, s, b, k, now) && IsOldestFrame(s, b, k) && HoldsFrom(s, b, k)
    requires EndOf(b, k) !in b.arrived && More(b, EndOf(b, k))
    ensures !Judge(c, s, now).Wait? && Turned(Perform(c, s, now), s, b, k)
  {
    JudgeUnmarked(c, s, b, k, now);
    DropTurn(c, s, b, k, now);
  }

  /** What one turn of the release loop does with a frame of which something arrived. */
  lemma FrameTurn(c: Config, s: State, b: Batch, k: int, now: int)
    requires b.n <= k <= b.m && Stage(s, b, k) && RipeAt(c, s, b, k, now) && Ends(b, k, EndOf(b, k))
    ensures s.frames != map[] && !Judge(c, s, now).Wait? && SentPacket(b.sent, k)
    ensures Turned(Perform(c, s, now), s, b, k) && Stage(Perform(c, s, now).state, b, EndOf(b, k) + 1)
  {
    OldestFrame(s, b, k);
    if EndOf(b, k) in b.arrived && AllIn(b.arrived, Expected(b, k), EndOf(b, k)) {
      ReleasesPiece(c, s, b, k, now);
    } else if EndOf(b, k) in b.arrived {
      DropsMarked(c, s, b, k, now);
    } else {
      DropsUnmarked(c, s, b, k, now);
    }
    ErasedHolds(s, Perform(c, s, now).state, b, k);
    NextAgrees(Perform(c, s, now).state, b, k);
  }

  // ---------- the whole loop ----------

  /** At most one frame is left, and none when the last marker arrived; then the number after it is expected. */
  predicate Finished(s: State, b: Batch) {
    |s.frames| <= 1 && (b.m in b.arrived ==> s.frames == map[] && s.next == Some(b.m + 1))
  }

  /** A release loop handed on exactly what should come out from `k` on. */
  ghost predicate Delivers(result: Outcome, b: Batch, k: int)
    requires b.n <= k <= b.m + 1
  {
    Flatten(result.blocks) == Output(b, k) && Finished(result.state, b)
  }

  lemma {:induction false} OutputOfNothing(b: Batch, k: int)
    requires b.n <= k <= b.m + 1 && !SomeIn(b.arrived, k, b.m)
    ensures Output(b, k) == []
    decreases b.m + 1 - k
  {
    if k == b.m + 1 {
    } else {
      NoneIn(b.arrived, k, b.m);
      NoneInIf(b.arrived, EndOf(b, k) + 1, b.m);
      OutputOfNothing(b, EndOf(b, k) + 1);
    }
  }

  lemma NothingHeld(s: State, b: Batch)
    requires HoldsFrom(s, b, b.m + 1)
    ensures s.frames == map[]
  {
    assert Rest(b.arrived, b.m + 1) == {};
    forall t: nat, f: Frame ensures !FrameHolds(b.sent, {}, t, f) {
      NoEmptyFrame(b.sent, t, f);
    }
  }

  lemma WaitsAtEnd(c: Config, s: State, b: Batch, k: int, now: int)
    requires b.n <= k <= b.m && HoldsFrom(s, b, k)
    requires SomeIn(b.arrived, k, EndOf(b, k)) && EndOf(b, k) !in b.arrived && !More(b, EndOf(b, k))
    ensures Delivers(Drain(c, s, now), b, k)
  {
    OldestFrame(s, b, k);
    LastFrame(s, b, k);
    LastWaits(c, s, b, k, now);
    NothingMore(Drain(c, s, now), b, k);
  }

  lemma NothingMore(result: Outcome, b: Batch, k: int)
    requires b.n <= k <= b.m && EndOf(b, k) !in b.arrived && !More(b, EndOf(b, k))
    requires result.blocks == [] && |result.state.frames| <= 1
    ensures Delivers(result, b, k)
  {
    OutputOfNothing(b, EndOf(b, k) + 1);
    NoneIn(b.arrived, EndOf(b, k) + 1, b.m);
    assert Piece(b, k, EndOf(b, k)) == [];
  }

  /** The last frame waits for its marker, or is dropped where no frame may be buffered at all. */
  lemma LastWaits(c: Config, s: State, b: Batch, k: int, now: int)
    requires b.n <= k <= b.m && IsOldestFrame(s, b, k) && EndOf(b, k) !in b.arrived
    requires forall u :: u in s.frames ==> u == b.sent[k].timestamp
    ensures Drain(c, s, now).blocks == [] && |Drain(c, s, now).state.frames| <= 1
  {
    NoneLater(s.frames, b.sent[k].timestamp);
    if c.maxFrames > 0 {
      assert Judge(c, s, now).Wait?;
    } else {
      ErasureShrinks(s.frames, b.sent[k].timestamp);
      var step := Perform(c, s, now);
      assert step.state.frames == map[] && step.blocks == [];
    }
  }

  lemma RipeAfter(c: Config, s: State, r: State, b: Batch, t: nat, now: int)
    requires Ripe(c, s, b, now) && r.frames == s.frames - {t}
    ensures Ripe(c, r, b, now)
  {
    forall k | b.n <= k <= b.m && StartsFrame(b.sent, b.n, k) ensures RipeAt(c, r, b, k, now) {
      assert RipeAt(c, s, b, k, now);
    }
  }

  lemma DeliversThen(c: Config, s: State, b: Batch, k: int, now: int)
    requires b.n <= k <= b.m && s.frames != map[] && !Judge(c, s, now).Wait?
    requires Flatten(Perform(c, s, now).blocks) == Piece(b, k, EndOf(b, k))
    requires Delivers(Drain(c, Perform(c, s, now).state, now), b, EndOf(b, k) + 1)
    ensures Delivers(Drain(c, s, now), b, k)
  {
    DrainThen(c, s, now);
  }

  /** From the frame of `k` on: nothing of it arrived. */
  lemma {:induction false} DrainSkips(c: Config, s: State, b: Batch, k: int, now: int)
    requires b.n <= k <= b.m && Stage(s, b, k) && Ripe(c, s, b, now)
    requires !SomeIn(b.arrived, k, EndOf(b, k))
    ensures Delivers(Drain(c, s, now), b, k)
    decreases b.m + 1 - k, 0
  {
    var e := EndOf(b, k);
    SkippedStage(s, b, k, e);
    NoneIn(b.arrived, k, e);
    DrainStage(c, s, b, e + 1, now);
    assert Piece(b, k, e) == [];
  }

  /** From the frame of `k` on: one turn of the loop settles it. */
  lemma {:induction false} DrainTurns(c: Config, s: State, b: Batch, k: int, now: int)
    requires b.n <= k <= b.m && Stage(s, b, k) && Ripe(c, s, b, now)
    requires RipeAt(c, s, b, k, now) && Ends(b, k, EndOf(b, k))
    ensures Delivers(Drain(c, s, now), b, k)
    decreases b.m + 1 - k, 0
  {
    FrameTurn(c, s, b, k, now);
    RipeAfter(c, s, Perform(c, s, now).state, b, b.sent[k].timestamp, now);
    DrainStage(c, Perform(c, s, now).state, b, EndOf(b, k) + 1, now);
    DeliversThen(c, s, b, k, now);
  }

  lemma {:induction false} DrainStage(c: Config, s: State, b: Batch, k: int, now: int)
    requires b.n <= k <= b.m + 1 && StartsFrame(b.sent, b.n, k)
    requires k == b.m + 1 && b.m in b.arrived ==> s.next == Some(b.m + 1)
    requires Stage(s, b, k) && Ripe(c, s, b, now)
    ensures Delivers(Drain(c, s, now), b, k)
    decreases b.m + 1 - k, 1
  {
    if k == b.m + 1 {
      NothingHeld(s, b);
    } else {
      assert RipeAt(c, s, b, k, now);
      if !SomeIn(b.arrived, k, EndOf(b, k)) {
        DrainSkips(c, s, b, k, now);
      } else if Ends(b, k, EndOf(b, k)) {
        DrainTurns(c, s, b, k, now);
      } else {
        WaitsAtEnd(c, s, b, k, now);
      }
    }
  }

  /** From a buffer that holds what arrived of the batch, the release loop hands on its output. */
  lemma DrainAfterLoss(c: Config, s: State, b: Batch, now: int)
    requires Holds(s, b.sent, b.arrived) && s.next == b.next && Ripe(c, s, b, now)
    ensures Delivers(Drain(c, s, now), b, b.n)
  {
    FirstStage(s, b);
    DrainStage(c, s, b, b.n, now);
  }

  // ---------- the output is the frames that are intact ----------

  ghost function Whole(b: Batch, k: int, e: int): seq<Message> {
    assert forall q :: q in b.arrived ==> q in b.sent;
    if AllIn(b.arrived, k, e) then PacketRun(b.sent, k, e + 1) else []
  }

  /** The packets of the frames from `k` on of which nothing is missing, in order. */
  ghost function Intact(b: Batch, k: int): seq<Message>
    requires b.n <= k <= b.m + 1
    decreases b.m + 1 - k
  {
    if k > b.m then [] else Whole(b, k, EndOf(b, k)) + Intact(b, EndOf(b, k) + 1)
  }

  /** Nothing arrived of the frame in front of an intact one, and the marker before that frame did. */
  ghost predicate Vanished(b: Batch, k: int)
    requires b.n <= k <= b.m
  {
    AllIn(b.arrived, k, EndOf(b, k)) && Told(b, k).Some? && Told(b, k).value < k
  }

  /** The frame in front lost its marker and this one only its first packets. */
  ghost predicate Headless(b: Batch, k: int)
    requires b.n <= k <= b.m
  {
    && k !in b.arrived && EndOf(b, k) in b.arrived && AllIn(b.arrived, FirstFrom(b.arrived, k), EndOf(b, k))
    && Told(b, k).None?
  }

  ghost predicate Misjudged(b: Batch, k: int)
    requires b.n <= k <= b.m
  {
    Vanished(b, k) || Headless(b, k)
  }

  lemma ToldBelow(b: Batch, k: int)
    requires b.n <= k
    ensures Told(b, k).Some? ==> Told(b, k).value <= k
  {
  }

  lemma IntactPiece(b: Batch, k: int)
    requires b.n <= k <= b.m && AllIn(b.arrived, k, EndOf(b, k))
    ensures Piece(b, k, EndOf(b, k)) == Whole(b, k, EndOf(b, k)) <==> !Misjudged(b, k)
    ensures !Misjudged(b, k) <==> Expected(b, k) == k
  {
    var e := EndOf(b, k);
    ToldBelow(b, k);
    FirstFromIs(b.arrived, k, k);
    assert |Whole(b, k, e)| == e + 1 - k;
    assert AllIn(b.arrived, Expected(b, k), e) ==> |Piece(b, k, e)| == e + 1 - Expected(b, k);
  }

  lemma DamagedPiece(b: Batch, k: int)
    requires b.n <= k <= b.m && !AllIn(b.arrived, k, EndOf(b, k))
    ensures Piece(b, k, EndOf(b, k)) == Whole(b, k, EndOf(b, k)) <==> !Misjudged(b, k)
  {
    var e := EndOf(b, k);
    ToldBelow(b, k);
    if e in b.arrived {
      FirstFromIs(b.arrived, k, e);
      assert AllIn(b.arrived, Expected(b, k), e) ==> |Piece(b, k, e)| == e + 1 - Expected(b, k);
    }
  }

  predicate Stamped(m: Message, t: nat) { m.Binary? && m.timestamp == t }

  ghost predicate AllStamped(run: seq<Message>, t: nat) { forall m :: m in run ==> Stamped(m, t) }

  ghost predicate NoneStamped(run: seq<Message>, t: nat) { forall m :: m in run ==> !Stamped(m, t) }

  lemma Overlap(head: seq<Message>, rest: seq<Message>, head': seq<Message>, rest': seq<Message>)
    requires head + rest == head' + rest' && |head| < |head'|
    ensures exists m :: m in head' && m in rest
  {
    var run := head' + rest';
    assert run == head + rest && |run| > |head|;
    var m := run[|head|];
    assert m == rest[0] && m == head'[|head|];
    assert m in head' && m in rest;
  }

  lemma SplitNotLonger(head: seq<Message>, rest: seq<Message>, head': seq<Message>, rest': seq<Message>, t: nat)
    requires head + rest == head' + rest' && AllStamped(head', t) && NoneStamped(rest, t)
    ensures |head'| <= |head|
  {
    if |head| < |head'| {
      Overlap(head, rest, head', rest');
    }
  }

  /** A sequence splits in one way into messages of a timestamp and messages of others. */
  lemma SplitUnique(head: seq<Message>, rest: seq<Message>, head': seq<Message>, rest': seq<Message>, t: nat)
    requires head + rest == head' + rest'
    requires AllStamped(head, t) && AllStamped(head', t) && NoneStamped(rest, t) && NoneStamped(rest', t)
    ensures head == head' && rest == rest'
  {
    SplitNotLonger(head, rest, head', rest', t);
    SplitNotLonger(head', rest', head, rest, t);
    assert head == (head + rest)[..|head|] && head' == (head' + rest')[..|head|];
    assert rest == (head + rest)[|head|..] && rest' == (head' + rest')[|head|..];
  }

  lemma RunStamped(b: Batch, k: int, x: int)
    requires b.n <= k <= b.m && SentPacket(b.sent, k) && k <= x && AllIn(b.arrived, x, EndOf(b, k))
    requires forall q :: q in b.arrived ==> q in b.sent
    ensures AllStamped(PacketRun(b.sent, x, EndOf(b, k) + 1), b.sent[k].timestamp)
  {
    var run := PacketRun(b.sent, x, EndOf(b, k) + 1);
    forall i | 0 <= i < |run| ensures Stamped(run[i], b.sent[k].timestamp) {
      Extent(b, k, x + i);
    }
  }

  lemma PieceStamped(b: Batch, k: int)
    requires b.n <= k <= b.m && SentPacket(b.sent, k)
    ensures AllStamped(Piece(b, k, EndOf(b, k)), b.sent[k].timestamp)
  {
    if EndOf(b, k) in b.arrived && AllIn(b.arrived, Expected(b, k), EndOf(b, k)) {
      PieceStart(b, k);
      RunStamped(b, k, Expected(b, k));
    }
  }

  lemma WholeStamped(b: Batch, k: int)
    requires b.n <= k <= b.m && SentPacket(b.sent, k)
    ensures AllStamped(Whole(b, k, EndOf(b, k)), b.sent[k].timestamp)
  {
    if AllIn(b.arrived, k, EndOf(b, k)) {
      RunStamped(b, k, k);
    }
  }

  lemma OtherStamp(run: seq<Message>, t: nat, u: nat)
    requires AllStamped(run, t) && t != u
    ensures NoneStamped(run, u)
  {
  }

  lemma NoneStampedConcat(run: seq<Message>, xs: seq<Message>, ys: seq<Message>, t: nat)
    requires run == xs + ys && NoneStamped(xs, t) && NoneStamped(ys, t)
    ensures NoneStamped(run, t)
  {
  }

  lemma FramesStamped(b: Batch, k: int, l: int)
    requires b.n <= k <= b.m && SentPacket(b.sent, k) && EndOf(b, k) < l <= b.m
    ensures NoneStamped(Piece(b, l, EndOf(b, l)), b.sent[k].timestamp)
    ensures NoneStamped(Whole(b, l, EndOf(b, l)), b.sent[k].timestamp)
  {
    Extent(b, k, l);
    PieceStamped(b, l);
    WholeStamped(b, l);
    OtherStamp(Piece(b, l, EndOf(b, l)), b.sent[l].timestamp, b.sent[k].timestamp);
    OtherStamp(Whole(b, l, EndOf(b, l)), b.sent[l].timestamp, b.sent[k].timestamp);
  }

  /** Messages of later frames have other timestamps. */
  lemma {:induction false} OutputStamped(b: Batch, k: int, l: int)
    requires b.n <= k <= b.m && SentPacket(b.sent, k) && EndOf(b, k) < l <= b.m + 1
    ensures NoneStamped(Output(b, l), b.sent[k].timestamp)
    decreases b.m - l
  {
    if l == b.m + 1 {
    } else {
      var e := EndOf(b, l);
      FramesStamped(b, k, l);
      OutputStamped(b, k, e + 1);
      NoneStampedConcat(Output(b, l), Piece(b, l, e), Output(b, e + 1), b.sent[k].timestamp);
    }
  }

  lemma {:induction false} IntactStamped(b: Batch, k: int, l: int)
    requires b.n <= k <= b.m && SentPacket(b.sent, k) && EndOf(b, k) < l <= b.m + 1
    ensures NoneStamped(Intact(b, l), b.sent[k].timestamp)
    decreases b.m - l
  {
    if l == b.m + 1 {
    } else {
      var e := EndOf(b, l);
      FramesStamped(b, k, l);
      IntactStamped(b, k, e + 1);
      NoneStampedConcat(Intact(b, l), Whole(b, l, e), Intact(b, e + 1), b.sent[k].timestamp);
    }
  }

  /** No frame from `k` on is misjudged. */
  ghost predicate NoneMisjudged(b: Batch, k: int)
    requires b.n <= k <= b.m + 1
    decreases b.m + 1 - k
  {
    k > b.m || (!Misjudged(b, k) && NoneMisjudged(b, EndOf(b, k) + 1))
  }

  lemma {:induction false} OutputIfJudged(b: Batch, k: int)
    requires b.n <= k <= b.m + 1 && NoneMisjudged(b, k)
    ensures Output(b, k) == Intact(b, k)
    decreases b.m + 1 - k
  {
    if k == b.m + 1 {
    } else {
      OutputIfJudged(b, EndOf(b, k) + 1);
      HeadExactly(b, k);
    }
  }

  lemma {:induction false} JudgedIfOutput(b: Batch, k: int)
    requires b.n <= k <= b.m + 1 && Output(b, k) == Intact(b, k)
    ensures NoneMisjudged(b, k)
    decreases b.m + 1 - k
  {
    if k == b.m + 1 {
    } else {
      OutputSplits(b, k);
      JudgedIfOutput(b, EndOf(b, k) + 1);
      HeadExactly(b, k);
    }
  }

  /** The output is the intact frames, and nothing else, exactly when no frame is misjudged. */
  lemma OutputIntactExactly(b: Batch, k: int)
    requires b.n <= k <= b.m + 1
    ensures Output(b, k) == Intact(b, k) <==> NoneMisjudged(b, k)
  {
    if NoneMisjudged(b, k) {
      OutputIfJudged(b, k);
    }
    if Output(b, k) == Intact(b, k) {
      JudgedIfOutput(b, k);
    }
  }

  lemma HeadExactly(b: Batch, k: int)
    requires b.n <= k <= b.m
    ensures Piece(b, k, EndOf(b, k)) == Whole(b, k, EndOf(b, k)) <==> !Misjudged(b, k)
  {
    if AllIn(b.arrived, k, EndOf(b, k)) {
      IntactPiece(b, k);
    } else {
      DamagedPiece(b, k);
    }
  }

  lemma OutputSplits(b: Batch, k: int)
    requires b.n <= k <= b.m && Output(b, k) == Intact(b, k)
    ensures var e := EndOf(b, k);
      Piece(b, k, e) == Whole(b, k, e) && Output(b, e + 1) == Intact(b, e + 1)
  {
    var e := EndOf(b, k);
    Extent(b, k, k);
    PieceStamped(b, k);
    WholeStamped(b, k);
    OutputStamped(b, k, e + 1);
    IntactStamped(b, k, e + 1);
    SplitUnique(Piece(b, k, e), Output(b, e + 1), Whole(b, k, e), Intact(b, e + 1), b.sent[k].timestamp);
  }

  // ---------- when every marker arrives ----------

  ghost predicate MarkersArrived(b: Batch) { forall q :: b.n <= q <= b.m && IsMarker(b.sent, q) ==> q in b.arrived }

  lemma MarkersTell(b: Batch, k: int)
    requires MarkersArrived(b) && b.next == Some(b.n) && b.n <= k <= b.m && StartsFrame(b.sent, b.n, k)
    ensures Told(b, k) == Some(k) && Expected(b, k) == k && !Misjudged(b, k)
  {
    if k > b.n {
      assert IsMarker(b.sent, k - 1);
      assert IsLastBefore(b.arrived, k, k - 1);
    } else {
      ExpectedFirst(b, k);
    }
  }

  lemma {:induction false} MarkersPreventMisjudging(b: Batch, k: int)
    requires MarkersArrived(b) && b.next == Some(b.n) && b.n <= k <= b.m + 1 && StartsFrame(b.sent, b.n, k)
    ensures NoneMisjudged(b, k)
    decreases b.m + 1 - k
  {
    if k == b.m + 1 {
    } else {
      MarkersTell(b, k);
      MarkersPreventMisjudging(b, EndOf(b, k) + 1);
    }
  }

  predicate WaitedAt(c: Config, s: State, b: Batch, k: int, now: int) {
    SentPacket(b.sent, k) && b.sent[k].timestamp in s.frames ==> Waited(c, s.frames[b.sent[k].timestamp], now)
  }

  /** Of every damaged frame that is buffered, the waiting time is over. */
  ghost predicate DamagedWaited(c: Config, s: State, b: Batch, now: int) {
    forall k :: b.n <= k <= b.m && StartsFrame(b.sent, b.n, k) && !AllIn(b.arrived, k, EndOf(b, k)) ==>
      WaitedAt(c, s, b, k, now)
  }

  lemma MarkersPrevail(b: Batch)
    requires MarkersArrived(b) && b.next == Some(b.n) && b.n <= b.m
    ensures Output(b, b.n) == Intact(b, b.n) && b.m in b.arrived
  {
    MarkersPreventMisjudging(b, b.n);
    OutputIntactExactly(b, b.n);
    assert IsMarker(b.sent, b.m);
  }

  lemma MarkersRipen(c: Config, s: State, b: Batch, now: int)
    requires MarkersArrived(b) && b.next == Some(b.n) && DamagedWaited(c, s, b, now)
    ensures Ripe(c, s, b, now)
  {
    forall k | b.n <= k <= b.m && StartsFrame(b.sent, b.n, k) ensures RipeAt(c, s, b, k, now) {
      MarkersTell(b, k);
    }
  }

  lemma AllDelivered(result: Outcome, b: Batch)
    requires b.n <= b.m && b.m in b.arrived && Delivers(result, b, b.n) && Output(b, b.n) == Intact(b, b.n)
    ensures Flatten(result.blocks) == Intact(b, b.n)
    ensures result.state.frames == map[] && result.state.next == Some(b.m + 1)
  {
  }

  /**
   Recovery after loss: when only packets other than markers are lost and the damaged frames have waited, exactly
   the packets of the undamaged frames come out, in order, nothing is left and the next number is after the batch.
   */
  lemma RecoveryAfterLoss(c: Config, s: State, b: Batch, now: int)
    requires Holds(s, b.sent, b.arrived) && s.next == b.next == Some(b.n) && b.n <= b.m
    requires MarkersArrived(b) && DamagedWaited(c, s, b, now)
    ensures var result := Drain(c, s, now);
      && Flatten(result.blocks) == Intact(b, b.n)
      && result.state.frames == map[] && result.state.next == Some(b.m + 1)
  {
    MarkersRipen(c, s, b, now);
    DrainAfterLoss(c, s, b, now);
    MarkersPrevail(b);
    AllDelivered(Drain(c, s, now), b);
  }

  // ---------- before the first release ----------

  /** Until a first frame has waited, nothing is handed on or given up, so that earlier packets can still arrive. */
  lemma NothingBeforeTheFirstWait(c: Config, s: State, now: int)
    requires s.next.None? && |s.frames| <= c.maxFrames
    requires forall t :: t in s.frames ==> !Waited(c, s.frames[t], now)
    ensures Drain(c, s, now) == Outcome(s, [], false)
  {
    if s.frames != map[] {
      assert Oldest(s.frames) in s.frames;
    }
  }

  // ---------- two calls ----------

  /** Where frames that are new wait from `now` on and all others from where they did. */
  ghost predicate WaitsFrom(before: map<nat, Frame>, after: map<nat, Frame>, now: int) {
    && before.Keys <= after.Keys
    && forall t :: t in after ==> after[t].firstArrival == if t in before then before[t].firstArrival else now
  }

  lemma ReceiveWaits(s: State, m: Message, now: int)
    requires m.Binary?
    ensures WaitsFrom(s.frames, Receive(s, m, now).frames, now)
  {
  }

  /** A frame's waiting time runs from the call that brought its first packet, whatever comes later. */
  lemma {:induction false} WaitStarts(s: State, messages: seq<Message>, now: int)
    ensures WaitsFrom(s.frames, ReceiveAll(s, messages, now).frames, now)
  {
    if messages == [] {
    } else {
      var last := |messages| - 1;
      WaitStarts(s, messages[..last], now);
      if messages[last].Binary? {
        ReceiveWaits(ReceiveAll(s, messages[..last], now), messages[last], now);
      }
    }
  }

  /** A decision that does not wait is the same later on. */
  lemma JudgeLater(c: Config, s: State, earlier: int, now: int)
    requires s.frames != map[] && earlier <= now && !Judge(c, s, earlier).Wait?
    ensures Judge(c, s, now) == Judge(c, s, earlier) && Perform(c, s, now) == Perform(c, s, earlier)
  {
  }

  /** Draining early and then again later hands on what draining later would have. */
  lemma {:induction false} DrainResumes(c: Config, s: State, earlier: int, now: int)
    requires earlier <= now
    ensures var first := Drain(c, s, earlier);
      var second, whole := Drain(c, first.state, now), Drain(c, s, now);
      Flatten(whole.blocks) == Flatten(first.blocks) + Flatten(second.blocks) && whole.state == second.state
    decreases |s.frames|
  {
    if s.frames == map[] || Judge(c, s, earlier).Wait? {
    } else {
      JudgeLater(c, s, earlier, now);
      ErasureShrinks(s.frames, Oldest(s.frames));
      DrainResumes(c, Perform(c, s, earlier).state, earlier, now);
      DrainThen(c, s, earlier);
      DrainThen(c, s, now);
    }
  }

  /** `messages` are the packets of the batch that arrive, in the given order, at a buffer that is ready for them. */
  ghost predicate Delivered(s: State, b: Batch, order: seq<int>, messages: seq<Message>) {
    && s.frames == map[] && s.initialized && s.next == b.next == Some(b.n)
    && b.m - b.n <= 32767 && s.highest - 32767 <= b.n && b.m <= s.highest + 32767
    && Drawn(b.sent, b.n, b.m, order, messages) && b.arrived == Arrived(order)
  }

  /** A call with what arrives of the batch, and a call when the waiting time is over. */
  lemma LossyBatch(c: Config, s: State, b: Batch, order: seq<int>, messages: seq<Message>, start: int, now: int)
    requires Delivered(s, b, order, messages) && start <= now && now - start >= c.maxWait
    ensures var first := Incoming(c, s, messages, start);
      var second := Incoming(c, first.state, [], now);
      Flatten(first.blocks) + Flatten(second.blocks) == Output(b, b.n) && Finished(second.state, b)
  {
    var r := ReceiveAll(s, messages, start);
    ReceiveAllHolds(s, b.sent, b.n, b.m, order, messages, start);
    WaitStarts(s, messages, start);
    AllRipe(c, r, b, start, now);
    DrainAfterLoss(c, r, b, now);
    DrainResumes(c, r, start, now);
  }

  lemma AllRipe(c: Config, s: State, b: Batch, start: int, now: int)
    requires now - start >= c.maxWait && forall t :: t in s.frames ==> s.frames[t].firstArrival == start
    ensures Ripe(c, s, b, now)
  {
  }

  /** ... and when every marker arrives: exactly the undamaged frames, whatever the order of arrival. */
  lemma LossyBatchRecovery(c: Config, s: State, b: Batch, order: seq<int>, messages: seq<Message>, start: int, now: int)
    requires Delivered(s, b, order, messages) && start <= now && now - start >= c.maxWait
    requires MarkersArrived(b) && b.n <= b.m
    ensures var first := Incoming(c, s, messages, start);
      var second := Incoming(c, first.state, [], now);
      && Flatten(first.blocks) + Flatten(second.blocks) == Intact(b, b.n)
      && second.state.frames == map[] && second.state.next == Some(b.m + 1)
  {
    LossyBatch(c, s, b, order, messages, start, now);
    MarkersPrevail(b);
  }

  // ---------- what a lost marker costs ----------

  function Packet(q: int, timestamp: nat, marker: bool): Message {
    Binary(12, 2, 12, 0, q % SEQUENCE_MODULUS, timestamp, marker, q)
  }

  /** Three frames of one packet each, of which the second never arrives. */
  ghost const SECOND_VANISHED :=
    Sending(map[0 := Packet(0, 0, true), 1 := Packet(1, 1, true), 2 := Packet(2, 2, true)], 0, 2, {0, 2}, Some(0))

  /** The third frame arrived whole and is dropped: after the first marker only packet 1 would do. */
  lemma VanishedFrameCostsTheNext()
    ensures SECOND_VANISHED.Valid()
    ensures Output(SECOND_VANISHED, 0) == [Packet(0, 0, true)]
    ensures Intact(SECOND_VANISHED, 0) == [Packet(0, 0, true), Packet(2, 2, true)]
  {
    var b := SECOND_VANISHED;
    SecondVanishedIsValid();
    assert EndOf(b, 0) == 0 && EndOf(b, 1) == 1 && EndOf(b, 2) == 2;
    assert Output(b, 0) == Piece(b, 0, 0) + (Piece(b, 1, 1) + (Piece(b, 2, 2) + []));
    assert Intact(b, 0) == Whole(b, 0, 0) + (Whole(b, 1, 1) + (Whole(b, 2, 2) + []));
    ExpectedFirst(b, 0);
    ExpectedAfter(b, 2, 0);
  }

  lemma SecondVanishedIsValid()
    ensures SECOND_VANISHED.Valid()
  {
    var sent := SECOND_VANISHED.sent;
    forall p, q | 0 <= p <= q <= 2 ensures FrameLink(sent, p, q) {
      assert SentPacket(sent, p) && sent[p].timestamp == p && sent[q].timestamp == q;
    }
  }

  /** Two frames of two packets each: the marker of the first and the start of the second never arrive. */
  ghost const MARKER_LOST :=
    Sending(map[0 := Packet(0, 0, false), 1 := Packet(1, 0, true), 2 := Packet(2, 1, false), 3 := Packet(3, 1, true)],
            0, 3, {0, 3}, Some(0))

  /** No frame is intact, yet the second half of the second frame comes out. */
  lemma LostMarkerReleasesAHeadlessFrame()
    ensures MARKER_LOST.Valid()
    ensures Output(MARKER_LOST, 0) == [Packet(3, 1, true)] && Intact(MARKER_LOST, 0) == []
  {
    MarkerLostIsValid();
    MarkerLostPieces();
    var b := MARKER_LOST;
    assert Output(b, 0) == Piece(b, 0, 1) + (Piece(b, 2, 3) + []);
    assert Intact(b, 0) == Whole(b, 0, 1) + (Whole(b, 2, 3) + []);
  }

  lemma MarkerLostPieces()
    ensures MARKER_LOST.Valid() && EndOf(MARKER_LOST, 0) == 1 && EndOf(MARKER_LOST, 2) == 3
    ensures Piece(MARKER_LOST, 0, 1) == [] && Piece(MARKER_LOST, 2, 3) == [Packet(3, 1, true)]
    ensures Whole(MARKER_LOST, 0, 1) == Whole(MARKER_LOST, 2, 3) == []
  {
    MarkerLostIsValid();
    var b := MARKER_LOST;
    assert EndOf(b, 0) == EndOf(b, 1) == 1 && EndOf(b, 2) == EndOf(b, 3) == 3;
    ExpectedAfter(b, 2, 0);
    FirstFromIs(b.arrived, 2, 3);
    assert Expected(b, 2) == 3 && AllIn(b.arrived, 3, 3);
    assert 1 !in b.arrived && 2 !in b.arrived;
  }

  lemma MarkerLostIsValid()
    ensures MARKER_LOST.Valid()
  {
    var sent := MARKER_LOST.sent;
    forall p, q | 0 <= p <= q <= 3 ensures FrameLink(sent, p, q) {
      assert SentPacket(sent, p) && SentPacket(sent, q) && SentPacket(sent, 1);
      assert sent[p].timestamp == p / 2 && sent[q].timestamp == q / 2;
    }
  }
}
