/**
 Mapping of 32-bit RTP timestamps to the NTP timeline of the sender's reports (RFC 3550, sections 4 and 6.4.1):
 one report is the anchor, and timestamps are placed relative to it by their signed distance modulo 2^32.
 */
module RtpNtpMapping {
  import opened Common

  const TWO_31 := 0x8000_0000
  const TWO_32 := 0x1_0000_0000
  const MICROS := 1_000_000

  type U32 = x: int | 0 <= x < TWO_32

  function RtpDelta(current: U32, base: U32): (d: int)
    ensures -TWO_31 <= d < TWO_31
  {
    var d := (current - base) % TWO_32;
    if d < TWO_31 then d else d - TWO_32
  }

  function DeltaToUs(delta: int, clockRate: nat): int {
    if clockRate == 0 then 0 else TruncDiv(delta * MICROS, clockRate)
  }

  /** 32 bits of seconds and 32 bits of fraction. */
  function NtpToUs(ntp: nat): int {
    ntp / TWO_32 * MICROS + ntp % TWO_32 * MICROS / TWO_32
  }

  datatype Mapper = Mapper(clockRate: nat, maxDeviationUs: int, ready: bool, srRtp: U32, srNtp: nat, srNtpUs: int)

  datatype UpdateResult = Accepted | Unchanged | Invalid | Discontinuity

  function Cleared(m: Mapper): Mapper { m.(ready := false, srRtp := 0, srNtp := 0, srNtpUs := 0) }

  function Anchored(m: Mapper, rtp: U32, ntp: nat): Mapper {
    m.(ready := true, srRtp := rtp, srNtp := ntp, srNtpUs := NtpToUs(ntp))
  }

  function TimeOf(m: Mapper, rtp: U32): int { m.srNtpUs + DeltaToUs(RtpDelta(rtp, m.srRtp), m.clockRate) }

  function MapToNtp(m: Mapper, rtp: U32): Option<int> {
    if !m.ready || m.clockRate == 0 then None else Some(TimeOf(m, rtp))
  }

  function Update(m: Mapper, rtp: nat, ntp: nat): (Mapper, UpdateResult) {
    if m.clockRate == 0 || m.maxDeviationUs <= 0 || rtp >= TWO_32 || ntp == 0 then (m, Invalid)
    else if !m.ready then (Anchored(m, rtp, ntp), Accepted)
    else if m.srRtp == rtp && m.srNtp == ntp then (m, Unchanged)
    else if Abs(NtpToUs(ntp) - TimeOf(m, rtp)) > m.maxDeviationUs then (m, Discontinuity)
    else (Anchored(m, rtp, ntp), Accepted)
  }

  /** The anchor's time is the NTP time it was reported with. */
  ghost predicate Sound(m: Mapper) { m.clockRate > 0 && m.maxDeviationUs > 0 && m.srNtpUs == NtpToUs(m.srNtp) }

  // ---------- the conversions ----------

  /** The whole conversion is one floor of a 64.32 fixed-point product, and fits in 52 bits. */
  lemma NtpIsFloor(ntp: nat)
    requires ntp < TWO_32 * TWO_32
    ensures NtpToUs(ntp) == ntp * MICROS / TWO_32
    ensures 0 <= NtpToUs(ntp) < TWO_32 * MICROS
  {
    var seconds, fraction := ntp / TWO_32, ntp % TWO_32;
    assert ntp * MICROS == seconds * MICROS * TWO_32 + fraction * MICROS;
  }

  /** A valid new report is taken exactly when the mapping so far, if any, predicted its time closely enough. */
  lemma UpdateExactly(m: Mapper, rtp: U32, ntp: nat)
    requires Sound(m) && ntp != 0 && !(m.ready && m.srRtp == rtp && m.srNtp == ntp)
    ensures var (n, result) := Update(m, rtp, ntp);
      var predicted := MapToNtp(m, rtp);
      && (result == Accepted <==>
            predicted.None? || Abs(NtpToUs(ntp) - predicted.value) <= m.maxDeviationUs)
      && (result == Accepted ==> MapToNtp(n, rtp) == Some(NtpToUs(ntp)))
      && (result != Accepted ==> result == Discontinuity && n == m)
  {
    DeltaUnique(rtp, rtp, 0);
  }

  /** The distance is the one representative within half the range that leads from `base` to `current`. */
  lemma DeltaUnique(current: U32, base: U32, d: int)
    ensures (base + RtpDelta(current, base)) % TWO_32 == current
    ensures -TWO_31 <= d < TWO_31 && (base + d) % TWO_32 == current ==> d == RtpDelta(current, base)
  {
    assert -TWO_31 <= d < TWO_31 && (base + d) % TWO_32 == current ==> (d - RtpDelta(current, base)) % TWO_32 == 0;
  }

  /** Distances from two bases differ by the distance of the bases, up to one turn of the counter. */
  lemma DeltaAdds(t: U32, near: U32, far: U32)
    ensures var sum := RtpDelta(t, near) + RtpDelta(near, far);
      || RtpDelta(t, far) == sum
      || RtpDelta(t, far) == sum - TWO_32
      || RtpDelta(t, far) == sum + TWO_32
    ensures RtpDelta(t, far) == RtpDelta(t, near) + RtpDelta(near, far)
       <==> -TWO_31 <= RtpDelta(t, near) + RtpDelta(near, far) < TWO_31
  {
  }

  lemma TruncDivBounds(a: int, b: int)
    requires b > 0
    ensures var q := TruncDiv(a, b); if a >= 0 then q * b <= a < q * b + b else q * b - b < a <= q * b
  {
  }

  /** A distance in ticks is converted to within one microsecond, towards zero. */
  lemma DeltaToUsNear(delta: int, clockRate: nat)
    requires clockRate > 0
    ensures var us := DeltaToUs(delta, clockRate);
      if delta >= 0 then 0 <= us * clockRate <= delta * MICROS < us * clockRate + clockRate
      else us * clockRate - clockRate < delta * MICROS <= us * clockRate <= 0
  {
    TruncDivBounds(delta * MICROS, clockRate);
    if delta >= 0 {
      QuotientMonotone(0, delta * MICROS, clockRate);
    } else {
      QuotientMonotone(0, -(delta * MICROS), clockRate);
      SignedProduct(DeltaToUs(delta, clockRate), clockRate);
    }
  }

  lemma SignedProduct(q: int, size: nat)
    requires q <= 0
    ensures q * size <= 0
  {
  }

  /** Truncating two parts and their sum differ by at most one. */
  lemma TruncDivAdds(a: int, b: int, size: int)
    requires size > 0
    ensures Abs(TruncDiv(a + b, size) - TruncDiv(a, size) - TruncDiv(b, size)) <= 1
  {
    var x, y, z := TruncDiv(a, size), TruncDiv(b, size), TruncDiv(a + b, size);
    TruncDivBounds(a, size);
    TruncDivBounds(b, size);
    TruncDivBounds(a + b, size);
    var d := z - x - y;
    assert d * size == z * size - x * size - y * size;
    assert -2 * size < d * size < 2 * size;
    SmallMultiple(d, size);
  }

  lemma SmallMultiple(d: int, size: int)
    requires size > 0 && -2 * size < d * size < 2 * size
    ensures -1 <= d <= 1
  {
    assert d >= 2 ==> (d - 2) * size >= 0;
    assert d <= -2 ==> (d + 2) * size <= 0;
  }

  lemma DeltaToUsAdds(a: int, b: int, clockRate: nat)
    ensures Abs(DeltaToUs(a + b, clockRate) - DeltaToUs(a, clockRate) - DeltaToUs(b, clockRate)) <= 1
  {
    if clockRate > 0 {
      assert (a + b) * MICROS == a * MICROS + b * MICROS;
      TruncDivAdds(a * MICROS, b * MICROS, clockRate);
    }
  }

  // ---------- stability ----------

  /** `t` is within half the range of the new anchor's neighbourhood as seen from the old anchor. */
  predicate InReach(t: U32, from: U32, to: U32) { -TWO_31 <= RtpDelta(t, to) + RtpDelta(to, from) < TWO_31 }

  /** Going to `t` over `via` takes the same time as going there directly, up to a microsecond. */
  lemma DistanceVia(t: U32, via: U32, from: U32, clockRate: nat)
    requires InReach(t, from, via)
    ensures var detour := DeltaToUs(RtpDelta(t, via), clockRate) + DeltaToUs(RtpDelta(via, from), clockRate);
      && Abs(DeltaToUs(RtpDelta(t, from), clockRate) - detour) <= 1
      && (from == via ==> DeltaToUs(RtpDelta(t, from), clockRate) == detour)
  {
    DeltaAdds(t, via, from);
    DeltaToUsAdds(RtpDelta(t, via), RtpDelta(via, from), clockRate);
  }

  /**
   A sender report that is not a discontinuity moves the time of every timestamp in reach by at most the
   configured deviation plus one microsecond, across wrap-around of the 32-bit counter.
   */
  lemma UpdateStable(m: Mapper, rtp: nat, ntp: nat, t: U32)
    requires Sound(m) && m.ready && Update(m, rtp, ntp).1 == Accepted && InReach(t, m.srRtp, rtp)
    ensures Abs(TimeOf(Update(m, rtp, ntp).0, t) - TimeOf(m, t)) <= m.maxDeviationUs + 1
  {
    DistanceVia(t, rtp, m.srRtp, m.clockRate);
  }

  /** At 48 and 90 kHz, reach is exactly what is needed: out of reach the time jumps by most of a counter turn. */
  lemma UpdateStableExactly(m: Mapper, rtp: nat, ntp: nat, t: U32)
    requires Sound(m) && m.ready && Update(m, rtp, ntp).1 == Accepted
    requires m.clockRate <= 90_000 && m.maxDeviationUs <= 1_000_000_000
    ensures InReach(t, m.srRtp, rtp)
       <==> Abs(TimeOf(Update(m, rtp, ntp).0, t) - TimeOf(m, t)) <= m.maxDeviationUs + 1
  {
    if InReach(t, m.srRtp, rtp) {
      UpdateStable(m, rtp, ntp, t);
    } else {
      DeltaAdds(t, rtp, m.srRtp);
      var near, gap, far := RtpDelta(t, rtp), RtpDelta(rtp, m.srRtp), RtpDelta(t, m.srRtp);
      var turn := far - near - gap;
      assert Abs(turn) == TWO_32;
      DeltaToUsAdds(near, gap, m.clockRate);
      DeltaToUsAdds(near + gap, turn, m.clockRate);
      TurnIsLong(turn, m.clockRate);
    }
  }

  lemma TurnIsLong(turn: int, clockRate: nat)
    requires 0 < clockRate <= 90_000 && (turn == TWO_32 || turn == -TWO_32)
    ensures Abs(DeltaToUs(turn, clockRate)) >= 47_000_000_000
  {
    var q := TruncDiv(turn * MICROS, clockRate);
    TruncDivBounds(turn * MICROS, clockRate);
    assert 47_000_000_000 * (90_000 - clockRate) >= 0;
    assert Abs(q) < 47_000_000_000 ==> (47_000_000_000 - Abs(q)) * clockRate >= 0;
    assert Abs(q) * clockRate == if q >= 0 then q * clockRate else -(q * clockRate);
  }

  /** An accepted report is reproduced exactly, and every other result leaves the mapping as it was. */
  lemma AnchorIsExact(m: Mapper, rtp: nat, ntp: nat)
    requires Sound(m)
    ensures var (n, result) := Update(m, rtp, ntp);
      && Sound(n) && (m.ready ==> n.ready)
      && (result == Accepted || result == Unchanged ==> MapToNtp(n, rtp) == Some(NtpToUs(ntp)))
      && (result != Accepted ==> n == m)
      && (result == Discontinuity ==>
            m.ready && Abs(NtpToUs(ntp) - TimeOf(m, rtp)) > m.maxDeviationUs
            && Update(Cleared(m), rtp, ntp).1 == Accepted)
  {
  }

  // ---------- runs of reports ----------

  datatype Report = Report(rtp: nat, ntp: nat)

  function UpdateAll(m: Mapper, reports: seq<Report>): Mapper {
    if reports == [] then m
    else
      var last := reports[|reports| - 1];
      Update(UpdateAll(m, reports[..|reports| - 1]), last.rtp, last.ntp).0
  }

  /** No report of the run is a discontinuity, and `t` stays in reach of every anchor taken. */
  predicate Smooth(m: Mapper, reports: seq<Report>, t: U32) {
    reports == [] ||
    var last, before := reports[|reports| - 1], UpdateAll(m, reports[..|reports| - 1]);
    && Smooth(m, reports[..|reports| - 1], t)
    && Update(before, last.rtp, last.ntp).1 != Discontinuity
    && (last.rtp < TWO_32 ==> InReach(t, before.srRtp, last.rtp))
  }

  /** Whatever the reports, the drift of a timestamp's time is bounded by their number. */
  lemma {:induction false} RunStable(m: Mapper, reports: seq<Report>, t: U32)
    requires Sound(m) && m.ready && Smooth(m, reports, t)
    ensures var n := UpdateAll(m, reports);
      && Sound(n) && n.ready && n.clockRate == m.clockRate && n.maxDeviationUs == m.maxDeviationUs
      && Abs(TimeOf(n, t) - TimeOf(m, t)) <= |reports| * (m.maxDeviationUs + 1)
  {
    if reports == [] {
    } else {
      var k := |reports| - 1;
      RunStable(m, reports[..k], t);
      var before := UpdateAll(m, reports[..k]);
      AnchorIsExact(before, reports[k].rtp, reports[k].ntp);
      if Update(before, reports[k].rtp, reports[k].ntp).1 == Accepted {
        UpdateStable(before, reports[k].rtp, reports[k].ntp, t);
      }
      assert (k + 1) * (m.maxDeviationUs + 1) == k * (m.maxDeviationUs + 1) + m.maxDeviationUs + 1;
    }
  }
}
