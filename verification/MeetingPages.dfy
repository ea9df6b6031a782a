/** The paged meeting list: one strict order of all meetings, cut into consecutive pages. */
module MeetingPages {
  import opened Common
  import opened MeetingSpec

  // ---------- order ----------

  predicate Less(a: string, b: string) {
    if b == "" then false
    else if a == "" then true
    else if a[0] != b[0] then a[0] < b[0]
    else Less(a[1..], b[1..])
  }

  lemma {:induction false} LessTotal(a: string, b: string)
    ensures a == b || Less(a, b) || Less(b, a)
    ensures !(Less(a, b) && Less(b, a)) && !Less(a, a)
  {
    if a != "" && b != "" && a[0] == b[0] {
      LessTotal(a[1..], b[1..]);
      assert a == [a[0]] + a[1..] && b == [b[0]] + b[1..];
    }
    if a != "" {
      LessTotal(a[1..], a[1..]);
    }
  }

  lemma {:induction false} LessTransitive(a: string, b: string, c: string)
    requires Less(a, b) && Less(b, c)
    ensures Less(a, c)
  {
    if a != "" && a[0] == b[0] && b[0] == c[0] {
      LessTransitive(a[1..], b[1..], c[1..]);
    }
  }

  /** Later start first; equal starts by descending meeting name. */
  predicate Before(a: Meeting, b: Meeting) {
    if a.startTime != b.startTime then a.startTime > b.startTime else Less(b.meetingId, a.meetingId)
  }

  lemma BeforeTotal(a: Meeting, b: Meeting)
    ensures a.meetingId != b.meetingId ==> Before(a, b) || Before(b, a)
    ensures !(Before(a, b) && Before(b, a)) && !Before(a, a)
  {
    LessTotal(a.meetingId, b.meetingId);
    LessTotal(a.meetingId, a.meetingId);
  }

  lemma BeforeTransitive(a: Meeting, b: Meeting, c: Meeting)
    requires Before(a, b) && Before(b, c)
    ensures Before(a, c)
  {
    if a.startTime == b.startTime == c.startTime {
      LessTransitive(c.meetingId, b.meetingId, a.meetingId);
    }
  }

  predicate Descending(list: seq<Meeting>) { forall i, j :: 0 <= i < j < |list| ==> Before(list[i], list[j]) }

  /** All meetings, each once, in strictly descending order. */
  ghost predicate Listing(meetings: map<string, Meeting>, list: seq<Meeting>) {
    && Descending(list)
    && (forall m :: m in list ==> m.meetingId in meetings && meetings[m.meetingId] == m)
    && forall id :: id in meetings ==> meetings[id] in list
  }

  lemma HeadIsElement(list: seq<Meeting>)
    requires list != []
    ensures exists m :: m in list
  {
    assert list[0] in list;
  }

  lemma {:induction false} DescendingUnique(a: seq<Meeting>, b: seq<Meeting>)
    requires Descending(a) && Descending(b) && forall m :: m in a <==> m in b
    ensures a == b
  {
    if a == [] {
      if b != [] {
        HeadIsElement(b);
        assert false;
      }
    } else {
      assert a[0] in b;
      BeforeTotal(a[0], b[0]);
      assert b[0] in a;
      assert a[0] == b[0];
      forall m ensures m in a[1..] <==> m in b[1..] {
        BeforeTotal(a[0], a[0]);
        assert m in a[1..] ==> m in a && m != a[0];
        assert m in b[1..] ==> m in b && m != b[0];
        assert a == [a[0]] + a[1..] && b == [b[0]] + b[1..];
      }
      DescendingUnique(a[1..], b[1..]);
    }
  }

  /** Sorting an unordered table twice gives the same list, so all pages of one state are cut from one list. */
  lemma ListingUnique(meetings: map<string, Meeting>, a: seq<Meeting>, b: seq<Meeting>)
    requires Listing(meetings, a) && Listing(meetings, b)
    ensures a == b
  {
    DescendingUnique(a, b);
  }

  // ---------- pages ----------

  function TotalPages(count: nat, size: nat): nat
    requires size > 0
  {
    if count > 0 then (count + size - 1) / size else 1
  }

  function Page(list: seq<Meeting>, size: nat, number: nat): seq<Meeting>
    requires size > 0 && number > 0
  {
    var first := (number - 1) * size;
    if first >= |list| then [] else list[first..Min(first + size, |list|)]
  }

  /** The pages 1..n one after another. */
  function Pages(list: seq<Meeting>, size: nat, n: nat): seq<Meeting>
    requires size > 0
  {
    if n == 0 then [] else Pages(list, size, n - 1) + Page(list, size, n)
  }

  lemma {:induction false} PagesArePrefix(list: seq<Meeting>, size: nat, n: nat)
    requires size > 0
    ensures Pages(list, size, n) == list[..Min(n * size, |list|)]
  {
    if n == 0 {
    } else {
      PagesArePrefix(list, size, n - 1);
      var first := (n - 1) * size;
      assert first >= 0 && n * size == first + size;
      PageExtends(list, size, n, first);
    }
  }

  lemma PageExtends(list: seq<Meeting>, size: nat, number: nat, first: nat)
    requires size > 0 && number > 0 && first == (number - 1) * size
    ensures list[..Min(first, |list|)] + Page(list, size, number) == list[..Min(first + size, |list|)]
  {
  }

  /** The last page is the one that reaches the end of the list. */
  lemma TotalPagesReach(count: nat, size: nat)
    requires size > 0 && count > 0
    ensures var total := TotalPages(count, size); total > 0 && (total - 1) * size < count <= total * size
  {
    var total := TotalPages(count, size);
    assert count + size - 1 == total * size + (count + size - 1) % size;
    assert (total - 1) * size == total * size - size;
  }

  lemma PageStarts(a: int, b: int, size: nat)
    requires a <= b
    ensures a * size <= b * size
  {
    assert (b - a) * size >= 0;
    assert b * size == a * size + (b - a) * size;
  }

  lemma AllPages(list: seq<Meeting>, size: nat)
    requires size > 0
    ensures Pages(list, size, TotalPages(|list|, size)) == list
  {
    var total := TotalPages(|list|, size);
    PagesArePrefix(list, size, total);
    if list != [] {
      TotalPagesReach(|list|, size);
      assert Min(total * size, |list|) == |list|;
    }
  }

  lemma PageEmptiness(list: seq<Meeting>, size: nat, number: nat)
    requires size > 0 && number > 0 && list != []
    ensures Page(list, size, number) == [] <==> number > TotalPages(|list|, size)
  {
    var total := TotalPages(|list|, size);
    TotalPagesReach(|list|, size);
    if number > total {
      PageStarts(total, number - 1, size);
    } else {
      PageStarts(number - 1, total - 1, size);
    }
    PageEmptyAt(list, size, number, (number - 1) * size);
  }

  lemma PageEmptyAt(list: seq<Meeting>, size: nat, number: nat, first: int)
    requires size > 0 && number > 0 && first == (number - 1) * size
    ensures Page(list, size, number) == [] <==> first >= |list|
  {
    PageStarts(0, number - 1, size);
  }

  /** The pages of a listing are exactly all meetings, each once and in order, and later pages are empty. */
  lemma PagesPartition(meetings: map<string, Meeting>, list: seq<Meeting>, size: nat, number: nat)
    requires size > 0 && Listing(meetings, list) && number > 0
    ensures Listing(meetings, Pages(list, size, TotalPages(|list|, size)))
    ensures list != [] ==> (Page(list, size, number) == [] <==> number > TotalPages(|list|, size))
    ensures list == [] ==> Page(list, size, number) == []
  {
    AllPages(list, size);
    if list != [] {
      PageEmptiness(list, size, number);
    } else {
      PageStarts(0, number - 1, size);
    }
  }

  // ---------- sorting ----------

  /** Puts one more meeting in its place. */
  method InsertInOrder(list: seq<Meeting>, m: Meeting) returns (r: seq<Meeting>)
    requires Descending(list) && forall x :: x in list ==> x.meetingId != m.meetingId
    ensures Descending(r) && forall x :: x in r <==> x == m || x in list
  {
    var i := 0;
    while i < |list| && Before(list[i], m)
      invariant 0 <= i <= |list|
      invariant forall j :: 0 <= j < i ==> Before(list[j], m)
    {
      i := i + 1;
    }
    r := list[..i] + [m] + list[i..];
    forall j | i <= j < |list| ensures Before(m, list[j]) {
      assert list[i] in list;
      BeforeTotal(m, list[i]);
      if i < j {
        BeforeTransitive(m, list[i], list[j]);
      }
    }
    assert list == list[..i] + list[i..];
  }

  method SortMeetings(meetings: map<string, Meeting>) returns (list: seq<Meeting>)
    requires forall id :: id in meetings ==> meetings[id].meetingId == id
    ensures Listing(meetings, list)
  {
    list := [];
    var remaining := meetings.Keys;
    while remaining != {}
      invariant remaining <= meetings.Keys && Descending(list)
      invariant forall m :: m in list ==>
                  m.meetingId in meetings && meetings[m.meetingId] == m && m.meetingId !in remaining
      invariant forall id :: id in meetings && id !in remaining ==> meetings[id] in list
      decreases |remaining|
    {
      var id :| id in remaining;
      remaining := remaining - {id};
      list := InsertInOrder(list, meetings[id]);
    }
  }
}
