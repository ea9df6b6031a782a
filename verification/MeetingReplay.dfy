/** What every call on the meeting store keeps: memberships agree, and event logs replay to the real state. */
module MeetingReplay {
  import opened Common
  import opened MeetingNumbering
  import opened MeetingSpec

  // ---------- replay ----------

  function WithoutName(names: seq<string>, user: string): seq<string> {
    if names == [] then []
    else if names[0] == user then names[1..]
    else [names[0]] + WithoutName(names[1..], user)
  }

  function After(names: seq<string>, e: Event): seq<string> {
    match e.kind
    case UserJoined => names + [e.trigger.userName]
    case UserLeft => WithoutName(names, e.trigger.userName)
    case Ended => []
  }

  /** The participant list a reader ends up with by applying the events of `log` to `base`. */
  function Replay(base: seq<string>, log: seq<Event>): seq<string> {
    if log == [] then base else After(Replay(base, log[..|log| - 1]), log[|log| - 1])
  }

  predicate Distinct<T(==)>(list: seq<T>) { forall i, j :: 0 <= i < j < |list| ==> list[i] != list[j] }

  // ---------- the invariant ----------

  predicate EndedOnlyLast(sub: Subscription) {
    && (forall i :: 0 <= i < |sub.Log()| - 1 ==> !sub.Log()[i].kind.Ended?)
    && (!sub.closed ==> forall i :: 0 <= i < |sub.Log()| ==> !sub.Log()[i].kind.Ended?)
  }

  /** An open subscription belongs to a present participant and replays to the present participant names. */
  predicate Current<K(==)>(s: Store<K>, k: K)
    requires k in s.all
  {
    var sub := s.all[k];
    && k in Listed(s, sub.meetingId)
    && sub.meetingId in s.meetings && s.meetings[sub.meetingId].active
    && sub.userName in Names(s.meetings[sub.meetingId].participants)
    && Replay(sub.base, sub.Log()) == Names(s.meetings[sub.meetingId].participants)
  }

  predicate Rivals<K(==)>(s: Store<K>, k: K, l: K)
    requires k in s.all && l in s.all
  {
    s.all[k].Open() && s.all[l].Open() && s.all[k].userName == s.all[l].userName
  }

  /** Each user has at most one open subscription. */
  ghost predicate OneEach<K>(s: Store<K>) {
    forall k, l :: k in s.all && l in s.all && Rivals(s, k, l) ==> k == l
  }

  ghost predicate Subscribed<K>(s: Store<K>) {
    && (forall k :: k in s.all ==> EndedOnlyLast(s.all[k]))
    && (forall k :: k in s.all && s.all[k].Open() ==> Current(s, k))
    && OneEach(s)
  }

  predicate Filed<K(==)>(s: Store<K>, id: string) {
    var list := Listed(s, id);
    Distinct(list) && forall i :: 0 <= i < |list| ==> list[i] in s.all && s.all[list[i]].meetingId == id
  }

  predicate MeetingOk(meeting: Meeting) {
    Distinct(Names(meeting.participants)) && (meeting.active <==> meeting.participants != [])
  }

  ghost predicate InMeeting<K>(s: Store<K>, user: string, id: string) {
    id in s.meetings && s.meetings[id].active && user in Names(s.meetings[id].participants)
  }

  /** `userMeetings` holds exactly the active memberships, so each user is in at most one meeting. */
  ghost predicate Memberships<K>(s: Store<K>) {
    && (forall id :: id in s.meetings ==> MeetingOk(s.meetings[id]) && s.meetings[id].meetingId == id)
    && (forall u :: u in s.userMeetings ==> InMeeting(s, u, s.userMeetings[u]))
    && (forall id, u :: id in s.meetings && u in Names(s.meetings[id].participants) ==>
          u in s.userMeetings && s.userMeetings[u] == id)
  }

  ghost predicate Numbered<K>(s: Store<K>) {
    forall id :: id in s.meetings ==> exists n: nat :: n < s.nextNumber && id == MeetingName(n)
  }

  ghost predicate Consistent<K>(s: Store<K>) {
    Memberships(s) && Numbered(s) && Subscribed(s) && forall id :: Filed(s, id)
  }

  // ---------- participants ----------

  lemma {:induction false} NamesAppend(xs: seq<Participant>, p: Participant)
    ensures Names(xs + [p]) == Names(xs) + [p.userName]
  {
    if xs == [] {
      assert xs + [p] == [p];
    } else {
      NamesAppend(xs[1..], p);
      assert (xs + [p])[1..] == xs[1..] + [p];
    }
  }

  lemma {:induction false} NamesWithoutUser(ps: seq<Participant>, user: string)
    ensures Names(WithoutUser(ps, user)) == WithoutName(Names(ps), user)
  {
    if ps != [] && ps[0].userName != user {
      NamesWithoutUser(ps[1..], user);
    }
  }

  lemma {:induction false} NamesWithAddress(ps: seq<Participant>, p: Participant)
    ensures Names(WithAddress(ps, p)) == Names(ps)
  {
    if ps == [] {
    } else {
      if ps[0].userName == p.userName {
        assert ([p] + ps[1..])[1..] == ps[1..];
      } else {
        NamesWithAddress(ps[1..], p);
      }
    }
  }

  lemma {:induction false} FindUserFinds(ps: seq<Participant>, user: string)
    ensures FindUser(ps, user).Some? <==> user in Names(ps)
    ensures FindUser(ps, user).Some? ==> FindUser(ps, user).value.userName == user
  {
    if ps == [] {
    } else {
      FindUserFinds(ps[1..], user);
    }
  }

  lemma {:induction false} WithoutNameElements(names: seq<string>, user: string)
    requires Distinct(names)
    ensures Distinct(WithoutName(names, user))
    ensures forall u :: u in WithoutName(names, user) <==> u in names && u != user
  {
    if names == [] {
    } else {
      var rest := names[1..];
      assert forall u :: u in names <==> u == names[0] || u in rest;
      assert names[0] !in rest;
      WithoutNameElements(rest, user);
    }
  }

  // ---------- the rounds over a meeting's subscriptions ----------

  lemma LastElement<T>(list: seq<T>)
    requires list != [] && Distinct(list)
    ensures var n := |list| - 1;
      && Distinct(list[..n]) && list[n] !in list[..n]
      && forall x :: x in list <==> x in list[..n] || x == list[n]
  {
    assert list == list[..|list| - 1] + [list[|list| - 1]];
  }

  function AfterRound(sub: Subscription, told: bool, e: Event, closing: bool): Subscription {
    if !told || sub.expired then sub
    else if closing then Closed(Pushed(sub, e))
    else Pushed(sub, e)
  }

  /** What one publish round has done: pushed once to everybody still there. */
  ghost predicate Published<K>(all: map<K, Subscription>, list: seq<K>, e: Event, closing: bool,
                               r: (map<K, Subscription>, seq<K>))
  {
    && r.0.Keys == all.Keys
    && (forall k :: k in all ==> r.0[k] == AfterRound(all[k], k in list, e, closing))
    && Distinct(r.1)
    && (forall k :: k in r.1 ==> !closing && k in list && k in all && !all[k].expired)
    && (forall k :: k in list ==> !closing && k in all && !all[k].expired ==> k in r.1)
  }

  lemma {:induction false} PublishRound<K>(all: map<K, Subscription>, list: seq<K>, e: Event, closing: bool)
    requires Distinct(list)
    ensures Published(all, list, e, closing, Publish(all, list, e, closing))
  {
    if list == [] {
    } else {
      var n := |list| - 1;
      PublishRound(all, list[..n], e, closing);
      LastElement(list);
    }
  }

  function AfterClose(sub: Subscription, listed: bool, user: string): Subscription {
    if listed && !sub.expired && sub.userName == user then Closed(sub) else sub
  }

  ghost predicate UserClosed<K>(all: map<K, Subscription>, list: seq<K>, user: string,
                                r: (map<K, Subscription>, seq<K>))
  {
    && r.0.Keys == all.Keys
    && (forall k :: k in all ==> r.0[k] == AfterClose(all[k], k in list, user))
    && Distinct(r.1)
    && (forall k :: k in r.1 ==> k in list && k in all && !all[k].expired && all[k].userName != user)
    && (forall k :: k in list ==> k in all && !all[k].expired && all[k].userName != user ==> k in r.1)
  }

  lemma {:induction false} CloseUserRound<K>(all: map<K, Subscription>, list: seq<K>, user: string)
    requires Distinct(list)
    ensures UserClosed(all, list, user, CloseUser(all, list, user))
  {
    if list == [] {
    } else {
      var n := |list| - 1;
      CloseUserRound(all, list[..n], user);
      LastElement(list);
    }
  }

  lemma {:induction false} WithoutKeyElements<K>(all: map<K, Subscription>, list: seq<K>, k: K)
    requires Distinct(list)
    ensures var r := WithoutKey(all, list, k);
      && Distinct(r)
      && (forall l :: l in r ==> l in list && l != k && l in all && !all[l].expired)
      && (forall l :: l in list ==> l != k && l in all && !all[l].expired ==> l in r)
  {
    if list == [] {
    } else {
      var n := |list| - 1;
      WithoutKeyElements(all, list[..n], k);
      assert list == list[..n] + [list[n]] && list[n] !in list[..n];
    }
  }

  /** Dropping expired entries from a list without any changes nothing. */
  lemma {:induction false} NoneExpired<K>(all: map<K, Subscription>, list: seq<K>)
    requires forall i :: 0 <= i < |list| ==> list[i] in all && !all[list[i]].expired
    ensures WithoutExpired(all, list) == list
  {
    if list == [] {
    } else {
      NoneExpired(all, list[..|list| - 1]);
    }
  }

  // ---------- publishing keeps the logs right ----------

  /** `Current`, except that `user` need no longer be a participant of meeting `id`. */
  ghost predicate NearlyCurrent<K>(s: Store<K>, k: K, id: string, user: string)
    requires k in s.all
  {
    var sub := s.all[k];
    && k in Listed(s, sub.meetingId)
    && sub.meetingId in s.meetings && s.meetings[sub.meetingId].active
    && (sub.userName in Names(s.meetings[sub.meetingId].participants) || (sub.meetingId == id && sub.userName == user))
    && Replay(sub.base, sub.Log()) == Names(s.meetings[sub.meetingId].participants)
  }

  ghost predicate NearlySubscribed<K>(s: Store<K>, id: string, user: string) {
    && (forall k :: k in s.all ==> EndedOnlyLast(s.all[k]))
    && (forall k :: k in s.all && s.all[k].Open() ==> NearlyCurrent(s, k, id, user))
    && OneEach(s)
  }

  /** `k` will be (nearly) current once it has seen the event that is about to be published. */
  ghost predicate Due<K>(s: Store<K>, k: K, e: Event, closing: bool, user: string)
    requires k in s.all
  {
    var sub := s.all[k];
    && k in Listed(s, sub.meetingId)
    && if sub.meetingId != e.meetingId then Current(s, k)
       else closing
            || (e.meetingId in s.meetings && s.meetings[e.meetingId].active
                && (sub.userName in Names(s.meetings[e.meetingId].participants) || sub.userName == user)
                && After(Replay(sub.base, sub.Log()), e) == Names(s.meetings[e.meetingId].participants))
  }

  ghost predicate AllDue<K>(s: Store<K>, e: Event, closing: bool, user: string) {
    && (forall k :: k in s.all ==> EndedOnlyLast(s.all[k]))
    && (forall k :: k in s.all && s.all[k].Open() ==> Due(s, k, e, closing, user))
    && OneEach(s) && (forall id :: Filed(s, id)) && (e.kind.Ended? <==> closing)
  }

  lemma ReplayPushed(sub: Subscription, e: Event)
    requires !sub.closed
    ensures Pushed(sub, e).Log() == sub.Log() + [e]
    ensures Replay(sub.base, Pushed(sub, e).Log()) == After(Replay(sub.base, sub.Log()), e)
  {
    assert Pushed(sub, e).Log()[..|sub.Log()|] == sub.Log();
  }

  lemma PublishFiled<K>(s: Store<K>, e: Event, closing: bool, id: string)
    requires Filed(s, id) && Filed(s, e.meetingId)
    ensures Filed(PublishEvent(s, e, closing), id)
  {
    PublishRound(s.all, Listed(s, e.meetingId), e, closing);
  }

  lemma RoundEndedOnlyLast(sub: Subscription, told: bool, e: Event, closing: bool)
    requires EndedOnlyLast(sub) && (e.kind.Ended? ==> closing)
    ensures EndedOnlyLast(AfterRound(sub, told, e, closing))
  {
    if told && !sub.expired && !sub.closed {
      assert Pushed(sub, e).Log() == sub.Log() + [e];
      assert Closed(Pushed(sub, e)).Log() == Pushed(sub, e).Log();
    }
  }

  /** The round makes a due subscription current, or closes it. */
  lemma PublishedCurrent<K>(s: Store<K>, e: Event, closing: bool, user: string, k: K)
    requires Filed(s, e.meetingId) && k in s.all && Filed(s, s.all[k].meetingId)
    requires s.all[k].Open() ==> Due(s, k, e, closing, user)
    requires Published(s.all, Listed(s, e.meetingId), e, closing, Publish(s.all, Listed(s, e.meetingId), e, closing))
    ensures var r := PublishEvent(s, e, closing);
      && k in r.all && r.all[k].userName == s.all[k].userName && (r.all[k].Open() ==> s.all[k].Open())
      && (r.all[k].Open() ==> NearlyCurrent(r, k, e.meetingId, user))
      && (r.all[k].Open() && closing ==> Current(r, k))
  {
    var r := PublishEvent(s, e, closing);
    if r.all[k].Open() {
      if s.all[k].meetingId == e.meetingId {
        ReplayPushed(s.all[k], e);
      } else {
        assert k !in Listed(s, e.meetingId);
      }
    }
  }

  lemma PublishKeeps<K>(s: Store<K>, e: Event, closing: bool, user: string)
    requires AllDue(s, e, closing, user)
    ensures var r := PublishEvent(s, e, closing);
      NearlySubscribed(r, e.meetingId, user) && r.meetings == s.meetings && forall id :: Filed(r, id)
    ensures closing ==> Subscribed(PublishEvent(s, e, closing))
  {
    assert Filed(s, e.meetingId);
    PublishRound(s.all, Listed(s, e.meetingId), e, closing);
    var r := PublishEvent(s, e, closing);
    forall id ensures Filed(r, id) {
      assert Filed(s, id);
      PublishFiled(s, e, closing, id);
    }
    forall k | k in s.all
      ensures EndedOnlyLast(r.all[k])
      ensures r.all[k].userName == s.all[k].userName && (r.all[k].Open() ==> s.all[k].Open())
      ensures r.all[k].Open() ==> NearlyCurrent(r, k, e.meetingId, user)
      ensures r.all[k].Open() && closing ==> Current(r, k)
    {
      assert EndedOnlyLast(s.all[k]) && Filed(s, s.all[k].meetingId);
      RoundEndedOnlyLast(s.all[k], k in Listed(s, e.meetingId), e, closing);
      PublishedCurrent(s, e, closing, user, k);
    }
    forall k, l | k in r.all && l in r.all && Rivals(r, k, l) ensures k == l {
      assert Rivals(s, k, l);
    }
  }

  /** Closing a user's subscriptions in the meeting it has left makes everything current again. */
  lemma CloseUserKeeps<K>(s: Store<K>, id: string, user: string)
    requires NearlySubscribed(s, id, user) && forall other :: Filed(s, other)
    ensures var r := CloseUserSubscriptions(s, id, user);
      && Subscribed(r) && r.meetings == s.meetings && (forall other :: Filed(r, other))
      && r.all.Keys == s.all.Keys
      && (forall k :: k in Listed(r, id) ==> k in r.all && !r.all[k].expired)
  {
    assert Filed(s, id);
    CloseUserRound(s.all, Listed(s, id), user);
    var r := CloseUserSubscriptions(s, id, user);
    forall other ensures Filed(r, other) {
      assert Filed(s, other);
    }
    forall k | k in r.all ensures EndedOnlyLast(r.all[k]) && (r.all[k].Open() ==> Current(r, k)) {
      assert EndedOnlyLast(s.all[k]);
      if r.all[k].Open() {
        assert NearlyCurrent(s, k, id, user) && Filed(s, s.all[k].meetingId);
      }
    }
    forall k, l | k in r.all && l in r.all && Rivals(r, k, l) ensures k == l {
      assert Rivals(s, k, l);
    }
  }

  // ---------- the calls ----------

  lemma CreateKeeps<K>(s: Store<K>, creator: Participant, title: string, description: string, start: int, now: int)
    requires Consistent(s)
    ensures Consistent(CreateMeeting(s, creator, title, description, start,
                                     MeetingName(s.nextNumber), s.nextNumber, now).0)
    // The generated name is new at once.
    ensures MeetingName(s.nextNumber) !in s.meetings
  {
    var id := MeetingName(s.nextNumber);
    if id in s.meetings {
      var n: nat :| n < s.nextNumber && id == MeetingName(n);
      MeetingNameInjective(n, s.nextNumber);
    }
    var r := CreateMeeting(s, creator, title, description, start, id, s.nextNumber, now).0;
    if r != s {
      CreateMembers(s, r, creator, id);
      forall k | k in r.all && r.all[k].Open() ensures Current(r, k) {
        assert Current(s, k);
      }
      forall k, l | k in r.all && l in r.all && Rivals(r, k, l) ensures k == l {
        assert Rivals(s, k, l);
      }
      forall other ensures Filed(r, other) {
        assert Filed(s, other);
      }
      forall m | m in r.meetings ensures exists n: nat :: n < r.nextNumber && m == MeetingName(n) {
        if m in s.meetings {
          var n: nat :| n < s.nextNumber && m == MeetingName(n);
        }
      }
    }
  }

  lemma CreateMembers<K>(s: Store<K>, r: Store<K>, creator: Participant, id: string)
    requires Memberships(s) && id !in s.meetings && creator.userName !in s.userMeetings
    requires id in r.meetings && r.meetings == s.meetings[id := r.meetings[id]]
    requires r.meetings[id].participants == [creator] && r.meetings[id].active && r.meetings[id].meetingId == id
    requires r.userMeetings == s.userMeetings[creator.userName := id]
    ensures Memberships(r)
  {
    assert Names([creator]) == [creator.userName];
    forall u | u in r.userMeetings ensures InMeeting(r, u, r.userMeetings[u]) {
      if u != creator.userName {
        assert InMeeting(s, u, s.userMeetings[u]);
      }
    }
  }

  /** The meeting, its members and the membership table change together. */
  ghost predicate Moved<K>(s: Store<K>, r: Store<K>, id: string) {
    && id in s.meetings && id in r.meetings && r.meetings == s.meetings[id := r.meetings[id]]
    && MeetingOk(r.meetings[id]) && r.meetings[id].meetingId == id
    && (forall u :: u in r.userMeetings ==>
          if u in Names(r.meetings[id].participants) then r.userMeetings[u] == id
          else u in s.userMeetings && s.userMeetings[u] == r.userMeetings[u] && r.userMeetings[u] != id)
    && (forall u :: u in s.userMeetings && s.userMeetings[u] != id ==>
          u in r.userMeetings && r.userMeetings[u] == s.userMeetings[u])
    && (forall u :: u in Names(r.meetings[id].participants) ==> u in r.userMeetings)
  }

  lemma MovedMembers<K>(s: Store<K>, r: Store<K>, id: string)
    requires Memberships(s) && Moved(s, r, id)
    ensures Memberships(r)
  {
    forall u | u in r.userMeetings ensures InMeeting(r, u, r.userMeetings[u]) {
      if u !in Names(r.meetings[id].participants) {
        assert InMeeting(s, u, s.userMeetings[u]);
      }
    }
    forall m, u | m in r.meetings && u in Names(r.meetings[m].participants)
      ensures u in r.userMeetings && r.userMeetings[u] == m
    {
      if m != id {
        assert m in s.meetings && u in s.userMeetings && s.userMeetings[u] == m;
      }
    }
  }

  /** Only the address of a participant changes: nobody has anything to be told. */
  lemma RefreshKeeps<K>(s: Store<K>, r: Store<K>, id: string, p: Participant)
    requires Consistent(s) && id in s.meetings && p.userName in Names(s.meetings[id].participants)
    requires r == Update(s.(userMeetings := s.userMeetings[p.userName := id]), id,
                         s.meetings[id].(participants := WithAddress(s.meetings[id].participants, p)))
    ensures Consistent(r)
  {
    NamesWithAddress(s.meetings[id].participants, p);
    MembershipKnown(s, id, p.userName);
    SameNames(s, r);
  }

  lemma MembershipKnown<K>(s: Store<K>, id: string, user: string)
    requires Memberships(s) && id in s.meetings && user in Names(s.meetings[id].participants)
    ensures s.userMeetings[user := id] == s.userMeetings
  {
  }

  ghost predicate SameNamed<K>(s: Store<K>, r: Store<K>) {
    && r == s.(meetings := r.meetings) && r.meetings.Keys == s.meetings.Keys
    && forall id :: id in s.meetings ==>
         && Names(r.meetings[id].participants) == Names(s.meetings[id].participants)
         && r.meetings[id].active == s.meetings[id].active
         && r.meetings[id].meetingId == id
  }

  /** The invariant depends on the meetings only through names, activity and identity. */
  lemma SameNames<K>(s: Store<K>, r: Store<K>)
    requires Consistent(s) && SameNamed(s, r)
    ensures Consistent(r)
  {
    SameNamedMembers(s, r);
    forall k | k in r.all && r.all[k].Open() ensures Current(r, k) {
      assert Current(s, k);
    }
    forall k, l | k in r.all && l in r.all && Rivals(r, k, l) ensures k == l {
      assert Rivals(s, k, l);
    }
    forall other ensures Filed(r, other) {
      assert Filed(s, other);
    }
    NumbersKept(s, r);
  }

  lemma SameNamedMembers<K>(s: Store<K>, r: Store<K>)
    requires Memberships(s) && SameNamed(s, r)
    ensures Memberships(r)
  {
    forall u | u in r.userMeetings ensures InMeeting(r, u, r.userMeetings[u]) {
      assert InMeeting(s, u, s.userMeetings[u]);
    }
    forall id | id in r.meetings ensures MeetingOk(r.meetings[id]) {
      assert MeetingOk(s.meetings[id]);
      assert |Names(r.meetings[id].participants)| == |r.meetings[id].participants|;
    }
  }

  /** After the meeting and the membership table have moved, every open subscription is due the event about it. */
  lemma MovedDue<K>(s: Store<K>, r: Store<K>, e: Event, closing: bool, user: string)
    requires Consistent(s) && Moved(s, r, e.meetingId) && r.all == s.all && r.registered == s.registered
    requires (e.kind.Ended? <==> closing) && s.meetings[e.meetingId].active
    requires !closing ==>
               && r.meetings[e.meetingId].active
               && After(Names(s.meetings[e.meetingId].participants), e) == Names(r.meetings[e.meetingId].participants)
               && forall u :: u in Names(s.meetings[e.meetingId].participants) ==>
                    u in Names(r.meetings[e.meetingId].participants) || u == user
    ensures AllDue(r, e, closing, user)
  {
    forall k | k in r.all && r.all[k].Open() ensures Due(r, k, e, closing, user) {
      assert Current(s, k);
    }
    forall k, l | k in r.all && l in r.all && Rivals(r, k, l) ensures k == l {
      assert Rivals(s, k, l);
    }
    forall other ensures Filed(r, other) {
      assert Filed(s, other);
    }
  }

  lemma NumbersKept<K>(s: Store<K>, r: Store<K>)
    requires Numbered(s) && r.meetings.Keys == s.meetings.Keys && r.nextNumber == s.nextNumber
    ensures Numbered(r)
  {
    forall m | m in r.meetings ensures exists n: nat :: n < r.nextNumber && m == MeetingName(n) {
      var n: nat :| n < s.nextNumber && m == MeetingName(n);
    }
  }

  lemma MembersOnly<K>(s: Store<K>, r: Store<K>)
    requires Memberships(s) && r.meetings == s.meetings && r.userMeetings == s.userMeetings
    ensures Memberships(r)
  {
    forall u | u in r.userMeetings ensures InMeeting(r, u, r.userMeetings[u]) {
      assert InMeeting(s, u, s.userMeetings[u]);
    }
  }

  lemma JoinKeeps<K>(s: Store<K>, id: string, p: Participant)
    requires Consistent(s)
    ensures Consistent(JoinMeeting(s, id, p).0)
  {
    if JoinCheck(s, id, p).Success? {
      var meeting := s.meetings[id];
      FindUserFinds(meeting.participants, p.userName);
      var r := JoinMeeting(s, id, p).0;
      if p.userName in Names(meeting.participants) {
        RefreshKeeps(s, r, id, p);
      } else {
        var joined := meeting.(participants := meeting.participants + [p]);
        var e := Event(UserJoined, id, p, joined.participants, "user joined meeting");
        var entered := Update(s.(userMeetings := s.userMeetings[p.userName := id]), id, joined);
        JoinMoves(s, entered, id, p);
        MovedMembers(s, entered, id);
        MovedDue(s, entered, e, false, p.userName);
        PublishKeeps(entered, e, false, p.userName);
        NearlyIsCurrent(r, id, p.userName);
        MembersOnly(entered, r);
        NumbersKept(s, r);
      }
    }
  }

  lemma JoinMoves<K>(s: Store<K>, r: Store<K>, id: string, p: Participant)
    requires Memberships(s) && id in s.meetings && s.meetings[id].active
    requires p.userName !in Names(s.meetings[id].participants)
    requires p.userName in s.userMeetings ==> s.userMeetings[p.userName] == id
    requires r == Update(s.(userMeetings := s.userMeetings[p.userName := id]), id,
                         s.meetings[id].(participants := s.meetings[id].participants + [p]))
    ensures Moved(s, r, id)
    ensures Names(r.meetings[id].participants) == Names(s.meetings[id].participants) + [p.userName]
  {
    NamesAppend(s.meetings[id].participants, p);
    forall u | u in r.userMeetings && u !in Names(r.meetings[id].participants) ensures r.userMeetings[u] != id {
      assert InMeeting(s, u, s.userMeetings[u]);
    }
  }

  lemma NearlyIsCurrent<K>(s: Store<K>, id: string, user: string)
    requires NearlySubscribed(s, id, user) && id in s.meetings && user in Names(s.meetings[id].participants)
    ensures Subscribed(s)
  {
    forall k | k in s.all && s.all[k].Open() ensures Current(s, k) {
      assert NearlyCurrent(s, k, id, user);
    }
  }

  lemma LeaveNames<K>(s: Store<K>, id: string, user: string)
    requires Memberships(s) && id in s.meetings
    ensures var before, rest := s.meetings[id].participants, WithoutUser(s.meetings[id].participants, user);
      && Names(rest) == WithoutName(Names(before), user) && Distinct(Names(rest))
      && forall u :: u in Names(rest) <==> u in Names(before) && u != user
  {
    assert MeetingOk(s.meetings[id]);
    NamesWithoutUser(s.meetings[id].participants, user);
    WithoutNameElements(Names(s.meetings[id].participants), user);
  }

  lemma LeaveMoves<K>(s: Store<K>, r: Store<K>, id: string, user: string, meeting: Meeting)
    requires Memberships(s) && id in s.meetings && user in Names(s.meetings[id].participants)
    requires r == Update(s.(userMeetings := s.userMeetings - {user}), id, meeting)
    requires meeting.participants == WithoutUser(s.meetings[id].participants, user)
    requires meeting.active == (meeting.participants != []) && meeting.meetingId == id
    ensures Moved(s, r, id)
  {
    LeaveNames(s, id, user);
    assert user in s.userMeetings && s.userMeetings[user] == id;
    forall u | u in Names(meeting.participants) ensures u in r.userMeetings && r.userMeetings[u] == id {
      assert u in Names(s.meetings[id].participants) && u != user;
    }
    forall u | u in r.userMeetings && u !in Names(meeting.participants) ensures r.userMeetings[u] != id {
      assert InMeeting(s, u, s.userMeetings[u]);
    }
  }

  lemma LastLeaveKeeps<K>(s: Store<K>, id: string, user: string, now: int)
    requires Consistent(s) && MemberCheck(s, id, user).Success?
    requires user in Names(s.meetings[id].participants) && WithoutUser(s.meetings[id].participants, user) == []
    ensures Consistent(LeaveMeeting(s, id, user, now).0)
  {
    var meeting := s.meetings[id];
    FindUserFinds(meeting.participants, user);
    var r := LeaveMeeting(s, id, user, now).0;
    var moved := Update(s.(userMeetings := s.userMeetings - {user}), id, Finished(meeting, now));
    var e := Event(Ended, id, FindUser(meeting.participants, user).value, [],
                   "meeting ended because the last participant left");
    LeaveMoves(s, moved, id, user, Finished(meeting, now));
    MovedMembers(s, moved, id);
    MovedDue(s, moved, e, true, user);
    PublishKeeps(moved, e, true, user);
    MembersOnly(moved, r);
    NumbersKept(s, r);
  }

  lemma OtherLeaveKeeps<K>(s: Store<K>, id: string, user: string, now: int)
    requires Consistent(s) && MemberCheck(s, id, user).Success?
    requires user in Names(s.meetings[id].participants) && WithoutUser(s.meetings[id].participants, user) != []
    ensures Consistent(LeaveMeeting(s, id, user, now).0)
  {
    var meeting := s.meetings[id];
    FindUserFinds(meeting.participants, user);
    var r := LeaveMeeting(s, id, user, now).0;
    var rest := WithoutUser(meeting.participants, user);
    var moved := Update(s.(userMeetings := s.userMeetings - {user}), id, meeting.(participants := rest));
    var e := Event(UserLeft, id, FindUser(meeting.participants, user).value, rest, "user left meeting");
    LeaveMoves(s, moved, id, user, meeting.(participants := rest));
    MovedMembers(s, moved, id);
    LeaveNames(s, id, user);
    MovedDue(s, moved, e, false, user);
    PublishKeeps(moved, e, false, user);
    CloseUserKeeps(PublishEvent(moved, e, false), id, user);
    MembersOnly(moved, r);
    NumbersKept(s, r);
  }

  lemma LeaveKeeps<K>(s: Store<K>, id: string, user: string, now: int)
    requires Consistent(s)
    ensures Consistent(LeaveMeeting(s, id, user, now).0)
  {
    if MemberCheck(s, id, user).Success? {
      FindUserFinds(s.meetings[id].participants, user);
      if user in Names(s.meetings[id].participants) {
        if WithoutUser(s.meetings[id].participants, user) == [] {
          LastLeaveKeeps(s, id, user, now);
        } else {
          OtherLeaveKeeps(s, id, user, now);
        }
      }
    }
  }

  lemma EndMoves<K>(s: Store<K>, r: Store<K>, id: string, now: int)
    requires Memberships(s) && id in s.meetings
    requires r == Update(s.(userMeetings := s.userMeetings - (set u | u in Names(s.meetings[id].participants))), id,
                         Finished(s.meetings[id], now))
    ensures Moved(s, r, id)
  {
    forall u | u in r.userMeetings ensures r.userMeetings[u] != id {
      assert InMeeting(s, u, s.userMeetings[u]);
    }
  }

  lemma EndKeeps<K>(s: Store<K>, id: string, user: string, now: int)
    requires Consistent(s)
    ensures Consistent(EndMeeting(s, id, user, now).0)
  {
    if MemberCheck(s, id, user).Success? && s.meetings[id].creator.userName == user {
      var meeting := s.meetings[id];
      var r := EndMeeting(s, id, user, now).0;
      var moved := Update(s.(userMeetings := s.userMeetings - (set u | u in Names(meeting.participants))), id,
                          Finished(meeting, now));
      var e := Event(Ended, id, meeting.creator, [], "meeting ended by creator");
      EndMoves(s, moved, id, now);
      MovedMembers(s, moved, id);
      MovedDue(s, moved, e, true, user);
      PublishKeeps(moved, e, true, user);
      MembersOnly(moved, r);
      NumbersKept(s, r);
    }
  }

  // ---------- subscribing and reading ----------

  lemma SubscribeKeeps<K>(s: Store<K>, id: string, user: string, k: K)
    requires Consistent(s) && k !in s.all
    ensures Consistent(Subscribe(s, id, user, k).0)
  {
    if SubscribeCheck(s, id, user).Success? {
      FindUserFinds(s.meetings[id].participants, user);
      SubscribedNearly(s, id, user);
      CloseUserKeeps(s, id, user);
      NobodyElse(s, id, user);
      var r := Subscribe(s, id, user, k).0;
      SubscribeAdds(s, id, user, k);
      AddedKeeps(CloseUserSubscriptions(s, id, user), r, id, user, k);
      MembersOnly(s, r);
      NumbersKept(s, r);
    }
  }

  /** A successful subscription closes the user's earlier ones and lists one new subscription. */
  lemma SubscribeAdds<K>(s: Store<K>, id: string, user: string, k: K)
    requires SubscribeCheck(s, id, user).Success? && Filed(CloseUserSubscriptions(s, id, user), id)
    requires forall l :: l in Listed(CloseUserSubscriptions(s, id, user), id) ==>
               !CloseUserSubscriptions(s, id, user).all[l].expired
    ensures id in s.meetings
    ensures var own, r := CloseUserSubscriptions(s, id, user), Subscribe(s, id, user, k).0;
      && r == s.(all := r.all, registered := r.registered)
      && r.all == own.all[k := Subscription(id, user, Names(s.meetings[id].participants), [], [], false, false)]
      && r.registered.Keys == own.registered.Keys + {id} && r.registered[id] == Listed(own, id) + [k]
      && forall other :: other in own.registered && other != id ==> r.registered[other] == own.registered[other]
  {
    var own := CloseUserSubscriptions(s, id, user);
    NoneExpired(own.all, Listed(own, id));
  }

  lemma SubscribedNearly<K>(s: Store<K>, id: string, user: string)
    requires Subscribed(s)
    ensures NearlySubscribed(s, id, user)
  {
    forall k | k in s.all && s.all[k].Open() ensures NearlyCurrent(s, k, id, user) {
      assert Current(s, k);
    }
  }

  /** A participant's open subscription is one of the participant's own meeting. */
  lemma OwnMeeting<K>(s: Store<K>, id: string, user: string, l: K)
    requires Consistent(s) && id in s.meetings && user in Names(s.meetings[id].participants)
    requires l in s.all && s.all[l].Open() && s.all[l].userName == user
    ensures s.all[l].meetingId == id && l in Listed(s, id)
  {
    assert Current(s, l);
    assert s.userMeetings[user] == id && s.userMeetings[user] == s.all[l].meetingId;
  }

  /** After closing the user's subscriptions in its one meeting, no open subscription of the user is left. */
  lemma NobodyElse<K>(s: Store<K>, id: string, user: string)
    requires Consistent(s) && id in s.meetings && user in Names(s.meetings[id].participants)
    ensures var own := CloseUserSubscriptions(s, id, user);
      forall l :: l in own.all && own.all[l].Open() ==> own.all[l].userName != user
  {
    assert Filed(s, id);
    CloseUserRound(s.all, Listed(s, id), user);
    forall l | l in s.all && s.all[l].Open() && s.all[l].userName == user ensures l in Listed(s, id) {
      OwnMeeting(s, id, user, l);
    }
  }

  lemma AddedKeeps<K>(own: Store<K>, r: Store<K>, id: string, user: string, k: K)
    requires Subscribed(own) && (forall other :: Filed(own, other)) && k !in own.all
    requires id in own.meetings && own.meetings[id].active && user in Names(own.meetings[id].participants)
    requires forall l :: l in own.all && own.all[l].Open() ==> own.all[l].userName != user
    requires r.meetings == own.meetings
    requires r.all == own.all[k := Subscription(id, user, Names(own.meetings[id].participants), [], [], false, false)]
    requires r.registered.Keys == own.registered.Keys + {id} && r.registered[id] == Listed(own, id) + [k]
    requires forall other :: other in own.registered && other != id ==> r.registered[other] == own.registered[other]
    ensures Subscribed(r) && forall other :: Filed(r, other)
  {
    forall other ensures Filed(r, other) {
      assert Filed(own, other);
    }
    forall l | l in r.all && r.all[l].Open() ensures Current(r, l) {
      if l != k {
        assert Current(own, l);
      }
    }
    forall l, m | l in r.all && m in r.all && Rivals(r, l, m) ensures l == m {
      if l != k && m != k {
        assert Rivals(own, l, m);
      }
    }
  }

  /** One subscription changes without becoming open and without losing log entries. */
  lemma ChangedKeeps<K>(s: Store<K>, r: Store<K>, k: K)
    requires Consistent(s) && k in s.all && k in r.all && r == s.(all := r.all) && r.all == s.all[k := r.all[k]]
    requires r.all[k].meetingId == s.all[k].meetingId && r.all[k].userName == s.all[k].userName
    requires r.all[k].base == s.all[k].base && r.all[k].Log() == s.all[k].Log()
    requires (s.all[k].closed ==> r.all[k].closed) && (s.all[k].expired ==> r.all[k].expired)
    ensures Consistent(r)
  {
    forall l | l in r.all ensures EndedOnlyLast(r.all[l]) && (r.all[l].Open() ==> Current(r, l)) {
      assert EndedOnlyLast(s.all[l]);
      assert s.all[l].Open() ==> Current(s, l);
    }
    forall l, m | l in r.all && m in r.all && Rivals(r, l, m) ensures l == m {
      assert Rivals(s, l, m);
    }
    forall other ensures Filed(r, other) {
      assert Filed(s, other);
    }
    MembersOnly(s, r);
    NumbersKept(s, r);
  }

  lemma UnsubscribeKeeps<K>(s: Store<K>, k: K)
    requires Consistent(s) && k in s.all
    ensures Consistent(Unsubscribe(s, k))
  {
    var id := s.all[k].meetingId;
    var closed := s.(all := s.all[k := Closed(s.all[k])]);
    ChangedKeeps(s, closed, k);
    assert Filed(s, id);
    WithoutKeyElements(s.all, Listed(s, id), k);
    var r := Unsubscribe(s, k);
    forall other ensures Filed(r, other) {
      assert Filed(closed, other);
    }
    forall l | l in r.all && r.all[l].Open() ensures Current(r, l) {
      assert Current(closed, l);
    }
    forall l, m | l in r.all && m in r.all && Rivals(r, l, m) ensures l == m {
      assert Rivals(closed, l, m);
    }
    MembersOnly(s, r);
    NumbersKept(s, r);
  }

  lemma WaitNextKeeps<K>(s: Store<K>, k: K)
    requires Consistent(s) && k in s.all
    ensures Consistent(WaitNext(s, k).0)
  {
    var sub := s.all[k];
    if sub.queued != [] {
      assert (sub.delivered + [sub.queued[0]]) + sub.queued[1..] == sub.delivered + sub.queued;
      ChangedKeeps(s, WaitNext(s, k).0, k);
    }
  }

  // ---------- whole runs ----------

  datatype Call<K> =
    | Register(user: string, password: string)
    | Login(user: string, password: string)
    | Create(creator: Participant, title: string, description: string, startTime: int, now: int)
    | Join(id: string, participant: Participant)
    | Leave(id: string, user: string, now: int)
    | End(id: string, user: string, now: int)
    | SubscribeTo(id: string, user: string, key: K)
    | UnsubscribeFrom(key: K)
    | Read(key: K)
    | Drop(key: K)

  function Apply<K>(s: Store<K>, call: Call<K>): Store<K> {
    match call
    case Register(user, password) => RegisterUser(s, user, password).0
    case Login(user, password) => LoginUser(s, user, password).0
    case Create(creator, title, description, start, now) =>
      CreateMeeting(s, creator, title, description, start, MeetingName(s.nextNumber), s.nextNumber, now).0
    case Join(id, participant) => JoinMeeting(s, id, participant).0
    case Leave(id, user, now) => LeaveMeeting(s, id, user, now).0
    case End(id, user, now) => EndMeeting(s, id, user, now).0
    case SubscribeTo(id, user, k) => if k in s.all then s else Subscribe(s, id, user, k).0
    case UnsubscribeFrom(k) => if k in s.all then Unsubscribe(s, k) else s
    case Read(k) => if k in s.all then WaitNext(s, k).0 else s
    case Drop(k) => if k in s.all then Expire(s, k) else s
  }

  function Run<K>(calls: seq<Call<K>>): Store<K> {
    if calls == [] then EmptyStore() else Apply(Run(calls[..|calls| - 1]), calls[|calls| - 1])
  }

  lemma AccountsKeep<K>(s: Store<K>, r: Store<K>)
    requires Consistent(s) && r == s.(users := r.users, loggedIn := r.loggedIn)
    ensures Consistent(r)
  {
    forall k | k in r.all && r.all[k].Open() ensures Current(r, k) {
      assert Current(s, k);
    }
    forall k, l | k in r.all && l in r.all && Rivals(r, k, l) ensures k == l {
      assert Rivals(s, k, l);
    }
    forall other ensures Filed(r, other) {
      assert Filed(s, other);
    }
    MembersOnly(s, r);
    NumbersKept(s, r);
  }

  lemma ApplyKeeps<K>(s: Store<K>, call: Call<K>)
    requires Consistent(s)
    ensures Consistent(Apply(s, call))
  {
    match call
    case Register(user, password) => AccountsKeep(s, RegisterUser(s, user, password).0);
    case Login(user, password) => AccountsKeep(s, LoginUser(s, user, password).0);
    case Create(creator, title, description, start, now) => CreateKeeps(s, creator, title, description, start, now);
    case Join(id, participant) => JoinKeeps(s, id, participant);
    case Leave(id, user, now) => LeaveKeeps(s, id, user, now);
    case End(id, user, now) => EndKeeps(s, id, user, now);
    case _ => ReaderKeeps(s, call);
  }

  lemma ReaderKeeps<K>(s: Store<K>, call: Call<K>)
    requires Consistent(s) && (call.SubscribeTo? || call.UnsubscribeFrom? || call.Read? || call.Drop?)
    ensures Consistent(Apply(s, call))
  {
    match call
    case SubscribeTo(id, user, k) =>
      if k !in s.all {
        SubscribeKeeps(s, id, user, k);
      }
    case UnsubscribeFrom(k) =>
      if k in s.all {
        UnsubscribeKeeps(s, k);
      }
    case Read(k) =>
      if k in s.all {
        WaitNextKeeps(s, k);
      }
    case Drop(k) =>
      if k in s.all {
        ChangedKeeps(s, Expire(s, k), k);
      }
  }

  /** Over every run of calls, memberships agree and every open subscription replays to its meeting's participants. */
  lemma {:induction false} RunConsistent<K>(calls: seq<Call<K>>)
    ensures Consistent(Run(calls))
  {
    if calls == [] {
    } else {
      RunConsistent(calls[..|calls| - 1]);
      ApplyKeeps(Run(calls[..|calls| - 1]), calls[|calls| - 1]);
    }
  }

  // ---------- delivery ----------

  /** What a call may do to a subscription: append one event, or hand the oldest undelivered one to the reader. */
  ghost predicate Grown(before: Subscription, after: Subscription, reading: bool) {
    && after.base == before.base
    && (after.Log() == before.Log() || exists e: Event :: after.Log() == before.Log() + [e])
    && (if reading && before.queued != []
        then after.Log() == before.Log() && after.delivered == before.delivered + [before.queued[0]]
        else after.delivered == before.delivered)
  }

  lemma PublishGrows<K>(s: Store<K>, e: Event, closing: bool, k: K)
    requires Filed(s, e.meetingId) && k in s.all
    ensures k in PublishEvent(s, e, closing).all && Grown(s.all[k], PublishEvent(s, e, closing).all[k], false)
  {
    PublishRound(s.all, Listed(s, e.meetingId), e, closing);
    assert s.all[k].delivered + (s.all[k].queued + [e]) == s.all[k].Log() + [e];
  }

  lemma CloseUserGrows<K>(s: Store<K>, id: string, user: string, k: K)
    requires Filed(s, id) && k in s.all
    ensures k in CloseUserSubscriptions(s, id, user).all
    ensures CloseUserSubscriptions(s, id, user).all[k].(closed := s.all[k].closed) == s.all[k]
  {
    CloseUserRound(s.all, Listed(s, id), user);
  }

  lemma LeaveGrows<K>(s: Store<K>, id: string, user: string, now: int, k: K)
    requires Consistent(s) && k in s.all
    ensures k in LeaveMeeting(s, id, user, now).0.all && Grown(s.all[k], LeaveMeeting(s, id, user, now).0.all[k], false)
  {
    if MemberCheck(s, id, user).Success? && FindUser(s.meetings[id].participants, user).Some? {
      var meeting, found := s.meetings[id], FindUser(s.meetings[id].participants, user).value;
      var rest := WithoutUser(meeting.participants, user);
      var left := s.(userMeetings := s.userMeetings - {user});
      assert Filed(s, id);
      if rest == [] {
        PublishGrows(Update(left, id, Finished(meeting, now)),
                     Event(Ended, id, found, [], "meeting ended because the last participant left"), true, k);
      } else {
        var moved := Update(left, id, meeting.(participants := rest));
        var e := Event(UserLeft, id, found, rest, "user left meeting");
        PublishGrows(moved, e, false, k);
        PublishFiled(moved, e, false, id);
        CloseUserGrows(PublishEvent(moved, e, false), id, user, k);
      }
    }
  }

  lemma JoinGrows<K>(s: Store<K>, id: string, p: Participant, k: K)
    requires Consistent(s) && k in s.all
    ensures k in JoinMeeting(s, id, p).0.all && Grown(s.all[k], JoinMeeting(s, id, p).0.all[k], false)
  {
    if JoinCheck(s, id, p).Success? && FindUser(s.meetings[id].participants, p.userName).None? {
      assert Filed(s, id);
      var joined := s.meetings[id].(participants := s.meetings[id].participants + [p]);
      PublishGrows(Update(s.(userMeetings := s.userMeetings[p.userName := id]), id, joined),
                   Event(UserJoined, id, p, joined.participants, "user joined meeting"), false, k);
    }
  }

  lemma EndGrows<K>(s: Store<K>, id: string, user: string, now: int, k: K)
    requires Consistent(s) && k in s.all
    ensures k in EndMeeting(s, id, user, now).0.all && Grown(s.all[k], EndMeeting(s, id, user, now).0.all[k], false)
  {
    if MemberCheck(s, id, user).Success? && s.meetings[id].creator.userName == user {
      assert Filed(s, id);
      var freed := s.(userMeetings := s.userMeetings - (set u | u in Names(s.meetings[id].participants)));
      PublishGrows(Update(freed, id, Finished(s.meetings[id], now)),
                   Event(Ended, id, s.meetings[id].creator, [], "meeting ended by creator"), true, k);
    }
  }

  lemma SubscribeGrows<K>(s: Store<K>, id: string, user: string, fresher: K, k: K)
    requires Consistent(s) && k in s.all && fresher !in s.all
    ensures var r := Subscribe(s, id, user, fresher).0; k in r.all && Grown(s.all[k], r.all[k], false)
  {
    if SubscribeCheck(s, id, user).Success? {
      assert Filed(s, id);
      CloseUserGrows(s, id, user, k);
    }
  }

  lemma ReadGrows<K>(s: Store<K>, l: K, k: K)
    requires k in s.all && l in s.all
    ensures k in WaitNext(s, l).0.all && Grown(s.all[k], WaitNext(s, l).0.all[k], l == k)
  {
    if l == k && s.all[k].queued != [] {
      var sub := s.all[k];
      assert (sub.delivered + [sub.queued[0]]) + sub.queued[1..] == sub.delivered + sub.queued;
    }
  }

  lemma OtherGrows<K>(s: Store<K>, call: Call<K>, k: K)
    requires k in s.all
    requires call.Register? || call.Login? || call.Create? || call.UnsubscribeFrom? || call.Drop?
    ensures k in Apply(s, call).all && Grown(s.all[k], Apply(s, call).all[k], false)
  {
  }

  /** First in, first out, exactly once: no call drops, repeats or reorders an event of any subscription. */
  lemma DeliveryInOrder<K>(s: Store<K>, call: Call<K>, k: K)
    requires Consistent(s) && k in s.all
    ensures k in Apply(s, call).all && Grown(s.all[k], Apply(s, call).all[k], call == Read(k))
  {
    match call
    case Join(id, participant) => JoinGrows(s, id, participant, k);
    case Leave(id, user, now) => LeaveGrows(s, id, user, now, k);
    case End(id, user, now) => EndGrows(s, id, user, now, k);
    case SubscribeTo(id, user, l) =>
      if l !in s.all {
        SubscribeGrows(s, id, user, l, k);
      }
    case Read(l) =>
      if l in s.all {
        ReadGrows(s, l, k);
      }
    case _ => OtherGrows(s, call, k);
  }
}
