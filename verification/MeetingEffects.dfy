/** What each call on the meeting store achieves in every reachable state: who is in, who is told, who is refused. */
module MeetingEffects {
  import opened Common
  import opened MeetingNumbering
  import opened MeetingSpec
  import opened MeetingReplay
  import opened MeetingAccess

  // ---------- names ----------

  /** Nobody is logged in without a name, and every meeting was created by somebody logged in. */
  ghost predicate Named<K>(s: Store<K>) {
    "" !in s.loggedIn && forall id :: id in s.meetings ==> s.meetings[id].creator.userName in s.loggedIn
  }

  lemma JoinIds<K>(s: Store<K>, id: string, p: Participant)
    ensures JoinMeeting(s, id, p).0.meetings.Keys == s.meetings.Keys
  {
    if JoinCheck(s, id, p).Success? {
      JoinedMeeting(s, id, p);
    }
  }

  lemma EndIds<K>(s: Store<K>, id: string, user: string, now: int)
    ensures EndMeeting(s, id, user, now).0.meetings.Keys == s.meetings.Keys
  {
  }

  lemma SameIds<K>(s: Store<K>, call: Call<K>)
    requires !call.Create?
    ensures Apply(s, call).meetings.Keys == s.meetings.Keys
  {
    match call
    case Join(id, participant) => JoinIds(s, id, participant);
    case Leave(id, user, now) => LeftMeeting(s, id, user, now);
    case End(id, user, now) => EndIds(s, id, user, now);
    case _ =>
  }

  lemma CreatesNamed<K>(s: Store<K>, call: Call<K>)
    requires Named(s) && call.Create?
    ensures Named(Apply(s, call))
  {
  }

  lemma {:induction false} RunNamed<K>(calls: seq<Call<K>>)
    ensures Named(Run(calls))
  {
    if calls == [] {
    } else {
      var last := |calls| - 1;
      var s, call := Run(calls[..last]), calls[last];
      RunNamed(calls[..last]);
      ApplyProper(calls[..last], call);
      if call.Create? {
        CreatesNamed(s, call);
      } else {
        SameIds(s, call);
      }
    }
  }

  /** What every reachable state satisfies. */
  ghost predicate Reachable<K>(s: Store<K>) { Consistent(s) && Admitted(s) && Named(s) }

  lemma RunReachable<K>(calls: seq<Call<K>>)
    ensures Reachable(Run(calls))
  {
    RunConsistent(calls);
    RunAdmitted(calls);
    RunNamed(calls);
  }

  /** A member is a logged-in user of an active meeting, and of no other. */
  lemma MemberKnown<K>(s: Store<K>, id: string, user: string)
    requires Reachable(s) && MemberOf(s, id, user)
    ensures id != "" && user != "" && user in s.loggedIn && s.meetings[id].active
    ensures user in s.userMeetings && s.userMeetings[user] == id
    ensures FindUser(s.meetings[id].participants, user).Some?
  {
    assert MeetingOk(s.meetings[id]);
    FindUserFinds(s.meetings[id].participants, user);
  }

  lemma MeetingKnown<K>(s: Store<K>, id: string)
    requires Reachable(s) && id in s.meetings
    ensures id != "" && s.meetings[id].creator.userName != "" && s.meetings[id].creator.userName in s.loggedIn
  {
  }

  // ---------- who is told ----------

  function Told(sub: Subscription, e: Event, closing: bool): Subscription {
    sub.(queued := sub.queued + [e], closed := closing)
  }

  /** Exactly the open subscriptions of the event's meeting are told, once; no other subscription changes. */
  ghost predicate Reached<K>(before: map<K, Subscription>, after: map<K, Subscription>, e: Event, closing: bool) {
    && after.Keys == before.Keys
    && forall k :: k in before ==>
         after[k] == if before[k].Open() && before[k].meetingId == e.meetingId then Told(before[k], e, closing)
                     else before[k]
  }

  lemma ListedExactly<K>(s: Store<K>, k: K, id: string)
    requires Consistent(s) && k in s.all && s.all[k].Open()
    ensures k in Listed(s, id) <==> s.all[k].meetingId == id
  {
    assert Current(s, k) && Filed(s, id);
  }

  lemma EventReaches<K>(s: Store<K>, moved: Store<K>, e: Event, closing: bool)
    requires Consistent(s) && moved.all == s.all && moved.registered == s.registered
    ensures Reached(s.all, PublishEvent(moved, e, closing).all, e, closing)
  {
    assert Filed(s, e.meetingId);
    PublishRound(s.all, Listed(s, e.meetingId), e, closing);
    forall k | k in s.all && s.all[k].Open()
      ensures k in Listed(s, e.meetingId) <==> s.all[k].meetingId == e.meetingId
    {
      ListedExactly(s, k, e.meetingId);
    }
  }

  // ---------- leaving ----------

  /** Everybody's membership is as before, except that `user` is not in meeting `id`. */
  ghost predicate OnlyOut<K>(s: Store<K>, r: Store<K>, id: string, user: string) {
    && r.userMeetings == s.userMeetings - {user}
    && forall m, u :: MemberOf(r, m, u) <==> MemberOf(s, m, u) && !(m == id && u == user)
  }

  ghost predicate Without<K>(all: map<K, Subscription>, user: string) {
    forall k :: k in all && all[k].userName == user ==> !all[k].Open()
  }

  /** Leaving succeeds exactly for the participants of the meeting, and otherwise changes nothing. */
  lemma LeaveSucceedsExactly<K>(calls: seq<Call<K>>, id: string, user: string, now: int)
    ensures var s := Run(calls);
      && (LeaveMeeting(s, id, user, now).1.Success? <==> MemberOf(s, id, user))
      && (!MemberOf(s, id, user) ==> LeaveMeeting(s, id, user, now).0 == s)
  {
    var s := Run(calls);
    RunReachable(calls);
    if MemberOf(s, id, user) {
      MemberKnown(s, id, user);
    } else if id in s.meetings {
      FindUserFinds(s.meetings[id].participants, user);
    }
  }

  /** The record of meeting `id` changes, and nothing else about meetings and accounts but the membership table. */
  ghost predicate OneRecord<K>(s: Store<K>, r: Store<K>, id: string, meeting: Meeting) {
    r.meetings == s.meetings[id := meeting] && r.users == s.users && r.loggedIn == s.loggedIn
  }

  /** The meeting after `user` has gone: over, if nobody else was there. */
  function Deserted(meeting: Meeting, user: string, now: int): Meeting {
    var rest := WithoutUser(meeting.participants, user);
    if rest == [] then Finished(meeting, now) else meeting.(participants := rest)
  }

  lemma LeaveRecord<K>(s: Store<K>, id: string, user: string, now: int)
    requires MemberCheck(s, id, user).Success? && id in s.meetings
    requires FindUser(s.meetings[id].participants, user).Some?
    ensures var r := LeaveMeeting(s, id, user, now).0;
      OneRecord(s, r, id, Deserted(s.meetings[id], user, now)) && r.userMeetings == s.userMeetings - {user}
  {
  }

  lemma LeaveOnlyOut<K>(s: Store<K>, r: Store<K>, id: string, user: string, now: int)
    requires Reachable(s) && MemberOf(s, id, user)
    requires OneRecord(s, r, id, Deserted(s.meetings[id], user, now)) && r.userMeetings == s.userMeetings - {user}
    ensures OnlyOut(s, r, id, user)
  {
    LeaveNames(s, id, user);
  }

  /** Somebody else is in the meeting. */
  ghost predicate Accompanied<K>(s: Store<K>, id: string, user: string) {
    exists u :: u != user && MemberOf(s, id, u)
  }

  lemma RestMeans<K>(s: Store<K>, id: string, user: string)
    requires Reachable(s) && MemberOf(s, id, user)
    ensures WithoutUser(s.meetings[id].participants, user) != [] <==> Accompanied(s, id, user)
  {
    var rest := WithoutUser(s.meetings[id].participants, user);
    LeaveNames(s, id, user);
    if rest != [] {
      assert Names(rest)[0] in Names(rest);
      assert MemberOf(s, id, Names(rest)[0]);
    }
  }

  /**
   The leaver is out of the meeting and of the membership table, everybody else stays; the last one to leave ends
   the meeting at the clock's reading.
   */
  lemma LeaveEffect<K>(calls: seq<Call<K>>, id: string, user: string, now: int)
    requires MemberOf(Run(calls), id, user)
    ensures var s, r := Run(calls), LeaveMeeting(Run(calls), id, user, now).0;
      && OnlyOut(s, r, id, user) && id in r.meetings
      && (forall m :: m in s.meetings && m != id ==> m in r.meetings && r.meetings[m] == s.meetings[m])
      && if Accompanied(s, id, user) then r.meetings[id].active && r.meetings[id].endTime == s.meetings[id].endTime
         else r.meetings[id] == s.meetings[id].(participants := [], active := false, endTime := now)
  {
    RunReachable(calls);
    MemberKnown(Run(calls), id, user);
    LeaveRecord(Run(calls), id, user, now);
    LeaveOnlyOut(Run(calls), LeaveMeeting(Run(calls), id, user, now).0, id, user, now);
    RestMeans(Run(calls), id, user);
  }

  predicate Announces(e: Event, kind: EventKind, id: string, user: string, current: seq<Participant>) {
    e.kind == kind && e.meetingId == id && e.trigger.userName == user && e.current == current
  }

  /** What becomes of a subscription when `user` leaves: the leaver's are closed, the others are told. */
  function AfterLeave(sub: Subscription, e: Event, user: string): Subscription {
    if !sub.Open() || sub.meetingId != e.meetingId then sub
    else if sub.userName == user then Closed(Told(sub, e, false))
    else Told(sub, e, false)
  }

  lemma CloseReaches<K>(s: Store<K>, told: Store<K>, e: Event, user: string)
    requires Consistent(s) && Reached(s.all, told.all, e, false) && Filed(told, e.meetingId)
    requires forall k :: k in told.all && told.all[k].Open() && told.all[k].meetingId == e.meetingId ==>
               k in Listed(told, e.meetingId)
    ensures var r := CloseUserSubscriptions(told, e.meetingId, user);
      r.all.Keys == s.all.Keys && forall k :: k in s.all ==> r.all[k] == AfterLeave(s.all[k], e, user)
  {
    CloseUserRound(told.all, Listed(told, e.meetingId), user);
  }

  lemma StillListed<K>(s: Store<K>, moved: Store<K>, e: Event)
    requires Consistent(s) && moved.all == s.all && moved.registered == s.registered
    ensures var told := PublishEvent(moved, e, false);
      && Filed(told, e.meetingId)
      && forall k :: k in told.all && told.all[k].Open() && told.all[k].meetingId == e.meetingId ==>
           k in Listed(told, e.meetingId)
  {
    assert Filed(s, e.meetingId) && Filed(moved, e.meetingId);
    PublishFiled(moved, e, false, e.meetingId);
    PublishRound(s.all, Listed(s, e.meetingId), e, false);
    EventReaches(s, moved, e, false);
    forall k | k in s.all && s.all[k].Open() && s.all[k].meetingId == e.meetingId ensures k in Listed(s, e.meetingId) {
      ListedExactly(s, k, e.meetingId);
    }
  }

  /**
   When somebody stays, every other open subscription of the meeting gets exactly one event, which says who left and
   who is left, the leaver has no open subscription any more, and no other subscription changes.
   */
  lemma LeaveTells<K>(calls: seq<Call<K>>, id: string, user: string, now: int) returns (e: Event)
    requires MemberOf(Run(calls), id, user) && Accompanied(Run(calls), id, user)
    ensures var s, r := Run(calls), LeaveMeeting(Run(calls), id, user, now).0;
      && id in r.meetings && Announces(e, UserLeft, id, user, r.meetings[id].participants)
      && r.all.Keys == s.all.Keys && (forall k :: k in s.all ==> r.all[k] == AfterLeave(s.all[k], e, user))
      && Without(r.all, user)
  {
    var s := Run(calls);
    RunReachable(calls);
    MemberKnown(s, id, user);
    RestMeans(s, id, user);
    var meeting := s.meetings[id];
    var rest := WithoutUser(meeting.participants, user);
    FindUserFinds(meeting.participants, user);
    e := Event(UserLeft, id, FindUser(meeting.participants, user).value, rest, "user left meeting");
    var moved := Update(s.(userMeetings := s.userMeetings - {user}), id, meeting.(participants := rest));
    EventReaches(s, moved, e, false);
    StillListed(s, moved, e);
    CloseReaches(s, PublishEvent(moved, e, false), e, user);
    LeaverSilent(s, LeaveMeeting(s, id, user, now).0, e, user);
  }

  lemma LeaverSilent<K>(s: Store<K>, r: Store<K>, e: Event, user: string)
    requires Consistent(s) && MemberOf(s, e.meetingId, user)
    requires r.all.Keys == s.all.Keys && (forall k :: k in s.all ==> r.all[k] == AfterLeave(s.all[k], e, user))
    ensures Without(r.all, user)
  {
    forall k | k in s.all && s.all[k].Open() && s.all[k].userName == user ensures s.all[k].meetingId == e.meetingId {
      OwnMeeting(s, e.meetingId, user, k);
    }
  }

  /** When nobody stays, every open subscription of the meeting is told that it is over, and closed. */
  lemma LastLeaveTells<K>(calls: seq<Call<K>>, id: string, user: string, now: int) returns (e: Event)
    requires MemberOf(Run(calls), id, user) && !Accompanied(Run(calls), id, user)
    ensures var s, r := Run(calls), LeaveMeeting(Run(calls), id, user, now).0;
      Announces(e, Ended, id, user, []) && Reached(s.all, r.all, e, true)
  {
    var s := Run(calls);
    RunReachable(calls);
    MemberKnown(s, id, user);
    RestMeans(s, id, user);
    var meeting := s.meetings[id];
    FindUserFinds(meeting.participants, user);
    e := Event(Ended, id, FindUser(meeting.participants, user).value, [],
               "meeting ended because the last participant left");
    EventReaches(s, Update(s.(userMeetings := s.userMeetings - {user}), id, Finished(meeting, now)), e, true);
  }

  // ---------- joining ----------

  /** `user` may be in meeting `id` but in no other. */
  ghost predicate NotElsewhere<K>(s: Store<K>, id: string, user: string) {
    forall m :: MemberOf(s, m, user) ==> m == id
  }

  ghost predicate CanJoin<K>(s: Store<K>, id: string, p: Participant) {
    && id in s.meetings && s.meetings[id].active && p.userName in s.loggedIn && p.clientIp != 0
    && NotElsewhere(s, id, p.userName)
  }

  lemma ElsewhereKnown<K>(s: Store<K>, id: string, user: string)
    requires Consistent(s)
    ensures NotElsewhere(s, id, user) <==> user !in s.userMeetings || s.userMeetings[user] == id
  {
    if user in s.userMeetings {
      assert InMeeting(s, user, s.userMeetings[user]);
      assert MemberOf(s, s.userMeetings[user], user);
    }
  }

  /** Joining succeeds exactly for a logged-in user with an address who is in no other meeting. */
  lemma JoinSucceedsExactly<K>(calls: seq<Call<K>>, id: string, p: Participant)
    ensures var s := Run(calls);
      && (JoinMeeting(s, id, p).1.Success? <==> CanJoin(s, id, p))
      && (!CanJoin(s, id, p) ==> JoinMeeting(s, id, p).0 == s)
  {
    var s := Run(calls);
    RunReachable(calls);
    ElsewhereKnown(s, id, p.userName);
    if id in s.meetings {
      MeetingKnown(s, id);
    }
  }

  /** Everybody's membership is as before, except that `user` is in meeting `id`. */
  ghost predicate OnlyIn<K>(s: Store<K>, r: Store<K>, id: string, user: string) {
    && r.userMeetings == s.userMeetings[user := id]
    && forall m, u :: MemberOf(r, m, u) <==> MemberOf(s, m, u) || (m == id && u == user)
  }

  /** A newcomer is put last; every open subscription of the meeting gets exactly one event that says so. */
  lemma JoinEffect<K>(calls: seq<Call<K>>, id: string, p: Participant) returns (e: Event)
    requires CanJoin(Run(calls), id, p) && !MemberOf(Run(calls), id, p.userName)
    ensures var s, r := Run(calls), JoinMeeting(Run(calls), id, p).0;
      && OneRecord(s, r, id, s.meetings[id].(participants := s.meetings[id].participants + [p]))
      && OnlyIn(s, r, id, p.userName)
      && Announces(e, UserJoined, id, p.userName, s.meetings[id].participants + [p])
      && Reached(s.all, r.all, e, false)
  {
    var s := Run(calls);
    RunReachable(calls);
    JoinSucceedsExactly(calls, id, p);
    FindUserFinds(s.meetings[id].participants, p.userName);
    NamesAppend(s.meetings[id].participants, p);
    var joined := s.meetings[id].(participants := s.meetings[id].participants + [p]);
    e := Event(UserJoined, id, p, joined.participants, "user joined meeting");
    EventReaches(s, Update(s.(userMeetings := s.userMeetings[p.userName := id]), id, joined), e, false);
  }

  /** Joining again only replaces the participant's address; nobody is told. */
  lemma RejoinEffect<K>(calls: seq<Call<K>>, id: string, p: Participant)
    requires CanJoin(Run(calls), id, p) && MemberOf(Run(calls), id, p.userName)
    ensures var s, r := Run(calls), JoinMeeting(Run(calls), id, p).0;
      && id in r.meetings && Names(r.meetings[id].participants) == Names(s.meetings[id].participants)
      && p in r.meetings[id].participants
      && r == s.(meetings := s.meetings[id := s.meetings[id].(participants := r.meetings[id].participants)])
  {
    var s := Run(calls);
    RunReachable(calls);
    JoinSucceedsExactly(calls, id, p);
    FindUserFinds(s.meetings[id].participants, p.userName);
    NamesWithAddress(s.meetings[id].participants, p);
    AddressTaken(s.meetings[id].participants, p);
    MembershipKnown(s, id, p.userName);
  }

  lemma {:induction false} AddressTaken(ps: seq<Participant>, p: Participant)
    requires p.userName in Names(ps)
    ensures p in WithAddress(ps, p)
  {
    if ps[0].userName != p.userName {
      AddressTaken(ps[1..], p);
    }
  }

  // ---------- creating and ending ----------

  ghost predicate CanCreate<K>(s: Store<K>, creator: Participant, title: string, description: string) {
    && creator.userName in s.loggedIn && creator.clientIp != 0
    && title != "" && |title| <= 256 && |description| <= 2048
    && forall m :: !MemberOf(s, m, creator.userName)
  }

  lemma NowhereKnown<K>(s: Store<K>, user: string)
    requires Consistent(s)
    ensures (forall m :: !MemberOf(s, m, user)) <==> user !in s.userMeetings
  {
    if user in s.userMeetings {
      assert InMeeting(s, user, s.userMeetings[user]);
      assert MemberOf(s, s.userMeetings[user], user);
    }
  }

  /** Creating succeeds exactly for a logged-in user who is in no meeting, with a proper address and description. */
  lemma CreateSucceedsExactly<K>(calls: seq<Call<K>>, creator: Participant, title: string, description: string,
                                 startTime: int, number: nat, now: int)
    ensures var s := Run(calls);
      var (r, outcome) := CreateMeeting(s, creator, title, description, startTime, MeetingName(number), number, now);
      && (outcome.Success? <==> CanCreate(s, creator, title, description))
      && (outcome.Failure? ==> r == s)
  {
    RunReachable(calls);
    NowhereKnown(Run(calls), creator.userName);
  }

  /** The new meeting has a new name and its creator as the only participant; nobody else's membership changes. */
  lemma CreateEffect<K>(calls: seq<Call<K>>, creator: Participant, title: string, description: string,
                        startTime: int, now: int)
    requires CanCreate(Run(calls), creator, title, description)
    ensures var s := Run(calls);
      var id, r := MeetingName(s.nextNumber), Apply(s, Create(creator, title, description, startTime, now));
      && id !in s.meetings
      && OneRecord(s, r, id, Meeting(id, title, description, if startTime > 0 then startTime else now, 0,
                                     creator, [creator], true))
      && r.meetings[id].active && Names(r.meetings[id].participants) == [creator.userName]
      && OnlyIn(s, r, id, creator.userName) && r.all == s.all
  {
    var s := Run(calls);
    RunReachable(calls);
    CreateSucceedsExactly(calls, creator, title, description, startTime, s.nextNumber, now);
    CreateKeeps(s, creator, title, description, startTime, now);
    assert Names([creator]) == [creator.userName];
  }

  ghost predicate CanEnd<K>(s: Store<K>, id: string, user: string) {
    id in s.meetings && s.meetings[id].active && s.meetings[id].creator.userName == user
  }

  /** Ending succeeds exactly for the creator of an active meeting, whether or not still in it. */
  lemma EndSucceedsExactly<K>(calls: seq<Call<K>>, id: string, user: string, now: int)
    ensures var s := Run(calls);
      && (EndMeeting(s, id, user, now).1.Success? <==> CanEnd(s, id, user))
      && (!CanEnd(s, id, user) ==> EndMeeting(s, id, user, now).0 == s)
  {
    RunReachable(calls);
    if id in Run(calls).meetings {
      MeetingKnown(Run(calls), id);
    }
  }

  /** The meeting is over at the clock's reading, its members are in no meeting, and everybody else stays. */
  lemma EndEffect<K>(calls: seq<Call<K>>, id: string, user: string, now: int)
    requires CanEnd(Run(calls), id, user)
    ensures var s, r := Run(calls), EndMeeting(Run(calls), id, user, now).0;
      && OneRecord(s, r, id, s.meetings[id].(participants := [], active := false, endTime := now))
      && (forall m, u :: MemberOf(r, m, u) <==> MemberOf(s, m, u) && m != id)
      && (forall u :: u in r.userMeetings <==> u in s.userMeetings && s.userMeetings[u] != id)
  {
    var s := Run(calls);
    RunReachable(calls);
    MeetingKnown(s, id);
    forall u | u in s.userMeetings ensures u in Names(s.meetings[id].participants) <==> s.userMeetings[u] == id {
      assert InMeeting(s, u, s.userMeetings[u]);
    }
  }

  /** Every open subscription of an ended meeting is told and closed, and no other one changes. */
  lemma EndTells<K>(calls: seq<Call<K>>, id: string, user: string, now: int) returns (e: Event)
    requires CanEnd(Run(calls), id, user)
    ensures Announces(e, Ended, id, user, [])
    ensures Reached(Run(calls).all, EndMeeting(Run(calls), id, user, now).0.all, e, true)
  {
    var s := Run(calls);
    RunReachable(calls);
    MeetingKnown(s, id);
    var meeting := s.meetings[id];
    e := Event(Ended, id, meeting.creator, [], "meeting ended by creator");
    var freed := s.(userMeetings := s.userMeetings - (set u | u in Names(meeting.participants)));
    EventReaches(s, Update(freed, id, Finished(meeting, now)), e, true);
  }

  // ---------- subscribing ----------

  /** Subscribing succeeds exactly for the participants of the meeting. */
  lemma SubscribeSucceedsExactly<K>(calls: seq<Call<K>>, id: string, user: string, k: K)
    ensures var s := Run(calls);
      && (Subscribe(s, id, user, k).1.Success? <==> MemberOf(s, id, user))
      && (!MemberOf(s, id, user) ==> Subscribe(s, id, user, k).0 == s)
  {
    var s := Run(calls);
    RunReachable(calls);
    if MemberOf(s, id, user) {
      MemberKnown(s, id, user);
    } else if id in s.meetings {
      FindUserFinds(s.meetings[id].participants, user);
    }
  }

  /** The user's open subscriptions are closed and every other one is as it was. */
  ghost predicate OwnEnded<K>(before: map<K, Subscription>, after: map<K, Subscription>, user: string) {
    forall l :: l in before ==>
      && l in after
      && after[l] == if before[l].Open() && before[l].userName == user then Closed(before[l]) else before[l]
  }

  /** The new subscription starts from the present participants and is the user's only open one; others stay. */
  lemma SubscribeEffect<K>(calls: seq<Call<K>>, id: string, user: string, k: K)
    requires MemberOf(Run(calls), id, user) && k !in Run(calls).all
    ensures var s, r := Run(calls), Subscribe(Run(calls), id, user, k).0;
      && r.all.Keys == s.all.Keys + {k} && OwnEnded(s.all, r.all, user) && k in Listed(r, id)
      && r.all[k] == Subscription(id, user, Names(s.meetings[id].participants), [], [], false, false)
      && r.meetings == s.meetings && r.userMeetings == s.userMeetings
  {
    var s := Run(calls);
    RunReachable(calls);
    SubscribeSucceedsExactly(calls, id, user, k);
    OwnClosed(s, id, user);
    SubscribeAdds(s, id, user, k);
    AddedOwnEnded(s.all, CloseUserSubscriptions(s, id, user).all, Subscribe(s, id, user, k).0.all, user, k);
  }

  lemma AddedOwnEnded<K>(before: map<K, Subscription>, own: map<K, Subscription>, after: map<K, Subscription>,
                         user: string, k: K)
    requires OwnEnded(before, own, user) && k !in before && k in after && after == own[k := after[k]]
    ensures OwnEnded(before, after, user)
  {
  }

  lemma OwnClosed<K>(s: Store<K>, id: string, user: string)
    requires Consistent(s) && MemberOf(s, id, user)
    ensures var own := CloseUserSubscriptions(s, id, user);
      && own.all.Keys == s.all.Keys && Filed(own, id) && OwnEnded(s.all, own.all, user)
      && (forall l :: l in Listed(own, id) ==> l in own.all && !own.all[l].expired)
  {
    assert Filed(s, id);
    CloseUserRound(s.all, Listed(s, id), user);
    SubscribedNearly(s, id, user);
    CloseUserKeeps(s, id, user);
    forall l | l in s.all && s.all[l].Open() && s.all[l].userName == user ensures l in Listed(s, id) {
      OwnMeeting(s, id, user, l);
    }
  }

  /** Unsubscribing closes the subscription and takes it off its list; what is queued can still be read. */
  lemma UnsubscribeEffect<K>(calls: seq<Call<K>>, k: K)
    requires k in Run(calls).all
    ensures var s, r := Run(calls), Unsubscribe(Run(calls), k);
      && r.all == s.all[k := Closed(s.all[k])] && k !in Listed(r, s.all[k].meetingId)
      && r.meetings == s.meetings && r.userMeetings == s.userMeetings
  {
    var s := Run(calls);
    RunConsistent(calls);
    assert Filed(s, s.all[k].meetingId);
    WithoutKeyElements(s.all, Listed(s, s.all[k].meetingId), k);
  }

  /** Every other open subscription stays on its list and so keeps being told. */
  lemma UnsubscribeSparesOthers<K>(calls: seq<Call<K>>, k: K, l: K)
    requires k in Run(calls).all && l in Run(calls).all && l != k && Run(calls).all[l].Open()
    ensures l in Listed(Unsubscribe(Run(calls), k), Run(calls).all[l].meetingId)
  {
    var s := Run(calls);
    RunConsistent(calls);
    assert Filed(s, s.all[k].meetingId);
    ListedExactly(s, l, s.all[l].meetingId);
    WithoutKeyElements(s.all, Listed(s, s.all[k].meetingId), k);
  }

  /** A subscription that nobody holds any more is not open, so no later event reaches it; the others stay. */
  lemma DropEffect<K>(calls: seq<Call<K>>, k: K)
    requires k in Run(calls).all
    ensures var s, r := Run(calls), Apply(Run(calls), Drop(k));
      && k in r.all && !r.all[k].Open() && r.all.Keys == s.all.Keys
      && (forall l :: l in s.all && l != k ==> r.all[l] == s.all[l])
      && r.meetings == s.meetings && r.registered == s.registered
  {
  }

  /** A reader gets the oldest event that is waiting, and gets it once. */
  lemma ReadEffect<K>(calls: seq<Call<K>>, k: K)
    requires k in Run(calls).all && Run(calls).all[k].queued != []
    ensures var s := Run(calls);
      var (r, event) := WaitNext(s, k);
      && k in r.all && event.Some? && [event.value] + r.all[k].queued == s.all[k].queued
      && r.all[k].delivered == s.all[k].delivered + [event.value]
  {
  }

  // ---------- accounts ----------

  /** A login succeeds exactly with the registered password, and admits that user and nobody else. */
  lemma LoginEffect<K>(calls: seq<Call<K>>, user: string, password: string)
    ensures var s := Run(calls);
      var (r, outcome) := LoginUser(s, user, password);
      && (outcome.Success? <==> user != "" && password != "" && user in s.users && s.users[user] == password)
      && r == if outcome.Success? then s.(loggedIn := s.loggedIn + {user}) else s
  {
  }

  /** Registration succeeds exactly for a new name of 1 to 64 characters with a password of 1 to 256. */
  lemma RegisterEffect<K>(calls: seq<Call<K>>, user: string, password: string)
    ensures var s := Run(calls);
      var (r, outcome) := RegisterUser(s, user, password);
      && (outcome.Success? <==> 1 <= |user| <= 64 && 1 <= |password| <= 256 && user !in s.users)
      && r == if outcome.Success? then s.(users := s.users[user := password]) else s
  {
  }

  /** A registered account can log in at once. */
  lemma RegisterThenLogin<K>(s: Store<K>, user: string, password: string)
    requires RegisterUser(s, user, password).1.Success?
    ensures user !in s.users && LoginUser(RegisterUser(s, user, password).0, user, password).1.Success?
    ensures forall other :: other in s.users ==> other in RegisterUser(s, user, password).0.users
  {
  }
}
