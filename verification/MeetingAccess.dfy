/** Who can change what: memberships change only at the hands of those they concern, and ended meetings are final. */
module MeetingAccess {
  import opened Common
  import opened MeetingNumbering
  import opened MeetingSpec
  import opened MeetingReplay

  predicate MemberOf<K(==)>(s: Store<K>, id: string, user: string) {
    id in s.meetings && user in Names(s.meetings[id].participants)
  }

  /** The call by which `user` enters meeting `id`. */
  predicate Enters<K(==)>(s: Store<K>, call: Call<K>, id: string, user: string) {
    || (call.Join? && call.id == id && call.participant.userName == user)
    || (call.Create? && call.creator.userName == user && id == MeetingName(s.nextNumber))
  }

  /** The calls by which `user` can be taken out of meeting `id`: the user leaves or the creator ends it. */
  predicate Exits<K(==)>(s: Store<K>, call: Call<K>, id: string, user: string)
    requires id in s.meetings
  {
    || (call.Leave? && call.id == id && call.user == user)
    || (call.End? && call.id == id && call.user == s.meetings[id].creator.userName)
  }

  /** What never changes about a meeting, and that an ended one never changes at all. */
  predicate Lasting(before: Meeting, after: Meeting) {
    && after.meetingId == before.meetingId && after.creator == before.creator
    && after.title == before.title && after.description == before.description && after.startTime == before.startTime
    && (!before.active ==> after == before)
  }

  /** Accounts are never lost, and only a login with the registered password admits a user. */
  predicate AccountsProper<K(==)>(s: Store<K>, call: Call<K>, r: Store<K>) {
    && s.loggedIn <= r.loggedIn
    && (forall u :: u in s.users ==> u in r.users && r.users[u] == s.users[u])
    && (forall u :: u in r.loggedIn && u !in s.loggedIn ==> u in s.users && call == Login(u, s.users[u]))
  }

  predicate SameAccounts<K(==)>(s: Store<K>, r: Store<K>) { r.users == s.users && r.loggedIn == s.loggedIn }

  ghost predicate Proper<K>(s: Store<K>, call: Call<K>, r: Store<K>) {
    && AccountsProper(s, call, r)
    && (forall id :: id in s.meetings ==> id in r.meetings && Lasting(s.meetings[id], r.meetings[id]))
    && (forall id, u :: MemberOf(r, id, u) && !MemberOf(s, id, u) ==> Enters(s, call, id, u) && u in s.loggedIn)
    && (forall id, u :: MemberOf(s, id, u) && !MemberOf(r, id, u) ==> Exits(s, call, id, u))
  }

  lemma SameMeetingsProper<K>(s: Store<K>, call: Call<K>, r: Store<K>)
    requires r.meetings == s.meetings && AccountsProper(s, call, r)
    ensures Proper(s, call, r)
  {
  }

  /** Only the record of meeting `id` changes, and `enters` and `exits` account for its names. */
  lemma OneMeetingProper<K>(s: Store<K>, call: Call<K>, r: Store<K>, id: string, meeting: Meeting)
    requires id in s.meetings && r.meetings == s.meetings[id := meeting] && SameAccounts(s, r)
    requires Lasting(s.meetings[id], meeting)
    requires forall u :: u in Names(meeting.participants) && u !in Names(s.meetings[id].participants) ==>
               Enters(s, call, id, u) && u in s.loggedIn
    requires forall u :: u in Names(s.meetings[id].participants) && u !in Names(meeting.participants) ==>
               Exits(s, call, id, u)
    ensures Proper(s, call, r)
  {
  }

  lemma NewMeetingProper<K>(s: Store<K>, call: Call<K>, r: Store<K>, id: string, meeting: Meeting)
    requires id !in s.meetings && r.meetings == s.meetings[id := meeting] && SameAccounts(s, r)
    requires forall u :: u in Names(meeting.participants) ==> Enters(s, call, id, u) && u in s.loggedIn
    ensures Proper(s, call, r)
  {
  }

  lemma CreateProper<K>(s: Store<K>, call: Call<K>, r: Store<K>)
    requires Consistent(s) && call.Create?
    requires r == CreateMeeting(s, call.creator, call.title, call.description, call.startTime,
                                MeetingName(s.nextNumber), s.nextNumber, call.now).0
    ensures Proper(s, call, r)
  {
    var id := MeetingName(s.nextNumber);
    CreateKeeps(s, call.creator, call.title, call.description, call.startTime, call.now);
    if CreateCheck(s, call.creator, call.title, call.description).Success? {
      assert Names(r.meetings[id].participants) == [call.creator.userName];
      NewMeetingProper(s, call, r, id, r.meetings[id]);
    } else {
      SameMeetingsProper(s, call, r);
    }
  }

  /** What a successful join does to the meeting's record. */
  lemma JoinedMeeting<K>(s: Store<K>, id: string, p: Participant)
    requires JoinCheck(s, id, p).Success?
    ensures id in s.meetings && s.meetings[id].active && p.userName in s.loggedIn
    ensures var r, meeting := JoinMeeting(s, id, p).0, s.meetings[id];
      && SameAccounts(s, r)
      && (|| r.meetings == s.meetings[id := meeting.(participants := meeting.participants + [p])]
          || r.meetings == s.meetings[id := meeting.(participants := WithAddress(meeting.participants, p))])
  {
  }

  lemma JoinProper<K>(s: Store<K>, call: Call<K>, r: Store<K>)
    requires call.Join? && r == JoinMeeting(s, call.id, call.participant).0
    ensures Proper(s, call, r)
  {
    if JoinCheck(s, call.id, call.participant).Success? {
      JoinedMeeting(s, call.id, call.participant);
      NamesAppend(s.meetings[call.id].participants, call.participant);
      NamesWithAddress(s.meetings[call.id].participants, call.participant);
      OneMeetingProper(s, call, r, call.id, r.meetings[call.id]);
    } else {
      SameMeetingsProper(s, call, r);
    }
  }

  /** A departure leaves everything as it is, or takes exactly the user's entry out of an active meeting. */
  lemma LeftMeeting<K>(s: Store<K>, id: string, user: string, now: int)
    ensures var r := LeaveMeeting(s, id, user, now).0;
      && SameAccounts(s, r)
      && (r.meetings == s.meetings
          || (id in s.meetings && s.meetings[id].active
              && var meeting := s.meetings[id];
                 var rest := WithoutUser(meeting.participants, user);
                 r.meetings == s.meetings[id := if rest == [] then Finished(meeting, now)
                                                else meeting.(participants := rest)]))
  {
  }

  lemma LeaveProper<K>(s: Store<K>, call: Call<K>, r: Store<K>)
    requires Consistent(s) && call.Leave? && r == LeaveMeeting(s, call.id, call.user, call.now).0
    ensures Proper(s, call, r)
  {
    LeftMeeting(s, call.id, call.user, call.now);
    if r.meetings == s.meetings {
      SameMeetingsProper(s, call, r);
    } else {
      LeaverOnly(s, call.id, call.user);
      OneMeetingProper(s, call, r, call.id, r.meetings[call.id]);
    }
  }

  lemma LeaverOnly<K>(s: Store<K>, id: string, user: string)
    requires Memberships(s) && id in s.meetings
    ensures forall u :: u in Names(WithoutUser(s.meetings[id].participants, user))
                   <==> u in Names(s.meetings[id].participants) && u != user
  {
    assert MeetingOk(s.meetings[id]);
    NamesWithoutUser(s.meetings[id].participants, user);
    WithoutNameElements(Names(s.meetings[id].participants), user);
  }

  lemma EndProper<K>(s: Store<K>, call: Call<K>, r: Store<K>)
    requires call.End? && r == EndMeeting(s, call.id, call.user, call.now).0
    ensures Proper(s, call, r)
  {
    if r.meetings == s.meetings {
      SameMeetingsProper(s, call, r);
    } else {
      OneMeetingProper(s, call, r, call.id, r.meetings[call.id]);
    }
  }

  lemma AccountProper<K>(s: Store<K>, call: Call<K>)
    requires call.Register? || call.Login?
    ensures Proper(s, call, Apply(s, call))
  {
    SameMeetingsProper(s, call, Apply(s, call));
  }

  lemma ReaderProper<K>(s: Store<K>, call: Call<K>)
    requires call.SubscribeTo? || call.UnsubscribeFrom? || call.Read? || call.Drop?
    ensures Proper(s, call, Apply(s, call))
  {
    SameMeetingsProper(s, call, Apply(s, call));
  }

  /**
   In every reachable state a call adds a user to a meeting only if that logged-in user joins or creates it,
   removes a user only if that user leaves or the creator ends it, changes nothing about ended meetings, and
   logs a user in only with the registered password.
   */
  lemma ApplyProper<K>(calls: seq<Call<K>>, call: Call<K>)
    ensures Proper(Run(calls), call, Apply(Run(calls), call))
  {
    var s := Run(calls);
    RunConsistent(calls);
    match call
    case Create(_, _, _, _, _) => CreateProper(s, call, Apply(s, call));
    case Join(_, _) => JoinProper(s, call, Apply(s, call));
    case Leave(_, _, _) => LeaveProper(s, call, Apply(s, call));
    case End(_, _, _) => EndProper(s, call, Apply(s, call));
    case Register(_, _) => AccountProper(s, call);
    case Login(_, _) => AccountProper(s, call);
    case _ => ReaderProper(s, call);
  }

  /** Every member of a meeting is logged in, and everybody logged in is registered. */
  ghost predicate Admitted<K>(s: Store<K>) {
    && (forall u :: u in s.loggedIn ==> u in s.users)
    && (forall id, u :: MemberOf(s, id, u) ==> u in s.loggedIn)
  }

  lemma {:induction false} RunAdmitted<K>(calls: seq<Call<K>>)
    ensures Admitted(Run(calls))
  {
    if calls == [] {
    } else {
      var k := |calls| - 1;
      RunAdmitted(calls[..k]);
      ApplyProper(calls[..k], calls[k]);
    }
  }
}
