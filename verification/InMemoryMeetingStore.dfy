/** The meeting store and its event subscriptions as objects that each call updates in place. */
module InMemoryMeetingStore {
  import opened Common
  import opened MeetingNumbering
  import opened MeetingSpec
  import opened MeetingReplay
  import opened MeetingPages

  class MeetingEventSubscription {
    const meetingId: string
    const userName: string
    ghost const base: seq<string>
    var events: seq<Event>
    var closed: bool
    var expired: bool
    ghost var delivered: seq<Event>

    ghost function Snapshot(): Subscription
      reads this
    {
      Subscription(meetingId, userName, base, delivered, events, closed, expired)
    }

    constructor (id: string, user: string, ghost present: seq<string>)
      ensures Snapshot() == Subscription(id, user, present, [], [], false, false)
    {
      meetingId, userName, base := id, user, present;
      events, closed, expired, delivered := [], false, false, [];
    }

    method Push(e: Event)
      modifies this
      ensures Snapshot() == Pushed(old(Snapshot()), e)
    {
      if closed {
        return;
      }
      events := events + [e];
    }

    method Close()
      modifies this
      ensures Snapshot() == Closed(old(Snapshot()))
    {
      closed := true;
    }

    /** What the reader gets once the wait is over: queued events first, even after the close. */
    method WaitNext() returns (event: Option<Event>)
      modifies this
      ensures event == if old(events) == [] then None else Some(old(events)[0])
      ensures Snapshot() == if old(events) == [] then old(Snapshot())
                            else old(Snapshot()).(delivered := old(delivered) + [old(events)[0]],
                                                  queued := old(events)[1..])
    {
      if events == [] {
        return None;
      }
      event := Some(events[0]);
      delivered := delivered + [events[0]];
      events := events[1..];
    }

    /** The last owner lets go. */
    method Release()
      modifies this
      ensures Snapshot() == old(Snapshot()).(expired := true)
    {
      expired := true;
    }
  }

  type Key = MeetingEventSubscription

  /** One subscription's turn in a round of publishing, and whether it stays listed. */
  function Told<K>(all: map<K, Subscription>, k: K, e: Event, closing: bool): (map<K, Subscription>, bool) {
    if k !in all || all[k].expired then (all, false)
    else if closing then (all[k := Closed(Pushed(all[k], e))], false)
    else (all[k := Pushed(all[k], e)], true)
  }

  lemma PublishNext<K>(all: map<K, Subscription>, list: seq<K>, i: nat, e: Event, closing: bool)
    requires i < |list|
    ensures var (reached, kept) := Publish(all, list[..i], e, closing);
      var (after, keep) := Told(reached, list[i], e, closing);
      Publish(all, list[..i + 1], e, closing) == (after, if keep then kept + [list[i]] else kept)
  {
    assert list[..i + 1][..i] == list[..i];
  }

  /** One subscription's turn when a user's subscriptions are closed. */
  function Dismissed<K>(all: map<K, Subscription>, k: K, user: string): (map<K, Subscription>, bool) {
    if k !in all || all[k].expired then (all, false)
    else if all[k].userName == user then (all[k := Closed(all[k])], false)
    else (all, true)
  }

  lemma CloseUserNext<K>(all: map<K, Subscription>, list: seq<K>, i: nat, user: string)
    requires i < |list|
    ensures var (reached, kept) := CloseUser(all, list[..i], user);
      var (after, keep) := Dismissed(reached, list[i], user);
      CloseUser(all, list[..i + 1], user) == (after, if keep then kept + [list[i]] else kept)
  {
    assert list[..i + 1][..i] == list[..i];
  }

  class InMemoryMeetingStore {
    var users: map<string, string>
    var loggedInUsers: set<string>
    var meetings: map<string, Meeting>
    var userMeetings: map<string, string>
    var subscriptions: map<string, seq<Key>>
    var nextMeetingNumber: nat
    ghost var all: set<Key>

    ghost function Snapshots(): map<Key, Subscription>
      reads this`all, all
    {
      map k | k in all :: k.Snapshot()
    }

    ghost function Abstract(): Store<Key>
      reads this, all
    {
      Store(users, loggedInUsers, meetings, userMeetings, subscriptions, Snapshots(), nextMeetingNumber)
    }

    ghost predicate Valid()
      reads this, all
    {
      Consistent(Abstract())
    }

    constructor ()
      ensures Valid() && all == {} && Abstract() == EmptyStore()
    {
      users, loggedInUsers, meetings, userMeetings := map[], {}, map[], map[];
      subscriptions, nextMeetingNumber, all := map[], 1, {};
      new;
      RunConsistent<Key>([]);
    }

    method RegisterUser(userName: string, password: string) returns (result: Outcome)
      requires Valid()
      modifies this
      ensures Valid() && all == old(all)
      ensures (Abstract(), result) == MeetingSpec.RegisterUser(old(Abstract()), userName, password)
    {
      ghost var before := Abstract();
      if userName == "" || password == "" || |userName| > 64 || |password| > 256 {
        return Failure(InvalidArgument);
      }
      if userName in users {
        return Failure(UserAlreadyExists);
      }
      users := users[userName := password];
      AccountsKeep(before, Abstract());
      return Success;
    }

    method LoginUser(userName: string, password: string) returns (result: Outcome)
      requires Valid()
      modifies this
      ensures Valid() && all == old(all)
      ensures (Abstract(), result) == MeetingSpec.LoginUser(old(Abstract()), userName, password)
    {
      ghost var before := Abstract();
      if userName == "" || password == "" {
        return Failure(InvalidArgument);
      }
      if userName !in users {
        return Failure(UserNotFound);
      }
      if users[userName] != password {
        return Failure(InvalidPassword);
      }
      loggedInUsers := loggedInUsers + {userName};
      AccountsKeep(before, Abstract());
      return Success;
    }

    /** Tries numbers until a name is free. */
    method GenerateMeetingId() returns (id: string)
      modifies this`nextMeetingNumber
      ensures old(nextMeetingNumber) < nextMeetingNumber && id == MeetingName(nextMeetingNumber - 1) && id !in meetings
      ensures forall n: nat :: old(nextMeetingNumber) <= n && n + 1 < nextMeetingNumber ==> MeetingName(n) in meetings
    {
      ghost var untried := meetings.Keys;
      id := MeetingName(nextMeetingNumber);
      nextMeetingNumber := nextMeetingNumber + 1;
      while id in meetings
        invariant old(nextMeetingNumber) < nextMeetingNumber && id == MeetingName(nextMeetingNumber - 1)
        invariant forall n: nat :: old(nextMeetingNumber) <= n && n + 1 < nextMeetingNumber ==>
                    MeetingName(n) in meetings
        invariant untried <= meetings.Keys
        invariant forall n: nat :: n + 1 >= nextMeetingNumber && MeetingName(n) in meetings ==>
                    MeetingName(n) in untried
        decreases |untried|
      {
        forall n: nat | n >= nextMeetingNumber ensures MeetingName(n) != id {
          if MeetingName(n) == id {
            MeetingNameInjective(n, nextMeetingNumber - 1);
          }
        }
        untried := untried - {id};
        id := MeetingName(nextMeetingNumber);
        nextMeetingNumber := nextMeetingNumber + 1;
      }
    }

    method CheckCreate(creator: Participant, title: string, description: string) returns (check: Outcome)
      ensures check == CreateCheck(Abstract(), creator, title, description)
    {
      if creator.userName == "" || creator.clientIp == 0 || title == "" || |title| > 256 || |description| > 2048 {
        return Failure(InvalidArgument);
      }
      if creator.userName !in loggedInUsers {
        return Failure(NotLoggedIn);
      }
      if creator.userName in userMeetings {
        return Failure(AlreadyInMeeting);
      }
      return Success;
    }

    method CreateMeeting(creator: Participant, title: string, description: string, startTime: int, now: int)
      returns (result: Outcome, meeting: Option<Meeting>)
      requires Valid()
      modifies this
      ensures Valid() && all == old(all)
      ensures (Abstract(), result) == MeetingSpec.CreateMeeting(old(Abstract()), creator, title, description, startTime,
                                        MeetingName(old(nextMeetingNumber)), old(nextMeetingNumber), now)
      ensures meeting == if result.Success? then Some(meetings[MeetingName(old(nextMeetingNumber))]) else None
    {
      ghost var id := MeetingName(nextMeetingNumber);
      ghost var after := MeetingSpec.CreateMeeting(Abstract(), creator, title, description, startTime,
                                                   id, nextMeetingNumber, now).0;
      CreateKeeps(Abstract(), creator, title, description, startTime, now);
      result := CheckCreate(creator, title, description);
      meeting := None;
      if result.Success? {
        meeting := AddMeeting(creator, title, description, startTime, now);
      }
      assert Abstract() == after;
    }

    method AddMeeting(creator: Participant, title: string, description: string, startTime: int, now: int)
      returns (meeting: Option<Meeting>)
      requires MeetingName(nextMeetingNumber) !in meetings
      modifies this`meetings, this`userMeetings, this`nextMeetingNumber
      ensures var id := MeetingName(old(nextMeetingNumber));
        && nextMeetingNumber == old(nextMeetingNumber) + 1
        && meeting == Some(NewMeeting(id, creator, title, description, startTime, now))
        && id in meetings && meetings[id] == meeting.value
        && Abstract() == old(Abstract()).(meetings := old(meetings)[id := meeting.value],
                                          userMeetings := old(userMeetings)[creator.userName := id],
                                          nextNumber := old(nextMeetingNumber) + 1)
    {
      var id := GenerateMeetingId();
      assert nextMeetingNumber == old(nextMeetingNumber) + 1;
      var created := NewMeeting(id, creator, title, description, startTime, now);
      meetings := meetings[id := created];
      userMeetings := userMeetings[creator.userName := id];
      return Some(created);
    }

    static method FindParticipant(participants: seq<Participant>, user: string) returns (index: nat)
      ensures index <= |participants|
      ensures if index < |participants|
              then FindUser(participants, user) == Some(participants[index])
                   && WithoutUser(participants, user) == participants[..index] + participants[index + 1..]
                   && forall p: Participant :: p.userName == user ==>
                        WithAddress(participants, p) == participants[index := p]
              else FindUser(participants, user).None?
    {
      index := 0;
      while index < |participants| && participants[index].userName != user
        invariant index <= |participants|
        invariant forall i :: 0 <= i < index ==> participants[i].userName != user
      {
        index := index + 1;
      }
      FoundAt(participants, user, index);
    }

    method CheckJoin(meetingId: string, participant: Participant) returns (check: Outcome)
      ensures check == JoinCheck(Abstract(), meetingId, participant)
    {
      if meetingId == "" || participant.userName == "" || participant.clientIp == 0 {
        return Failure(InvalidArgument);
      }
      if participant.userName !in loggedInUsers {
        return Failure(NotLoggedIn);
      }
      if meetingId !in meetings {
        return Failure(MeetingNotFound);
      }
      if !meetings[meetingId].active {
        return Failure(StoreError.MeetingEnded);
      }
      if participant.userName in userMeetings && userMeetings[participant.userName] != meetingId {
        return Failure(AlreadyInMeeting);
      }
      return Success;
    }

    method JoinMeeting(meetingId: string, participant: Participant) returns (result: Outcome, meeting: Option<Meeting>)
      requires Valid()
      modifies this, all
      ensures Valid() && all == old(all)
      ensures (Abstract(), result) == MeetingSpec.JoinMeeting(old(Abstract()), meetingId, participant)
      ensures meeting == if result.Success? then Some(meetings[meetingId]) else None
    {
      JoinKeeps(Abstract(), meetingId, participant);
      result := CheckJoin(meetingId, participant);
      if result.Failure? {
        return result, None;
      }
      meeting := EnterMeeting(meetingId, participant);
    }

    method EnterMeeting(meetingId: string, participant: Participant) returns (meeting: Option<Meeting>)
      requires AllFiled() && JoinCheck(Abstract(), meetingId, participant).Success?
      modifies this, all
      ensures all == old(all) && meetingId in meetings && meeting == Some(meetings[meetingId])
      ensures Abstract() == MeetingSpec.JoinMeeting(old(Abstract()), meetingId, participant).0
    {
      var participants := meetings[meetingId].participants;
      var index := FindParticipant(participants, participant.userName);
      if index < |participants| {
        meeting := PlaceParticipants(meetingId, participant, participants[index := participant]);
      } else {
        ghost var before := Abstract();
        meeting := PlaceParticipants(meetingId, participant, participants + [participant]);
        StillFiled(before, Abstract());
        var joined := Event(UserJoined, meetingId, participant, participants + [participant], "user joined meeting");
        PublishEventLocked(joined, false);
      }
    }

    method PlaceParticipants(meetingId: string, participant: Participant, participants: seq<Participant>)
      returns (meeting: Option<Meeting>)
      requires meetingId in meetings
      modifies this`meetings, this`userMeetings
      ensures meetings == old(meetings)[meetingId := old(meetings)[meetingId].(participants := participants)]
      ensures userMeetings == old(userMeetings)[participant.userName := meetingId]
      ensures meeting == Some(meetings[meetingId])
    {
      var target := meetings[meetingId].(participants := participants);
      meetings := meetings[meetingId := target];
      userMeetings := userMeetings[participant.userName := meetingId];
      return Some(target);
    }

    method CheckMember(meetingId: string, userName: string) returns (check: Outcome)
      ensures check == MemberCheck(Abstract(), meetingId, userName)
    {
      if meetingId == "" || userName == "" {
        return Failure(InvalidArgument);
      }
      if userName !in loggedInUsers {
        return Failure(NotLoggedIn);
      }
      if meetingId !in meetings {
        return Failure(MeetingNotFound);
      }
      if !meetings[meetingId].active {
        return Failure(StoreError.MeetingEnded);
      }
      return Success;
    }

    method LeaveMeeting(meetingId: string, userName: string, now: int)
      returns (result: Outcome, meeting: Option<Meeting>)
      requires Valid()
      modifies this, all
      ensures Valid() && all == old(all)
      ensures (Abstract(), result) == MeetingSpec.LeaveMeeting(old(Abstract()), meetingId, userName, now)
      ensures meeting == if result.Success? then Some(meetings[meetingId]) else None
    {
      LeaveKeeps(Abstract(), meetingId, userName, now);
      result, meeting := RemoveParticipant(meetingId, userName, now);
    }

    method RemoveParticipant(meetingId: string, userName: string, now: int)
      returns (result: Outcome, meeting: Option<Meeting>)
      requires AllFiled()
      modifies this, all
      ensures all == old(all)
      ensures (Abstract(), result) == MeetingSpec.LeaveMeeting(old(Abstract()), meetingId, userName, now)
      ensures result.Success? ==> meetingId in meetings && meeting == Some(meetings[meetingId])
      ensures result.Failure? ==> meeting == None
    {
      meeting := None;
      result := CheckMember(meetingId, userName);
      if result.Failure? {
        return;
      }
      var participants := meetings[meetingId].participants;
      var index := FindParticipant(participants, userName);
      if index == |participants| {
        return Failure(NotParticipant), None;
      }
      FindUserFinds(participants, userName);
      var rest := participants[..index] + participants[index + 1..];
      if rest == [] {
        meeting := LeaveLast(meetingId, participants[index], now);
      } else {
        meeting := LeaveOthers(meetingId, participants[index], rest);
      }
    }

    method LeaveLast(meetingId: string, trigger: Participant, now: int) returns (meeting: Option<Meeting>)
      requires AllFiled() && meetingId in meetings
      modifies this, all
      ensures all == old(all) && meetingId in meetings && meeting == Some(meetings[meetingId])
      ensures var s := old(Abstract());
        var ended := Event(Ended, meetingId, trigger, [], "meeting ended because the last participant left");
        Abstract() == PublishEvent(Update(s.(userMeetings := s.userMeetings - {trigger.userName}), meetingId,
                                          Finished(s.meetings[meetingId], now)), ended, true)
    {
      ghost var before := Abstract();
      userMeetings := userMeetings - {trigger.userName};
      var target := meetings[meetingId].(participants := [], active := false, endTime := now);
      meetings := meetings[meetingId := target];
      StillFiled(before, Abstract());
      PublishEventLocked(Event(Ended, meetingId, trigger, [], "meeting ended because the last participant left"), true);
      return Some(target);
    }

    /** Everybody is told before the leaver's own subscription is closed. */
    method LeaveOthers(meetingId: string, trigger: Participant, rest: seq<Participant>)
      returns (meeting: Option<Meeting>)
      requires AllFiled() && meetingId in meetings
      modifies this, all
      ensures all == old(all) && meetingId in meetings && meeting == Some(meetings[meetingId])
      ensures var s := old(Abstract());
        var told := PublishEvent(Update(s.(userMeetings := s.userMeetings - {trigger.userName}), meetingId,
                                        s.meetings[meetingId].(participants := rest)),
                                 Event(UserLeft, meetingId, trigger, rest, "user left meeting"), false);
        Abstract() == CloseUserSubscriptions(told, meetingId, trigger.userName)
    {
      ghost var before := Abstract();
      userMeetings := userMeetings - {trigger.userName};
      var target := meetings[meetingId].(participants := rest);
      meetings := meetings[meetingId := target];
      StillFiled(before, Abstract());
      var event := Event(UserLeft, meetingId, trigger, rest, "user left meeting");
      PublishAllFiled(Abstract(), event, false);
      PublishEventLocked(event, false);
      CloseUserSubscriptionsLocked(meetingId, trigger.userName);
      return Some(target);
    }

    method EndMeeting(meetingId: string, userName: string, now: int) returns (result: Outcome, meeting: Option<Meeting>)
      requires Valid()
      modifies this, all
      ensures Valid() && all == old(all)
      ensures (Abstract(), result) == MeetingSpec.EndMeeting(old(Abstract()), meetingId, userName, now)
      ensures meeting == if result.Success? then Some(meetings[meetingId]) else None
    {
      EndKeeps(Abstract(), meetingId, userName, now);
      result := CheckMember(meetingId, userName);
      if result.Failure? {
        return result, None;
      }
      if meetings[meetingId].creator.userName != userName {
        return Failure(PermissionDenied), None;
      }
      meeting := FinishMeeting(meetingId, now);
    }

    method FinishMeeting(meetingId: string, now: int) returns (meeting: Option<Meeting>)
      requires AllFiled() && meetingId in meetings
      modifies this, all
      ensures all == old(all) && meetingId in meetings && meeting == Some(meetings[meetingId])
      ensures var s := old(Abstract());
        var meeting := s.meetings[meetingId];
        var freed := s.(userMeetings := s.userMeetings - (set u | u in Names(meeting.participants)));
        Abstract() == PublishEvent(Update(freed, meetingId, Finished(meeting, now)),
                                   Event(Ended, meetingId, meeting.creator, [], "meeting ended by creator"), true)
    {
      ghost var before := Abstract();
      var target := meetings[meetingId];
      ForgetMembers(target.participants);
      target := target.(participants := [], active := false, endTime := now);
      meetings := meetings[meetingId := target];
      StillFiled(before, Abstract());
      PublishEventLocked(Event(Ended, meetingId, target.creator, [], "meeting ended by creator"), true);
      return Some(target);
    }

    method ForgetMembers(participants: seq<Participant>)
      modifies this`userMeetings
      ensures userMeetings == old(userMeetings) - (set u | u in Names(participants))
    {
      for i := 0 to |participants|
        invariant userMeetings == old(userMeetings) - (set u | u in Names(participants[..i]))
      {
        NamesAppend(participants[..i], participants[i]);
        assert participants[..i + 1] == participants[..i] + [participants[i]];
        userMeetings := userMeetings - {participants[i].userName};
      }
      assert participants[..|participants|] == participants;
    }

    method GetMeetingList(userName: string, pageSize: int, pageNumber: int)
      returns (result: Outcome, page: seq<Meeting>, totalCount: nat, totalPages: nat, ghost list: seq<Meeting>)
      requires Valid()
      ensures result == if userName == "" || pageSize <= 0 || pageSize > 100 || pageNumber <= 0
                        then Failure(InvalidArgument)
                        else if userName !in loggedInUsers then Failure(NotLoggedIn) else Success
      ensures result.Failure? ==> page == [] && totalCount == 0 && totalPages == 1
      ensures result.Success? ==>
                Listing(meetings, list) && totalCount == |list| && totalPages == TotalPages(|list|, pageSize)
                && page == Page(list, pageSize, pageNumber)
    {
      page, totalCount, totalPages, list := [], 0, 1, [];
      if userName == "" || pageSize <= 0 || pageSize > 100 || pageNumber <= 0 {
        return Failure(InvalidArgument), page, totalCount, totalPages, list;
      }
      if userName !in loggedInUsers {
        return Failure(NotLoggedIn), page, totalCount, totalPages, list;
      }
      var ordered := SortMeetings(meetings);
      list := ordered;
      totalCount := |ordered|;
      if totalCount > 0 {
        totalPages := (totalCount + pageSize - 1) / pageSize;
      }
      PageStarts(0, pageNumber - 1, pageSize);
      var first := (pageNumber - 1) * pageSize;
      if first < totalCount {
        var last := Min(first + pageSize, totalCount);
        for i := first to last
          invariant page == ordered[first..i]
        {
          page := page + [ordered[i]];
        }
      }
      return Success, page, totalCount, totalPages, list;
    }

    method CheckSubscribe(meetingId: string, userName: string) returns (check: Outcome)
      ensures check == SubscribeCheck(Abstract(), meetingId, userName)
    {
      check := CheckMember(meetingId, userName);
      if check.Success? {
        var index := FindParticipant(meetings[meetingId].participants, userName);
        if index == |meetings[meetingId].participants| {
          return Failure(NotParticipant);
        }
      }
    }

    method SubscribeMeetingEvents(meetingId: string, userName: string)
      returns (result: Outcome, subscription: MeetingEventSubscription?)
      requires Valid()
      modifies this, all
      ensures Valid()
      ensures result == SubscribeCheck(old(Abstract()), meetingId, userName)
      ensures result.Failure? ==> subscription == null && Abstract() == old(Abstract()) && all == old(all)
      ensures result.Success? ==>
                subscription != null && fresh(subscription) && all == old(all) + {subscription}
                && Abstract() == Subscribe(old(Abstract()), meetingId, userName, subscription).0
    {
      result := CheckSubscribe(meetingId, userName);
      if result.Failure? {
        return result, null;
      }
      ghost var before := Abstract();
      ClearOldSubscriptions(meetingId, userName);
      subscription := AddSubscription(meetingId, userName);
      SubscribeKeeps(before, meetingId, userName, subscription);
    }

    /** Closes what the user still has open in the meeting and drops the expired entries of its list. */
    method ClearOldSubscriptions(id: string, userName: string)
      requires AllFiled()
      modifies this`subscriptions, all
      ensures var own := CloseUserSubscriptions(old(Abstract()), id, userName);
        Abstract() == Relisted(own, id, (own.all, WithoutExpired(own.all, Listed(own, id))))
    {
      ghost var before := Abstract();
      assert Filed(before, id);
      CloseUserRound(before.all, Listed(before, id), userName);
      CloseUserSubscriptionsLocked(id, userName);
      RemoveExpiredSubscriptionsLocked(id);
    }

    method AddSubscription(id: string, userName: string) returns (subscription: MeetingEventSubscription)
      requires id in meetings
      modifies this`subscriptions, this`all
      ensures fresh(subscription) && all == old(all) + {subscription}
      ensures var before := old(Abstract());
        var added := Subscription(id, userName, Names(meetings[id].participants), [], [], false, false);
        Abstract() == before.(all := before.all[subscription := added],
                              registered := before.registered[id := Listed(before, id) + [subscription]])
    {
      ghost var before := Abstract();
      subscription := new MeetingEventSubscription(id, userName, Names(meetings[id].participants));
      all := all + {subscription};
      var list := if id in subscriptions then subscriptions[id] else [];
      subscriptions := subscriptions[id := list + [subscription]];
      assert Snapshots() == before.all[subscription := subscription.Snapshot()];
    }

    method UnsubscribeMeetingEvents(subscription: MeetingEventSubscription?)
      requires Valid() && (subscription != null ==> subscription in all)
      modifies this, all
      ensures Valid() && all == old(all)
      ensures Abstract() == if subscription == null then old(Abstract()) else Unsubscribe(old(Abstract()), subscription)
    {
      if subscription == null {
        return;
      }
      ghost var before := Abstract();
      UnsubscribeKeeps(before, subscription);
      assert Filed(before, subscription.meetingId);
      DropFromList(subscription);
      subscription.Close();
      assert Snapshots() == before.all[subscription := Closed(before.all[subscription])];
    }

    method DropFromList(subscription: MeetingEventSubscription)
      requires Filed(Abstract(), subscription.meetingId)
      modifies this`subscriptions
      ensures var before, id := old(Abstract()), subscription.meetingId;
        Abstract() == Relisted(before, id, (before.all, WithoutKey(before.all, Listed(before, id), subscription)))
    {
      ghost var before := Abstract();
      var id := subscription.meetingId;
      if id !in subscriptions {
        assert subscriptions - {id} == subscriptions;
        return;
      }
      var list, kept := subscriptions[id], [];
      assert list == Listed(before, id);
      for i := 0 to |list|
        invariant Abstract() == before && kept == WithoutKey(before.all, list[..i], subscription)
      {
        assert list[..i + 1][..i] == list[..i] && list[i] in all;
        if !list[i].expired && list[i] != subscription {
          kept := kept + [list[i]];
        }
      }
      assert list[..|list|] == list;
      Relist(id, kept);
    }

    /** Stores what is left of a meeting's list; an empty list is removed. */
    method Relist(id: string, kept: seq<Key>)
      modifies this`subscriptions
      ensures subscriptions == if kept == [] then old(subscriptions) - {id} else old(subscriptions)[id := kept]
    {
      if kept == [] {
        subscriptions := subscriptions - {id};
      } else {
        subscriptions := subscriptions[id := kept];
      }
    }

    ghost predicate AllFiled()
      reads this, all
    {
      forall id :: Filed(Abstract(), id)
    }

    method PublishEventLocked(event: Event, closing: bool)
      requires AllFiled()
      modifies this`subscriptions, all
      ensures Abstract() == PublishEvent(old(Abstract()), event, closing)
    {
      ghost var before := Abstract();
      assert Filed(before, event.meetingId);
      if event.meetingId !in subscriptions {
        assert subscriptions - {event.meetingId} == subscriptions;
        return;
      }
      var list, kept := subscriptions[event.meetingId], [];
      assert list[..0] == [];
      for i := 0 to |list|
        invariant subscriptions == before.registered
        invariant (Snapshots(), kept) == Publish(before.all, list[..i], event, closing)
      {
        assert list[i] in all;
        PublishNext(before.all, list, i, event, closing);
        var keep := Tell(list[i], event, closing);
        kept := if keep then kept + [list[i]] else kept;
      }
      assert list[..|list|] == list;
      Relist(event.meetingId, kept);
    }

    /** Pushes to a subscription that still has a holder; the event that closes the meeting closes it too. */
    method Tell(subscription: Key, event: Event, closing: bool) returns (keep: bool)
      requires subscription in all
      modifies subscription
      ensures (Snapshots(), keep) == Told(old(Snapshots()), subscription, event, closing)
    {
      if subscription.expired {
        return false;
      }
      ghost var reached := Snapshots();
      subscription.Push(event);
      if closing {
        subscription.Close();
      }
      assert Snapshots() == reached[subscription := subscription.Snapshot()];
      return !closing;
    }

    method CloseUserSubscriptionsLocked(id: string, userName: string)
      requires AllFiled()
      modifies this`subscriptions, all
      ensures Abstract() == CloseUserSubscriptions(old(Abstract()), id, userName)
    {
      ghost var before := Abstract();
      assert Filed(before, id);
      if id !in subscriptions {
        assert subscriptions - {id} == subscriptions;
        return;
      }
      var list, kept := subscriptions[id], [];
      assert list[..0] == [];
      for i := 0 to |list|
        invariant subscriptions == before.registered
        invariant (Snapshots(), kept) == CloseUser(before.all, list[..i], userName)
      {
        assert list[i] in all;
        CloseUserNext(before.all, list, i, userName);
        var keep := CloseIfOf(list[i], userName);
        kept := if keep then kept + [list[i]] else kept;
      }
      assert list[..|list|] == list;
      Relist(id, kept);
    }

    method CloseIfOf(subscription: Key, userName: string) returns (keep: bool)
      requires subscription in all
      modifies subscription
      ensures (Snapshots(), keep) == Dismissed(old(Snapshots()), subscription, userName)
    {
      if subscription.expired {
        return false;
      }
      if subscription.userName != userName {
        return true;
      }
      ghost var reached := Snapshots();
      subscription.Close();
      assert Snapshots() == reached[subscription := Closed(reached[subscription])];
      return false;
    }

    method RemoveExpiredSubscriptionsLocked(id: string)
      requires forall i :: 0 <= i < |Listed(Abstract(), id)| ==> Listed(Abstract(), id)[i] in Abstract().all
      modifies this`subscriptions
      ensures Abstract() == Relisted(old(Abstract()), id, (old(Abstract()).all,
                                       WithoutExpired(old(Abstract()).all, Listed(old(Abstract()), id))))
    {
      if id !in subscriptions {
        assert subscriptions - {id} == subscriptions;
        return;
      }
      ghost var before := Abstract();
      var list, kept := subscriptions[id], [];
      assert list == Listed(before, id);
      for i := 0 to |list|
        invariant Abstract() == before && kept == WithoutExpired(before.all, list[..i])
      {
        assert list[..i + 1][..i] == list[..i] && list[i] in all;
        if !list[i].expired {
          kept := kept + [list[i]];
        }
      }
      assert list[..|list|] == list;
      Relist(id, kept);
    }
  }

  lemma PublishAllFiled<K>(s: Store<K>, e: Event, closing: bool)
    requires forall id :: Filed(s, id)
    ensures forall id :: Filed(PublishEvent(s, e, closing), id)
  {
    forall id ensures Filed(PublishEvent(s, e, closing), id) {
      assert Filed(s, id) && Filed(s, e.meetingId);
      PublishFiled(s, e, closing, id);
    }
  }

  lemma StillFiled<K>(s: Store<K>, r: Store<K>)
    requires (forall id :: Filed(s, id)) && r.all == s.all && r.registered == s.registered
    ensures forall id :: Filed(r, id)
  {
    forall id ensures Filed(r, id) {
      assert Filed(s, id);
    }
  }

  /** Where the first participant of a name is found, the recursive descriptions agree with the index. */
  lemma {:induction false} FoundAt(participants: seq<Participant>, user: string, index: nat)
    requires index <= |participants| && forall i :: 0 <= i < index ==> participants[i].userName != user
    requires index < |participants| ==> participants[index].userName == user
    ensures if index < |participants|
            then FindUser(participants, user) == Some(participants[index])
                 && WithoutUser(participants, user) == participants[..index] + participants[index + 1..]
                 && forall p: Participant :: p.userName == user ==>
                      WithAddress(participants, p) == participants[index := p]
            else FindUser(participants, user).None?
  {
    if participants != [] && index > 0 {
      var rest := participants[1..];
      FoundAt(rest, user, index - 1);
      if index < |participants| {
        assert [participants[0]] + (rest[..index - 1] + rest[index..])
            == participants[..index] + participants[index + 1..];
        forall p: Participant | p.userName == user ensures WithAddress(participants, p) == participants[index := p] {
          assert [participants[0]] + rest[index - 1 := p] == participants[index := p];
        }
      }
    } else if participants != [] {
      forall p: Participant | p.userName == user ensures WithAddress(participants, p) == participants[0 := p] {
        assert [p] + participants[1..] == participants[0 := p];
      }
    }
  }
}
