/**
 The meeting store as a value: users, meetings, memberships and event subscriptions, and what each call
 does to them. `K` identifies a subscription; `expired` means that nobody holds the subscription any more.
 */
module MeetingSpec {
  import opened Common

  datatype StoreError =
    | InvalidArgument | UserAlreadyExists | UserNotFound | InvalidPassword | NotLoggedIn | MeetingNotFound
    | MeetingEnded | AlreadyInMeeting | NotParticipant | PermissionDenied

  datatype Outcome = Success | Failure(error: StoreError)

  datatype Participant = Participant(userName: string, clientIp: nat)

  datatype Meeting = Meeting(meetingId: string, title: string, description: string, startTime: int, endTime: int,
                             creator: Participant, participants: seq<Participant>, active: bool)

  datatype EventKind = UserJoined | UserLeft | Ended

  datatype Event = Event(kind: EventKind, meetingId: string, trigger: Participant, current: seq<Participant>,
                         message: string)

  /** `base` is the participant list when the subscription was made, `delivered` what has been read from it. */
  datatype Subscription = Subscription(meetingId: string, userName: string, base: seq<string>,
                                       delivered: seq<Event>, queued: seq<Event>, closed: bool, expired: bool)
  {
    function Log(): seq<Event> { delivered + queued }
    predicate Open() { !closed && !expired }
  }

  datatype Store<K(==)> = Store(users: map<string, string>, loggedIn: set<string>, meetings: map<string, Meeting>,
                                userMeetings: map<string, string>, registered: map<string, seq<K>>,
                                all: map<K, Subscription>, nextNumber: nat)

  function EmptyStore<K>(): Store<K> { Store(map[], {}, map[], map[], map[], map[], 1) }

  // ---------- participants ----------

  function Names(participants: seq<Participant>): (names: seq<string>)
    ensures |names| == |participants|
  {
    if participants == [] then [] else [participants[0].userName] + Names(participants[1..])
  }

  function WithoutUser(participants: seq<Participant>, user: string): seq<Participant> {
    if participants == [] then []
    else if participants[0].userName == user then participants[1..]
    else [participants[0]] + WithoutUser(participants[1..], user)
  }

  function FindUser(participants: seq<Participant>, user: string): Option<Participant> {
    if participants == [] then None
    else if participants[0].userName == user then Some(participants[0])
    else FindUser(participants[1..], user)
  }

  /** JoinMeeting of somebody already present only refreshes the address. */
  function WithAddress(participants: seq<Participant>, p: Participant): seq<Participant> {
    if participants == [] then []
    else if participants[0].userName == p.userName then [p] + participants[1..]
    else [participants[0]] + WithAddress(participants[1..], p)
  }

  // ---------- subscriptions ----------

  function Pushed(sub: Subscription, e: Event): Subscription {
    if sub.closed then sub else sub.(queued := sub.queued + [e])
  }

  function Closed(sub: Subscription): Subscription { sub.(closed := true) }

  /** One round over a meeting's list: push to everybody still there, and close and drop them if `closing`. */
  function Publish<K>(all: map<K, Subscription>, list: seq<K>, e: Event, closing: bool):
    (map<K, Subscription>, seq<K>)
  {
    if list == [] then (all, [])
    else
      var (before, kept) := Publish(all, list[..|list| - 1], e, closing);
      var k := list[|list| - 1];
      if k !in before || before[k].expired then (before, kept)
      else if closing then (before[k := Closed(Pushed(before[k], e))], kept)
      else (before[k := Pushed(before[k], e)], kept + [k])
  }

  function CloseUser<K>(all: map<K, Subscription>, list: seq<K>, user: string): (map<K, Subscription>, seq<K>) {
    if list == [] then (all, [])
    else
      var (before, kept) := CloseUser(all, list[..|list| - 1], user);
      var k := list[|list| - 1];
      if k !in before || before[k].expired then (before, kept)
      else if before[k].userName == user then (before[k := Closed(before[k])], kept)
      else (before, kept + [k])
  }

  function WithoutExpired<K>(all: map<K, Subscription>, list: seq<K>): seq<K> {
    if list == [] then []
    else
      var kept := WithoutExpired(all, list[..|list| - 1]);
      var k := list[|list| - 1];
      if k !in all || all[k].expired then kept else kept + [k]
  }

  function Listed<K>(s: Store<K>, id: string): seq<K> { if id in s.registered then s.registered[id] else [] }

  function Relisted<K>(s: Store<K>, id: string, result: (map<K, Subscription>, seq<K>)): Store<K> {
    s.(all := result.0, registered := if result.1 == [] then s.registered - {id} else s.registered[id := result.1])
  }

  function PublishEvent<K>(s: Store<K>, e: Event, closing: bool): Store<K> {
    Relisted(s, e.meetingId, Publish(s.all, Listed(s, e.meetingId), e, closing))
  }

  function CloseUserSubscriptions<K>(s: Store<K>, id: string, user: string): Store<K> {
    Relisted(s, id, CloseUser(s.all, Listed(s, id), user))
  }

  // ---------- calls ----------

  function RegisterUser<K>(s: Store<K>, user: string, password: string): (Store<K>, Outcome) {
    if user == "" || password == "" || |user| > 64 || |password| > 256 then (s, Failure(InvalidArgument))
    else if user in s.users then (s, Failure(UserAlreadyExists))
    else (s.(users := s.users[user := password]), Success)
  }

  function LoginUser<K>(s: Store<K>, user: string, password: string): (Store<K>, Outcome) {
    if user == "" || password == "" then (s, Failure(InvalidArgument))
    else if user !in s.users then (s, Failure(UserNotFound))
    else if s.users[user] != password then (s, Failure(InvalidPassword))
    else (s.(loggedIn := s.loggedIn + {user}), Success)
  }

  function CreateCheck<K>(s: Store<K>, creator: Participant, title: string, description: string): Outcome {
    if creator.userName == "" || creator.clientIp == 0 || title == "" || |title| > 256 || |description| > 2048
    then Failure(InvalidArgument)
    else if creator.userName !in s.loggedIn then Failure(NotLoggedIn)
    else if creator.userName in s.userMeetings then Failure(AlreadyInMeeting)
    else Success
  }

  function NewMeeting(id: string, creator: Participant, title: string, description: string,
                      startTime: int, now: int): Meeting
  {
    Meeting(id, title, description, if startTime > 0 then startTime else now, 0, creator, [creator], true)
  }

  /** `id` is the name that the store generates from `number`, and `now` its clock. */
  function CreateMeeting<K>(s: Store<K>, creator: Participant, title: string, description: string, startTime: int,
                            id: string, number: nat, now: int): (Store<K>, Outcome)
  {
    var check := CreateCheck(s, creator, title, description);
    if check.Failure? then (s, check)
    else
      (s.(meetings := s.meetings[id := NewMeeting(id, creator, title, description, startTime, now)],
          userMeetings := s.userMeetings[creator.userName := id], nextNumber := number + 1), Success)
  }

  function JoinCheck<K>(s: Store<K>, id: string, p: Participant): Outcome {
    if id == "" || p.userName == "" || p.clientIp == 0 then Failure(InvalidArgument)
    else if p.userName !in s.loggedIn then Failure(NotLoggedIn)
    else if id !in s.meetings then Failure(MeetingNotFound)
    else if !s.meetings[id].active then Failure(MeetingEnded)
    else if p.userName in s.userMeetings && s.userMeetings[p.userName] != id then Failure(AlreadyInMeeting)
    else Success
  }

  function Update<K>(s: Store<K>, id: string, meeting: Meeting): Store<K> { s.(meetings := s.meetings[id := meeting]) }

  function JoinMeeting<K>(s: Store<K>, id: string, p: Participant): (Store<K>, Outcome) {
    var check := JoinCheck(s, id, p);
    if check.Failure? || id !in s.meetings then (s, check)
    else
      var meeting := s.meetings[id];
      var entered := s.(userMeetings := s.userMeetings[p.userName := id]);
      if FindUser(meeting.participants, p.userName).Some? then
        (Update(entered, id, meeting.(participants := WithAddress(meeting.participants, p))), Success)
      else
        var joined := meeting.(participants := meeting.participants + [p]);
        (PublishEvent(Update(entered, id, joined),
                      Event(UserJoined, id, p, joined.participants, "user joined meeting"), false), Success)
  }

  function MemberCheck<K>(s: Store<K>, id: string, user: string): Outcome {
    if id == "" || user == "" then Failure(InvalidArgument)
    else if user !in s.loggedIn then Failure(NotLoggedIn)
    else if id !in s.meetings then Failure(MeetingNotFound)
    else if !s.meetings[id].active then Failure(MeetingEnded)
    else Success
  }

  function Finished(meeting: Meeting, now: int): Meeting {
    meeting.(participants := [], active := false, endTime := now)
  }

  function LeaveMeeting<K>(s: Store<K>, id: string, user: string, now: int): (Store<K>, Outcome) {
    var check := MemberCheck(s, id, user);
    if check.Failure? || id !in s.meetings then (s, check)
    else
      var meeting := s.meetings[id];
      var found := FindUser(meeting.participants, user);
      if found.None? then (s, Failure(NotParticipant))
      else
        var rest := WithoutUser(meeting.participants, user);
        var left := s.(userMeetings := s.userMeetings - {user});
        if rest == [] then
          (PublishEvent(Update(left, id, Finished(meeting, now)),
                        Event(Ended, id, found.value, [], "meeting ended because the last participant left"), true),
           Success)
        else
          var told := PublishEvent(Update(left, id, meeting.(participants := rest)),
                                   Event(UserLeft, id, found.value, rest, "user left meeting"), false);
          (CloseUserSubscriptions(told, id, user), Success)
  }

  function EndMeeting<K>(s: Store<K>, id: string, user: string, now: int): (Store<K>, Outcome) {
    var check := MemberCheck(s, id, user);
    if check.Failure? || id !in s.meetings then (s, check)
    else
      var meeting := s.meetings[id];
      if meeting.creator.userName != user then (s, Failure(PermissionDenied))
      else
        var freed := s.(userMeetings := s.userMeetings - (set u | u in Names(meeting.participants)));
        (PublishEvent(Update(freed, id, Finished(meeting, now)),
                      Event(Ended, id, meeting.creator, [], "meeting ended by creator"), true), Success)
  }

  function SubscribeCheck<K>(s: Store<K>, id: string, user: string): Outcome {
    var check := MemberCheck(s, id, user);
    if check.Failure? || id !in s.meetings then check
    else if FindUser(s.meetings[id].participants, user).None? then Failure(NotParticipant)
    else Success
  }

  /** A new subscription of the same user replaces the old one; `k` is its identity. */
  function Subscribe<K>(s: Store<K>, id: string, user: string, k: K): (Store<K>, Outcome) {
    var check := SubscribeCheck(s, id, user);
    if check.Failure? || id !in s.meetings then (s, check)
    else
      var own := CloseUserSubscriptions(s, id, user);
      var cleared := Relisted(own, id, (own.all, WithoutExpired(own.all, Listed(own, id))));
      var sub := Subscription(id, user, Names(s.meetings[id].participants), [], [], false, false);
      (cleared.(all := cleared.all[k := sub], registered := cleared.registered[id := Listed(cleared, id) + [k]]),
       Success)
  }

  function WithoutKey<K>(all: map<K, Subscription>, list: seq<K>, k: K): seq<K> {
    if list == [] then []
    else
      var kept := WithoutKey(all, list[..|list| - 1], k);
      var last := list[|list| - 1];
      if last == k || last !in all || all[last].expired then kept else kept + [last]
  }

  function Unsubscribe<K>(s: Store<K>, k: K): Store<K>
    requires k in s.all
  {
    var id := s.all[k].meetingId;
    Relisted(s, id, (s.all[k := Closed(s.all[k])], WithoutKey(s.all, Listed(s, id), k)))
  }

  /** The reader takes the oldest queued event, if there is one, even after the subscription was closed. */
  function WaitNext<K>(s: Store<K>, k: K): (Store<K>, Option<Event>)
    requires k in s.all
  {
    var sub := s.all[k];
    if sub.queued == [] then (s, None)
    else (s.(all := s.all[k := sub.(delivered := sub.delivered + [sub.queued[0]], queued := sub.queued[1..])]),
          Some(sub.queued[0]))
  }

  /** The last holder of the subscription lets go of it. */
  function Expire<K>(s: Store<K>, k: K): Store<K>
    requires k in s.all
  {
    s.(all := s.all[k := s.all[k].(expired := true)])
  }
}
