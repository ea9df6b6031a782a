/** What becomes of a server resource: when its URL is stored, and the only ways in which it comes to be deleted. */
module TransportOutcome {
  import opened Common
  import opened TransportProtocol
  import opened TransportSafety
  import opened TransportLossless

  // ---------- storing an answer ----------

  /** The answer of a pull whose session is still its own is stored in it; nothing is deleted or lost for it. */
  lemma PullStored(steps: seq<Step>)
    requires Run(INITIAL, steps).worker.at.PullApplied? && OwnsSession(Run(INITIAL, steps))
    ensures var s := Run(INITIAL, steps);
      var r, user := Apply(s, WorkerAdvance), s.worker.task.user;
      && r.pull.sessions == s.pull.sessions[user := Session(s.worker.task.transport, s.worker.response)]
      && r.worker.at.Resting? && r.worker.response.None? && r.publish == s.publish
      && r.server.deleted == s.server.deleted && r.server.lost == s.server.lost
  {
    RunSafe(steps);
    StorePullKeeps(Run(INITIAL, steps));
  }

  lemma PublishStored(steps: seq<Step>)
    requires Run(INITIAL, steps).worker.at.PublishApplied? && Current(Run(INITIAL, steps))
    ensures var s := Run(INITIAL, steps);
      var r := Apply(s, WorkerAdvance);
      && r.publish == s.publish.(url := s.worker.response) && r.pull == s.pull
      && r.worker.at.Resting? && r.worker.response.None?
      && r.server.deleted == s.server.deleted && r.server.lost == s.server.lost
  {
    RunSafe(steps);
    StorePublishKeeps(Run(INITIAL, steps));
  }

  // ---------- the ways to a DELETE ----------

  ghost predicate HeldBy(sessions: map<User, Session>, u: Url) {
    exists user :: user in sessions && sessions[user].url == Some(u)
  }

  predicate Rejecting(w: Worker) { w.PublishReject? || w.PublishClose? || w.PullReject? }

  /** The resource has been deleted or its URL is held by someone who is about to delete it. */
  ghost predicate Doomed(s: State, u: Url) {
    || s.server.deleted[u] > 0
    || s.caller.taken == Some(u)
    || HeldBy(s.caller.closing, u)
    || (s.worker.response == Some(u) && Rejecting(s.worker.at))
  }

  predicate Unsubscribed(s: State, step: Step, u: Url) {
    step.Unsubscribe? && s.caller.at.Free? && step.user in s.pull.sessions && s.pull.sessions[step.user].url == Some(u)
  }

  predicate AnswerRefused(s: State, step: Step, u: Url) {
    step == SetRemote(false) && (s.worker.at.PublishActive? || s.worker.at.PullActive?) && s.worker.response == Some(u)
  }

  /** The worker holds the answer to an Offer whose generation or session is not the present one, or is unpublished. */
  predicate OfferOutdated(s: State, step: Step, u: Url) {
    step.WorkerAdvance? && s.worker.response == Some(u) &&
    match s.worker.at
    case PublishAnswered => !s.engine.initialized || !Current(s)
    case PublishReadAudio => !s.publish.audio
    case PublishApplied => !Current(s)
    case PullAnswered => !OwnsSession(s)
    case PullApplied => !OwnsSession(s)
    case _ => false
  }

  /** Somebody closes the publish generation that the URL is stored under. */
  predicate GenerationClosed(s: State, step: Step, u: Url) {
    s.publish.url == Some(u) &&
    (|| (step.CallerAdvance? && (s.caller.at == Closing(TakeUrl) || s.caller.at == UninitClose(TakeUrl)))
     || (step.WorkerAdvance? && s.worker.at == PublishClose(TakeUrl)))
  }

  ghost predicate SessionsClosed(s: State, step: Step, u: Url) {
    step.CallerAdvance? && s.caller.at.UninitSwap? && HeldBy(s.pull.sessions, u)
  }

  ghost predicate Ends(s: State, step: Step, u: Url) {
    || Unsubscribed(s, step, u) || AnswerRefused(s, step, u) || OfferOutdated(s, step, u)
    || GenerationClosed(s, step, u) || SessionsClosed(s, step, u)
  }

  ghost predicate DoomedExactly(s: State, step: Step, r: State, u: Url) {
    Doomed(r, u) <==> Doomed(s, u) || Ends(s, step, u)
  }

  /** Whoever is about to issue a DELETE has the signalling client for it. */
  ghost predicate CanDelete(s: State) {
    && Tidy(s) && (Rejecting(s.worker.at) ==> s.engine.built)
    && (s.caller.at.Unsubscribing? || s.caller.at.Closing? || s.caller.at.UninitClose? || s.caller.at.UninitDelete? ==>
          s.engine.built)
  }

  lemma SafeCanDelete(s: State)
    requires Safe(s)
    ensures CanDelete(s)
  {
  }

  lemma RejectDooms(s: State, u: Url)
    requires CanDelete(s) && (s.worker.at.PublishReject? || s.worker.at.PullReject?)
    ensures DoomedExactly(s, WorkerAdvance, WorkerAdvanceFrom(s), u)
  {
  }

  lemma CloseStepDooms(s: State, u: Url)
    requires CanDelete(s) && s.worker.at.PublishClose? && !s.worker.at.closer.DeleteUrl?
    ensures DoomedExactly(s, WorkerAdvance, WorkerClose(s, s.worker.at.closer), u)
  {
  }

  lemma CloseDooms(s: State, u: Url)
    requires CanDelete(s) && s.worker.at.PublishClose?
    ensures DoomedExactly(s, WorkerAdvance, WorkerClose(s, s.worker.at.closer), u)
  {
    if !s.worker.at.closer.DeleteUrl? {
      CloseStepDooms(s, u);
    }
  }

  lemma StoreDooms(s: State, u: Url)
    requires CanDelete(s) && (s.worker.at.PublishApplied? || s.worker.at.PullApplied? || s.worker.at.PullErase?)
    ensures DoomedExactly(s, WorkerAdvance, WorkerAdvanceFrom(s), u)
  {
  }

  lemma CheckDooms(s: State, u: Url)
    requires CanDelete(s) && !Rejecting(s.worker.at)
    requires !s.worker.at.PublishApplied? && !s.worker.at.PullApplied? && !s.worker.at.PullErase?
    ensures DoomedExactly(s, WorkerAdvance, WorkerAdvanceFrom(s), u)
  {
  }

  lemma WorkerDooms(s: State, u: Url)
    requires CanDelete(s)
    ensures DoomedExactly(s, WorkerAdvance, WorkerAdvanceFrom(s), u)
  {
    if s.worker.at.PublishReject? || s.worker.at.PullReject? {
      RejectDooms(s, u);
    } else if s.worker.at.PublishClose? {
      CloseDooms(s, u);
    } else if s.worker.at.PublishApplied? || s.worker.at.PullApplied? || s.worker.at.PullErase? {
      StoreDooms(s, u);
    } else {
      CheckDooms(s, u);
    }
  }

  lemma ReplyDooms(s: State, step: Step, u: Url)
    requires CanDelete(s) && (step.Answer? || step.Refuse? || step.SetRemote?)
    ensures DoomedExactly(s, step, WorkerStep(s, step), u)
  {
  }

  lemma CallbackDooms(s: State, step: Step, u: Url)
    requires ByCallback(step)
    ensures DoomedExactly(s, step, CallbackStep(s, step), u)
  {
  }

  lemma ClosingDooms(s: State, u: Url)
    requires CanDelete(s) && s.caller.at.Closing?
    ensures DoomedExactly(s, CallerAdvance, CallerAdvanceFrom(s), u)
  {
  }

  lemma UninitCloseDooms(s: State, u: Url)
    requires CanDelete(s) && s.caller.at.UninitClose?
    ensures DoomedExactly(s, CallerAdvance, CallerAdvanceFrom(s), u)
  {
  }

  lemma UnsubscribingDooms(s: State, u: Url)
    requires CanDelete(s) && s.caller.at.Unsubscribing?
    ensures DoomedExactly(s, CallerAdvance, CallerAdvanceFrom(s), u)
  {
  }

  lemma AdvanceDooms(s: State, u: Url)
    requires CanDelete(s)
    ensures DoomedExactly(s, CallerAdvance, CallerAdvanceFrom(s), u)
  {
    match s.caller.at
    case Closing(_) => ClosingDooms(s, u);
    case UninitClose(_) => UninitCloseDooms(s, u);
    case Unsubscribing => UnsubscribingDooms(s, u);
    case _ =>
  }

  lemma DeleteSessionDooms(s: State, user: User, u: Url)
    requires CanDelete(s)
    ensures DoomedExactly(s, DeleteSession(user), CallerStep(s, DeleteSession(user)), u)
  {
    var r := CallerStep(s, DeleteSession(user));
    if s.caller.at.UninitDelete? && user in s.caller.closing {
      StillHeld(s.caller.closing, user, u);
    }
  }

  lemma StillHeld(sessions: map<User, Session>, user: User, u: Url)
    requires user in sessions
    ensures HeldBy(sessions, u) <==> HeldBy(sessions - {user}, u) || sessions[user].url == Some(u)
  {
    if other :| other in sessions && other != user && sessions[other].url == Some(u) {
      assert (sessions - {user})[other].url == Some(u);
    }
  }

  lemma PullCallDooms(s: State, step: Step, u: Url)
    requires CanDelete(s) && (step.Subscribe? || step.SubscribeResult? || step.Unsubscribe?)
    ensures DoomedExactly(s, step, CallerStep(s, step), u)
  {
  }

  lemma StartCallDooms(s: State, step: Step, u: Url)
    requires CanDelete(s) && (step.Initialize? || step.StartPublish? || step.StopPublish?)
    ensures DoomedExactly(s, step, CallerStep(s, step), u)
  {
  }

  lemma CallDooms(s: State, step: Step, u: Url)
    requires CanDelete(s) && (step.PushStart? || step.LaunchThread? || step.Uninit?)
    ensures DoomedExactly(s, step, CallerStep(s, step), u)
  {
  }

  /** A resource comes to be doomed by exactly these steps, and stays so. */
  lemma StepDooms(s: State, step: Step, u: Url)
    requires Safe(s)
    ensures Doomed(Apply(s, step), u) <==> Doomed(s, u) || Ends(s, step, u)
  {
    SafeCanDelete(s);
    if ByCallback(step) {
      CallbackDooms(s, step, u);
    } else if step.WorkerAdvance? {
      WorkerDooms(s, u);
    } else if ByWorker(step) {
      ReplyDooms(s, step, u);
    } else if step.CallerAdvance? {
      AdvanceDooms(s, u);
    } else if step.DeleteSession? {
      DeleteSessionDooms(s, step.user, u);
    } else if step.Subscribe? || step.SubscribeResult? || step.Unsubscribe? {
      PullCallDooms(s, step, u);
    } else if step.Initialize? || step.StartPublish? || step.StopPublish? {
      StartCallDooms(s, step, u);
    } else {
      CallDooms(s, step, u);
    }
  }

  ghost predicate EndsAt(steps: seq<Step>, i: nat, u: Url)
    requires i < |steps|
  {
    Ends(Run(INITIAL, steps[..i]), steps[i], u)
  }

  /** At some point of the run the resource's session, generation or answer came to its end. */
  ghost predicate Ended(steps: seq<Step>, u: Url) {
    exists i: nat :: i < |steps| && EndsAt(steps, i, u)
  }

  lemma EndsInPrefix(steps: seq<Step>, i: nat, u: Url)
    requires i < |steps| - 1
    ensures EndsAt(steps[..|steps| - 1], i, u) <==> EndsAt(steps, i, u)
  {
    assert steps[..|steps| - 1][..i] == steps[..i];
  }

  lemma EndedLast(steps: seq<Step>, u: Url)
    requires steps != []
    ensures Ended(steps, u) <==> Ended(steps[..|steps| - 1], u) || EndsAt(steps, |steps| - 1, u)
  {
    var before := steps[..|steps| - 1];
    if i: nat :| i < |before| && EndsAt(before, i, u) {
      EndsInPrefix(steps, i, u);
    }
    if i: nat :| i < |steps| && EndsAt(steps, i, u) {
      if i < |before| {
        EndsInPrefix(steps, i, u);
      }
    }
  }

  /** Over every run, a resource is deleted or about to be if and only if it came to its end. */
  lemma {:induction false} DoomedExactlyIfEnded(steps: seq<Step>, u: Url)
    ensures Doomed(Run(INITIAL, steps), u) <==> Ended(steps, u)
  {
    if steps == [] {
    } else {
      var last := |steps| - 1;
      DoomedExactlyIfEnded(steps[..last], u);
      RunSafe(steps[..last]);
      StepDooms(Run(INITIAL, steps[..last]), steps[last], u);
      EndedLast(steps, u);
    }
  }

  /** No DELETE without one of the ends. */
  lemma DeletedOnlyIfEnded(steps: seq<Step>, u: Url)
    requires Run(INITIAL, steps).server.deleted[u] > 0
    ensures Ended(steps, u)
  {
    DoomedExactlyIfEnded(steps, u);
  }

  /** A resource that has not come to its end is stored, or the worker is still busy with its answer. */
  lemma StoredUnlessEnded(steps: seq<Step>, u: Url)
    requires u in Run(INITIAL, steps).server.posted && Careful(steps) && !Ended(steps, u)
    ensures var s := Run(INITIAL, steps);
      || s.publish.url == Some(u) || HeldBy(s.pull.sessions, u)
      || (s.worker.response == Some(u) && !s.worker.at.Resting?)
  {
    OnePlace(steps, u);
    NeverLost(steps);
    DoomedExactlyIfEnded(steps, u);
    var s := Run(INITIAL, steps);
    NobodyHolds(s.pull.sessions, u);
    NobodyHolds(s.caller.closing, u);
  }

  lemma NobodyHolds(sessions: map<User, Session>, u: Url)
    ensures HeldBy(sessions, u) <==> |Holders(sessions, u)| > 0
  {
    if user :| user in sessions && sessions[user].url == Some(u) {
      assert user in Holders(sessions, u);
    } else {
      assert Holders(sessions, u) == {};
    }
  }

  // ---------- the ends of sessions and generations ----------

  predicate HasSession(s: State, user: User, transport: nat) {
    user in s.pull.sessions && s.pull.sessions[user].transport == transport
  }

  /** A session goes only by being unsubscribed, by a failed subscription, by a refused POST or SDP, or by Uninit. */
  predicate RemovesSession(s: State, step: Step, user: User, transport: nat) {
    || (step == Unsubscribe(user) && s.caller.at.Free?)
    || (step.CallerAdvance? && (s.caller.at.UninitSwap? || (s.caller.at.SubscribeFailed? && s.caller.at.user == user)))
    || (step.WorkerAdvance? && s.worker.at.PullErase? && s.worker.task == PullTask(user, transport))
  }

  lemma SessionEndsExactly(s: State, step: Step, user: User, transport: nat)
    requires Safe(s) && HasSession(s, user, transport)
    ensures !HasSession(Apply(s, step), user, transport) <==> RemovesSession(s, step, user, transport)
  {
    WorkerRemoves(s, user, transport);
    AdvanceRemoves(s, user, transport);
  }

  lemma WorkerRemoves(s: State, user: User, transport: nat)
    requires Safe(s) && HasSession(s, user, transport)
    ensures !HasSession(WorkerAdvanceFrom(s), user, transport) <==> RemovesSession(s, WorkerAdvance, user, transport)
  {
  }

  lemma AdvanceRemoves(s: State, user: User, transport: nat)
    requires Safe(s) && HasSession(s, user, transport)
    ensures !HasSession(CallerAdvanceFrom(s), user, transport) <==> RemovesSession(s, CallerAdvance, user, transport)
  {
  }

  /** A generation goes only by a start that finds nothing published, by a close, or by Initialize. */
  predicate EndsGeneration(s: State, step: Step) {
    || (step.StartPublish? && s.caller.at.Free? && s.engine.initialized && !s.publish.video && !s.publish.audio)
    || (step.CallerAdvance? && (s.caller.at == Closing(TakeUrl) || s.caller.at == UninitClose(TakeUrl)))
    || (step.WorkerAdvance? && s.worker.at == PublishClose(TakeUrl))
    || (step.Initialize? && s.caller.at.Free? && !s.engine.initialized && s.publish.generation != 0)
  }

  lemma GenerationEndsExactly(s: State, step: Step)
    ensures Apply(s, step).publish.generation != s.publish.generation <==> EndsGeneration(s, step)
  {
    WorkerEndsGeneration(s);
    AdvanceEndsGeneration(s);
  }

  lemma WorkerEndsGeneration(s: State)
    ensures WorkerAdvanceFrom(s).publish.generation != s.publish.generation <==> EndsGeneration(s, WorkerAdvance)
  {
  }

  lemma AdvanceEndsGeneration(s: State)
    ensures CallerAdvanceFrom(s).publish.generation != s.publish.generation <==> EndsGeneration(s, CallerAdvance)
  {
  }

  // ---------- what is posted ----------

  /** A POST is made only for the present generation of an initialised engine, or for a session that is still there. */
  lemma OnlyPresentPosted(s: State, step: Step)
    ensures var r := Apply(s, step);
      && (r.worker.at.PublishRequest? && !s.worker.at.PublishRequest? ==> s.engine.initialized && Current(s))
      && (r.worker.at.PullRequest? && !s.worker.at.PullRequest? ==> OwnsSession(s))
  {
    WorkerPosts(s);
    CallerPostsNothing(s);
  }

  lemma WorkerPosts(s: State)
    ensures var r := WorkerAdvanceFrom(s);
      && (r.worker.at.PublishRequest? && !s.worker.at.PublishRequest? ==> s.engine.initialized && Current(s))
      && (r.worker.at.PullRequest? && !s.worker.at.PullRequest? ==> OwnsSession(s))
  {
  }

  lemma CallerPostsNothing(s: State)
    ensures CallerAdvanceFrom(s).worker == s.worker
  {
  }

  // ---------- undisturbed sessions ----------

  /** A resting worker of a running engine with one Offer to deal with. */
  ghost predicate Ready(s: State, offer: Task) {
    s.engine.initialized && s.engine.running && s.worker.at.Resting? && s.queue.tasks == [] && offer in s.queue.inFlight
  }

  /** A running engine whose caller and worker have nothing to do. */
  predicate Idle(s: State) {
    s.caller.at.Free? && s.engine.initialized && s.worker.at.Resting? && s.queue.tasks == []
  }

  /** A start with nothing published begins a generation whose first local description makes an Offer. */
  lemma StartOffers(steps: seq<Step>, media: Media) returns (run: seq<Step>)
    requires Idle(Run(INITIAL, steps)) && !Run(INITIAL, steps).publish.video && !Run(INITIAL, steps).publish.audio
    ensures run == steps + [StartPublish(media)] + [PushStart(true)] + [LaunchThread(true)] + [OfferPublish]
    ensures var s, r := Run(INITIAL, steps), Run(INITIAL, run);
      && r.publish.generation == s.publish.generation + 1 && Flag(r.publish, media) && r.publish.url.None?
      && Idle(r) && Ready(r, PublishTask(r.publish.generation))
  {
    RunSafe(steps);
    Extend(steps, StartPublish(media));
    run := steps + [StartPublish(media)];
    Extend(run, PushStart(true));
    run := run + [PushStart(true)];
    Extend(run, LaunchThread(true));
    run := run + [LaunchThread(true)];
    Extend(run, OfferPublish);
    run := run + [OfferPublish];
  }

  /** Subscribing inserts a session with a transport for which no Offer has been made. */
  lemma SubscribeInserts(steps: seq<Step>, user: User) returns (run: seq<Step>)
    requires Idle(Run(INITIAL, steps)) && user !in Run(INITIAL, steps).pull.sessions
    ensures run == steps + [Subscribe(user)] + [CallerAdvance]
    ensures var s, r := Run(INITIAL, steps), Run(INITIAL, run);
      var transport := s.pull.nextTransport;
      && r == s.(pull := Pull(s.pull.sessions[user := Session(transport, None)], transport + 1),
                 caller := s.caller.(at := Subscribed(user, transport)))
      && PullTask(user, transport) !in s.queue.offered && s.engine.running
  {
    RunSafe(steps);
    Extend(steps, Subscribe(user));
    run := steps + [Subscribe(user)];
    Extend(run, CallerAdvance);
    run := run + [CallerAdvance];
  }

  /** ... and its first local description makes the Offer. */
  lemma SubscribeOffers(steps: seq<Step>, user: User) returns (run: seq<Step>)
    requires Idle(Run(INITIAL, steps)) && user !in Run(INITIAL, steps).pull.sessions
    ensures run == steps + [Subscribe(user)] + [CallerAdvance] + [OfferPull(user)] + [SubscribeResult(true)]
    ensures var s, r := Run(INITIAL, steps), Run(INITIAL, run);
      var transport := s.pull.nextTransport;
      && r.pull == Pull(s.pull.sessions[user := Session(transport, None)], transport + 1)
      && Idle(r) && Ready(r, PullTask(user, transport))
  {
    run := SubscribeInserts(steps, user);
    Extend(run, OfferPull(user));
    run := run + [OfferPull(user)];
    Extend(run, SubscribeResult(true));
    run := run + [SubscribeResult(true)];
  }

  /** The URL of the answer is where it belongs, the worker rests, and nothing has been deleted or lost. */
  ghost predicate Settled(s: State, r: State, u: Url) {
    && r.worker.at.Resting? && r.worker.response.None?
    && r.server == s.server.(posted := s.server.posted + {u})
  }

  /** Post, take, check: the worker is about to POST. */
  lemma RequestReached(steps: seq<Step>, offer: Task) returns (run: seq<Step>)
    requires Ready(Run(INITIAL, steps), offer)
    requires if offer.PublishTask? then offer.generation == Run(INITIAL, steps).publish.generation
             else HasSession(Run(INITIAL, steps), offer.user, offer.transport)
    ensures var s, r := Run(INITIAL, steps), Run(INITIAL, run);
      && r.worker == Signaling(if offer.PublishTask? then PublishRequest else PullRequest, offer, None)
      && r.engine == s.engine && r.publish == s.publish && r.pull == s.pull && r.server == s.server
  {
    RunSafe(steps);
    Extend(steps, Post(offer));
    run := steps + [Post(offer)];
    assert Run(INITIAL, run).queue.tasks == [offer];
    Extend(run, WorkerAdvance);
    run := run + [WorkerAdvance];
    Extend(run, WorkerAdvance);
    run := run + [WorkerAdvance];
  }

  /** Answer, check, apply: the worker is about to store the URL. */
  lemma PullApplies(steps: seq<Step>, u: Url) returns (run: seq<Step>)
    requires var s := Run(INITIAL, steps); s.worker.at.PullRequest? && OwnsSession(s) && u !in s.server.posted
    ensures var s, r := Run(INITIAL, steps), Run(INITIAL, run);
      && r.worker == Signaling(PullApplied, s.worker.task, Some(u)) && r.pull == s.pull
      && r.server == s.server.(posted := s.server.posted + {u})
  {
    Extend(steps, Answer(Some(u)));
    run := steps + [Answer(Some(u))];
    Extend(run, WorkerAdvance);
    run := run + [WorkerAdvance];
    Extend(run, SetRemote(true));
    run := run + [SetRemote(true)];
  }

  /** A pull whose Offer is posted, answered and applied leaves its session with the URL of the answer. */
  lemma PullCompletes(steps: seq<Step>, user: User, transport: nat, u: Url) returns (run: seq<Step>)
    requires Ready(Run(INITIAL, steps), PullTask(user, transport)) && HasSession(Run(INITIAL, steps), user, transport)
    requires u !in Run(INITIAL, steps).server.posted
    ensures var s, r := Run(INITIAL, steps), Run(INITIAL, run);
      Settled(s, r, u) && r.pull.sessions == s.pull.sessions[user := Session(transport, Some(u))]
  {
    run := RequestReached(steps, PullTask(user, transport));
    run := PullApplies(run, u);
    PullStored(run);
    Extend(run, WorkerAdvance);
    run := run + [WorkerAdvance];
  }

  /** Answer, check, read the flags: the worker is about to apply the answer. */
  lemma AnswerRead(steps: seq<Step>, u: Url) returns (run: seq<Step>)
    requires var s := Run(INITIAL, steps);
      && s.worker.at.PublishRequest? && Current(s) && s.engine.initialized
      && (s.publish.video || s.publish.audio) && u !in s.server.posted
    ensures var s, r := Run(INITIAL, steps), Run(INITIAL, run);
      && r.worker == Signaling(PublishActive, s.worker.task, Some(u)) && r.publish == s.publish
      && r.server == s.server.(posted := s.server.posted + {u})
  {
    Extend(steps, Answer(Some(u)));
    run := steps + [Answer(Some(u))];
    Extend(run, WorkerAdvance);
    run := run + [WorkerAdvance];
    Extend(run, WorkerAdvance);
    run := run + [WorkerAdvance];
    if !Run(INITIAL, steps).publish.video {
      assert Run(INITIAL, run).worker.at.PublishReadAudio?;
      Extend(run, WorkerAdvance);
      run := run + [WorkerAdvance];
    }
  }

  /** A publication of which a medium is on is left with the URL of its answer. */
  lemma PublishCompletes(steps: seq<Step>, u: Url) returns (run: seq<Step>)
    requires Ready(Run(INITIAL, steps), PublishTask(Run(INITIAL, steps).publish.generation))
    requires Run(INITIAL, steps).publish.video || Run(INITIAL, steps).publish.audio
    requires u !in Run(INITIAL, steps).server.posted
    ensures var s, r := Run(INITIAL, steps), Run(INITIAL, run);
      Settled(s, r, u) && r.publish == s.publish.(url := Some(u))
  {
    run := RequestReached(steps, PublishTask(Run(INITIAL, steps).publish.generation));
    run := AnswerRead(run, u);
    Extend(run, SetRemote(true));
    run := run + [SetRemote(true)];
    PublishStored(run);
    Extend(run, WorkerAdvance);
    run := run + [WorkerAdvance];
  }

  /** The worker takes the session that it answers for out of the map. */
  lemma PullErases(steps: seq<Step>)
    requires Run(INITIAL, steps).worker.at.PullErase? && OwnsSession(Run(INITIAL, steps))
    ensures var s, r := Run(INITIAL, steps), Run(INITIAL, steps + [WorkerAdvance]);
      && r.worker.at.Resting? && r.pull.sessions == s.pull.sessions - {s.worker.task.user} && r.server == s.server
  {
    RunSafe(steps);
    ErasePullKeeps(Run(INITIAL, steps));
    Extend(steps, WorkerAdvance);
  }

  /** A refused POST of a pull ends its session. */
  lemma PullUnanswered(steps: seq<Step>) returns (run: seq<Step>)
    requires Run(INITIAL, steps).worker.at.PullRequest? && OwnsSession(Run(INITIAL, steps))
    ensures run == steps + [Refuse] + [WorkerAdvance]
    ensures var s, r := Run(INITIAL, steps), Run(INITIAL, run);
      && r.worker.at.Resting? && r.pull.sessions == s.pull.sessions - {s.worker.task.user} && r.server == s.server
  {
    Extend(steps, Refuse);
    run := steps + [Refuse];
    PullErases(run);
    run := run + [WorkerAdvance];
  }

  lemma RefusedDeletes(steps: seq<Step>) returns (run: seq<Step>)
    requires Run(INITIAL, steps).worker.at.PullActive?
    ensures run == steps + [SetRemote(false)] + [WorkerAdvance]
    ensures var s, r := Run(INITIAL, steps), Run(INITIAL, run);
      && r.worker == Signaling(PullErase, s.worker.task, None) && r.pull == s.pull
      && r.server == s.server.(deleted := s.server.deleted + Bag(s.worker.response))
  {
    BusyIsBuilt(steps);
    Extend(steps, SetRemote(false));
    run := steps + [SetRemote(false)];
    Extend(run, WorkerAdvance);
    run := run + [WorkerAdvance];
  }

  lemma BusyIsBuilt(steps: seq<Step>)
    requires !Run(INITIAL, steps).worker.at.Resting?
    ensures Run(INITIAL, steps).engine.built
  {
    RunSafe(steps);
  }

  /** A pull whose answer cannot be applied ends its session, and its resource is deleted. */
  lemma PullRefused(steps: seq<Step>) returns (run: seq<Step>)
    requires Run(INITIAL, steps).worker.at.PullActive? && OwnsSession(Run(INITIAL, steps))
    ensures run == steps + [SetRemote(false)] + [WorkerAdvance] + [WorkerAdvance]
    ensures var s, r := Run(INITIAL, steps), Run(INITIAL, run);
      && r.worker.at.Resting? && r.pull.sessions == s.pull.sessions - {s.worker.task.user}
      && r.server == s.server.(deleted := s.server.deleted + Bag(s.worker.response))
  {
    run := RefusedDeletes(steps);
    PullErases(run);
    run := run + [WorkerAdvance];
  }

  /** The worker closes the publication: nothing is published any more and its resource is deleted. */
  lemma WorkerCloses(steps: seq<Step>) returns (run: seq<Step>)
    requires Run(INITIAL, steps).worker.at == PublishClose(TakeUrl)
    ensures run == steps + [WorkerAdvance] + [WorkerAdvance] + [WorkerAdvance] + [WorkerAdvance]
    ensures var s, r := Run(INITIAL, steps), Run(INITIAL, run);
      && r.worker.at.Resting? && r.publish == Publish(s.publish.generation + 1, None, false, false, false)
      && r.server == s.server.(deleted := s.server.deleted + Bag(s.publish.url))
  {
    RunSafe(steps);
    Extend(steps, WorkerAdvance);
    run := steps + [WorkerAdvance];
    Extend(run, WorkerAdvance);
    run := run + [WorkerAdvance];
    assert Run(INITIAL, run).worker.at == PublishClose(StopAudio);
    Extend(run, WorkerAdvance);
    run := run + [WorkerAdvance];
    Extend(run, WorkerAdvance);
    run := run + [WorkerAdvance];
  }

  /** A publication whose answer cannot be applied is closed, and its resource is deleted. */
  lemma PublishRefused(steps: seq<Step>) returns (run: seq<Step>)
    requires Run(INITIAL, steps).worker.at.PublishActive?
    ensures steps <= run
    ensures var s, r := Run(INITIAL, steps), Run(INITIAL, run);
      && r.worker.at.Resting? && r.publish == Publish(s.publish.generation + 1, None, false, false, false)
      && r.server.deleted == s.server.deleted + Bag(s.worker.response) + Bag(s.publish.url)
  {
    RunSafe(steps);
    Extend(steps, SetRemote(false));
    run := steps + [SetRemote(false)];
    Extend(run, WorkerAdvance);
    run := run + [WorkerAdvance];
    run := WorkerCloses(run);
  }

  /** A refused POST of a publication closes it. */
  lemma PublishUnanswered(steps: seq<Step>) returns (run: seq<Step>)
    requires Run(INITIAL, steps).worker.at.PublishRequest?
    ensures steps <= run
    ensures var s, r := Run(INITIAL, steps), Run(INITIAL, run);
      && r.worker.at.Resting? && r.publish == Publish(s.publish.generation + 1, None, false, false, false)
      && r.server.deleted == s.server.deleted + Bag(s.publish.url)
  {
    Extend(steps, Refuse);
    run := WorkerCloses(steps + [Refuse]);
  }

  /** Unsubscribing issues the DELETE of the session's resource. */
  lemma UnsubscribeDeletes(steps: seq<Step>, user: User) returns (run: seq<Step>)
    requires Run(INITIAL, steps).caller.at.Free? && user in Run(INITIAL, steps).pull.sessions
    ensures run == steps + [Unsubscribe(user)] + [CallerAdvance]
    ensures var s, r := Run(INITIAL, steps), Run(INITIAL, run);
      && r.caller.at.Free? && r.pull.sessions == s.pull.sessions - {user}
      && r.server.deleted == s.server.deleted + Bag(s.pull.sessions[user].url) && r.server.lost == s.server.lost
  {
    RunSafe(steps);
    Extend(steps, Unsubscribe(user));
    run := steps + [Unsubscribe(user)];
    Extend(run, CallerAdvance);
    run := run + [CallerAdvance];
  }

  /** Stopping the last medium closes the generation and issues the DELETE of its resource. */
  lemma StopDeletes(steps: seq<Step>, media: Media) returns (run: seq<Step>)
    requires Run(INITIAL, steps).caller.at.Free? && Run(INITIAL, steps).engine.initialized
    requires !Flag(Run(INITIAL, steps).publish, Opposite(media))
    ensures run == steps + [StopPublish(media)] + [CallerAdvance] + [CallerAdvance] + [CallerAdvance]
                         + [CallerAdvance] + [CallerAdvance]
    ensures var s, r := Run(INITIAL, steps), Run(INITIAL, run);
      && r.caller.at.Free? && r.publish == Publish(s.publish.generation + 1, None, false, false, false)
      && r.server.deleted == s.server.deleted + Bag(s.publish.url) && r.server.lost == s.server.lost
  {
    RunSafe(steps);
    Extend(steps, StopPublish(media));
    run := steps + [StopPublish(media)];
    Extend(run, CallerAdvance);
    run := run + [CallerAdvance];
    assert Run(INITIAL, run).caller.at == Closing(TakeUrl);
    Extend(run, CallerAdvance);
    run := run + [CallerAdvance];
    assert Run(INITIAL, run).caller == Calls(Closing(StopVideo), Run(INITIAL, steps).publish.url, map[]);
    Extend(run, CallerAdvance);
    run := run + [CallerAdvance];
    Extend(run, CallerAdvance);
    run := run + [CallerAdvance];
    assert Run(INITIAL, run).caller == Calls(Closing(DeleteUrl), Run(INITIAL, steps).publish.url, map[]);
    Extend(run, CallerAdvance);
    run := run + [CallerAdvance];
  }

  lemma OneFewer(sessions: map<User, Session>, user: User)
    requires user in sessions
    ensures |sessions - {user}| < |sessions|
  {
    assert (sessions - {user}).Keys == sessions.Keys - {user};
  }

  lemma DeletesOne(s: State, user: User)
    requires s.caller.at.UninitDelete? && user in s.caller.closing
    ensures var r := Apply(s, DeleteSession(user));
      && r.caller.at.UninitDelete? && r.engine == s.engine && r.caller.closing == s.caller.closing - {user}
  {
  }

  /** A closer that has swapped out the sessions deletes them one by one and finishes. */
  lemma {:induction false} DeletesRemaining(steps: seq<Step>) returns (run: seq<Step>)
    requires Run(INITIAL, steps).caller.at.UninitDelete?
    ensures steps <= run && Run(INITIAL, run).caller.at.Free?
    ensures Run(INITIAL, run).engine.initialized == Run(INITIAL, steps).engine.initialized
    decreases |Run(INITIAL, steps).caller.closing|
  {
    var closing := Run(INITIAL, steps).caller.closing;
    if user :| user in closing {
      Extend(steps, DeleteSession(user));
      DeletesOne(Run(INITIAL, steps), user);
      OneFewer(closing, user);
      run := DeletesRemaining(steps + [DeleteSession(user)]);
    } else {
      assert closing == map[];
      Extend(steps, CallerAdvance);
      run := steps + [CallerAdvance];
    }
  }

  lemma UninitJoins(steps: seq<Step>) returns (run: seq<Step>)
    requires Idle(Run(INITIAL, steps))
    ensures steps <= run && Run(INITIAL, run).caller.at == UninitClose(TakeUrl) && !Run(INITIAL, run).engine.initialized
  {
    Extend(steps, Uninit);
    run := steps + [Uninit];
    Extend(run, CallerAdvance);
    run := run + [CallerAdvance];
    Extend(run, CallerAdvance);
    run := run + [CallerAdvance];
  }

  lemma UninitStopsMedia(steps: seq<Step>) returns (run: seq<Step>)
    requires Run(INITIAL, steps).caller.at == UninitClose(TakeUrl) && !Run(INITIAL, steps).engine.initialized
    ensures steps <= run && Run(INITIAL, run).caller.at == UninitClose(DeleteUrl)
    ensures !Run(INITIAL, run).engine.initialized
  {
    Extend(steps, CallerAdvance);
    run := steps + [CallerAdvance];
    Extend(run, CallerAdvance);
    run := run + [CallerAdvance];
    Extend(run, CallerAdvance);
    run := run + [CallerAdvance];
  }

  /** Closing the publication and swapping out the sessions. */
  lemma UninitCloses(steps: seq<Step>) returns (run: seq<Step>)
    requires Run(INITIAL, steps).caller.at == UninitClose(TakeUrl) && !Run(INITIAL, steps).engine.initialized
    ensures steps <= run && Run(INITIAL, run).caller.at.UninitDelete? && !Run(INITIAL, run).engine.initialized
  {
    run := UninitStopsMedia(steps);
    Extend(run, CallerAdvance);
    run := run + [CallerAdvance];
    Extend(run, CallerAdvance);
    run := run + [CallerAdvance];
  }

  /** Uninit of an idle engine can return, whatever is published and subscribed. */
  lemma UninitReturns(steps: seq<Step>) returns (run: seq<Step>)
    requires Idle(Run(INITIAL, steps))
    ensures steps <= run && Run(INITIAL, run).caller.at.Free? && !Run(INITIAL, run).engine.initialized
  {
    run := UninitJoins(steps);
    run := UninitCloses(run);
    run := DeletesRemaining(run);
  }
}
