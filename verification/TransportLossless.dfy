/** When a server resource can be lost: the inductive invariant of the protocol and its consequences. */
module TransportLossless {
  import opened Common
  import opened TransportProtocol
  import opened TransportSafety

  // ---------- the invariant ----------

  /** Nothing is left of a session: the state before Initialize and after Uninit. */
  ghost predicate Quiet(s: State) {
    && s.worker.at.Resting? && s.queue.tasks == [] && s.queue.inFlight == {}
    && s.publish.url.None? && s.pull.sessions == map[]
  }

  ghost predicate Phase(s: State) {
    var e := s.engine;
    match s.caller.at
    case Free => e.initialized == e.built == e.running && (!e.built ==> Quiet(s))
    case UninitStop => e.built && !e.initialized && e.running
    case UninitJoin => e.built && !e.initialized && !e.running && s.queue.tasks == []
    case UninitClose(closer) =>
      e.built && !e.initialized && !e.running && s.queue.tasks == [] && s.worker.at.Resting?
      && (!closer.TakeUrl? ==> s.publish.url.None?)
    case UninitSwap =>
      e.built && !e.initialized && !e.running && s.queue.tasks == [] && s.worker.at.Resting? && s.publish.url.None?
    case UninitDelete =>
      e.built && !e.initialized && !e.running && s.queue.tasks == [] && s.worker.at.Resting? && s.publish.url.None?
      && s.pull.sessions == map[]
    case _ => e.built && e.initialized && e.running
  }

  predicate Busy(w: Signaling) {
    !w.at.Resting? && !w.at.PublishReject? && !w.at.PublishClose?
  }

  predicate PublishBusy(w: Worker) {
    w.PublishCheck? || w.PublishRequest? || w.PublishAnswered? || w.PublishReadVideo? || w.PublishReadAudio?
    || w.PublishActive? || w.PublishApplied?
  }

  /** An Offer is in one place: in flight, queued once, or run by the worker. */
  ghost predicate Distinct(s: State) {
    var q := s.queue;
    && q.inFlight <= q.offered
    && (forall i :: 0 <= i < |q.tasks| ==> q.tasks[i] in q.offered && q.tasks[i] !in q.inFlight)
    && (forall i, j :: 0 <= i < j < |q.tasks| ==> q.tasks[i] != q.tasks[j])
    && (Busy(s.worker) ==>
          && s.worker.task in q.offered && s.worker.task !in q.inFlight && s.worker.task !in q.tasks
          && (PublishBusy(s.worker.at) <==> s.worker.task.PublishTask?))
  }

  ghost predicate Bounded(s: State) {
    && (forall t :: t in s.queue.offered ==>
          if t.PublishTask? then t.generation <= s.publish.generation else t.transport < s.pull.nextTransport)
    && (forall u :: u in s.pull.sessions ==> s.pull.sessions[u].transport < s.pull.nextTransport)
  }

  /** The Offer has been made and dealt with. */
  ghost predicate Done(s: State, t: Task) {
    t in s.queue.offered && t !in s.queue.inFlight && t !in s.queue.tasks && !(Busy(s.worker) && s.worker.task == t)
  }

  /** A URL is stored only once its own Offer has been dealt with, so no later store can overwrite it. */
  ghost predicate StoredDone(s: State) {
    && (s.publish.url.Some? ==> Done(s, PublishTask(s.publish.generation)))
    && (forall u :: u in s.pull.sessions && s.pull.sessions[u].url.Some? ==>
          Done(s, PullTask(u, s.pull.sessions[u].transport)))
    && (s.caller.at.Subscribed? ==>
          var user, t := s.caller.at.user, s.caller.at.transport;
          t < s.pull.nextTransport && (user in s.pull.sessions ==> s.pull.sessions[user].transport == t))
    && (s.caller.at.SubscribeFailed? ==>
          var user, t := s.caller.at.user, s.caller.at.transport;
          && Done(s, PullTask(user, t))
          && (user in s.pull.sessions ==> s.pull.sessions[user].transport == t && s.pull.sessions[user].url.None?))
  }

  /** Some medium is published, or the caller is about to close, or a failed start has left the session behind. */
  predicate Live(s: State) {
    s.publish.video || s.publish.audio || s.publish.orphaned || s.caller.at.Stopping? || s.caller.at == Closing(TakeUrl)
  }

  ghost predicate StoredLive(s: State) {
    && (s.publish.url.Some? ==> Live(s))
    && ((s.worker.at.PublishActive? || s.worker.at.PublishApplied?) && Current(s) ==> Live(s))
    && (s.worker.at.PublishClose? && !s.worker.at.closer.TakeUrl? ==> s.publish.url.None?)
    && (s.caller.at.Stopping? ==> !Flag(s.publish, s.caller.at.media))
    && (s.caller.at.Closing? ==> !s.publish.video && !s.publish.audio)
  }

  ghost predicate Safe(s: State) {
    Tidy(s) && Phase(s) && Distinct(s) && Bounded(s) && StoredDone(s) && StoredLive(s)
  }

  /** What one step keeps, apart from what a caller's start may lose. */
  ghost predicate Lossless(s: State, r: State) {
    Phase(r) && Distinct(r) && Bounded(r) && StoredDone(r) && StoredLive(r) && r.server.lost == s.server.lost
  }

  // ---------- the signalling worker ----------

  lemma TakeKeeps(s: State)
    requires Safe(s) && s.worker.at.Resting?
    ensures Lossless(s, Take(s))
  {
  }

  lemma StorePublishKeeps(s: State)
    requires Safe(s) && s.worker.at.PublishApplied?
    ensures Lossless(s, StorePublish(s))
  {
  }

  lemma StorePullKeeps(s: State)
    requires Safe(s) && s.worker.at.PullApplied?
    ensures Lossless(s, StorePull(s))
  {
  }

  lemma ErasePullKeeps(s: State)
    requires Safe(s) && s.worker.at.PullErase?
    ensures Lossless(s, ErasePull(s))
  {
  }

  lemma RejectKeeps(s: State, at: Worker)
    requires Safe(s)
    requires || (s.worker.at.PublishReject? && (at.Resting? || at == PublishClose(TakeUrl)))
             || (s.worker.at.PullReject? && (at.Resting? || at.PullErase?))
             || (s.worker.at == PublishClose(DeleteUrl) && at.Resting?)
    ensures Lossless(s, DeleteResponse(s, at))
  {
  }

  lemma WorkerCloseKeeps(s: State)
    requires Safe(s) && s.worker.at.PublishClose? && !s.worker.at.closer.DeleteUrl?
    ensures Lossless(s, WorkerClose(s, s.worker.at.closer))
  {
  }

  lemma PublishCheckKeeps(s: State)
    requires Safe(s)
    requires s.worker.at.PublishCheck? || s.worker.at.PublishAnswered?
             || s.worker.at.PublishReadVideo? || s.worker.at.PublishReadAudio?
    ensures Lossless(s, WorkerAdvanceFrom(s))
  {
  }

  lemma PullCheckKeeps(s: State)
    requires Safe(s) && (s.worker.at.PullCheck? || s.worker.at.PullAnswered?)
    ensures Lossless(s, WorkerAdvanceFrom(s))
  {
  }

  lemma AnswerKeeps(s: State, url: Option<Url>)
    requires Safe(s)
    ensures Lossless(s, Answered(s, url))
  {
  }

  lemma RefuseKeeps(s: State)
    requires Safe(s)
    ensures Lossless(s, WorkerStep(s, Refuse))
  {
  }

  lemma SetRemoteKeeps(s: State, ok: bool)
    requires Safe(s)
    ensures Lossless(s, WorkerStep(s, SetRemote(ok)))
  {
  }

  lemma WorkerKeeps(s: State)
    requires Safe(s)
    ensures Lossless(s, WorkerAdvanceFrom(s))
  {
    match s.worker.at
    case Resting => TakeKeeps(s);
    case PublishApplied => StorePublishKeeps(s);
    case PublishReject(close) => RejectKeeps(s, if close then PublishClose(TakeUrl) else Resting);
    case PublishClose(closer) =>
      if closer.DeleteUrl? {
        RejectKeeps(s, Resting);
      } else {
        WorkerCloseKeeps(s);
      }
    case PullApplied => StorePullKeeps(s);
    case PullReject(erase) => RejectKeeps(s, if erase then PullErase else Resting);
    case PullErase => ErasePullKeeps(s);
    case PublishRequest =>
    case PublishActive =>
    case PullRequest =>
    case PullActive =>
    case PullCheck => PullCheckKeeps(s);
    case PullAnswered => PullCheckKeeps(s);
    case _ => PublishCheckKeeps(s);
  }

  // ---------- the callback thread ----------

  lemma OfferKeeps(s: State, offer: Task)
    requires Safe(s)
    requires if offer.PublishTask? then offer.generation == s.publish.generation
             else offer.user in s.pull.sessions && s.pull.sessions[offer.user].transport == offer.transport
    ensures Lossless(s, Offer(s, offer))
  {
  }

  lemma EnqueueKeeps(s: State, offer: Task)
    requires Safe(s)
    ensures Lossless(s, Enqueue(s, offer))
  {
  }

  lemma CallbackKeeps(s: State, step: Step)
    requires Safe(s)
    ensures Lossless(s, CallbackStep(s, step))
  {
    match step
    case OfferPublish => OfferKeeps(s, PublishTask(s.publish.generation));
    case OfferPull(user) =>
      if user in s.pull.sessions {
        OfferKeeps(s, PullTask(user, s.pull.sessions[user].transport));
      }
    case Post(offer) => EnqueueKeeps(s, offer);
    case _ =>
  }

  // ---------- the API caller ----------

  lemma CallerCloseKeeps(s: State)
    requires Safe(s) && s.caller.at.Closing?
    ensures Lossless(s, CallerAdvanceFrom(s))
  {
  }

  lemma UninitCloseKeeps(s: State)
    requires Safe(s) && s.caller.at.UninitClose?
    ensures Lossless(s, CallerAdvanceFrom(s))
  {
  }

  lemma InsertKeeps(s: State)
    requires Safe(s) && s.caller.at.Subscribing?
    ensures Lossless(s, Insert(s, s.caller.at.user))
  {
  }

  lemma EraseFailedKeeps(s: State)
    requires Safe(s) && s.caller.at.SubscribeFailed?
    ensures Lossless(s, CallerAdvanceFrom(s))
  {
  }

  lemma UnsubscribingKeeps(s: State)
    requires Safe(s) && s.caller.at.Unsubscribing?
    ensures Lossless(s, CallerAdvanceFrom(s))
  {
  }

  lemma UninitAdvanceKeeps(s: State)
    requires Safe(s)
    requires s.caller.at.UninitStop? || s.caller.at.UninitJoin? || s.caller.at.UninitSwap? || s.caller.at.UninitDelete?
    ensures Lossless(s, CallerAdvanceFrom(s))
  {
  }

  lemma StoppingKeeps(s: State)
    requires Safe(s) && s.caller.at.Stopping?
    ensures Lossless(s, CallerAdvanceFrom(s))
  {
  }

  lemma CallerAdvanceKeeps(s: State)
    requires Safe(s)
    ensures Lossless(s, CallerAdvanceFrom(s))
  {
    match s.caller.at
    case Stopping(_) => StoppingKeeps(s);
    case Closing(_) => CallerCloseKeeps(s);
    case Subscribing(_) => InsertKeeps(s);
    case SubscribeFailed(_, _) => EraseFailedKeeps(s);
    case Unsubscribing => UnsubscribingKeeps(s);
    case UninitClose(_) => UninitCloseKeeps(s);
    case UninitStop => UninitAdvanceKeeps(s);
    case UninitJoin => UninitAdvanceKeeps(s);
    case UninitSwap => UninitAdvanceKeeps(s);
    case UninitDelete => UninitAdvanceKeeps(s);
    case _ =>
  }

  lemma InitializeKeeps(s: State)
    requires Safe(s)
    ensures Lossless(s, CallerStep(s, Initialize))
  {
  }

  lemma PushStartKeeps(s: State, ok: bool)
    requires Safe(s)
    ensures Lossless(s, CallerStep(s, PushStart(ok)))
  {
  }

  lemma LaunchThreadKeeps(s: State, ok: bool)
    requires Safe(s)
    ensures Lossless(s, CallerStep(s, LaunchThread(ok)))
  {
  }

  lemma StopPublishKeeps(s: State, media: Media)
    requires Safe(s)
    ensures Lossless(s, CallerStep(s, StopPublish(media)))
  {
  }

  lemma PullCallKeeps(s: State, step: Step)
    requires Safe(s) && (step.Subscribe? || step.Uninit?)
    ensures Lossless(s, CallerStep(s, step))
  {
  }

  lemma SubscribeResultKeeps(s: State, ok: bool)
    requires Safe(s)
    ensures Lossless(s, CallerStep(s, SubscribeResult(ok)))
  {
  }

  lemma UnsubscribeKeeps(s: State, user: User)
    requires Safe(s)
    ensures Lossless(s, CallerStep(s, Unsubscribe(user)))
  {
  }

  lemma DeleteSessionKeeps(s: State, user: User)
    requires Safe(s)
    ensures Lossless(s, CallerStep(s, DeleteSession(user)))
  {
  }

  /** The one place where a URL can be lost: a start that finds nothing published but a URL still stored. */
  predicate Forgets(s: State, step: Step) {
    step.StartPublish? && s.caller.at.Free? && s.engine.initialized && !s.publish.video && !s.publish.audio
    && s.publish.url.Some?
  }

  lemma StartPublishKeeps(s: State, media: Media)
    requires Safe(s)
    ensures var r := CallerStep(s, StartPublish(media));
      && Phase(r) && Distinct(r) && Bounded(r) && StoredDone(r) && StoredLive(r)
      && r.server.lost == s.server.lost + if Forgets(s, StartPublish(media)) then Bag(s.publish.url) else multiset{}
  {
  }

  lemma CallerKeeps(s: State, step: Step)
    requires Safe(s) && !step.StartPublish?
    ensures Lossless(s, CallerStep(s, step))
  {
    match step
    case Initialize => InitializeKeeps(s);
    case PushStart(ok) => PushStartKeeps(s, ok);
    case LaunchThread(ok) => LaunchThreadKeeps(s, ok);
    case StopPublish(media) => StopPublishKeeps(s, media);
    case Subscribe(_) => PullCallKeeps(s, step);
    case Uninit => PullCallKeeps(s, step);
    case SubscribeResult(ok) => SubscribeResultKeeps(s, ok);
    case Unsubscribe(user) => UnsubscribeKeeps(s, user);
    case DeleteSession(user) => DeleteSessionKeeps(s, user);
    case CallerAdvance => CallerAdvanceKeeps(s);
    case _ =>
  }

  lemma StepKeeps(s: State, step: Step)
    requires Safe(s) && !step.StartPublish?
    ensures Lossless(s, Apply(s, step))
  {
    if ByCallback(step) {
      CallbackKeeps(s, step);
    } else if step.WorkerAdvance? {
      WorkerKeeps(s);
    } else if step.Answer? {
      AnswerKeeps(s, step.url);
    } else if step.Refuse? {
      RefuseKeeps(s);
    } else if step.SetRemote? {
      SetRemoteKeeps(s, step.ok);
    } else {
      CallerKeeps(s, step);
    }
  }

  // ---------- whole runs ----------

  lemma StepSafe(s: State, step: Step)
    requires Safe(s)
    ensures Safe(Apply(s, step))
    ensures Apply(s, step).server.lost == s.server.lost + if Forgets(s, step) then Bag(s.publish.url) else multiset{}
  {
    StepTidy(s, step);
    if step.StartPublish? {
      StartPublishKeeps(s, step.media);
    } else {
      StepKeeps(s, step);
    }
  }

  lemma StepTidy(s: State, step: Step)
    requires Tidy(s)
    ensures Tidy(Apply(s, step))
  {
    if step.Answer? {
      AnswerAccounts(s, step.url, 0);
    } else {
      StepAccounts(s, step, 0);
    }
  }

  lemma {:induction false} RunSafe(steps: seq<Step>)
    ensures Safe(Run(INITIAL, steps))
  {
    if steps == [] {
    } else {
      RunSafe(steps[..|steps| - 1]);
      StepSafe(Run(INITIAL, steps[..|steps| - 1]), steps[|steps| - 1]);
    }
  }

  /** A failed start has left a session behind and nothing is published that would make a start join it. */
  predicate Abandoned(p: Publish) { p.orphaned && !p.video && !p.audio }

  /**
   In any reachable state a step loses a URL if and only if it is a start that finds nothing published
   and a URL still stored, and then only the session of a start whose media thread could not be created is there.
   */
  lemma LossExactly(steps: seq<Step>, step: Step)
    ensures var s := Run(INITIAL, steps);
      && (Apply(s, step).server.lost != s.server.lost <==> Forgets(s, step))
      && (Forgets(s, step) ==> Abandoned(s.publish))
  {
    RunSafe(steps);
    var s := Run(INITIAL, steps);
    StepSafe(s, step);
    if Forgets(s, step) {
      var u := s.publish.url.value;
      assert (s.server.lost + multiset{u})[u] == s.server.lost[u] + 1;
    }
  }

  /** No start is made while only a failed start's session is there: Stop* comes first. */
  ghost predicate Careful(steps: seq<Step>) {
    forall i :: 0 <= i < |steps| && steps[i].StartPublish? ==> !Abandoned(Run(INITIAL, steps[..i]).publish)
  }

  lemma CarefulPrefix(steps: seq<Step>, n: nat)
    requires Careful(steps) && n <= |steps|
    ensures Careful(steps[..n])
  {
    forall i | 0 <= i < n && steps[..n][i].StartPublish? ensures !Abandoned(Run(INITIAL, steps[..n][..i]).publish) {
      assert steps[..n][..i] == steps[..i] && steps[i].StartPublish?;
    }
  }

  /** Over every careful run no URL is lost: the clear in StartPublish never discards a live one. */
  lemma {:induction false} NeverLost(steps: seq<Step>)
    requires Careful(steps)
    ensures Run(INITIAL, steps).server.lost == multiset{}
  {
    if steps == [] {
    } else {
      var last := |steps| - 1;
      CarefulPrefix(steps, last);
      NeverLost(steps[..last]);
      LossExactly(steps[..last], steps[last]);
    }
  }

  lemma OrphanedOnlyByLaunch(s: State, step: Step)
    requires !s.publish.orphaned && step != LaunchThread(false)
    ensures !Apply(s, step).publish.orphaned
  {
    WorkerNotOrphaning(s);
    CallerNotOrphaning(s);
  }

  lemma WorkerNotOrphaning(s: State)
    requires !s.publish.orphaned
    ensures !WorkerAdvanceFrom(s).publish.orphaned
  {
  }

  lemma CallerNotOrphaning(s: State)
    requires !s.publish.orphaned
    ensures !CallerAdvanceFrom(s).publish.orphaned
  {
  }

  /** In particular no run in which every media thread can be created loses a URL. */
  lemma {:induction false} NeverLostWithThreads(steps: seq<Step>)
    requires forall i :: 0 <= i < |steps| ==> steps[i] != LaunchThread(false)
    ensures !Run(INITIAL, steps).publish.orphaned && Run(INITIAL, steps).server.lost == multiset{}
  {
    if steps == [] {
    } else {
      var last := |steps| - 1;
      NeverLostWithThreads(steps[..last]);
      LossExactly(steps[..last], steps[last]);
      OrphanedOnlyByLaunch(Run(INITIAL, steps[..last]), steps[last]);
    }
  }

  /** Once Uninit has returned, every resource has had exactly one DELETE, apart from a forgotten one. */
  lemma ShutdownDeletesAll(steps: seq<Step>, u: Url)
    requires Run(INITIAL, steps).caller.at.Free? && !Run(INITIAL, steps).engine.initialized
    requires u in Run(INITIAL, steps).server.posted
    ensures var server := Run(INITIAL, steps).server; server.deleted[u] + server.lost[u] == 1
    ensures Careful(steps) ==> Run(INITIAL, steps).server.deleted[u] == 1
  {
    RunSafe(steps);
    OnePlace(steps, u);
    HoldersEmpty(u);
    if Careful(steps) {
      NeverLost(steps);
    }
  }

  /** A stored publish URL belongs to the current generation: it is stored under it and dies with it. */
  lemma StoredUrlIsCurrent(s: State, step: Step)
    ensures var r := Apply(s, step);
      && (r.publish.generation != s.publish.generation ==> r.publish.url.None?)
      && (r.publish.url.Some? && r.publish.url != s.publish.url ==>
            s.worker.task == PublishTask(r.publish.generation) && r.publish.url == s.worker.response)
  {
    WorkerStoresCurrent(s);
    CallerStoresNothing(s);
  }

  ghost predicate StoresCurrent(s: State, r: State) {
    && (r.publish.generation != s.publish.generation ==> r.publish.url.None?)
    && (r.publish.url.Some? && r.publish.url != s.publish.url ==>
          s.worker.task == PublishTask(r.publish.generation) && r.publish.url == s.worker.response)
  }

  lemma WorkerStoresCurrent(s: State)
    ensures StoresCurrent(s, WorkerAdvanceFrom(s))
  {
  }

  lemma CallerStoresNothing(s: State)
    ensures StoresCurrent(s, CallerAdvanceFrom(s))
  {
  }

  lemma Extend(steps: seq<Step>, step: Step)
    ensures Run(INITIAL, steps + [step]) == Apply(Run(INITIAL, steps), step)
  {
    assert (steps + [step])[..|steps|] == steps;
  }

  // ---------- the losing run ----------

  /** A first start whose flag is set and whose Offer is queued; `at` and `response` follow the worker. */
  function Started(at: Worker, response: Option<Url>, tasks: seq<Task>, posted: set<Url>): State {
    State(Engine(true, true, true), Publish(1, None, true, false, false), Pull(map[], 0),
          Queue({PublishTask(1)}, {}, tasks),
          Signaling(at, if at.Resting? then PublishTask(0) else PublishTask(1), response),
          Calls(Launching(Video), None, map[]), Server(posted, multiset{}, multiset{}))
  }

  lemma OfferQueued() returns (steps: seq<Step>)
    ensures Run(INITIAL, steps) == Started(Resting, None, [PublishTask(1)], {})
  {
    var s1 := Apply(INITIAL, Initialize);
    assert s1.engine == Engine(true, true, true) && s1.publish == Publish(0, None, false, false, false);
    Extend([], Initialize);
    steps := [] + [Initialize];
    Extend(steps, StartPublish(Video));
    steps := steps + [StartPublish(Video)];
    Extend(steps, PushStart(true));
    steps := steps + [PushStart(true)];
    assert Run(INITIAL, steps).publish == Publish(1, None, true, false, false);
    Extend(steps, OfferPublish);
    steps := steps + [OfferPublish];
    Extend(steps, Post(PublishTask(1)));
    steps := steps + [Post(PublishTask(1))];
  }

  lemma OfferAnswered() returns (steps: seq<Step>)
    ensures Run(INITIAL, steps) == Started(PublishApplied, Some(7), [], {7})
  {
    steps := OfferQueued();
    Extend(steps, WorkerAdvance);
    steps := steps + [WorkerAdvance];
    assert Run(INITIAL, steps) == Started(PublishCheck, None, [], {});
    Extend(steps, WorkerAdvance);
    steps := steps + [WorkerAdvance];
    Extend(steps, Answer(Some(7)));
    steps := steps + [Answer(Some(7))];
    assert Run(INITIAL, steps) == Started(PublishAnswered, Some(7), [], {7});
    Extend(steps, WorkerAdvance);
    steps := steps + [WorkerAdvance];
    Extend(steps, WorkerAdvance);
    steps := steps + [WorkerAdvance];
    Extend(steps, SetRemote(true));
    steps := steps + [SetRemote(true)];
  }

  /** The worker stores the URL of a start whose media thread then cannot be created; the next start forgets it. */
  lemma FailedLaunchLosesUrl() returns (steps: seq<Step>)
    ensures Run(INITIAL, steps).server.lost == multiset{7}
  {
    steps := OfferAnswered();
    Extend(steps, LaunchThread(false));
    steps := steps + [LaunchThread(false)];
    Extend(steps, WorkerAdvance);
    steps := steps + [WorkerAdvance];
    assert Run(INITIAL, steps).publish == Publish(1, Some(7), false, false, true);
    Extend(steps, StartPublish(Video));
    steps := steps + [StartPublish(Video)];
  }
}
