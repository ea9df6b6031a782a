/**
 The WHIP/WHEP resource protocol of the transport engine as a state machine. Each step is one
 critical section, one HTTP call or one atomic flag access of one of three actors: the serialised
 API caller, the signalling worker and the media library's callback thread. A step that its actor
 cannot take leaves the state unchanged, so every sequence of steps is a run.
 */
module TransportProtocol {
  import opened Common

  type Url = nat
  type User = string

  datatype Media = Video | Audio

  datatype Session = Session(transport: nat, url: Option<Url>)

  /** A queued signalling task: an Offer of a publish generation or of one pull session's transport. */
  datatype Task = PublishTask(generation: nat) | PullTask(user: User, transport: nat)

  /** Progress through ClosePublish: take the stored URL, stop both media, issue the DELETE. */
  datatype Closer = TakeUrl | StopVideo | StopAudio | DeleteUrl

  /** Where the signalling worker is in the task it runs. */
  datatype Worker =
    | Resting
    | PublishCheck
    | PublishRequest
    | PublishAnswered
    | PublishReadVideo
    | PublishReadAudio
    | PublishActive
    | PublishApplied
    | PublishReject(close: bool)
    | PublishClose(closer: Closer)
    | PullCheck
    | PullRequest
    | PullAnswered
    | PullActive
    | PullApplied
    | PullReject(erase: bool)
    | PullErase

  datatype Caller =
    | Free
    | Starting(media: Media)
    | Launching(media: Media)
    | Stopping(media: Media)
    | Closing(closer: Closer)
    | Subscribing(user: User)
    | Subscribed(user: User, transport: nat)
    | SubscribeFailed(user: User, transport: nat)
    | Unsubscribing
    | UninitStop
    | UninitJoin
    | UninitClose(closer: Closer)
    | UninitSwap
    | UninitDelete

  datatype Engine = Engine(initialized: bool, built: bool, running: bool)

  /** `orphaned` records a start whose media thread could not be created, until the session is closed or renewed. */
  datatype Publish = Publish(generation: nat, url: Option<Url>, video: bool, audio: bool, orphaned: bool)

  datatype Pull = Pull(sessions: map<User, Session>, nextTransport: nat)

  /** Offers made (`offered`), captured but not yet queued (`inFlight`) and queued for the worker (`tasks`). */
  datatype Queue = Queue(offered: set<Task>, inFlight: set<Task>, tasks: seq<Task>)

  /** The worker's position, the task it runs and the URL it holds. */
  datatype Signaling = Signaling(at: Worker, task: Task, response: Option<Url>)

  /** The caller's position, the URL it holds and the sessions that CloseAllPull has swapped out. */
  datatype Calls = Calls(at: Caller, taken: Option<Url>, closing: map<User, Session>)

  /** The ghost server: URLs handed out by POST, DELETEs issued, and URLs overwritten, cleared or dropped. */
  datatype Server = Server(posted: set<Url>, deleted: multiset<Url>, lost: multiset<Url>)

  datatype State = State(engine: Engine, publish: Publish, pull: Pull, queue: Queue,
                         worker: Signaling, caller: Calls, server: Server)

  const INITIAL := State(Engine(false, false, false), Publish(0, None, false, false, false), Pull(map[], 0),
                         Queue({}, {}, []), Signaling(Resting, PublishTask(0), None), Calls(Free, None, map[]),
                         Server({}, multiset{}, multiset{}))

  datatype Step =
    // caller
    | Initialize
    | StartPublish(media: Media)
    | PushStart(ok: bool)
    | LaunchThread(ok: bool)
    | StopPublish(media: Media)
    | Subscribe(user: User)
    | SubscribeResult(ok: bool)
    | Unsubscribe(user: User)
    | Uninit
    | DeleteSession(user: User)
    | CallerAdvance
    // callback thread
    | OfferPublish
    | OfferPull(user: User)
    | Post(offer: Task)
    // signalling worker
    | WorkerAdvance
    | Answer(url: Option<Url>)
    | Refuse
    | SetRemote(ok: bool)

  function Bag(url: Option<Url>): multiset<Url> {
    if url.Some? then multiset{url.value} else multiset{}
  }

  function Lose(server: Server, url: Option<Url>): Server { server.(lost := server.lost + Bag(url)) }

  /** DELETE needs the signalling client; without it the URL is dropped. */
  function Delete(s: State, url: Option<Url>): Server {
    if s.engine.built then s.server.(deleted := s.server.deleted + Bag(url)) else Lose(s.server, url)
  }

  function SetFlag(p: Publish, media: Media, on: bool): Publish {
    if media.Video? then p.(video := on) else p.(audio := on)
  }

  function Flag(p: Publish, media: Media): bool { if media.Video? then p.video else p.audio }

  function Opposite(media: Media): Media { if media.Video? then Audio else Video }

  function NextGeneration(p: Publish): Publish { p.(generation := p.generation + 1, url := None, orphaned := false) }

  function Erase(pull: Pull, user: User): Pull { pull.(sessions := pull.sessions - {user}) }

  function SessionUrl(sessions: map<User, Session>, user: User): Option<Url> {
    if user in sessions then sessions[user].url else None
  }

  // ---------- the API caller ----------

  function At(s: State, at: Caller): Calls { s.caller.(at := at) }

  /** The critical section of StartPublish*: a new generation when nothing is published. */
  function StartSection(s: State, media: Media): State {
    if !s.publish.video && !s.publish.audio
    then s.(publish := NextGeneration(s.publish), server := Lose(s.server, s.publish.url),
            caller := At(s, Starting(media)))
    else s.(caller := At(s, Starting(media)))
  }

  /** One step of ClosePublish run by the caller, who goes on to `next`. */
  function CallerClose(s: State, closer: Closer, next: Caller): State {
    match closer
    case TakeUrl => s.(publish := NextGeneration(s.publish), caller := At(s, next).(taken := s.publish.url))
    case StopVideo => s.(publish := s.publish.(video := false), caller := At(s, next))
    case StopAudio => s.(publish := s.publish.(audio := false), caller := At(s, next))
    case DeleteUrl => s.(server := Delete(s, s.caller.taken), caller := At(s, next).(taken := None))
  }

  function NextCloser(closer: Closer): Closer {
    match closer
    case TakeUrl => StopVideo
    case StopVideo => StopAudio
    case _ => DeleteUrl
  }

  function Insert(s: State, user: User): State {
    if user in s.pull.sessions then s.(caller := At(s, Free))
    else s.(pull := Pull(s.pull.sessions[user := Session(s.pull.nextTransport, None)], s.pull.nextTransport + 1),
            caller := At(s, Subscribed(user, s.pull.nextTransport)))
  }

  function FinishUninit(s: State): State {
    if s.caller.closing != map[] then s
    else s.(publish := s.publish.(url := None), server := Lose(s.server, s.publish.url),
            engine := s.engine.(built := false), queue := s.queue.(inFlight := {}), caller := At(s, Free))
  }

  function CallerAdvanceFrom(s: State): State {
    match s.caller.at
    case Stopping(media) =>
      s.(caller := At(s, if Flag(s.publish, Opposite(media)) then Free else Closing(TakeUrl)))
    case Closing(closer) => CallerClose(s, closer, if closer.DeleteUrl? then Free else Closing(NextCloser(closer)))
    case Subscribing(user) => Insert(s, user)
    case SubscribeFailed(user, _) =>
      s.(server := Lose(s.server, SessionUrl(s.pull.sessions, user)), pull := Erase(s.pull, user),
         caller := At(s, Free))
    case Unsubscribing => CallerClose(s, DeleteUrl, Free)
    case UninitStop =>
      s.(engine := s.engine.(running := false), queue := s.queue.(tasks := []), caller := At(s, UninitJoin))
    case UninitJoin => if s.worker.at.Resting? then s.(caller := At(s, UninitClose(TakeUrl))) else s
    case UninitClose(closer) =>
      CallerClose(s, closer, if closer.DeleteUrl? then UninitSwap else UninitClose(NextCloser(closer)))
    case UninitSwap =>
      s.(pull := s.pull.(sessions := map[]), caller := At(s, UninitDelete).(closing := s.pull.sessions))
    case UninitDelete => FinishUninit(s)
    case _ => s
  }

  function Initialized(s: State): State {
    s.(engine := Engine(true, true, true), publish := Publish(0, None, false, false, false),
       queue := s.queue.(offered := {}), server := Lose(s.server, s.publish.url))
  }

  function SubscriptionEnds(s: State, user: User, transport: nat, ok: bool): State {
    if ok then s.(caller := At(s, Free))
    // The Offer is made last, so a subscription that fails has made none and makes none.
    else if PullTask(user, transport) in s.queue.offered then s
    else s.(queue := s.queue.(offered := s.queue.offered + {PullTask(user, transport)}),
            caller := At(s, SubscribeFailed(user, transport)))
  }

  function DeleteClosing(s: State, user: User): State {
    s.(server := Delete(s, SessionUrl(s.caller.closing, user)),
       caller := s.caller.(closing := s.caller.closing - {user}))
  }

  function CallerStep(s: State, step: Step): State {
    match step
    case Initialize => if s.caller.at.Free? && !s.engine.initialized then Initialized(s) else s
    case StartPublish(media) => if s.caller.at.Free? && s.engine.initialized then StartSection(s, media) else s
    case PushStart(ok) =>
      if !s.caller.at.Starting? then s
      else if ok && !Flag(s.publish, s.caller.at.media)
      then s.(publish := SetFlag(s.publish, s.caller.at.media, true), caller := At(s, Launching(s.caller.at.media)))
      else s.(caller := At(s, Free))
    case LaunchThread(ok) =>
      if !s.caller.at.Launching? then s
      else if ok then s.(caller := At(s, Free))
      else s.(publish := SetFlag(s.publish, s.caller.at.media, false).(orphaned := true), caller := At(s, Free))
    case StopPublish(media) =>
      if s.caller.at.Free? && s.engine.built
      then s.(publish := SetFlag(s.publish, media, false), caller := At(s, Stopping(media)))
      else s
    case Subscribe(user) =>
      if s.caller.at.Free? && s.engine.initialized && user !in s.pull.sessions
      then s.(caller := At(s, Subscribing(user)))
      else s
    case SubscribeResult(ok) =>
      if s.caller.at.Subscribed? then SubscriptionEnds(s, s.caller.at.user, s.caller.at.transport, ok) else s
    case Unsubscribe(user) =>
      if s.caller.at.Free? && user in s.pull.sessions
      then s.(pull := Erase(s.pull, user), caller := At(s, Unsubscribing).(taken := s.pull.sessions[user].url))
      else s
    case Uninit =>
      if s.caller.at.Free? && s.engine.initialized
      then s.(engine := s.engine.(initialized := false), caller := At(s, UninitStop))
      else s
    case DeleteSession(user) =>
      if s.caller.at.UninitDelete? && user in s.caller.closing then DeleteClosing(s, user) else s
    case CallerAdvance => CallerAdvanceFrom(s)
    case _ => s
  }

  // ---------- the callback thread ----------

  /** At most one Offer is made per publish generation and per pull session. */
  function Offer(s: State, offer: Task): State {
    if s.engine.initialized && offer !in s.queue.offered
    then s.(queue := s.queue.(offered := s.queue.offered + {offer}, inFlight := s.queue.inFlight + {offer}))
    else s
  }

  function Enqueue(s: State, offer: Task): State {
    if offer !in s.queue.inFlight then s
    else s.(queue := Queue(s.queue.offered, s.queue.inFlight - {offer},
                           if s.engine.running then s.queue.tasks + [offer] else s.queue.tasks))
  }

  function CallbackStep(s: State, step: Step): State {
    match step
    case OfferPublish => Offer(s, PublishTask(s.publish.generation))
    case OfferPull(user) =>
      if user in s.pull.sessions then Offer(s, PullTask(user, s.pull.sessions[user].transport)) else s
    case Post(offer) => Enqueue(s, offer)
    case _ => s
  }

  // ---------- the signalling worker ----------

  predicate Current(s: State) { s.worker.task.PublishTask? && s.worker.task.generation == s.publish.generation }

  predicate OwnsSession(s: State) {
    s.worker.task.PullTask? && s.worker.task.user in s.pull.sessions
    && s.pull.sessions[s.worker.task.user].transport == s.worker.task.transport
  }

  function Goes(s: State, at: Worker): State { s.(worker := s.worker.(at := at)) }

  function Take(s: State): State {
    if s.engine.running && s.queue.tasks != []
    then s.(queue := s.queue.(tasks := s.queue.tasks[1..]),
            worker := Signaling(if s.queue.tasks[0].PublishTask? then PublishCheck else PullCheck,
                                s.queue.tasks[0], s.worker.response))
    else s
  }

  function DeleteResponse(s: State, at: Worker): State {
    s.(server := Delete(s, s.worker.response), worker := s.worker.(at := at, response := None))
  }

  function WorkerClose(s: State, closer: Closer): State {
    match closer
    case TakeUrl =>
      s.(publish := NextGeneration(s.publish),
         worker := s.worker.(at := PublishClose(StopVideo), response := s.publish.url))
    case StopVideo => Goes(s, PublishClose(StopAudio)).(publish := s.publish.(video := false))
    case StopAudio => Goes(s, PublishClose(DeleteUrl)).(publish := s.publish.(audio := false))
    case DeleteUrl => DeleteResponse(s, Resting)
  }

  function StorePublish(s: State): State {
    if Current(s)
    then s.(server := Lose(s.server, s.publish.url), publish := s.publish.(url := s.worker.response),
            worker := s.worker.(at := Resting, response := None))
    else Goes(s, PublishReject(false))
  }

  function StorePull(s: State): State {
    if OwnsSession(s)
    then s.(server := Lose(s.server, SessionUrl(s.pull.sessions, s.worker.task.user)),
            pull := s.pull.(sessions := s.pull.sessions[s.worker.task.user :=
                                          Session(s.worker.task.transport, s.worker.response)]),
            worker := s.worker.(at := Resting, response := None))
    else Goes(s, PullReject(false))
  }

  function ErasePull(s: State): State {
    if OwnsSession(s)
    then Goes(s, Resting).(server := Lose(s.server, SessionUrl(s.pull.sessions, s.worker.task.user)),
                           pull := Erase(s.pull, s.worker.task.user))
    else Goes(s, Resting)
  }

  function WorkerAdvanceFrom(s: State): State {
    match s.worker.at
    case Resting => Take(s)
    case PublishCheck => Goes(s, if s.engine.initialized && Current(s) then PublishRequest else Resting)
    case PublishAnswered =>
      Goes(s, if s.engine.initialized && Current(s) then PublishReadVideo else PublishReject(false))
    case PublishReadVideo => Goes(s, if s.publish.video then PublishActive else PublishReadAudio)
    case PublishReadAudio => Goes(s, if s.publish.audio then PublishActive else PublishReject(false))
    case PublishApplied => StorePublish(s)
    case PublishReject(close) => DeleteResponse(s, if close then PublishClose(TakeUrl) else Resting)
    case PublishClose(closer) => WorkerClose(s, closer)
    case PullCheck => Goes(s, if OwnsSession(s) then PullRequest else Resting)
    case PullAnswered => Goes(s, if OwnsSession(s) then PullActive else PullReject(false))
    case PullApplied => StorePull(s)
    case PullReject(erase) => DeleteResponse(s, if erase then PullErase else Resting)
    case PullErase => ErasePull(s)
    case _ => s
  }

  /** The server answers a POST with a URL it has not used before, or with none. */
  function Answered(s: State, url: Option<Url>): State {
    if (url.Some? && url.value in s.server.posted) || !(s.worker.at.PublishRequest? || s.worker.at.PullRequest?) then s
    else s.(server := s.server.(posted := s.server.posted + if url.Some? then {url.value} else {}),
            worker := s.worker.(at := if s.worker.at.PublishRequest? then PublishAnswered else PullAnswered,
                                response := url))
  }

  function WorkerStep(s: State, step: Step): State {
    match step
    case WorkerAdvance => WorkerAdvanceFrom(s)
    case Answer(url) => Answered(s, url)
    case Refuse =>
      if s.worker.at.PublishRequest? then Goes(s, PublishClose(TakeUrl))
      else if s.worker.at.PullRequest? then Goes(s, PullErase)
      else s
    case SetRemote(ok) =>
      if s.worker.at.PublishActive? then Goes(s, if ok then PublishApplied else PublishReject(true))
      else if s.worker.at.PullActive? then Goes(s, if ok then PullApplied else PullReject(true))
      else s
    case _ => s
  }

  predicate ByCallback(step: Step) { step.OfferPublish? || step.OfferPull? || step.Post? }

  predicate ByWorker(step: Step) { step.WorkerAdvance? || step.Answer? || step.Refuse? || step.SetRemote? }

  function Apply(s: State, step: Step): State {
    if ByCallback(step) then CallbackStep(s, step)
    else if ByWorker(step) then WorkerStep(s, step)
    else CallerStep(s, step)
  }

  function Run(s: State, steps: seq<Step>): State {
    if steps == [] then s else Apply(Run(s, steps[..|steps| - 1]), steps[|steps| - 1])
  }

  // ---------- where a URL is ----------

  function Holders(sessions: map<User, Session>, u: Url): set<User> {
    set user | user in sessions && sessions[user].url == Some(u)
  }

  function Is(url: Option<Url>, u: Url): nat { if url == Some(u) then 1 else 0 }

  /** In how many places the URL is: stored, local to the worker or to the caller, deleted, lost. */
  function Places(s: State, u: Url): nat {
    Is(s.publish.url, u) + |Holders(s.pull.sessions, u)| + Is(s.worker.response, u) + Is(s.caller.taken, u)
    + |Holders(s.caller.closing, u)| + s.server.deleted[u] + s.server.lost[u]
  }
}
