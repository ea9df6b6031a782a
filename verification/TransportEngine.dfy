/**
 The engine's shared fields and the critical sections that update them in place. `s` is the whole protocol state
 around a section (where the threads are, what they hold, what the server has); each section takes the fields to
 where the protocol's step takes that state.
 */
module TransportEngine {
  import opened Common
  import opened TransportProtocol

  class TransportEngine {
    var initialized: bool
    var hasSignalingClient: bool
    var signalingRunning: bool
    var publishGeneration: nat
    var publishResourceUrl: Option<Url>
    var publishingVideo: bool
    var publishingAudio: bool
    var pullSessions: map<User, Session>
    var nextTransport: nat
    var signalingTasks: seq<Task>
    ghost var orphaned: bool
    ghost var offered: set<Task>
    ghost var inFlight: set<Task>

    /** The fields are what the protocol state says. */
    ghost predicate Reflects(s: State)
      reads this
    {
      && s.engine == Engine(initialized, hasSignalingClient, signalingRunning)
      && s.publish == Publish(publishGeneration, publishResourceUrl, publishingVideo, publishingAudio, orphaned)
      && s.pull == Pull(pullSessions, nextTransport)
      && s.queue == Queue(offered, inFlight, signalingTasks)
    }

    constructor ()
      ensures Reflects(INITIAL)
    {
      initialized, hasSignalingClient, signalingRunning := false, false, false;
      publishGeneration, publishResourceUrl := 0, None;
      publishingVideo, publishingAudio, orphaned := false, false, false;
      pullSessions, nextTransport := map[], 0;
      signalingTasks, offered, inFlight := [], {}, {};
    }

    method Initialize(ghost s: State) returns (started: bool)
      requires Reflects(s) && s.caller.at.Free?
      modifies this
      ensures Reflects(Apply(s, Step.Initialize)) && started == !old(initialized)
    {
      if initialized {
        return false;
      }
      ResetPublish();
      hasSignalingClient, signalingRunning, initialized := true, true, true;
      return true;
    }

    /** A new engine has a new push transport and counts its generations from zero. */
    method ResetPublish()
      modifies this`publishGeneration, this`publishResourceUrl, this`publishingVideo, this`publishingAudio
      modifies this`orphaned, this`offered
      ensures publishGeneration == 0 && publishResourceUrl == None && offered == {}
      ensures !publishingVideo && !publishingAudio && !orphaned
    {
      publishGeneration, publishResourceUrl := 0, None;
      publishingVideo, publishingAudio := false, false;
      orphaned, offered := false, {};
    }

    // ---------- publishing ----------

    /** The first medium opens a new generation; the second joins it. */
    method BeginPublish(ghost s: State, media: Media)
      requires Reflects(s) && s.caller.at.Free? && initialized
      modifies this
      ensures Reflects(Apply(s, StartPublish(media)))
    {
      if !publishingVideo && !publishingAudio {
        publishGeneration := publishGeneration + 1;
        publishResourceUrl := None;
        orphaned := false;
      }
    }

    /** The push transport's flag: set when a start is ready for its thread, taken back if there is none. */
    method MarkPublishing(ghost s: State, media: Media, ok: bool)
      requires Reflects(s) && s.caller.at == Starting(media)
      modifies this
      ensures Reflects(Apply(s, PushStart(ok)))
    {
      if ok {
        if media.Video? {
          publishingVideo := true;
        } else {
          publishingAudio := true;
        }
      }
    }

    method LaunchWorker(ghost s: State, media: Media, ok: bool)
      requires Reflects(s) && s.caller.at == Launching(media)
      modifies this
      ensures Reflects(Apply(s, LaunchThread(ok)))
    {
      if !ok {
        if media.Video? {
          publishingVideo := false;
        } else {
          publishingAudio := false;
        }
        orphaned := true;
      }
    }

    method StopMedia(ghost s: State, media: Media)
      requires Reflects(s) && s.caller.at.Free? && hasSignalingClient
      modifies this
      ensures Reflects(Apply(s, StopPublish(media)))
    {
      if media.Video? {
        publishingVideo := false;
      } else {
        publishingAudio := false;
      }
    }

    /** ClosePublish takes the URL under the lock, so that one closer at most will delete it. */
    method TakePublishUrl() returns (url: Option<Url>)
      modifies this`publishGeneration, this`publishResourceUrl, this`orphaned
      ensures url == old(publishResourceUrl)
      ensures publishGeneration == old(publishGeneration) + 1 && publishResourceUrl == None && !orphaned
    {
      publishGeneration := publishGeneration + 1;
      url := publishResourceUrl;
      publishResourceUrl := None;
      orphaned := false;
    }

    method CallerTakesPublish(ghost s: State) returns (url: Option<Url>)
      requires Reflects(s) && (s.caller.at == Closing(TakeUrl) || s.caller.at == UninitClose(TakeUrl))
      modifies this
      ensures var after := Apply(s, CallerAdvance); Reflects(after) && url == after.caller.taken
    {
      url := TakePublishUrl();
    }

    method WorkerTakesPublish(ghost s: State) returns (url: Option<Url>)
      requires Reflects(s) && s.worker.at == PublishClose(TakeUrl)
      modifies this
      ensures var after := Apply(s, WorkerAdvance); Reflects(after) && url == after.worker.response
    {
      url := TakePublishUrl();
    }

    /** Whether the worker may go on with a publish task, before its POST and again before applying the answer. */
    method PublishStillCurrent(ghost s: State, generation: nat) returns (current: bool)
      requires Reflects(s) && s.worker.task == PublishTask(generation)
      requires s.worker.at.PublishCheck? || s.worker.at.PublishAnswered?
      ensures Reflects(Apply(s, WorkerAdvance))
      ensures var at := Apply(s, WorkerAdvance).worker.at;
        current == (at.PublishRequest? || at.PublishReadVideo?)
    {
      current := initialized && generation == publishGeneration;
    }

    /** Only the generation that made the Offer gets the URL; otherwise the worker must delete it. */
    method StorePublishUrl(ghost s: State, generation: nat, url: Option<Url>) returns (stored: bool)
      requires Reflects(s) && s.worker.at.PublishApplied?
      requires s.worker.task == PublishTask(generation) && s.worker.response == url
      modifies this
      ensures var after := Apply(s, WorkerAdvance);
        Reflects(after) && stored == after.worker.at.Resting? && (!stored ==> after.worker.response == url)
    {
      stored := false;
      if generation == publishGeneration {
        publishResourceUrl := url;
        stored := true;
      }
    }

    // ---------- the signalling queue ----------

    /** A local description arrives: the Offer is noted under the generation that is current now. */
    method OfferPublishDescription(ghost s: State) returns (task: Option<Task>)
      requires Reflects(s)
      modifies this`offered, this`inFlight
      ensures Reflects(Apply(s, OfferPublish))
      ensures task == if initialized then Some(PublishTask(publishGeneration)) else None
    {
      if !initialized {
        return None;
      }
      var offer := PublishTask(publishGeneration);
      if offer !in offered {
        inFlight := inFlight + {offer};
        offered := offered + {offer};
      }
      return Some(offer);
    }

    method PostSignalingTask(ghost s: State, offer: Task) returns (posted: bool)
      requires Reflects(s) && offer in inFlight
      modifies this
      ensures Reflects(Apply(s, Post(offer))) && posted == signalingRunning
    {
      inFlight := inFlight - {offer};
      if !signalingRunning {
        return false;
      }
      signalingTasks := signalingTasks + [offer];
      return true;
    }

    method TakeSignalingTask(ghost s: State) returns (task: Option<Task>)
      requires Reflects(s) && s.worker.at.Resting?
      modifies this
      ensures var after := Apply(s, WorkerAdvance);
        && Reflects(after)
        && (if task.Some? then after.worker.task == task.value && !after.worker.at.Resting? else after == s)
    {
      if !signalingRunning || signalingTasks == [] {
        return None;
      }
      task := Some(signalingTasks[0]);
      signalingTasks := signalingTasks[1..];
    }

    method StopSignalingWorker(ghost s: State)
      requires Reflects(s) && s.caller.at.UninitStop?
      modifies this
      ensures Reflects(Apply(s, CallerAdvance))
    {
      signalingRunning := false;
      signalingTasks := [];
    }

    // ---------- subscribing ----------

    /** A session is listed before its Offer is made; a second subscription to the same user is refused. */
    method InsertSession(ghost s: State, user: User) returns (inserted: bool)
      requires Reflects(s) && s.caller.at == Subscribing(user)
      modifies this
      ensures Reflects(Apply(s, CallerAdvance)) && inserted == (user !in old(pullSessions))
    {
      if user in pullSessions {
        return false;
      }
      pullSessions := pullSessions[user := Session(nextTransport, None)];
      nextTransport := nextTransport + 1;
      return true;
    }

    method EraseFailedSession(ghost s: State, user: User)
      requires Reflects(s) && s.caller.at.SubscribeFailed? && s.caller.at.user == user
      modifies this
      ensures Reflects(Apply(s, CallerAdvance))
    {
      pullSessions := pullSessions - {user};
    }

    method TakeSession(ghost s: State, user: User) returns (taken: Option<Session>)
      requires Reflects(s) && s.caller.at.Free?
      modifies this
      ensures var after := Apply(s, Unsubscribe(user));
        Reflects(after) && (if taken.Some? then after.caller.taken == taken.value.url else after == s)
    {
      if user !in pullSessions {
        return None;
      }
      taken := Some(pullSessions[user]);
      pullSessions := pullSessions - {user};
    }

    /** Whether the session is still the one whose transport made the Offer. */
    method OwnsPullSession(user: User, transport: nat) returns (owns: bool)
      ensures owns == (user in pullSessions && pullSessions[user].transport == transport)
    {
      owns := user in pullSessions && pullSessions[user].transport == transport;
    }

    method StorePullUrl(ghost s: State, user: User, transport: nat, url: Option<Url>) returns (stored: bool)
      requires Reflects(s) && s.worker.at.PullApplied?
      requires s.worker.task == PullTask(user, transport) && s.worker.response == url
      modifies this
      ensures var after := Apply(s, WorkerAdvance);
        Reflects(after) && stored == after.worker.at.Resting? && (!stored ==> after.worker.response == url)
    {
      stored := OwnsPullSession(user, transport);
      if stored {
        pullSessions := pullSessions[user := Session(transport, url)];
      }
    }

    method EraseOwnSession(ghost s: State, user: User, transport: nat)
      requires Reflects(s) && s.worker.at.PullErase? && s.worker.task == PullTask(user, transport)
      modifies this
      ensures Reflects(Apply(s, WorkerAdvance))
    {
      var owns := OwnsPullSession(user, transport);
      if owns {
        pullSessions := pullSessions - {user};
      }
    }

    // ---------- shutting down ----------

    method BeginUninit(ghost s: State) returns (first: bool)
      requires Reflects(s) && s.caller.at.Free?
      modifies this
      ensures Reflects(Apply(s, Uninit)) && first == old(initialized)
    {
      first := initialized;
      initialized := false;
    }

    /** CloseAllPull swaps all sessions out under the lock and then deletes their resources. */
    method SwapSessions(ghost s: State) returns (sessions: map<User, Session>)
      requires Reflects(s) && s.caller.at.UninitSwap?
      modifies this
      ensures var after := Apply(s, CallerAdvance); Reflects(after) && sessions == after.caller.closing
    {
      sessions := pullSessions;
      pullSessions := map[];
    }

    method FinishUninit(ghost s: State)
      requires Reflects(s) && s.caller.at.UninitDelete? && s.caller.closing == map[]
      modifies this
      ensures Reflects(Apply(s, CallerAdvance))
    {
      hasSignalingClient := false;
      publishResourceUrl := None;
      inFlight := {};
    }
  }
}
