/** No server resource is deleted twice, and exactly when one can be lost, over all interleavings. */
module TransportSafety {
  import opened Common
  import opened TransportProtocol

  // ---------- every URL is in exactly one place ----------

  lemma HoldersErase(sessions: map<User, Session>, user: User, u: Url)
    requires user in sessions
    ensures |Holders(sessions, u)| == |Holders(sessions - {user}, u)| + Is(sessions[user].url, u)
  {
    var rest := Holders(sessions - {user}, u);
    if sessions[user].url == Some(u) {
      assert Holders(sessions, u) == rest + {user};
    } else {
      assert Holders(sessions, u) == rest;
    }
  }

  lemma HoldersSet(sessions: map<User, Session>, user: User, session: Session, u: Url)
    ensures |Holders(sessions[user := session], u)| == |Holders(sessions - {user}, u)| + Is(session.url, u)
  {
    HoldersErase(sessions[user := session], user, u);
    assert sessions[user := session] - {user} == sessions - {user};
  }

  lemma HoldersEmpty(u: Url)
    ensures |Holders(map[], u)| == 0
  {
    assert Holders(map[], u) == {};
  }

  /** Local variables hold a URL only in the steps that still have to deal with it. */
  ghost predicate Tidy(s: State) {
    && (s.caller.taken.Some? ==>
          || s.caller.at.Unsubscribing?
          || ((s.caller.at.Closing? || s.caller.at.UninitClose?) && !s.caller.at.closer.TakeUrl?))
    && (s.caller.closing != map[] ==> s.caller.at.UninitDelete?)
    && (s.worker.response.Some? ==>
          || s.worker.at.PublishAnswered? || s.worker.at.PublishReadVideo? || s.worker.at.PublishReadAudio?
          || s.worker.at.PublishActive? || s.worker.at.PublishApplied? || s.worker.at.PublishReject?
          || (s.worker.at.PublishClose? && !s.worker.at.closer.TakeUrl?)
          || s.worker.at.PullAnswered? || s.worker.at.PullActive?
          || s.worker.at.PullApplied? || s.worker.at.PullReject?)
  }

  /** Every step but a POST answer keeps the number of places of `u`. */
  ghost predicate Kept(s: State, r: State, u: Url) {
    Tidy(r) && Places(r, u) == Places(s, u) && r.server.posted == s.server.posted
  }

  lemma CloseAccounts(s: State, closer: Closer, next: Caller, u: Url)
    requires Tidy(s) && (closer.TakeUrl? ==> s.caller.taken.None?)
    requires next.Closing? || next.UninitClose? ==> !next.closer.TakeUrl?
    requires next.Free? || next.UninitSwap? ==> closer.DeleteUrl?
    requires next.Free? || next.UninitSwap? || next.Closing? || next.UninitClose?
    requires s.caller.closing == map[]
    ensures Kept(s, CallerClose(s, closer, next), u)
  {
  }

  lemma InsertAccounts(s: State, user: User, u: Url)
    requires Tidy(s) && s.caller.at == Subscribing(user)
    ensures Kept(s, Insert(s, user), u)
  {
    if user !in s.pull.sessions {
      HoldersSet(s.pull.sessions, user, Session(s.pull.nextTransport, None), u);
      assert s.pull.sessions - {user} == s.pull.sessions;
    }
  }

  lemma EraseAccounts(s: State, u: Url)
    requires Tidy(s) && s.caller.at.SubscribeFailed?
    ensures Kept(s, CallerAdvanceFrom(s), u)
  {
    var user := s.caller.at.user;
    if user in s.pull.sessions {
      HoldersErase(s.pull.sessions, user, u);
    } else {
      assert s.pull.sessions - {user} == s.pull.sessions;
    }
  }

  lemma SwapAccounts(s: State, u: Url)
    requires Tidy(s) && s.caller.at.UninitSwap?
    ensures Kept(s, CallerAdvanceFrom(s), u)
  {
    HoldersEmpty(u);
  }

  lemma FinishAccounts(s: State, u: Url)
    requires Tidy(s) && s.caller.at.UninitDelete?
    ensures Kept(s, FinishUninit(s), u)
  {
  }

  lemma PlainAdvanceAccounts(s: State, u: Url)
    requires Tidy(s) && !s.caller.at.Closing? && !s.caller.at.UninitClose? && !s.caller.at.Unsubscribing?
    requires !s.caller.at.Subscribing? && !s.caller.at.SubscribeFailed? && !s.caller.at.UninitSwap?
    requires !s.caller.at.UninitDelete?
    ensures Kept(s, CallerAdvanceFrom(s), u)
  {
  }

  lemma CallerAdvanceAccounts(s: State, u: Url)
    requires Tidy(s)
    ensures Kept(s, CallerAdvanceFrom(s), u)
  {
    match s.caller.at
    case Closing(closer) =>
      CloseAccounts(s, closer, if closer.DeleteUrl? then Free else Closing(NextCloser(closer)), u);
    case UninitClose(closer) =>
      CloseAccounts(s, closer, if closer.DeleteUrl? then UninitSwap else UninitClose(NextCloser(closer)), u);
    case Unsubscribing => CloseAccounts(s, DeleteUrl, Free, u);
    case Subscribing(user) => InsertAccounts(s, user, u);
    case SubscribeFailed(_, _) => EraseAccounts(s, u);
    case UninitSwap => SwapAccounts(s, u);
    case UninitDelete => FinishAccounts(s, u);
    case _ => PlainAdvanceAccounts(s, u);
  }

  lemma StartAccounts(s: State, step: Step, u: Url)
    requires Tidy(s) && (step.Initialize? || step.StartPublish?)
    ensures Kept(s, CallerStep(s, step), u)
  {
  }

  lemma LaunchAccounts(s: State, step: Step, u: Url)
    requires Tidy(s) && (step.PushStart? || step.LaunchThread?)
    ensures Kept(s, CallerStep(s, step), u)
  {
  }

  lemma CallerCallAccounts(s: State, step: Step, u: Url)
    requires Tidy(s) && !step.CallerAdvance? && !step.Unsubscribe? && !step.DeleteSession?
    requires !step.Initialize? && !step.StartPublish? && !step.PushStart? && !step.LaunchThread?
    ensures Kept(s, CallerStep(s, step), u)
  {
  }

  lemma UnsubscribeAccounts(s: State, user: User, u: Url)
    requires Tidy(s)
    ensures Kept(s, CallerStep(s, Unsubscribe(user)), u)
  {
    if user in s.pull.sessions {
      HoldersErase(s.pull.sessions, user, u);
    }
  }

  lemma DeleteSessionAccounts(s: State, user: User, u: Url)
    requires Tidy(s)
    ensures Kept(s, CallerStep(s, DeleteSession(user)), u)
  {
    if s.caller.at.UninitDelete? && user in s.caller.closing {
      HoldersErase(s.caller.closing, user, u);
    }
  }

  lemma CallerAccounts(s: State, step: Step, u: Url)
    requires Tidy(s)
    ensures Kept(s, CallerStep(s, step), u)
  {
    match step
    case Unsubscribe(user) => UnsubscribeAccounts(s, user, u);
    case DeleteSession(user) => DeleteSessionAccounts(s, user, u);
    case CallerAdvance => CallerAdvanceAccounts(s, u);
    case Initialize => StartAccounts(s, step, u);
    case StartPublish(_) => StartAccounts(s, step, u);
    case PushStart(_) => LaunchAccounts(s, step, u);
    case LaunchThread(_) => LaunchAccounts(s, step, u);
    case _ => CallerCallAccounts(s, step, u);
  }

  lemma PullStoreAccounts(s: State, u: Url)
    requires Tidy(s) && s.worker.at.PullApplied?
    ensures Kept(s, StorePull(s), u)
  {
    if OwnsSession(s) {
      var user := s.worker.task.user;
      HoldersErase(s.pull.sessions, user, u);
      HoldersSet(s.pull.sessions, user, Session(s.worker.task.transport, s.worker.response), u);
    }
  }

  lemma PullEraseAccounts(s: State, u: Url)
    requires Tidy(s) && s.worker.at.PullErase?
    ensures Kept(s, ErasePull(s), u)
  {
    if OwnsSession(s) {
      HoldersErase(s.pull.sessions, s.worker.task.user, u);
    }
  }

  lemma PublishStoreAccounts(s: State, u: Url)
    requires Tidy(s) && s.worker.at.PublishApplied?
    ensures Kept(s, StorePublish(s), u)
  {
  }

  lemma RejectAccounts(s: State, at: Worker, u: Url)
    requires Tidy(s)
    ensures Kept(s, DeleteResponse(s, at), u)
  {
  }

  lemma PublishCloseAccounts(s: State, u: Url)
    requires Tidy(s) && s.worker.at.PublishClose? && !s.worker.at.closer.DeleteUrl?
    ensures Kept(s, WorkerClose(s, s.worker.at.closer), u)
  {
  }

  lemma PlainWorkAccounts(s: State, u: Url)
    requires Tidy(s) && !s.worker.at.PullApplied? && !s.worker.at.PullErase? && !s.worker.at.PublishApplied?
    requires !s.worker.at.PublishReject? && !s.worker.at.PullReject? && !s.worker.at.PublishClose?
    ensures Kept(s, WorkerAdvanceFrom(s), u)
  {
  }

  lemma WorkerAdvanceAccounts(s: State, u: Url)
    requires Tidy(s)
    ensures Kept(s, WorkerAdvanceFrom(s), u)
  {
    match s.worker.at
    case PullApplied => PullStoreAccounts(s, u);
    case PullErase => PullEraseAccounts(s, u);
    case PublishApplied => PublishStoreAccounts(s, u);
    case PublishReject(close) => RejectAccounts(s, if close then PublishClose(TakeUrl) else Resting, u);
    case PullReject(erase) => RejectAccounts(s, if erase then PullErase else Resting, u);
    case PublishClose(closer) =>
      if closer.DeleteUrl? {
        RejectAccounts(s, Resting, u);
      } else {
        PublishCloseAccounts(s, u);
      }
    case _ => PlainWorkAccounts(s, u);
  }

  lemma ReplyAccounts(s: State, step: Step, u: Url)
    requires Tidy(s) && (step.Refuse? || step.SetRemote?)
    ensures Kept(s, WorkerStep(s, step), u)
  {
  }

  /** An answered POST brings one new URL into one place, the worker. */
  lemma AnswerAccounts(s: State, url: Option<Url>, u: Url)
    requires Tidy(s)
    ensures var r := Answered(s, url);
      && Tidy(r)
      && (|| Kept(s, r, u)
          || (url.Some? && url.value !in s.server.posted && r.server.posted == s.server.posted + {url.value}
              && Places(r, u) == Places(s, u) + Is(url, u)))
  {
  }

  lemma CallbackAccounts(s: State, step: Step, u: Url)
    requires Tidy(s)
    ensures Kept(s, CallbackStep(s, step), u)
  {
  }

  lemma StepAccounts(s: State, step: Step, u: Url)
    requires Tidy(s) && !step.Answer?
    ensures Kept(s, Apply(s, step), u)
  {
    if ByCallback(step) {
      CallbackAccounts(s, step, u);
    } else if step.WorkerAdvance? {
      WorkerAdvanceAccounts(s, u);
    } else if ByWorker(step) {
      ReplyAccounts(s, step, u);
    } else {
      CallerAccounts(s, step, u);
    }
  }

  ghost predicate ExactlyOnePlace(s: State, u: Url) { Places(s, u) == if u in s.server.posted then 1 else 0 }

  /** Over every run, a URL handed out by the server is in exactly one place, and no other URL is anywhere. */
  lemma {:induction false} OnePlace(steps: seq<Step>, u: Url)
    ensures Tidy(Run(INITIAL, steps)) && ExactlyOnePlace(Run(INITIAL, steps), u)
  {
    if steps == [] {
      HoldersEmpty(u);
    } else {
      var prefix, step := steps[..|steps| - 1], steps[|steps| - 1];
      OnePlace(prefix, u);
      var s := Run(INITIAL, prefix);
      if step.Answer? {
        AnswerAccounts(s, step.url, u);
      } else {
        StepAccounts(s, step, u);
      }
    }
  }
}
