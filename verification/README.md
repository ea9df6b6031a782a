# Verified model of the conferencing engine

A Dafny model of the parts of the conferencing engine that keep state and make promises about whole runs, and of
the controllers around them:

- **Video reorder buffer.** 16-bit sequence numbers are unwrapped (RFC 3550, section 5.1 and appendix A.1), packets
  grouped into frames by RTP timestamp and released up to their marker (RFC 6184, section 5.1), or dropped under
  wait and size limits.
- **WHIP/WHEP resources.** A signalling worker, a media callback thread and the serialised API calls share the
  publish generation, the pull sessions and the URLs of server resources that must each be deleted once.
- **Audio timeline and mixer.** A circular buffer places samples on a drift-free timeline; on top of it a mixing
  thread reserves, mixes and commits chunks while the playback callback takes, pads and rebuffers.
- **Meeting store.** Several maps describe the memberships, and each subscriber's event log replays to them.
- **Framing and control.** Opus block framing, RTP-to-NTP mapping and the common audio/video timebase (RFC 3550,
  sections 4 and 6.4.1), the jitter target, video bitrate adaptation and the encoder that follows it.

## How it is arranged

Each component has a specification module with pure step functions (`RtpReorderSpec`, `TransportProtocol`,
`AudioTimeline`, `MixerSpec`, `MeetingSpec`, `OpusFraming`, `RtpNtpMapping`, `PullTimebase`, `JitterTarget`,
`BitrateControl`, `PushBitrate`), modules with the properties of whole runs, and a class module whose fields and loops
are those of the C++ class. Every method of a class is proved equal to the step function on its abstract value, so the
run properties are properties of the class. `RtpReorderLoss`, `TransportOutcome`, `MixerEffects`, `MeetingEffects` and
the last parts of `AudioTimeline` and `OpusFraming` say what must happen, beside what never does.

The meeting subscriptions are objects that the store shares with their readers. The mixer is modelled at its lock
boundaries, one method a critical section. The transport engine's behaviour is the interleaving of three threads, so its
properties are those of a state machine over critical sections, HTTP calls and flag accesses; the class holds the shared
fields and each of its critical sections performs the machine's step.

Clock readings, HTTP answers, codec results, PCM values and the success of creating threads are arbitrary inputs of
the steps. `Common` holds shared definitions and integer arithmetic.

`dafny verify dfyconfig.toml` checks everything.

## Where the code does not do what its comments or callers expect

- `AudioMixer.cpp:363-375` and `AudioMixer.cpp:958-966` say that moving the cursor by an extra microsecond makes a
  stale chunk fail the cursor check. A full-chunk underrun can move the cursor onto the reserved value again;
  `MixerSafety.StaleChunkMovesClockBack` gives the run. At the cursor check the case can be told by an empty queue and a
  cursor one microsecond after the clock: `MixerSafety.LateCommit` and `MixerSafety.GoesBackExactly` prove that this is
  the exact condition, and `MixerSafety.ClockNeverBack` that nothing else moves the clock back.
- `TransportEngine.cpp:216` and `TransportEngine.cpp:283` clear the stored publish URL on a start that finds
  nothing published. That discards a live resource exactly when a URL is still stored then. It can be only because an
  earlier start set its flag, got its answer stored and then failed to create its thread
  (`RtcPushTransport.cpp:112-121`); `TransportLossless.LossExactly` and `TransportLossless.FailedLaunchLosesUrl` state
  this.
- `VideoRtpReorderBuffer.cpp:201-252` does not always hand on exactly the frames of which nothing is missing. A frame
  that arrived whole is dropped when the whole frame in front of it was lost after an arrived marker, because the lost
  numbers count as its own; and when a marker is lost, the next frame comes out without its first packets if only those
  are missing. `RtpReorderLoss.OutputIntactExactly` proves that these are the only cases,
  `RtpReorderLoss.RecoveryAfterLoss` that neither occurs while all markers arrive, and
  `RtpReorderLoss.VanishedFrameCostsTheNext` and `RtpReorderLoss.LostMarkerReleasesAHeadlessFrame` give the inputs.
- `AdaptiveJitterController.cpp:283-316` accepts a decrease step below the hysteresis, with which the target is
  never lowered again; `JitterTarget.SettlesExactlyWhen` gives the condition.

## Model

| member | source | states |
|---|---|---|
| RtpReorderOrder.ReleaseOrder | transport/src/transport/VideoRtpReorderBuffer.cpp:161-265 | Over any run of `incoming` calls and clock readings in which each RTP timestamp owns a convex block of unwrapped numbers, every released block is a gap-free run of one timestamp ending at its marker, released numbers strictly increase across blocks and calls and lie below the next expected number, and every buffered packet is at or above it. |
| RtpReorderOrder.NextNeverRetreats | transport/src/transport/VideoRtpReorderBuffer.cpp:161-265 | On the same runs, at no later point is the next expected number below a value it had earlier, and once set it stays set. |
| RtpReorderOrder.RunConsistent | transport/src/transport/VideoRtpReorderBuffer.cpp:34-114 | With no assumption on the input, after every run the next expected number is at most the highest number plus one, and every buffered packet sits under its own number and timestamp, at or above its frame's first number. |
| RtpReorderOrder.RunBalanced | transport/src/transport/VideoRtpReorderBuffer.cpp:34-114 | Conservation over every run: received = invalid + late + duplicate + released + still buffered + discarded. |
| RtpReorderOrder.IncomingSettles | transport/src/transport/VideoRtpReorderBuffer.cpp:165-265 | When a call returns, at most the configured number of frames is left, and the oldest is unexpired or has neither marker nor a later frame. |
| RtpReorderOrder.NoImpatientLoss | transport/src/transport/VideoRtpReorderBuffer.cpp:168-253 | In every reachable state, with timestamps owning convex blocks, a call after which the received packets are under no pressure (not too many frames, none waiting too long) drops no frame, counts nothing missing or late while releasing and reports no loss. |
| RtpReorderOrder.PerformErases | transport/src/transport/VideoRtpReorderBuffer.cpp:184-264 | Each round of the release loop erases exactly the oldest frame, leaves all others alone and keeps the next number within the highest plus one. |
| RtpReorderOrder.PerformBalanced | transport/src/transport/VideoRtpReorderBuffer.cpp:184-264 | Each release or drop moves exactly the erased frame's packets to the released or discarded count. |
| RtpReorderOrder.DrainInOrder | transport/src/transport/VideoRtpReorderBuffer.cpp:161-265 | One whole release loop outputs ascending whole frames between the old and the new next number. |
| RtpReorderRecovery.PermutationRecovery | transport/src/transport/VideoRtpReorderBuffer.cpp:34-114 | From an empty buffer expecting n, one batch holding packets n..m of whole frames, in any order with any duplicates, outputs exactly n..m in order, reports no loss, leaves nothing buffered and expects m + 1. |
| RtpReorderRecovery.DueRelease | transport/src/transport/VideoRtpReorderBuffer.cpp:201-264 | While the packets from the expected number on are all there, the verdict is to release the oldest frame from that number to its marker, whatever the clock. |
| RtpReorderRecovery.DrainRecovers | transport/src/transport/VideoRtpReorderBuffer.cpp:165-265 | From any point of a recovered batch the release loop hands on exactly the remaining packets. |
| RtpReorderSpec.UnwrapRoundTrip | transport/src/transport/VideoRtpReorderBuffer.cpp:135-159 | A number within 32767 of the highest one is recovered from its low 16 bits. |
| RtpReorderSpec.UnwrapCongruent | transport/src/transport/VideoRtpReorderBuffer.cpp:135-159 | Unwrapping always yields a number with the received low 16 bits, at most half a turn from the highest. |
| RtpReorderBuffer.VideoRtpReorderBuffer.Incoming | transport/src/transport/VideoRtpReorderBuffer.cpp:19-115 | In-place processing of a message vector equals receiving all packets and then draining; non-RTP messages pass first, and loss is reported at most once per notification interval. |
| RtpReorderBuffer.VideoRtpReorderBuffer.BufferPacket | transport/src/transport/VideoRtpReorderBuffer.cpp:34-114 | The nested-map update for one packet: invalid, late, duplicate or stored, with its counters. |
| RtpReorderBuffer.VideoRtpReorderBuffer.UnwrapSequence | transport/src/transport/VideoRtpReorderBuffer.cpp:135-159 | Unwraps against the highest number and raises it. |
| RtpReorderBuffer.VideoRtpReorderBuffer.ReleaseReadyFrames | transport/src/transport/VideoRtpReorderBuffer.cpp:161-265 | The release loop over the maps computes the recursive drain: same state, same output, same loss flag. |
| RtpReorderBuffer.VideoRtpReorderBuffer.FindOldestFrame | transport/src/transport/VideoRtpReorderBuffer.cpp:268-276 | Returns a frame none of whose peers starts earlier. |
| RtpReorderBuffer.VideoRtpReorderBuffer.FindNextFrameSequence | transport/src/transport/VideoRtpReorderBuffer.cpp:278-297 | Returns the least start of another frame above the current one, if any. |
| RtpReorderBuffer.VideoRtpReorderBuffer.JudgeOldest | transport/src/transport/VideoRtpReorderBuffer.cpp:184-240 | The branching over marker, gap, size limit, expiry and later frames gives the specified verdict. |
| RtpReorderBuffer.VideoRtpReorderBuffer.HasRun | transport/src/transport/VideoRtpReorderBuffer.cpp:216-232 | The packet scan accepts exactly the runs without a gap of at most 4096 packets. |
| RtpReorderBuffer.VideoRtpReorderBuffer.Reset | transport/src/transport/VideoRtpReorderBuffer.cpp:305-313 | Returns the buffer to its initial state. |
| RtpReorderLoss.DrainAfterLoss | transport/src/transport/VideoRtpReorderBuffer.cpp:161-265 | Whatever arrived of a batch of whole frames, in whatever order: when every buffered frame has waited or is due, one release loop outputs exactly what the arrived numbers determine, leaves at most one frame, and none when the last marker arrived; the number after it is then expected. |
| RtpReorderLoss.OutputIntactExactly | transport/src/transport/VideoRtpReorderBuffer.cpp:201-264 | That output is exactly the packets of the frames with nothing missing, in order, if and only if no frame is misjudged: none is whole behind a frame that vanished entirely after an arrived marker, and none lost only its first packets behind a frame without its marker. |
| RtpReorderLoss.RecoveryAfterLoss | transport/src/transport/VideoRtpReorderBuffer.cpp:161-265 | When no marker is lost and the damaged frames have waited, exactly the packets of the undamaged frames come out in one call, in order, nothing is left and the number after the batch is expected; undamaged frames need not have waited. |
| RtpReorderLoss.DrainStage | transport/src/transport/VideoRtpReorderBuffer.cpp:161-265 | The same from any frame of the batch on: each turn erases the frame, expects the number after it and outputs its part. |
| RtpReorderLoss.LossyBatch | transport/src/transport/VideoRtpReorderBuffer.cpp:34-114 | The same for calls: what arrives of the batch in any order in one call, then a call after the waiting time; the outputs of both together are the output of the batch. |
| RtpReorderLoss.LossyBatchRecovery | transport/src/transport/VideoRtpReorderBuffer.cpp:34-114 | For such two calls with no marker lost, the outputs together are exactly the undamaged frames in order, and the number after the batch is expected. |
| RtpReorderLoss.DrainResumes | transport/src/transport/VideoRtpReorderBuffer.cpp:161-265 | Draining now and again later outputs, together, what draining only later would have. |
| RtpReorderLoss.WaitStarts | transport/src/transport/VideoRtpReorderBuffer.cpp:81-94 | A frame waits from the call that brought its first packet, whatever arrives for it later. |
| RtpReorderLoss.NothingBeforeTheFirstWait | transport/src/transport/VideoRtpReorderBuffer.cpp:203-209 | Before anything has been released, nothing is output or dropped until a frame has waited, unless there are too many. |
| RtpReorderLoss.VanishedFrameCostsTheNext | transport/src/transport/VideoRtpReorderBuffer.cpp:234-252 | A concrete batch in which the loss of a whole one-packet frame makes the code drop the next frame, which arrived whole. |
| RtpReorderLoss.LostMarkerReleasesAHeadlessFrame | transport/src/transport/VideoRtpReorderBuffer.cpp:186-203 | A concrete batch in which, after a lost marker, the second half of a frame comes out. |
| RtpReorderOrder.LossReported | transport/src/transport/VideoRtpReorderBuffer.cpp:184-252 | A release loop reports a loss exactly when it drops a frame for missing packets. |
| RtpReorderOrder.PassedThroughSplits | transport/src/transport/VideoRtpReorderBuffer.cpp:34-38 | Non-RTP messages pass through in order, none left out. |
| TransportSafety.OnePlace | transport/src/transport/TransportEngine.cpp:640-1043 | Over every interleaving of the signalling worker, the callback thread and the serialised API calls, each URL handed out by the server is in exactly one of: stored, held by the worker, held by a closer, deleted, lost; no other URL is anywhere. |
| TransportSafety.StepAccounts | transport/src/transport/TransportEngine.cpp:640-1043 | Every step but an answered POST moves URLs between places without creating or dropping one, so none is deleted twice. |
| TransportSafety.AnswerAccounts | transport/src/transport/TransportEngine.cpp:692-736 | An answered POST brings one new URL into one place, the worker's local variable. |
| TransportLossless.RunSafe | transport/src/transport/TransportEngine.cpp:640-1043 | The protocol invariant holds on every run: an Offer is in flight, queued or running exactly once, a stored URL's Offer is finished, and a stored publish URL has something published, a close about to start or a failed start behind it. |
| TransportLossless.LossExactly | transport/src/transport/TransportEngine.cpp:198-217 | In any reachable state a step loses a URL if and only if it is a start that finds nothing published and a URL still stored; then an earlier start could not create its media thread and only its session is left. |
| TransportLossless.NeverLost | transport/src/transport/TransportEngine.cpp:271-284 | Over every run that makes no start while such an abandoned session is all there is, no resource is ever lost: the clear in StartPublish discards no live URL. |
| TransportLossless.NeverLostWithThreads | transport/src/transport/TransportEngine.cpp:198-217 | If every media thread can be created, no run loses a resource. |
| TransportLossless.ShutdownDeletesAll | transport/src/transport/TransportEngine.cpp:109-149 | Once Uninit has returned, every resource ever posted has had exactly one DELETE or was lost, and exactly one DELETE on runs without a start on an abandoned session. |
| TransportLossless.StoredUrlIsCurrent | transport/src/transport/TransportEngine.cpp:672-775 | A publish URL is only stored by the worker for the current generation, and a change of generation clears it. |
| TransportLossless.FailedLaunchLosesUrl | transport/src/transport/RtcPushTransport.cpp:112-121 | A concrete run on which a worker thread cannot be created and the next start clears a live resource URL. |
| TransportLossless.StorePullKeeps | transport/src/transport/TransportEngine.cpp:942-973 | Storing a pull answer keeps the invariant and loses nothing: the session still belongs to the transport that made the Offer. |
| TransportLossless.StartPublishKeeps | transport/src/transport/TransportEngine.cpp:198-217 | Starting keeps the invariant; the only thing it can lose is the stored URL it clears. |
| TransportEngine.TransportEngine.BeginPublish | transport/src/transport/TransportEngine.cpp:198-217 | The critical section of a start on the shared fields is the protocol's start step: a new generation and a cleared URL only when nothing is published. |
| TransportEngine.TransportEngine.CallerTakesPublish | transport/src/transport/TransportEngine.cpp:987-998 | ClosePublish moves the URL from the field to the closer in one section, with a new generation. |
| TransportEngine.TransportEngine.WorkerTakesPublish | transport/src/transport/TransportEngine.cpp:987-998 | The same when the worker closes after a refused answer. |
| TransportEngine.TransportEngine.PublishStillCurrent | transport/src/transport/TransportEngine.cpp:682-717 | The generation check lets a task go on exactly when the protocol does. |
| TransportEngine.TransportEngine.StorePublishUrl | transport/src/transport/TransportEngine.cpp:753-775 | The URL is stored for its own generation only; otherwise the worker keeps it, to delete it. |
| TransportEngine.TransportEngine.PostSignalingTask | transport/src/transport/TransportEngine.cpp:1095-1114 | A posted Offer joins the end of the queue while the worker runs, and is dropped otherwise. |
| TransportEngine.TransportEngine.TakeSignalingTask | transport/src/transport/TransportEngine.cpp:1116-1140 | The worker takes the oldest task. |
| TransportEngine.TransportEngine.InsertSession | transport/src/transport/TransportEngine.cpp:505-522 | A session is listed once, with a new transport, before its Offer. |
| TransportEngine.TransportEngine.TakeSession | transport/src/transport/TransportEngine.cpp:547-563 | Unsubscribing moves the session and its URL from the map to the caller. |
| TransportEngine.TransportEngine.StorePullUrl | transport/src/transport/TransportEngine.cpp:942-973 | The URL is stored only in the session whose transport made the Offer; otherwise the worker keeps it, to delete it. |
| TransportEngine.TransportEngine.EraseOwnSession | transport/src/transport/TransportEngine.cpp:870-890 | The worker erases only its own session. |
| TransportEngine.TransportEngine.SwapSessions | transport/src/transport/TransportEngine.cpp:1016-1022 | Shutting down moves all sessions to the closer at once. |
| TransportOutcome.PullStored | transport/src/transport/TransportEngine.cpp:944-973 | In every reachable state in which an applied pull answer finds the session still with the transport of its Offer, the step stores its URL there, changes no other session and deletes and loses nothing. |
| TransportOutcome.PublishStored | transport/src/transport/TransportEngine.cpp:752-775 | The same for a publish answer of the current generation. |
| TransportOutcome.DoomedExactlyIfEnded | transport/src/transport/TransportEngine.cpp:640-1043 | Over every run, a resource is deleted or held by somebody about to delete it if and only if at some step its session was unsubscribed, its answer refused or found outdated or unpublished, its generation closed, or the sessions were swapped out by Uninit. |
| TransportOutcome.DeletedOnlyIfEnded | transport/src/transport/TransportEngine.cpp:726-1043 | No DELETE is issued for a resource for which none of these steps has occurred. |
| TransportOutcome.StepDooms | transport/src/transport/TransportEngine.cpp:640-1043 | In every state with the protocol invariant a step dooms a resource exactly when it is one of those steps, and a doomed one stays doomed. |
| TransportOutcome.StoredUnlessEnded | transport/src/transport/TransportEngine.cpp:752-775 | On careful runs, a posted resource for which none of those steps has occurred is stored, or the worker is busy with its answer. |
| TransportOutcome.SessionEndsExactly | transport/src/transport/TransportEngine.cpp:528-563 | A listed session goes exactly by Unsubscribe, by its failed subscription, by the worker after a refused POST or answer, or by Uninit. |
| TransportOutcome.GenerationEndsExactly | transport/src/transport/TransportEngine.cpp:198-217 | A publish generation goes exactly by a start with nothing published, by a ClosePublish or by Initialize. |
| TransportOutcome.OnlyPresentPosted | transport/src/transport/TransportEngine.cpp:679-698 | A POST is made only for the current generation of an initialised engine, or for a session that is still its own. |
| TransportOutcome.StartOffers | transport/src/transport/TransportEngine.cpp:172-222 | From an idle engine, a start with nothing published sets the flag and makes one Offer of a new generation. |
| TransportOutcome.SubscribeOffers | transport/src/transport/TransportEngine.cpp:504-545 | From an idle engine, a subscription lists a session with a new transport and makes its Offer. |
| TransportOutcome.PullCompletes | transport/src/transport/TransportEngine.cpp:822-973 | Such an Offer, posted, answered with a new URL and applied, leaves exactly that URL in the session, the worker at rest and nothing deleted. |
| TransportOutcome.PublishCompletes | transport/src/transport/TransportEngine.cpp:672-775 | The same for a publication of which video or audio is on. |
| TransportOutcome.PullUnanswered | transport/src/transport/TransportEngine.cpp:865-889 | A refused POST ends the session and deletes nothing. |
| TransportOutcome.PullRefused | transport/src/transport/TransportEngine.cpp:916-942 | An answer that cannot be applied ends the session and deletes its resource. |
| TransportOutcome.PublishRefused | transport/src/transport/TransportEngine.cpp:739-750 | A publish answer that cannot be applied is deleted, and the publication closed with a new generation, no medium and no URL. |
| TransportOutcome.PublishUnanswered | transport/src/transport/TransportEngine.cpp:697-704 | A refused POST closes the publication. |
| TransportOutcome.UnsubscribeDeletes | transport/src/transport/TransportEngine.cpp:547-593 | Unsubscribing takes exactly that session out and deletes its resource. |
| TransportOutcome.StopDeletes | transport/src/transport/TransportEngine.cpp:224-247 | Stopping the last medium closes the generation and deletes its resource. |
| TransportOutcome.UninitReturns | transport/src/transport/TransportEngine.cpp:109-149 | Uninit of an idle engine can run to its end, whatever is published and subscribed. |
| AudioTimeline.EndToEnd | render/src/audio/TimestampedAudioBuffer.cpp:79-314 | After any run of pushes (with gaps, overlaps, overflow), reads and resets, a pushed sample that a read copies out lands at an output index whose requested time is within one sample period plus 1 microsecond of the sample's own media time. |
| AudioTimeline.RunAligned | render/src/audio/TimestampedAudioBuffer.cpp:79-167 | Over every run each stored sample's place on the anchored timeline is within half a period plus half a microsecond of its media time: drift does not accumulate. |
| AudioTimeline.PushAligned | render/src/audio/TimestampedAudioBuffer.cpp:79-167 | Inserted silence, trimmed overlap, restart and plain append all keep that alignment. |
| AudioTimeline.ReadNear | render/src/audio/TimestampedAudioBuffer.cpp:214-314 | A copied output index is within half a period plus half a microsecond of its place on the timeline. |
| AudioTimeline.ReadCovers | render/src/audio/TimestampedAudioBuffer.cpp:214-314 | Leading silence, copied frames and trailing silence always add up to the request, and no more is copied than is buffered. |
| AudioTimeline.ReadOutput | render/src/audio/TimestampedAudioBuffer.cpp:255-314 | The output is silence except for the copied indices, which show consecutive stored frames. |
| AudioTimeline.RoundDivNear | render/src/audio/TimestampedAudioBuffer.cpp:662-757 | The integer form of the frame/time conversions is the nearest value, within half a unit. |
| TimestampedAudioBuffer.TimestampedAudioBuffer.Push | render/src/audio/TimestampedAudioBuffer.cpp:44-167 | Pushing into the circular buffer is pushing onto the logical stream, with the same result; the ring keeps holding the newest `available` frames. |
| TimestampedAudioBuffer.TimestampedAudioBuffer.ReadAt | render/src/audio/TimestampedAudioBuffer.cpp:169-315 | Reading from the ring gives the logical read's output, counts and remaining timeline. |
| TimestampedAudioBuffer.TimestampedAudioBuffer.FillFrom | render/src/audio/TimestampedAudioBuffer.cpp:214-314 | The discard, the leading silence, the copy and the trailing silence fill the output array as specified, index by index. |
| TimestampedAudioBuffer.TimestampedAudioBuffer.WriteFrames | render/src/audio/TimestampedAudioBuffer.cpp:381-475 | Writes in wrapped pieces; data longer than the capacity leaves its newest part. |
| TimestampedAudioBuffer.TimestampedAudioBuffer.WriteSilence | render/src/audio/TimestampedAudioBuffer.cpp:477-545 | Appends silent slots, in wrapped pieces. |
| TimestampedAudioBuffer.TimestampedAudioBuffer.WriteChunk | render/src/audio/TimestampedAudioBuffer.cpp:420-475 | One piece: makes room, copies around the end of the array and advances the positions modulo the capacity. |
| TimestampedAudioBuffer.TimestampedAudioBuffer.ReadFrames | render/src/audio/TimestampedAudioBuffer.cpp:547-598 | Copies frames out in order and consumes them. |
| TimestampedAudioBuffer.TimestampedAudioBuffer.DiscardFrames | render/src/audio/TimestampedAudioBuffer.cpp:600-632 | Forgets frames from the front, never more than are there. |
| TimestampedAudioBuffer.TimestampedAudioBuffer.MakeRoom | render/src/audio/TimestampedAudioBuffer.cpp:634-660 | Forgets exactly as much as is needed for the required space. |
| TimestampedAudioBuffer.TimestampedAudioBuffer.Reset | render/src/audio/TimestampedAudioBuffer.cpp:352-365 | Empties the buffer and forgets the timeline. |
| TimestampedAudioBuffer.RingIsMod | render/src/audio/TimestampedAudioBuffer.cpp:420-475 | The wrap-around index is the sum modulo the capacity. |
| AudioTimeline.NothingMissing | render/src/audio/TimestampedAudioBuffer.cpp:255-314 | After any run of pushes, reads and resets, every buffered sample whose media time lies inside the requested interval by more than one sample period plus 1 microsecond is copied out, within that bound of its own media time. |
| AudioTimeline.PadsOnlyAtTheEnd | render/src/audio/TimestampedAudioBuffer.cpp:282-314 | Over every run, a read pads its end with silence only when nothing is left buffered. |
| AudioTimeline.PushStores | render/src/audio/TimestampedAudioBuffer.cpp:100-166 | Every sample of an accepted block becomes part of the end of the timeline, unless its media time lies before what is already written; it is buffered unless more newer ones follow than fit. |
| AudioTimeline.PushContinues | render/src/audio/TimestampedAudioBuffer.cpp:121-166 | Without a restart everything written stays at its place, only silence is inserted, and no more is forgotten than the capacity demands. |
| AudioTimeline.RestartsOnlyFar | render/src/audio/TimestampedAudioBuffer.cpp:85-140 | The timeline restarts only for a block beyond the gap or discontinuity limit, and always for one clearly beyond. |
| MixerSafety.RunContiguous | render/src/audio/AudioMixer.cpp:807-979 | Over every interleaving of reserve, commit, callback, clear and reset: at most 5 queued chunks, adjacent chunks abut in media time, a non-empty queue ends at the cursor or at the start of the standing reservation, a valid clock implies an initialised cursor at or after it, and the underrun count stays below the rebuffer threshold. |
| MixerSafety.CommitContiguous | render/src/audio/AudioMixer.cpp:946-975 | At commit the queue is never full, so the skip for a full queue is unreachable, and the new chunk continues the queue. |
| MixerSafety.PopContiguous | render/src/audio/AudioMixer.cpp:206-400 | The callback keeps all of it, through take, padding, short underrun and rebuffering. |
| MixerSafety.PopTakes | render/src/audio/AudioMixer.cpp:206-300 | The output is the first min(n, available) playable frames followed by silence, and what remains playable is exactly the rest. |
| MixerSafety.DrawTakes | render/src/audio/AudioMixer.cpp:206-290 | The chunk-by-chunk copy takes a prefix of the flattened queue and leaves the suffix. |
| MixerSafety.PopAdvances | render/src/audio/AudioMixer.cpp:292-381 | When no queued audio lies before the clock, a callback moves the clock forward or stops it, and keeps that so. |
| MixerSafety.ClockNeverBack | render/src/audio/AudioMixer.cpp:807-979 | Over every run in which no commit is late (cursor check passed, empty queue, cursor one microsecond after the clock), with any callbacks and clears between reserve and commit, the clock never moves back. |
| MixerSafety.UndisturbedIsTimely | render/src/audio/AudioMixer.cpp:888-975 | A run in which no callback and no clear falls between a reserve and its commit has no late commit. |
| MixerSafety.RunReserved | render/src/audio/AudioMixer.cpp:368-375 | On every run, while the cursor check would pass, the clock has not passed the reserved start, or an underrun or a clear has put the cursor one microsecond after the clock. |
| MixerSafety.LateCommit | render/src/audio/AudioMixer.cpp:958-975 | In every reachable state, a commit that passes the cursor check on an empty queue queues audio before the clock if and only if the cursor stands one microsecond after the clock. |
| MixerSafety.GoesBackExactly | render/src/audio/AudioMixer.cpp:958-975 | For every accepted format and reachable state, some callback after such a commit moves the clock back if and only if the commit is late and a chunk has more than one frame. |
| MixerSafety.StaleChunkMovesClockBack | render/src/audio/AudioMixer.cpp:368-375 | A concrete run in which an underrun moves the cursor onto the reserved value again, a stale chunk is queued and the clock goes back. |
| MixerSafety.ConfiguredUsable | render/src/audio/AudioMixer.cpp:23-93 | Every accepted format has a positive chunk size and rebuffer threshold, and chunks of at least 5 ms. |
| MixerSpec.FramesToMicrosecondsIsFloor | render/src/audio/AudioMixer.cpp:731-759 | The conversion by whole seconds and remainder is the floor of the exact quotient, saturated at 64 bits. |
| MixerSpec.FramesToMicrosecondsMonotone | render/src/audio/AudioMixer.cpp:731-759 | The conversion is monotone and non-negative. |
| AudioMixer.AudioMixer.PopAudio | render/src/audio/AudioMixer.cpp:206-400 | The callback on the queue, offset, clock and cursor fields performs the specified pop and fills the whole output; a call for no frames changes nothing. |
| AudioMixer.AudioMixer.TakeFrames | render/src/audio/AudioMixer.cpp:230-298 | The loop over queued chunks takes what the recursive draw takes and stops at the same place and media time. |
| AudioMixer.AudioMixer.HandleUnderrun | render/src/audio/AudioMixer.cpp:313-381 | Counts the underrun and either advances clock and cursor or rebuffers. |
| AudioMixer.AudioMixer.ReserveChunk | render/src/audio/AudioMixer.cpp:828-887 | The first critical section of the mixing loop: establishes or advances the cursor and notes the reserved interval. |
| AudioMixer.AudioMixer.CommitChunk | render/src/audio/AudioMixer.cpp:935-975 | The last one: queues the mixed chunk, rebuffers or drops it. |
| AudioMixer.AudioMixer.ClearMixedQueue | render/src/audio/AudioMixer.cpp:663-695 | Clears the queue and moves the cursor back to the playback position. |
| AudioMixer.AudioMixer.ResetPlaybackTimeline | render/src/audio/AudioMixer.cpp:472-500 | Forgets queue, cursor, clock and underrun count. |
| MixerEffects.ClearEffect | render/src/audio/AudioMixer.cpp:663-695 | A user change leaves nothing to play, the clock as it was, and with a running clock the next interval starts one microsecond after it. |
| MixerEffects.ClearRefuses | render/src/audio/AudioMixer.cpp:663-695 | It also makes the commit of the interval being mixed fail, unless that ends exactly one microsecond after the clock. |
| MixerEffects.ReserveEffect | render/src/audio/AudioMixer.cpp:828-887 | An interval is reserved exactly when the queue has room, a start is known and in range, and a user covers it; queue and clock stay. |
| MixerEffects.ClockStopsExactly | render/src/audio/AudioMixer.cpp:313-347 | In every reachable state a running clock stops exactly at a reset, at an abandoned unmoved reservation, or at a callback whose missing frames in a row reach the threshold. |
| MixerEffects.FullPopClock | render/src/audio/AudioMixer.cpp:286-311 | A callback that finds all its frames leaves the clock at the media time after the last one, and the cursor alone. |
| MixerEffects.ShortPopClock | render/src/audio/AudioMixer.cpp:316-381 | A callback that lacks some frames lets the clock run on from the end of the queue through the silence, with the cursor one microsecond after it. |
| MixerEffects.DryPopClock | render/src/audio/AudioMixer.cpp:316-381 | With nothing queued the clock runs on by the length of the callback. |
| MixerEffects.NothingSkipped | render/src/audio/AudioMixer.cpp:206-400 | Over every run in which nothing throws the queue away, the frames played and the frames left are exactly those of the accepted commits, in order. |
| MixerSafety.ConfiguredExactly | render/src/audio/AudioMixer.cpp:31-53 | Accepted are exactly the rates from 100 Hz with one to eight channels whose frame counts fit; a chunk is 10 ms and the threshold 100 ms, rounded down. |
| MeetingReplay.RunConsistent | VideoConferenceServer/src/InMemoryMeetingStore.cpp:110-634 | Over every run of calls: a user is mapped to a meeting exactly when it is active and lists them, names are distinct, a meeting is active exactly when it has participants, each user has at most one open subscription and only in their own meeting, and folding an open subscription's events over its base list gives the present participant names; an end event is last and only in closed logs. |
| MeetingReplay.ApplyKeeps | VideoConferenceServer/src/InMemoryMeetingStore.cpp:110-634 | Every single call keeps that invariant. |
| MeetingReplay.JoinKeeps | VideoConferenceServer/src/InMemoryMeetingStore.cpp:218-295 | Joining, re-joining with a new address, and all their refusals keep it. |
| MeetingReplay.LeaveKeeps | VideoConferenceServer/src/InMemoryMeetingStore.cpp:297-382 | Leaving keeps it, whether or not the leaver was the last participant. |
| MeetingReplay.EndKeeps | VideoConferenceServer/src/InMemoryMeetingStore.cpp:384-451 | Ending keeps it: all memberships go and all subscriptions close with an end event. |
| MeetingReplay.SubscribeKeeps | VideoConferenceServer/src/InMemoryMeetingStore.cpp:536-595 | Subscribing keeps it; the user's earlier subscription is closed first. |
| MeetingReplay.CreateKeeps | VideoConferenceServer/src/InMemoryMeetingStore.cpp:167-216 | Creating keeps it, and the generated meeting name is always new at the first attempt. |
| MeetingReplay.PublishKeeps | VideoConferenceServer/src/InMemoryMeetingStore.cpp:687-722 | Telling every listed open subscription keeps all logs replaying to the state. |
| MeetingReplay.CloseUserKeeps | VideoConferenceServer/src/InMemoryMeetingStore.cpp:724-762 | Closing a user's subscriptions touches no one else's. |
| MeetingReplay.DeliveryInOrder | VideoConferenceServer/src/InMemoryMeetingStore.cpp:32-89 | No call reorders, drops or repeats an event: a subscription's log grows by at most one event, and only its own reader moves the oldest queued event to delivered, also after Close. |
| MeetingPages.PagesPartition | VideoConferenceServer/src/InMemoryMeetingStore.cpp:492-519 | Pages 1..total concatenate to the one listing of all meetings, and a page is empty exactly when it is past the last. |
| MeetingAccess.ApplyProper | VideoConferenceServer/src/InMemoryMeetingStore.cpp:110-451 | In every reachable state a call adds a user to a meeting only if that logged-in user joins or creates it, removes one only if that user leaves or the creator ends it, never changes an ended meeting or a meeting's identity, and logs a user in only with the registered password. |
| MeetingAccess.RunAdmitted | VideoConferenceServer/src/InMemoryMeetingStore.cpp:110-451 | On every run all members of meetings are logged in and all logged-in users are registered. |
| MeetingPages.AllPages | VideoConferenceServer/src/InMemoryMeetingStore.cpp:492-519 | Concatenating all pages gives back the ordered list. |
| MeetingPages.ListingUnique | VideoConferenceServer/src/InMemoryMeetingStore.cpp:476-491 | There is exactly one list of all meetings in strictly descending (start time, id) order. |
| MeetingPages.PageEmptiness | VideoConferenceServer/src/InMemoryMeetingStore.cpp:498-503 | A page number shows nothing if and only if it is beyond the total. |
| MeetingPages.SortMeetings | VideoConferenceServer/src/InMemoryMeetingStore.cpp:476-491 | Sorting yields that listing. |
| MeetingNumbering.MeetingNameInjective | VideoConferenceServer/src/InMemoryMeetingStore.cpp:643-660 | Zero-padded names of different numbers differ. |
| InMemoryMeetingStore.InMemoryMeetingStore.CreateMeeting | VideoConferenceServer/src/InMemoryMeetingStore.cpp:167-216 | The in-place call does what the specification says to all maps and returns its outcome. |
| InMemoryMeetingStore.InMemoryMeetingStore.GenerateMeetingId | VideoConferenceServer/src/InMemoryMeetingStore.cpp:643-660 | The loop terminates with a free name, trying numbers in order. |
| InMemoryMeetingStore.InMemoryMeetingStore.JoinMeeting | VideoConferenceServer/src/InMemoryMeetingStore.cpp:218-295 | As specified, including events to every open subscription. |
| InMemoryMeetingStore.InMemoryMeetingStore.LeaveMeeting | VideoConferenceServer/src/InMemoryMeetingStore.cpp:297-382 | As specified, including the order of events and closing. |
| InMemoryMeetingStore.InMemoryMeetingStore.EndMeeting | VideoConferenceServer/src/InMemoryMeetingStore.cpp:384-451 | As specified. |
| InMemoryMeetingStore.InMemoryMeetingStore.GetMeetingList | VideoConferenceServer/src/InMemoryMeetingStore.cpp:453-519 | Returns the requested page of the sorted listing with the counts, or the error. |
| InMemoryMeetingStore.InMemoryMeetingStore.SubscribeMeetingEvents | VideoConferenceServer/src/InMemoryMeetingStore.cpp:536-595 | As specified: a new open subscription based on the present participants. |
| InMemoryMeetingStore.InMemoryMeetingStore.UnsubscribeMeetingEvents | VideoConferenceServer/src/InMemoryMeetingStore.cpp:597-634 | As specified: closed and taken off its list. |
| InMemoryMeetingStore.InMemoryMeetingStore.PublishEventLocked | VideoConferenceServer/src/InMemoryMeetingStore.cpp:687-722 | The loop over weak references pushes to every live listed subscription, closes it if asked and unlists the dead. |
| InMemoryMeetingStore.InMemoryMeetingStore.CloseUserSubscriptionsLocked | VideoConferenceServer/src/InMemoryMeetingStore.cpp:724-762 | The loop closes and unlists exactly the user's subscriptions and the dead ones. |
| InMemoryMeetingStore.MeetingEventSubscription.Push | VideoConferenceServer/src/InMemoryMeetingStore.cpp:61-74 | Appends unless closed. |
| InMemoryMeetingStore.MeetingEventSubscription.Close | VideoConferenceServer/src/InMemoryMeetingStore.cpp:76-89 | Closes and keeps the queued events. |
| InMemoryMeetingStore.MeetingEventSubscription.WaitNext | VideoConferenceServer/src/InMemoryMeetingStore.cpp:32-53 | Hands out the oldest queued event, closed or not. |
| MeetingEffects.LeaveSucceedsExactly | VideoConferenceServer/src/InMemoryMeetingStore.cpp:297-341 | In every reachable state leaving succeeds exactly for the participants of the meeting, and otherwise changes nothing. |
| MeetingEffects.LeaveEffect | VideoConferenceServer/src/InMemoryMeetingStore.cpp:343-381 | The leaver is in no participant list and not in the membership table, everybody else stays; the last one to leave ends the meeting at the clock's reading. |
| MeetingEffects.LeaveTells | VideoConferenceServer/src/InMemoryMeetingStore.cpp:367-382 | When somebody stays, every other open subscription of the meeting gets exactly one event, which names the leaver and who is left; the leaver has no open subscription; no other subscription changes. |
| MeetingEffects.LastLeaveTells | VideoConferenceServer/src/InMemoryMeetingStore.cpp:348-365 | When nobody stays, every open subscription of the meeting is told that it is over, and closed. |
| MeetingEffects.JoinSucceedsExactly | VideoConferenceServer/src/InMemoryMeetingStore.cpp:218-264 | Joining succeeds exactly for a logged-in user with an address, into an active meeting, who is in no other one. |
| MeetingEffects.JoinEffect | VideoConferenceServer/src/InMemoryMeetingStore.cpp:282-295 | A newcomer is put last, nobody else's membership changes, and every open subscription of the meeting gets exactly one event that says so. |
| MeetingEffects.RejoinEffect | VideoConferenceServer/src/InMemoryMeetingStore.cpp:266-280 | Joining again replaces the participant's address and nothing else. |
| MeetingEffects.CreateSucceedsExactly | VideoConferenceServer/src/InMemoryMeetingStore.cpp:167-197 | Creating succeeds exactly for a logged-in user with an address and a proper title and description who is in no meeting. |
| MeetingEffects.CreateEffect | VideoConferenceServer/src/InMemoryMeetingStore.cpp:199-216 | The new meeting has an unused name, the given data and the creator as its only participant; nobody else's membership changes. |
| MeetingEffects.EndSucceedsExactly | VideoConferenceServer/src/InMemoryMeetingStore.cpp:384-425 | Ending succeeds exactly for the creator of an active meeting. |
| MeetingEffects.EndEffect | VideoConferenceServer/src/InMemoryMeetingStore.cpp:427-437 | The meeting is over at the clock's reading, exactly its members are out of the membership table, and everybody else stays. |
| MeetingEffects.EndTells | VideoConferenceServer/src/InMemoryMeetingStore.cpp:439-451 | Every open subscription of the meeting is told and closed; no other one changes. |
| MeetingEffects.SubscribeSucceedsExactly | VideoConferenceServer/src/InMemoryMeetingStore.cpp:536-578 | Subscribing succeeds exactly for the participants of the meeting. |
| MeetingEffects.SubscribeEffect | VideoConferenceServer/src/InMemoryMeetingStore.cpp:580-595 | The new subscription starts from the present participants and is the user's only open one; all others are as they were. |
| MeetingEffects.UnsubscribeEffect | VideoConferenceServer/src/InMemoryMeetingStore.cpp:597-634 | The subscription is closed and off its list, with its queued events kept. |
| MeetingEffects.UnsubscribeSparesOthers | VideoConferenceServer/src/InMemoryMeetingStore.cpp:597-634 | Every other open subscription stays on its list. |
| MeetingEffects.ReadEffect | VideoConferenceServer/src/InMemoryMeetingStore.cpp:32-53 | A reader gets the oldest queued event, once. |
| MeetingEffects.DropEffect | VideoConferenceServer/src/InMemoryMeetingStore.cpp:687-722 | A subscription that nobody holds is not open any more; the others stay. |
| MeetingEffects.LoginEffect | VideoConferenceServer/src/InMemoryMeetingStore.cpp:137-165 | A login succeeds exactly with the registered password and admits that user only. |
| MeetingEffects.RegisterEffect | VideoConferenceServer/src/InMemoryMeetingStore.cpp:110-135 | Registration succeeds exactly for a new name and a password of the permitted lengths. |
| OpusFraming.SplitInsensitive | transport/src/codec/audio_codec/OpusCodec.cpp:458-523 | Two series of 48 kHz inputs without a jump of more than 100 ms, with the same concatenation and first timestamp, give the codec the same frames and leave the same tail, however the input was split. |
| OpusFraming.PushAllCuts | transport/src/codec/audio_codec/OpusCodec.cpp:165-233 | The frames given to the codec are the consecutive blocks of the concatenated input, and less than one block is left. |
| OpusFraming.SteadyIsOnTime | transport/src/codec/audio_codec/OpusCodec.cpp:485-513 | The encoder sees no jump on a series of inputs if and only if every timestamp is within 100 ms of where the samples before it end. |
| OpusFraming.ExpectedIsStreamTime | transport/src/codec/audio_codec/OpusCodec.cpp:481-495 | The expected timestamp, computed from the frames already out and the buffered rest, is the duration of the whole stream: no rounding error builds up. |
| OpusFraming.BlockAt | transport/src/codec/audio_codec/OpusCodec.cpp:165-226 | Frame i is the i-th block of the stream, stamped i frame durations after the first input's timestamp. |
| OpusFraming.FlushCoversEverything | transport/src/codec/audio_codec/OpusCodec.cpp:547-562 | Flushing hands over every pushed sample followed by less than one block of zeros, and by none if the input ended on a block boundary. |
| OpusFraming.EncodeReadyFramed | transport/src/codec/audio_codec/OpusCodec.cpp:165-226 | Encoding adds one frame per block, and the queue holds the most recent ones, as many as fit into 100. |
| OpusFraming.RunFramed | transport/src/codec/audio_codec/OpusCodec.cpp:165-242 | Over every run of pushes with any timestamps, flushes and pulls, and with any codec failures, the codec has last been given exactly the first blocks of the stream since the last jump, at a fixed pace, and the queue is the most recent unpulled part of what was emitted, at most 100 frames. |
| OpusFraming.PushFramed | transport/src/codec/audio_codec/OpusCodec.cpp:458-523 | Every push keeps the framing, also across a timestamp jump and a codec failure. |
| OpusFraming.FlushFramed | transport/src/codec/audio_codec/OpusCodec.cpp:547-562 | Every flush keeps it too, and a successful one leaves nothing to encode. |
| OpusFraming.Configure | transport/src/codec/audio_codec/OpusCodec.cpp:37-41 | Exactly the five frame sizes with one or two channels are supported, and a block lasts exactly its milliseconds. |
| OpusCodecEncoder.OpusCodecEncoder.PushInput | transport/src/codec/audio_codec/OpusCodec.cpp:458-523 | The in-place push refuses a wrong format and otherwise performs the specified one. |
| OpusCodecEncoder.OpusCodecEncoder.EncodeBufferedFrames | transport/src/codec/audio_codec/OpusCodec.cpp:165-242 | The loop over the PCM buffer, with its read offset, padding, queue limit and compaction, performs the specified encoding and stops at the first codec failure. |
| OpusCodecEncoder.OpusCodecEncoder.Compact | transport/src/codec/audio_codec/OpusCodec.cpp:228-242 | Compaction keeps every sample that is still to be encoded. |
| OpusCodecEncoder.OpusCodecEncoder.Flush | transport/src/codec/audio_codec/OpusCodec.cpp:547-562 | The in-place flush performs the specified one. |
| OpusCodecEncoder.OpusCodecEncoder.PullEncoded | transport/src/codec/audio_codec/OpusCodec.cpp:525-540 | Hands out the oldest queued frame. |
| OpusFraming.PullIsOldest | transport/src/codec/audio_codec/OpusCodec.cpp:525-540 | On every run a pull hands out the oldest frame that is waiting, and only that one. |
| OpusFraming.PullsInOrder | transport/src/codec/audio_codec/OpusCodec.cpp:525-540 | Over every run a later pull hands out a frame emitted later: nothing twice, nothing out of order. |
| OpusFraming.StepMovesOn | transport/src/codec/audio_codec/OpusCodec.cpp:208-221 | No operation takes back an emitted frame, and frames are skipped only where more than a hundred are waiting. |
| OpusFraming.JumpStartsAfresh | transport/src/codec/audio_codec/OpusCodec.cpp:489-523 | After a timestamp jump the encoder goes on exactly as a new one would from that input; the rest of a block is dropped. |
| RtpNtpMapping.NtpIsFloor | transport/src/transport/RtpNtpTimeMapper.cpp:138-171 | The 64-bit NTP conversion is the floor of ntp * 10^6 / 2^32. |
| RtpNtpMapping.DeltaUnique | transport/src/transport/RtpNtpTimeMapper.cpp:173-190 | The signed difference is the one number in the 32-bit signed range that leads from the base to the current timestamp modulo 2^32. |
| RtpNtpMapping.UpdateStable | transport/src/transport/RtpNtpTimeMapper.cpp:70-98 | Accepting a sender report moves the mapped time of every timestamp in reach by at most the allowed deviation plus 1 microsecond, across wrap-around. |
| RtpNtpMapping.UpdateStableExactly | transport/src/transport/RtpNtpTimeMapper.cpp:70-98 | At the clock rates used, being within half the range of the new anchor as seen from the old is exactly the condition for that bound. |
| RtpNtpMapping.RunStable | transport/src/transport/RtpNtpTimeMapper.cpp:23-99 | Over a run of n reports without a discontinuity the mapped time moves by at most n times that bound. |
| RtpNtpMapping.AnchorIsExact | transport/src/transport/RtpNtpTimeMapper.cpp:23-120 | An accepted report is reproduced exactly, anything else leaves the mapper alone, and a discontinuity is accepted after a reset. |
| RtpNtpMapping.TruncDivAdds | transport/src/transport/RtpNtpTimeMapper.cpp:192-208 | Truncating division is additive up to one. |
| RtpNtpTimeMapper.RtpNtpTimeMapper.UpdateSenderReport | transport/src/transport/RtpNtpTimeMapper.cpp:15-99 | The in-place update performs the specified one with its four results. |
| RtpNtpTimeMapper.RtpNtpTimeMapper.MapToNtpTimeUs | transport/src/transport/RtpNtpTimeMapper.cpp:101-120 | Maps through the anchor, or not at all before the first report. |
| PullTimebase.ActivationWithinMicrosecond | transport/src/transport/RtcPullTransport.cpp:243-277 | Switching audio from its arrival timeline to the sender's moves no audio timestamp in reach by more than 1 microsecond, also when it follows a discontinuity in the same call. |
| PullTimebase.ActivationContinuous | transport/src/transport/RtcPullTransport.cpp:243-277 | With any report the switch is within 2 microseconds, and within 1 if the report is the anchor. |
| PullTimebase.StepStable | transport/src/transport/RtcPullTransport.cpp:191-303 | A call that does not rebuild the timeline moves no timestamp in reach, of either medium, by more than 500001 microseconds, and by nothing before activation. |
| PullTimebase.NeverMixed | transport/src/transport/RtcPullTransport.cpp:279-302 | In every reachable state audio and video are both placed by sender time with one common offset or both by arrival time. |
| PullTimebase.RunKeeps | transport/src/transport/RtcPullTransport.cpp:130-320 | On every run an active timebase implies that both mappers are ready and both media have started. |
| PullTimebase.FirstPacketAtArrival | transport/src/transport/RtcPullTransport.cpp:171-186 | A medium's first packet is placed at its arrival time unless sender time is in use. |
| RtcPullTransport.RtcPullTransport.ResolveMediaTimestamp | transport/src/transport/RtcPullTransport.cpp:130-320 | The in-place resolution over both mappers performs the specified step and returns the packet's place on the new timeline. |
| RtcPullTransport.RtcPullTransport.ActivateIfReady | transport/src/transport/RtcPullTransport.cpp:243-277 | Activates exactly when both mappers and both fallback timelines are there and an audio report is present. |
| RtcPullTransport.RtcPullTransport.MapFallbackTimestamp | transport/src/transport/RtcPullTransport.cpp:322-348 | The base time plus the signed distance from the base timestamp. |
| RtpNtpMapping.DeltaToUsNear | transport/src/transport/RtpNtpTimeMapper.cpp:192-208 | A distance in ticks is converted to within one microsecond, towards zero. |
| RtpNtpMapping.UpdateExactly | transport/src/transport/RtpNtpTimeMapper.cpp:40-99 | A valid new report is accepted exactly when there is no mapping yet or the mapping predicted its time within the deviation; otherwise it is a discontinuity and changes nothing. |
| PullTimebase.ActiveExactly | transport/src/transport/RtcPullTransport.cpp:171-303 | After a call sender time is in use if and only if both media have started and have had a usable report, and an audio report is at hand or it was in use before and no report breaks it. |
| PullTimebase.ReadyExactly | transport/src/transport/RtcPullTransport.cpp:191-241 | A medium has a mapping from its first usable report on. |
| JitterTarget.RunBounds | render/src/audio/AdaptiveJitterController.cpp:46-256 | On every run, from any configuration: the target is within its bounds, the stable time is below a window, the estimate is between 0 and the largest sample, and no 64-bit intermediate overflows. |
| JitterTarget.PerformKeeps | render/src/audio/AdaptiveJitterController.cpp:46-256 | Every notification keeps that, and a change of target is at least the hysteresis, up on trouble and down on stable playback only. |
| JitterTarget.NeverTooSmall | render/src/audio/AdaptiveJitterController.cpp:46-140 | From the first arrival sample on, through any notifications but a reset, the target is at least what the current jitter estimate asks for, or less than the hysteresis below it. |
| JitterTarget.Converges | render/src/audio/AdaptiveJitterController.cpp:194-235 | With a step not below the hysteresis, stable playback for as many windows as there are steps between target and desired target leaves the target at most the desired one or within the hysteresis above it. |
| JitterTarget.SettledStays | render/src/audio/AdaptiveJitterController.cpp:194-235 | Once there, stable playback changes the target no more. |
| JitterTarget.SettlesExactlyWhen | render/src/audio/AdaptiveJitterController.cpp:397-430 | An unsettled target can be settled by stable playback if and only if the configured step is not below the hysteresis. |
| JitterTarget.StepBelowHysteresisIsAccepted | render/src/audio/AdaptiveJitterController.cpp:283-316 | A configuration that can never settle is accepted. |
| JitterTarget.NeverLowered | render/src/audio/AdaptiveJitterController.cpp:397-430 | With a smaller step no amount of stable playback lowers the target. |
| JitterTarget.DesiredIsExact | render/src/audio/AdaptiveJitterController.cpp:318-360 | Saturation never shows: the desired target is minimum + margin + multiplier * estimate cut off at the maximum. |
| JitterTarget.UnderrunRaises | render/src/audio/AdaptiveJitterController.cpp:142-171 | An underrun restarts the stable time and raises the target by what was missing, up to the maximum, unless that is below the hysteresis. |
| JitterTarget.SmoothedBetween | render/src/audio/AdaptiveJitterController.cpp:118-127 | The moving average with truncation stays between the old estimate and the sample. |
| JitterTarget.MaximumFollows | render/src/audio/AdaptiveJitterController.cpp:101-116 | The recorded maximum changes only with a larger sample. |
| AdaptiveJitterController.AdaptiveJitterController.constructor | render/src/audio/AdaptiveJitterController.cpp:29-44 | An invalid configuration is replaced by the default one. |
| AdaptiveJitterController.AdaptiveJitterController.ObserveArrival | render/src/audio/AdaptiveJitterController.cpp:46-140 | The in-place observation performs the specified one. |
| AdaptiveJitterController.AdaptiveJitterController.NotifyUnderrun | render/src/audio/AdaptiveJitterController.cpp:142-171 | The in-place notification performs the specified one. |
| AdaptiveJitterController.AdaptiveJitterController.NotifyStablePlayback | render/src/audio/AdaptiveJitterController.cpp:194-235 | The window loop performs the recursive settling. |
| AdaptiveJitterController.AdaptiveJitterController.DecreaseTarget | render/src/audio/AdaptiveJitterController.cpp:397-430 | One step down, not below the desired target and not below the hysteresis in size. |
| JitterTarget.SmoothedGain | render/src/audio/AdaptiveJitterController.cpp:119-129 | The estimate moves by a sixteenth of its distance to the sample, up to the rounding. |
| JitterTarget.EvenArrivals | render/src/audio/AdaptiveJitterController.cpp:87-129 | On any run of arrivals with equal transit time the estimate and every sample are zero. |
| JitterTarget.OddArrival | render/src/audio/AdaptiveJitterController.cpp:87-129 | After evenly paced arrivals, a frame whose transit time differs gives that difference as the sample and a sixteenth of it as the estimate. |
| JitterTarget.ArrivalRaises | render/src/audio/AdaptiveJitterController.cpp:131-140 | An arrival raises the target to minimum + margin + multiplier * estimate within the maximum, unless that is within the hysteresis. |
| JitterTarget.LateFrameRaises | render/src/audio/AdaptiveJitterController.cpp:173-192 | A late frame restarts the stable time and raises the target by the configured amount within the maximum, unless that is within the hysteresis. |
| JitterTarget.RestartForgets | render/src/audio/AdaptiveJitterController.cpp:237-256 | A reset restores the initial target and forgets jitter and arrival baseline, so the next arrival is no sample. |
| BitrateControl.RecoveryIsSlow | transport/src/transport/AdaptiveVideoBitrateController.cpp:49-117 | On every run, from a congested update to any later increase the sample durations, the raising one included, sum to at least hold plus stable duration. |
| BitrateControl.IncreasesApart | transport/src/transport/AdaptiveVideoBitrateController.cpp:91-117 | Two increases are at least a stable duration apart. |
| BitrateControl.RecoveryHappens | transport/src/transport/AdaptiveVideoBitrateController.cpp:76-117 | After congestion, calm periods that use up the hold and then fill the stable duration raise the rate by one step at the period that completes it, and not before. |
| BitrateControl.CongestionReachesMinimum | transport/src/transport/AdaptiveVideoBitrateController.cpp:59-70 | Consecutive congested updates strictly lower the rate until the minimum, which they reach after at most as many updates as there are kbps. |
| BitrateControl.RunSound | transport/src/transport/AdaptiveVideoBitrateController.cpp:49-117 | The rate stays between minimum and maximum on every run. |
| BitrateControl.UpdateSound | transport/src/transport/AdaptiveVideoBitrateController.cpp:49-117 | An update answers exactly when it changes the rate, with the new one, and raises by at most the step and never under congestion or hold. |
| BitrateControl.HeldSinceKept | transport/src/transport/AdaptiveVideoBitrateController.cpp:76-103 | Hold and stable counters never run ahead of the time since congestion. |
| AdaptiveVideoBitrateController.AdaptiveVideoBitrateController.Update | transport/src/transport/AdaptiveVideoBitrateController.cpp:49-117 | The in-place update performs the specified one. |
| AdaptiveVideoBitrateController.AdaptiveVideoBitrateController.Initialize | transport/src/transport/AdaptiveVideoBitrateController.cpp:8-38 | Accepts exactly the usable configurations and otherwise clears the controller. |
| AdaptiveVideoBitrateController.AdaptiveVideoBitrateController.CalculateReducedBitrate | transport/src/transport/AdaptiveVideoBitrateController.cpp:133-152 | At least 1 kbps less, not below the minimum. |
| PushBitrate.NeverDisagree | transport/src/transport/RtcPushTransport.cpp:403-453 | Over every run of starts, stops, drops, send failures and evaluations with any refusals, the controller's rate is the encoder's rate and its range lies inside the encoder's. |
| PushBitrate.OnlyTheCodecRefuses | transport/src/codec/video_codec/H264Codec.cpp:356-388 | In a reachable session no requested rate is outside the encoder's range, so only the codec library can refuse. |
| PushBitrate.PinnedUntilStart | transport/src/transport/RtcPushTransport.cpp:431-453 | After a refusal nothing but a new start ever requests another rate, and both rates stay. |
| PushBitrate.RefusalPins | transport/src/transport/RtcPushTransport.cpp:431-453 | A refusal pins the controller to the rate the encoder still has. |
| PushBitrate.EncoderRecoversSlowly | transport/src/transport/RtcPushTransport.cpp:403-453 | In every reachable session, after an evaluation under pressure the encoder's rate rises only when the evaluated periods add up to 11 s, whatever was refused in between. |
| PushBitrate.SetupIsUsable | transport/src/transport/RtcPushTransport.cpp:300-344 | The derived encoder and controller ranges are valid for every resolution and frame rate. |
| RtcPushTransport.RtcPushTransport.EvaluateVideoBitrate | transport/src/transport/RtcPushTransport.cpp:403-453 | Draining the counters, updating the controller and the encoder object and re-initialising on refusal is the specified evaluation. |
| RtcPushTransport.RtcPushTransport.InitializeVideoEncoder | transport/src/transport/RtcPushTransport.cpp:289-358 | Sets up encoder and controller from the same target rate. |
| RtcPushTransport.RtcPushTransport.StartPublishVideo | transport/src/transport/RtcPushTransport.cpp:78-125 | Starting installs the encoder only when every stage succeeds. |
| RtcPushTransport.H264Encoder.SetBitrate | transport/src/codec/video_codec/H264Codec.cpp:356-388 | Refuses rates out of range and changes the target only when the codec takes it. |
| BitrateControl.CutSize | transport/src/transport/AdaptiveVideoBitrateController.cpp:133-153 | One cut is the configured percentage of the rate, rounded down but at least 1 kbps, and never below the minimum. |
| BitrateControl.LowersExactly | transport/src/transport/AdaptiveVideoBitrateController.cpp:59-70 | A drop, a send failure or a deep queue alone lowers the rate, and nothing else does. |
| BitrateControl.UnquietRestarts | transport/src/transport/AdaptiveVideoBitrateController.cpp:87-99 | After any period that is not quiet, an increase needs a whole stable duration again. |
| PushBitrate.TargetRateExactly | transport/src/transport/RtcPushTransport.cpp:303-309 | The target is one kbps for every 8000 pixels per second, rounded down, between 300 and 6000. |
| PushBitrate.TargetRateMonotone | transport/src/transport/RtcPushTransport.cpp:303-309 | More pixels or frames never get a lower target. |
| PushBitrate.StartInstallsExactly | transport/src/transport/RtcPushTransport.cpp:78-125 | A start succeeds exactly for an even, positive format when every stage does; encoder and controller then run at the format's target rate with cleared counters. |
| PushBitrate.EncoderFollows | transport/src/transport/RtcPushTransport.cpp:403-453 | In every reachable session a willing encoder takes the rate the controller answers with, and the counters are cleared. |
| PushBitrate.DropLowersEncoder | transport/src/transport/RtcPushTransport.cpp:403-453 | In every reachable session above its minimum, one dropped or unsent packet makes the next evaluation lower the encoder's rate. |
| PushBitrate.StopEffect | transport/src/transport/RtcPushTransport.cpp:127-155 | Stopping removes the encoder and the counts, and the controller is back at its initial rate. |

## Left out

- RtpReorderSpec.Oldest: frames that start at the same number are ordered by timestamp, while the code takes whichever its hash map yields first; a number appears in two frames only when timestamps overlap.
- Reorder buffer: the RTP header is reduced to the fields the buffer reads; packet-size and version checks become one well-formedness flag, and an exception from the loss callback is not modelled.
- RtpReorderLoss.LossyBatch: what arrives of the batch comes in one call and the waiting time passes before the next; arrivals spread over more calls are covered from the state they lead to by RtpReorderLoss.DrainAfterLoss.
- Reorder buffer: of a frame at the very beginning or after a lost marker the first packets may be missing without notice; what then comes out is told exactly by RtpReorderLoss.OutputIntactExactly.
- TransportOutcome.PullCompletes: no other step falls in between; what interleavings can do to it is told by TransportOutcome.DoomedExactlyIfEnded and TransportOutcome.StoredUnlessEnded.
- TransportLossless.NeverLost: assumes at most one Offer per publish generation and per pull session, and no Offer from a subscription that reports failure, as the transports deliver them.
- TransportLossless.ShutdownDeletesAll: assumes that Uninit returns only after callbacks in flight have ended, so that none of their Offers is queued later, and that the server never hands out the same URL twice.
- TransportEngine.TransportEngine.OfferPublishDescription: the initialised check and the reading of the generation are one step, while the code reads the flag first and the generation under the lock.
- Transport engine: SDP contents, URLs as text, configuration and the outcome of a DELETE; a POST answer without a Location counts as no URL; the connection state callbacks.
- Transport engine: a failing initialisation, which leaves the engine as it was; shared pointers to transports are identities without aliasing; two steps of the worker (check, then apply the answer) stay separate, so an answer may reach a newer connection.
- TimestampedAudioBuffer.TimestampedAudioBuffer.Push: the saturation of the time conversions at the ends of the 64-bit range and the rounding of `long double` are not modelled; conversions round exactly, halves away from zero.
- Audio buffer and mixer: one element stands for the samples of all channels at an instant; mixing, clamping and peak normalisation are an arbitrary input of the commit.
- AudioMixer.AudioMixer.ReserveChunk: the users' buffers are represented by the initial timestamp and the coverage answer they give; starting and stopping the threads is not modelled.
- Mixer: a null output buffer, callbacks before initialisation, and exceptions inside the callback.
- Meeting store: waiting on the condition variable and timeouts, the destructor, the service layer in front, and overflow of the meeting counter; passwords are compared as plain strings.
- OpusCodecEncoder.OpusCodecEncoder.PushInput: the path through the resampler, the codec's own state and the overflow warning flag.
- Opus decoder and packet loss concealment.
- RtcPullTransport.RtcPullTransport.ResolveMediaTimestamp: how pending frames are cleared after a rebuild, and 64-bit overflow of sums for absurd clock readings.
- Controllers: 64-bit statistics counters are unbounded; queue and thread handling of the push transport around the bitrate evaluation.
- Audio/video synchronisation decisions, user contexts, rendering, device control, the Qt client and the forwarding layers: single-branch logic or foreign calls.
