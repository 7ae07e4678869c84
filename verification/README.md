# gg-relay: a verified model of its concurrent core

gg-relay runs coding-agent sessions on one asyncio event loop. Its code runs uninterrupted between two
`await`s, and everything else interleaves. This project models the parts where that matters as state
machines whose steps are exactly those uninterrupted stretches, and proves what holds after *every*
sequence of steps: every interleaving of runs, pauses, resumes, cancels, timeouts, publishers, readers,
callbacks and lookups. A step whose guard is false leaves the state alone, so no theorem excludes a run by a
precondition on its shape unless the statement says so.

Where the original is an object whose methods update fields, there is a class whose methods are the same
stretches of code, proved against the step functions of the state machine. `SessionManagerState.Drive`,
`ControlProtocol.Take`, `EventQueue.Take`, `KeyCache.Take` and `TokenBucket.Drive` drive the objects through
arbitrary steps and prove that they end where the state machine says.

| file | component | main results |
|---|---|---|
| `SlotScheduler.dfy`, `PausedCaps.dfy`, `WatchdogCover.dfy`, `SessionManager.dfy` | pause/resume slot scheduler | slot ledger, pause accounting, paused caps, watchdog coverage |
| `HostRunner.dfy` | manager and control loops together | host/runner agreement, exact tallies, the lost pause and the lost resume |
| `ControlProtocol.dfy` | request/ack channel and loop | answered once in order, alternation, correlation |
| `OptimisticLock.dfy` | versioned row writes | version counts commits, when the retry helper raises |
| `EventQueue.dfy`, `DurableStore.dfy`, `ReplayCursor.dfy`, `SseReplay.dfy` | event pipeline | queue law, cursors, store agreement, id round trips, no gap, isolation |
| `Pairing.dfy`, `RunnerFrames.dfy` | runner core | pairing confluence, frame numbering, capped output pump |
| `TokenBucket.dfy` | distributed rate limiter | window bound, exact retry hint, when expiry is visible |
| `KeyCache.dfy` | API-key cache | single flight, refinement of the direct lookup, invalidation |
| `RedisPump.dfy`, `Retention.dfy` | stream pump, retention delete | contiguous delivery, exact batched delete |

`dafny verify dfyconfig.toml` checks the whole project.

## Where the code does not do what it says

Each of these is shown on a run of the model, next to a theorem that says exactly when the promise does hold.

- `_run` promises "we never over-release" (`src/gg_relay/session/manager.py:1057-1059`). Cancelling a paused
  session drops the marker first, so `_run` releases the slot a second time: `SlotScheduler.CancelOverReleases`.
  A resume that succeeds after its run ended loses a slot for good: `LateResumeLeaks`. Exactly:
  `StepConservesIff`, `SlotLedger`.
- The paused cap is checked before an `await`: for every cap there is a run that ends above it
  (`PausedCaps.CapOvershootHappens`), and `PausedCap` is the bound that does hold. Exactly: `CapPassedIff`,
  `KeyCapPassedIff`.
- A pause whose row write fails, or a resume that gives up before it has a permit, leaves a paused session
  without a timeout: `WatchdogCover.FailedWriteUnguarded`, `GivenUpResumeUnguarded`. Exactly: `PausedSessionsGuardedIff`.
- A pause answered after the host stopped waiting leaves the runner paused with no way to resume it:
  `HostRunner.LostPauseHappens`, `WedgedForever`. Exactly when host and runner fall out of step: `StepInStepIff`,
  `InStepIff`. A lost resume lets a session be counted twice:
  `DoubleCountHappens`; `SlotScheduler.PauseAccounting` counts exactly how often.
- The bus documents durable drops as the ones after a timeout, counted apart
  (`src/gg_relay/core/event_bus.py:35-41`, `140-146`). Two publishers that wake for one freed place, or a lossy
  event on a full queue, drop a durable event uncounted, and a timeout that comes after room was made counts a
  drop that did not happen: `EventQueue.DrainedPublishersEvict`, `LossyEvictsDurable`, `TimeoutWithRoom`.
  Exactly: `DurableLedger`, `CounterExactIff`.
- `MAX(seq) + 1` reuses a seq once the newest row is pruned, and a reader at that cursor misses the event:
  `DurableStore.SeqReused`. Exactly: `SeqsIncreaseIff`, `CursorSeesNextIff`.
- Events without a session, such as the key-rotation broadcast, are documented to be ignored by a session's feed
  (`src/gg_relay/core/events.py:268-271`). The replay filter lets them through although the live filter does not
  (`src/gg_relay/api/sse.py:158-163`, `188-190`): `SseReplay.SessionlessRowLeaks`. Exactly: `ForeignEmittedIff`.
- The Redis bus documents back-pressure instead of dropping (`src/gg_relay/cluster/redis_bus.py:88-90`). A queue
  of any size that nobody reads keeps its first events and drops the rest: `RedisPump.FloodDrops`. Exactly:
  `BatchKept`, `NothingLostIff`. Entries added before the first non-empty read can be missed:
  `RedisPump.TailGap`. Exactly: `AddedIsProcessedIff`.
- A key that is revoked and invalidated while a lookup is in flight is cached again with its old value:
  `KeyCache.RevokedKeyStillResolves`. Exactly: `InvalidationTakesEffectIff`. A cancelled leader or waiter strands
  the others, although the in-flight clean-up is documented to prevent that
  (`src/gg_relay/auth/db_resolver.py:109-111`): `FellowWaiterStrands`. Exactly: `WaiterAnsweredIff`.

- The id of a live event is no replay cursor, so a client that reconnects with one loses what was stored in the
  meantime (`SseReplay.ReconnectAfterLive`); after a replayed event it does not (`ReconnectAfterReplay`).

## Model

| member | source | states |
|---|---|---|
| `SlotScheduler.MarkerIsPausedSet` | src/gg_relay/session/manager.py:817-827 | in every reachable state the slot marker equals the paused set, only started sessions are paused or have calls under way, bridges belong to running sessions, and no stored tally is below one |
| `SlotScheduler.StepLedger` | src/gg_relay/session/manager.py:1165-1172 | one step of any kind changes free permits + owning runs + resumes in hand-over by +1, +1 or -1 for the three named races and by 0 otherwise |
| `SlotScheduler.SlotLedger` | src/gg_relay/session/manager.py:733-762 | over every run that sum is max_concurrent + cancels of paused live sessions + pauses finishing after run end - resumes succeeding without their marker or run |
| `SlotScheduler.StepConservesIff` | src/gg_relay/session/manager.py:1165-1170 | a step conserves the sum if and only if it is none of the three races |
| `SlotScheduler.CancelOverReleases` | src/gg_relay/session/manager.py:754-759 | pause, cancel, run end leaves one permit more than configured |
| `SlotScheduler.LateResumeLeaks` | src/gg_relay/session/manager.py:896-911 | a resume acknowledged after its run ended leaves one permit less, owned by nobody |
| `SlotScheduler.StepAccount` | src/gg_relay/session/manager.py:1468-1493 | one step keeps tally minus paused sessions of a key, except that a redundant pause adds one |
| `SlotScheduler.PauseAccounting` | src/gg_relay/session/manager.py:817-821 | over every run the tally of a key is the number of its paused sessions plus its redundant pauses, and no zero or negative entry is stored |
| `PausedCaps.StepCap` | src/gg_relay/session/manager.py:1397-1407 | paused + pending never grows except by a pause that saw room |
| `PausedCaps.PausedCap` | src/gg_relay/session/manager.py:803-817 | with at most C pauses between check and insertion, paused + pending stays within max_paused - 1 + C |
| `PausedCaps.CapOvershoot` | src/gg_relay/session/manager.py:1402-1406 | from any state one short of the cap, two overlapping pauses end at max_paused + 1 |
| `PausedCaps.CapOvershootHappens` | src/gg_relay/session/manager.py:1397-1407 | for every cap there is a run from the idle manager that ends one above it |
| `PausedCaps.PausedKeyCap` | src/gg_relay/session/manager.py:1408-1415 | the same bound for the sessions of one API key |
| `PausedCaps.PausesAll` | src/gg_relay/session/manager.py:803-827 | any number of sessions, of one key or none, up to the caps, can be paused at the same time |
| `PausedCaps.KeyCapIsReached` | src/gg_relay/session/manager.py:1408-1415 | for every per-key cap below the global one a run pauses exactly that many sessions of one key; the next of that key is refused, one of another key is not |
| `PausedCaps.CapIsReached` | src/gg_relay/session/manager.py:1402-1406 | for every global cap a run pauses exactly that many, and the next is refused |
| `PausedCaps.CapPassedIff` | src/gg_relay/session/manager.py:803-817 | from any state, some continuation without a new pause call passes the cap if and only if the sessions paused and about to be are more than it allows |
| `PausedCaps.KeyCapPassedIff` | src/gg_relay/session/manager.py:1408-1415 | the same for the sessions of one API key |
| `WatchdogCover.StepGuardLostIff` | src/gg_relay/session/manager.py:1449-1466 | a step leaves a guarded paused session without a live timer and without a call that will arm one if and only if it is a failed write or a given-up resume that was its last guard |
| `WatchdogCover.PausedSessionsGuardedIff` | src/gg_relay/session/manager.py:880-908 | throughout a run a paused session is guarded if and only if no step of the run is such an exit |
| `WatchdogCover.FailedWriteUnguarded` | src/gg_relay/session/manager.py:828-850 | a failed row write leaves a paused session with neither |
| `WatchdogCover.GivenUpResumeUnguarded` | src/gg_relay/session/manager.py:880-885 | a resume that finds no row, or is cancelled before it has a permit, leaves a paused session with neither |
| `SessionManagerState.SessionManager.constructor` | src/gg_relay/session/manager.py:317-336 | a new manager satisfies the invariant, with all permits free and all bookkeeping empty |
| `SessionManagerState.SessionManager.SubmitSession` | src/gg_relay/session/manager.py:526-533 | the new session is queued and its key recorded |
| `SessionManagerState.SessionManager.RunAcquireSlot` | src/gg_relay/session/manager.py:1067-1069 | takes one permit and starts the run |
| `SessionManagerState.SessionManager.RegisterBridge` | src/gg_relay/session/manager.py:1338-1346 | a running session becomes pausable |
| `SessionManagerState.SessionManager.RunFinally` | src/gg_relay/session/manager.py:1165-1175 | gives the permit back iff it was taken and the marker is absent, removes the session from every table, and leaves permits + owners + hand-overs as they were |
| `SessionManagerState.SessionManager.ReleasePauseBookkeeping` | src/gg_relay/session/manager.py:1468-1493 | removes the session from the paused set, the marker unless kept, and one from its key's tally iff it was paused; other tallies stay |
| `SessionManagerState.SessionManager.PauseBegin` | src/gg_relay/session/manager.py:790-803 | goes on iff the session has a bridge, is not paused, the paused set is below the cap and its key's tally below the per-key cap; re-arms iff already paused; refuses otherwise and changes nothing |
| `SessionManagerState.SessionManager.EnterPaused` | src/gg_relay/session/manager.py:817-827 | set, tally and marker gain the session, and a permit is released iff the marker was absent |
| `SessionManagerState.SessionManager.PauseAcked` | src/gg_relay/session/manager.py:817-827 | inserts into set, tally and marker and releases one permit iff the marker was absent; the slot sum grows by one iff the run is over and the session was not paused |
| `SessionManagerState.SessionManager.PauseArmTimer` | src/gg_relay/session/manager.py:850-850 | the finished pause arms the watchdog |
| `SessionManagerState.SessionManager.ResumeBegin` | src/gg_relay/session/manager.py:872-880 | goes on iff the session is paused and has a bridge, and then disarms the watchdog |
| `SessionManagerState.SessionManager.ResumeQueueTimeout` | src/gg_relay/session/manager.py:890-895 | gives up without a permit and re-arms |
| `SessionManagerState.SessionManager.ResumeTakeSlot` | src/gg_relay/session/manager.py:886-889 | takes one permit for the resume |
| `SessionManagerState.SessionManager.ResumeAcked` | src/gg_relay/session/manager.py:909-911 | hands the permit to the run; the slot sum shrinks by one iff the session is no longer paused and running |
| `SessionManagerState.SessionManager.ResumeRollBack` | src/gg_relay/session/manager.py:896-908 | returns the permit and re-arms |
| `SessionManagerState.SessionManager.CancelSession` | src/gg_relay/session/manager.py:754-756 | disarms, and releases the bookkeeping including the marker iff paused; the slot sum grows by one iff the session is paused and running |
| `SessionManagerState.SessionManager.WatchdogWake` | src/gg_relay/session/manager.py:1449-1461 | fires iff the session is still paused, and is done otherwise |
| `SessionManagerState.SessionManager.Take` | src/gg_relay/session/manager.py:733-911 | the object takes any step of the state machine, keeps its invariant and moves the slot sum by the step's shift |
| `SessionManagerState.Drive` | src/gg_relay/session/manager.py:733-911 | a manager driven through any run ends where the state machine says, and its semaphore obeys the ledger |
| `HostRunner.AnswersReachTheirCallers` | src/gg_relay/session/control.py:101-167 | in every joint run an undelivered answer belongs to a call that waits for it, and no request is queued twice |
| `HostRunner.AnswerIsTheLoops` | src/gg_relay/session/control.py:253-295 | the answers in the joint model are those of the control loop of the protocol model |
| `HostRunner.DeliverEndsWait` | src/gg_relay/session/manager.py:812-911 | what each of the four kinds of answer does to the call that waited for it, to its permit and its timer |
| `HostRunner.ServeTakesOldest` | src/gg_relay/session/control.py:225-251 | serving takes the oldest request and no other, and queues an answer iff its caller still waits |
| `HostRunner.SendReachesLoop` | src/gg_relay/session/control.py:101-116 | a request that is sent goes to the end of its own loop's inbox |
| `HostRunner.StepInStepIff` | src/gg_relay/session/control.py:253-295 | a step puts host and runner out of step if and only if the runner carries out a request nobody waits for, a caller gives up with a positive answer on its way, or a paused session is cancelled or its run ends |
| `HostRunner.InStepIff` | src/gg_relay/session/manager.py:798-917 | throughout a run they are in step if and only if no step of the run is one of these |
| `HostRunner.UndisturbedNeverLoses` | src/gg_relay/session/manager.py:812-816 | a run without an answer timeout, cancel or run end in the session has no such step |
| `HostRunner.HostRunnerAgreement` | src/gg_relay/session/manager.py:798-834 | in a run without a losing step host and runner differ exactly by the answers on their way, and with no call waiting they agree on paused |
| `HostRunner.NoRedundantPause` | src/gg_relay/session/control.py:253-272 | if no resume of the session stops waiting, no positive pause answer meets the session already counted as paused |
| `HostRunner.ExactTallies` | src/gg_relay/session/manager.py:1468-1493 | if no resume of a session of the key stops waiting, the key's tally is exactly the number of its paused sessions, through cancels, watchdogs, run ends, lost pauses, refusals and whatever other keys do |
| `HostRunner.WedgedStays` | src/gg_relay/session/control.py:253-258 | no step, the end of the run included, frees a session whose runner is paused unknown to the host |
| `HostRunner.WedgedForever` | src/gg_relay/session/manager.py:872-879 | and therefore no continuation does |
| `HostRunner.LostPauseWedges` | src/gg_relay/session/manager.py:812-816 | a pause answered after its caller gave up wedges the session |
| `HostRunner.LostResume` | src/gg_relay/session/manager.py:896-908 | a resume carried out after its caller gave up leaves host and runner in disagreement |
| `HostRunner.LostResumeCountsTwice` | src/gg_relay/session/manager.py:817-821 | after which a pause already under way is tallied a second time |
| `HostRunner.LostPauseHappens` | src/gg_relay/session/manager.py:803-816 | a seven-step run from the idle manager does it, and whatever follows leaves the session wedged |
| `HostRunner.DoubleCountHappens` | src/gg_relay/session/manager.py:803-908 | a run from the idle manager reaches a tally of two for one paused session, so the condition of `ExactTallies` is needed |
| `ControlProtocol.ControlChannel.HostRequest` | src/gg_relay/session/control.py:101-116 | refuses on a closed channel under the closed mark, otherwise a fresh id, one inbox entry, one waiting future |
| `ControlProtocol.ControlChannel.HostReturn` | src/gg_relay/session/control.py:117-130 | the answer or the timeout ack, and the future is forgotten either way |
| `ControlProtocol.ControlChannel.RunnerRecv` | src/gg_relay/session/control.py:132-134 | takes the oldest message |
| `ControlProtocol.ControlChannel.Push` | src/gg_relay/session/control.py:136-146 | appends a message from the wire |
| `ControlProtocol.ControlChannel.RunnerAck` | src/gg_relay/session/control.py:148-167 | exactly the waiting caller of that id is woken; an answer that is there stays; late and unknown acks change nothing |
| `ControlProtocol.ControlChannel.Close` | src/gg_relay/session/control.py:169-178 | every waiting caller gets a negative pause ack with the closed error under its own id; answers that are there and the inbox stay |
| `ControlProtocol.ControlLoop.Screen` | src/gg_relay/session/control.py:253-279 | a request is refused, without touching the SDK, if and only if carrying it out would leave the paused flag as it is; the refusal is a negative ack of that request |
| `ControlProtocol.ControlLoop.Conclude` | src/gg_relay/session/control.py:259-295 | the ack is of this request, positive iff the SDK call worked, and the flag follows the request iff it did |
| `ControlProtocol.Take` | src/gg_relay/session/control.py:98-178 | the two objects take any step of the protocol and produce exactly the logged acks and replies |
| `ControlProtocol.AnsweredOnceInOrder` | src/gg_relay/session/control.py:225-251 | over every run, with timeouts, late acks and close, the acks answer a prefix of the inbox history in order, each message once; the message in hand and the inbox are the rest |
| `ControlProtocol.OkAcksAlternate` | src/gg_relay/session/control.py:253-295 | the positive acks read pause, resume, pause, ... and the loop is paused exactly when their number is odd |
| `ControlProtocol.RepliesAreSound` | src/gg_relay/session/control.py:101-167 | over every run, whatever arrives over the wire, a reply is filed under its request's id and is the loop's own ack, an injected one, a timeout or the close ack; no request is replied to twice |
| `ControlProtocol.ReplyMatchesRequest` | src/gg_relay/session/control.py:106-178 | with correctly labelled wire traffic a reply carries its request's op and id if and only if it is not one of the two closed-channel cases, and a positive reply was really given |
| `ControlProtocol.InjectedAckIsReturned` | src/gg_relay/session/control.py:160-167 | an ack injected under the id of a waiting request is what its caller gets |
| `ControlProtocol.AckErrors` | src/gg_relay/session/control.py:253-295 | the loop never reports a closed channel itself |
| `ControlProtocol.ClosedAnswersAll` | src/gg_relay/session/control.py:169-178 | over every run, once the channel is closed no caller waits |
| `ControlProtocol.CloseReplies` | src/gg_relay/session/control.py:174-178 | a caller waiting at the close is replied to with pause, its own id, negative, channel closed |
| `ControlProtocol.ClosedRefuses` | src/gg_relay/session/control.py:111-112 | after the close a request is refused at once and nothing is sent |
| `ControlProtocol.DoneStays` | src/gg_relay/session/control.py:148-158 | the first answer wins: it stays until its caller returns |
| `ControlProtocol.AbandonForgets` | src/gg_relay/session/control.py:129-130 | a caller that goes away leaves no future and no reply |
| `ControlProtocol.StoppedIsSilent` | src/gg_relay/session/control.py:225-240 | a loop that was cancelled takes and acks nothing more |
| `OptimisticLock.SessionRow.Update` | src/gg_relay/store/protocol.py:93-104 | commits iff the expected version is current; a conflict reports the actual version and changes nothing |
| `OptimisticLock.UpdateStatusLocked` | src/gg_relay/session/manager.py:1224-1271 | which of the three outcomes occurs, told by what others do in the two gaps; on an undeleted row it raises iff others commit in both, hence after two other commits |
| `OptimisticLock.VersionsCountCommits` | src/gg_relay/session/manager.py:1251-1268 | for any number of interleaved writers, with deletion at any moment, the version of an existing row is the number of commits, every commit expected the version it found, a writer that raised on an existing row was overtaken by two commits of others, and the other failures mean the row is gone |
| `OptimisticLock.CommitsIff` | src/gg_relay/session/manager.py:1251-1268 | an attempt commits iff the version it expects is the row's |
| `OptimisticLock.BlindCommits` | src/gg_relay/store/protocol.py:93-104 | a write without an expected version commits whenever the row exists |
| `OptimisticLock.DeleteIsFinal` | src/gg_relay/store/protocol.py:93-104 | nothing commits to a deleted row |
| `EventQueue.Sub.Offer` | src/gg_relay/core/event_bus.py:266-293 | a durable publisher waits iff the queue is full and it may block, whatever happened before; otherwise the event is appended, with the oldest out if full; only a queue of size zero raises |
| `EventQueue.Sub.AfterWait` | src/gg_relay/core/event_bus.py:275-293 | after the wait the event goes in, and only a timeout counts as a durable drop |
| `EventQueue.Sub.Next` | src/gg_relay/core/event_bus.py:176-195 | the consumer gets the oldest item and wakes the waiting publishers iff the queue was full and they were not woken yet |
| `EventQueue.Take` | src/gg_relay/core/event_bus.py:176-293 | the object and its table of waiting publishers take any step of the state machine |
| `EventQueue.DurablePublishWaits` | src/gg_relay/core/event_bus.py:267-274 | in any state a durable publish on a blocking bus drops nothing, and waits iff the queue is full |
| `EventQueue.LossyPublishPuts` | src/gg_relay/core/event_bus.py:284-293 | a lossy publish never waits |
| `EventQueue.WaiterGoesOnIff` | src/gg_relay/core/event_bus.py:270-293 | a waiting publisher goes on iff it was woken or timed out, and then appends its event |
| `EventQueue.WokenIff` | src/gg_relay/core/event_bus.py:179-185 | and it is woken exactly by a consumer that takes an item from a full queue |
| `EventQueue.QueueLaw` | src/gg_relay/core/event_bus.py:263-293 | for any publishers and wake-up order the buffer is bounded and a suffix of the append log, the consumer gets the undropped items in log order, and appended = yielded + dropped + buffered |
| `EventQueue.NoLostWakeUp` | src/gg_relay/core/event_bus.py:182-186 | while the drained signal is set, every waiting publisher has been woken |
| `EventQueue.StepDropsUncountedIff` | src/gg_relay/core/event_bus.py:267-289 | a step drops an item and counts no durable drop if and only if the queue is full and the step is a publish that does not wait or a wake-up that did not time out |
| `EventQueue.StepCountsExactlyIff` | src/gg_relay/core/event_bus.py:275-289 | the durable drop counter follows the lost durable items over a step if and only if the step is neither a silent drop nor a count without a drop |
| `EventQueue.DurableLedger` | src/gg_relay/core/event_bus.py:263-293 | over every run: durable items lost = durable drops counted + silent drops - counts without a drop |
| `EventQueue.CounterExactIff` | src/gg_relay/core/event_bus.py:140-150 | the counter is right throughout a run if and only if no step of the run is one of the two |
| `EventQueue.DrainedPublishersEvict` | src/gg_relay/core/event_bus.py:275-289 | two publishers woken for one place lose a durable event uncounted |
| `EventQueue.UnblockedPublishEvicts` | src/gg_relay/core/event_bus.py:267-289 | any publish that may not wait drops a durable head silently, whatever the size of the queue |
| `EventQueue.LossyEvictsDurable` | src/gg_relay/core/event_bus.py:284-293 | a lossy event drops a durable one with no publisher waiting |
| `EventQueue.TimeoutWithRoom` | src/gg_relay/core/event_bus.py:275-284 | a timeout after the consumer made room is counted although nothing is dropped |
| `DurableStore.InWindow` | src/gg_relay/store/durable_event.py:177-189 | a fetch sees exactly the stored seqs past the cursor |
| `DurableStore.WindowAscends` | src/gg_relay/store/durable_event.py:177-189 | in strictly ascending order |
| `DurableStore.PageIsWindow` | src/gg_relay/store/durable_event.py:177-189 | a limited page is everything up to its own last seq |
| `DurableStore.PageAll` | src/gg_relay/store/durable_event.py:177-189 | paging by last seq visits every stored event past the start once, in order, for every page size |
| `DurableStore.InMemoryDurableEventStore.PersistEvent` | src/gg_relay/store/durable_event.py:230-235 | appends under the next number |
| `DurableStore.InMemoryDurableEventStore.Fetch` | src/gg_relay/store/durable_event.py:237-242 | the first `limit` events past the cursor |
| `DurableStore.SqlDurableEventStore.PersistEvent` | src/gg_relay/store/durable_event.py:153-175 | inserts under MAX(seq) + 1 |
| `DurableStore.SqlDurableEventStore.FetchEvents` | src/gg_relay/store/durable_event.py:177-189 | the rows of the fetched seqs, in order |
| `DurableStore.FetchAgrees` | src/gg_relay/store/durable_event.py:237-242 | on stores with the same events both fetches return the same |
| `DurableStore.RunBoth` | src/gg_relay/store/durable_event.py:225-242 | every sequence of persists and fetches is answered alike by both stores |
| `DurableStore.SeqsIncrease` | src/gg_relay/store/durable_event.py:153-175 | over every history whose prunes spare the newest row, returned seqs strictly increase and the last is the table's maximum |
| `DurableStore.SeqsIncreaseIff` | src/gg_relay/store/durable_event.py:153-175 | over every history returned seqs strictly increase if and only if at every persist the row of the one before is still stored |
| `DurableStore.SeqReused` | src/gg_relay/store/durable_event.py:153-175 | a history whose two persists return the same seq |
| `DurableStore.SeqGrowsIffTopKept` | src/gg_relay/store/durable_event.py:153-175 | the next seq exceeds all earlier ones if and only if the newest row was not pruned |
| `DurableStore.CursorSeesNextIff` | src/gg_relay/store/durable_event.py:177-189 | a reader at the last seq sees the next event if and only if that row was not pruned |
| `ReplayCursor.PyIntReadsDec` | src/gg_relay/api/sse.py:80-98 | Python's int() reads back every printed number |
| `ReplayCursor.ColonIsNoInt` | src/gg_relay/api/sse.py:80-98 | a numeral with a colon in it is rejected, whatever surrounds it |
| `ReplayCursor.ReplayIdRoundTrip` | src/gg_relay/api/sse.py:56-61 | a printed replay id parses back to its seq as a durable cursor and to nothing as a frame cursor, for every event id |
| `ReplayCursor.LiveIdIsNoCursor` | src/gg_relay/api/sse.py:100-132 | an id without a colon parses to no durable cursor |
| `ReplayCursor.FrameIdRoundTrip` | src/gg_relay/api/sse.py:68-132 | a printed frame id parses back to its frame and to nothing as a durable cursor |
| `ReplayCursor.BareNumberIsFrameCursor` | src/gg_relay/api/sse.py:80-98 | a bare number is a frame cursor and no durable one |
| `ReplayCursor.NoHeaderNoCursor` | src/gg_relay/api/sse.py:80-132 | a missing or empty header is no cursor |
| `ReplayCursor.PyIntSigned` | src/gg_relay/api/sse.py:80-98 | int() reads a sign before digits |
| `ReplayCursor.PyIntSkipsUnderscore` | src/gg_relay/api/sse.py:80-98 | and skips an underscore between digits |
| `ReplayCursor.SpacesDoNotMatter` | src/gg_relay/api/sse.py:80-132 | spaces around a header change neither parse |
| `ReplayCursor.RequestIdsDistinct` | src/gg_relay/session/control.py:98-99 | different request numbers print as different ids |
| `SseReplay.StepWired` | src/gg_relay/core/event_bus.py:240-256 | a step keeps every event stored since the subscription ahead in a fan-out, logged in the reader's queue, or recorded as passed over |
| `SseReplay.AlwaysWired` | src/gg_relay/core/event_bus.py:202-293 | so it holds in every reachable state |
| `SseReplay.PersistedBeforeSeen` | src/gg_relay/core/event_bus.py:229-256 | persist before fan-out: over every run a durable event being fanned out, ever queued or emitted is in the store |
| `SseReplay.AlwaysStoredFirst` | src/gg_relay/core/event_bus.py:229-256 | and the store holds durable events only |
| `SseReplay.FailedPersistEnds` | src/gg_relay/core/event_bus.py:241-249 | a publish whose persist fails ends there |
| `SseReplay.FanOutDelivers` | src/gg_relay/core/event_bus.py:263-293 | a fan-out that reaches the reader appends the event, or waits iff the event is durable, the queue full and the bus blocking |
| `SseReplay.BlockedGoesOnIff` | src/gg_relay/core/event_bus.py:270-293 | a waiting publisher goes on iff woken or timed out; a reader taking from a full queue wakes all of them |
| `SseReplay.ReaderHistory` | src/gg_relay/api/sse.py:144-198 | what the reader has emitted is the wanted part of its page followed by that of its live items, and the page is what the store held at the fetch |
| `SseReplay.OnlyOwnEvents` | src/gg_relay/api/sse.py:158-198 | an emitted event was stored or queued and is of the reader's session, except a replayed row without a session |
| `SseReplay.ForeignEmittedIff` | src/gg_relay/api/sse.py:158-163 | an event of another session is emitted if and only if the store replays rows, the event has no session, and the reader went past it in its page |
| `SseReplay.SessionlessRowLeaks` | src/gg_relay/core/events.py:252-276 | a run in which a durable event without a session is emitted to the feed of a session |
| `SseReplay.EveryEventAccounted` | src/gg_relay/api/sse.py:144-198 | once the page is fetched, every stored event of the session past the cursor is emitted, still coming, or lost in one of three named ways |
| `SseReplay.NoGap` | src/gg_relay/api/sse.py:144-198 | with at most `limit` events past the cursor, no eviction and no passed-over fan-out, every such event is emitted once the publishers and the queue are drained |
| `SseReplay.LostForGood` | src/gg_relay/api/sse.py:184-198 | an event nobody holds any more is never emitted to this reader unless published again |
| `SseReplay.PageLimitLoses` | src/gg_relay/api/sse.py:155-171 | for every limit a run in which one event too many past the cursor is lost |
| `SseReplay.EvictionLoses` | src/gg_relay/core/event_bus.py:284-293 | for every size of the reader's queue a run in which a durable event is evicted from it and lost |
| `SseReplay.PassingOverLoses` | src/gg_relay/core/event_bus.py:191-195 | a run in which a subscriber ahead of the reader leaves during a fan-out and the event is lost with nothing dropped |
| `SseReplay.ReconnectAfterReplay` | src/gg_relay/api/sse.py:100-198 | over two connections, the second with the id of any event the first was replayed: every stored event of the session past the first cursor was emitted to the first or is accounted for in the second |
| `SseReplay.ReconnectAfterLive` | src/gg_relay/api/sse.py:62-67 | with the id of a live event the second is replayed nothing, and a run in which it loses an event |
| `SseReplay.PageIsFetch` | src/gg_relay/core/event_bus.py:295-315 | both store implementations hand the reader exactly this page |
| `Pairing.PairingTable.TakeFirst` | src/gg_relay/session/client.py:512-524 | removes the oldest entry of the key, or nothing |
| `Pairing.PairingTable.CanUseTool` | src/gg_relay/session/client.py:542-550 | a permission pairs with the oldest matching block or waits |
| `Pairing.PairingTable.ToolUseBlock` | src/gg_relay/session/client.py:695-704 | a block pairs with the oldest matching permission or waits |
| `Pairing.PairingTable.ToolResult` | src/gg_relay/session/client.py:716-716 | a result consumes its mapping and reports the empty id without one |
| `Pairing.QueuesHoldTheSurplus` | src/gg_relay/session/client.py:508-524 | after every run each queue holds, per key and in order, exactly the arrivals beyond the other side's count |
| `Pairing.NeverInBothQueues` | src/gg_relay/session/client.py:508-524 | no key waits in both queues |
| `Pairing.PairsHaveEqualRank` | src/gg_relay/session/client.py:542-550 | every pair joins the k-th block and the k-th permission of one key |
| `Pairing.EqualRankIsPaired` | src/gg_relay/session/client.py:695-704 | and every block and permission of equal rank are paired |
| `Pairing.PairingConfluence` | src/gg_relay/session/client.py:508-550 | two runs with the same arrival order per key make the same pairs and leave the same queues |
| `Pairing.PairsAreOneToOne` | src/gg_relay/session/client.py:542-550 | with fresh ids the pairs are a one-to-one map |
| `Pairing.LinksAreMade` | src/gg_relay/session/client.py:546-716 | the dictionary holds only registered pairs |
| `Pairing.LinkedIff` | src/gg_relay/session/client.py:546-716 | an id is in the dictionary if and only if it was paired and no result for it came since |
| `RunnerFrames.FrameCounters.BootFrame` | src/gg_relay/session/client.py:494-506 | a boot frame uses the counter, then advances it |
| `RunnerFrames.FrameCounters.ToolRequest` | src/gg_relay/session/client.py:552-556 | a permission callback advances the shared counter, then uses it |
| `RunnerFrames.FrameCounters.Dispatch` | src/gg_relay/session/client.py:659-758 | how many numbers each kind of message uses and which one its first frame carries |
| `RunnerFrames.FrameCounters.NextToolResult` | src/gg_relay/session/client.py:715-725 | each further tool result takes the next number at its own send |
| `RunnerFrames.FrameCounters.ErrorFrame` | src/gg_relay/session/client.py:775-784 | the error frame takes the next number |
| `RunnerFrames.FrameCounters.HookFrame` | src/gg_relay/session/hooks.py:125-128 | a hook frame uses the hook counter, then advances it |
| `RunnerFrames.FrameNumbers` | src/gg_relay/session/client.py:487-775 | for every interleaving, frames of each source carry strictly increasing numbers in build order, and hook frames fill a block from 900000 |
| `RunnerFrames.FramesOfMessage` | src/gg_relay/session/client.py:659-758 | how many frames each kind of message yields and with exactly which numbers |
| `RunnerFrames.NextMessageIff` | src/gg_relay/session/client.py:659-725 | the next message is taken iff all tool results of the last are sent |
| `RunnerFrames.BootPhase` | src/gg_relay/session/client.py:487-506 | only boot frames before the client is connected and none after |
| `RunnerFrames.UniqueIff` | src/gg_relay/store/schema.py:156-156 | the (session_id, seq) constraint holds if and only if no runner number lies in the hooks' block |
| `RunnerFrames.FramesUnique` | src/gg_relay/session/hooks.py:66-72 | so it holds while fewer than 900000 runner numbers are used |
| `RunnerFrames.CollisionAtBase` | src/gg_relay/session/hooks.py:66-72 | and fails one message later, from any run that has used that many |
| `RunnerFrames.CollisionHappens` | src/gg_relay/session/hooks.py:66-72 | such a run exists |
| `RunnerFrames.ForwardChunk` | src/gg_relay/session/client.py:354-386 | after each read the sent chunks carry exactly the capped prefix of all output so far, and one final notice iff the cap is reached |
| `RunnerFrames.Capture` | src/gg_relay/session/client.py:349-353 | the capture is the capped prefix of the command's own output |
| `RunnerFrames.CappedIs` | src/gg_relay/session/client.py:349-357 | the cap is 65536 bytes |
| `RunnerFrames.StreamProcOutput` | src/gg_relay/session/client.py:337-387 | the same over all reads of one command, one number per chunk |
| `RunnerFrames.RunOne` | src/gg_relay/session/client.py:395-428 | one command: its output joins the pump, and a tail is kept iff it ran to its exit |
| `RunnerFrames.ExecutePreRun` | src/gg_relay/session/client.py:311-442 | over all commands up to the first that exits non-zero, does not start or is cut off: the first 65536 bytes of the joined output, one closing notice iff that many were produced, numbers without gaps, and the head of its own output in the error of a command that exited |
| `TokenBucket.RedisRateLimitStore.Acquire` | src/gg_relay/cluster/redis_rate_limit.py:53-89 | one atomic refill-and-spend of one key for any rate, other keys untouched; an allowed request has hint 0, a denied one at least a millisecond; no hint exists at rate zero |
| `TokenBucket.RedisRateLimitStore.AcquireIdle` | src/gg_relay/cluster/redis_rate_limit.py:84-85 | the same against a key that expires after its idle time |
| `TokenBucket.Drive` | src/gg_relay/cluster/redis_rate_limit.py:53-89 | the object answers any trace of requests as the trace functions say |
| `TokenBucket.AccruedPerSecond` | src/gg_relay/cluster/redis_rate_limit.py:69-71 | a thousand milliseconds bring rate tokens, any other time its share |
| `TokenBucket.TokensBound` | src/gg_relay/cluster/redis_rate_limit.py:60-80 | on every trace, clocks stepping back included, what is left is at most burst + refill - allowed |
| `TokenBucket.WindowBound` | src/gg_relay/cluster/redis_rate_limit.py:60-88 | any window ending at an allowed request allows at most burst + rate * (last - first reading) |
| `TokenBucket.ReadyIff` | src/gg_relay/cluster/redis_rate_limit.py:74-80 | a bucket short of a token holds one after d ms if and only if d reaches the hint |
| `TokenBucket.PollStep` | src/gg_relay/cluster/redis_rate_limit.py:60-82 | a denied poll neither moves the due moment nor its own hint's target |
| `TokenBucket.RetryAfterExact` | src/gg_relay/cluster/redis_rate_limit.py:61-86 | after a denial, with any polls in between, a request is allowed if and only if it comes at or after the hinted moment |
| `TokenBucket.ExpiryInvisible` | src/gg_relay/cluster/redis_rate_limit.py:84-86 | with a monotone clock and ttl * rate >= burst, dropping idle keys changes no reply on any trace |
| `TokenBucket.ExpiryObservable` | src/gg_relay/cluster/redis_rate_limit.py:84-86 | if ttl * rate < burst, a trace exists that tells the difference |
| `TokenBucket.ExpiryUnseenIff` | src/gg_relay/cluster/redis_rate_limit.py:84-86 | so expiry is unobservable on all monotone traces if and only if ttl * rate >= burst |
| `KeyCache.DBKeyResolver.Begin` | src/gg_relay/auth/db_resolver.py:113-126 | a live entry answers, else an in-flight lookup is joined, else a new one is registered |
| `KeyCache.DBKeyResolver.Complete` | src/gg_relay/auth/db_resolver.py:127-140 | caches, wakes the waiters unless the future is already settled, leaves the in-flight table |
| `KeyCache.DBKeyResolver.LookupRaises` | src/gg_relay/auth/db_resolver.py:135-140 | fails the waiters and leaves the in-flight table, caching nothing |
| `KeyCache.DBKeyResolver.LeaderGone` | src/gg_relay/auth/db_resolver.py:139-140 | a cancelled leader leaves the in-flight table and its future pending |
| `KeyCache.DBKeyResolver.WaiterGone` | src/gg_relay/auth/db_resolver.py:120-122 | a cancelled waiter cancels the future it shares |
| `KeyCache.DBKeyResolver.InvalidateCache` | src/gg_relay/auth/db_resolver.py:219-230 | by hash, by label or all: exactly the named entries go, and no lookup under way is touched |
| `KeyCache.Take` | src/gg_relay/auth/db_resolver.py:98-140 | the object takes any step of the state machine |
| `KeyCache.SingleFlight` | src/gg_relay/auth/db_resolver.py:120-126 | in every reachable state at most one lookup per hash is under way, and it is the one callers join |
| `KeyCache.CacheRefinesLookup` | src/gg_relay/auth/db_resolver.py:113-178 | every value returned is that of a direct lookup whose read is at most the ttl plus its own duration older than the call |
| `KeyCache.AnswerTellsRow` | src/gg_relay/auth/db_resolver.py:142-178 | over every run an answer has a key iff the row read exists, is not revoked and had not expired when the lookup finished; name, expiry and role, with the override, are the row's |
| `KeyCache.ExpiredKeyHonouredBriefly` | src/gg_relay/auth/db_resolver.py:113-178 | so a key is honoured for at most the ttl plus one lookup after its expiry |
| `KeyCache.WaiterGetsLeadersAnswer` | src/gg_relay/auth/db_resolver.py:120-122 | a waiter that wakes with a value has its leader's |
| `KeyCache.FinishServesIff` | src/gg_relay/auth/db_resolver.py:128-134 | when the leader finishes, a waiter that wakes gets its lookup if and only if nothing settled the flight's future before |
| `KeyCache.JoiningIsServed` | src/gg_relay/auth/db_resolver.py:120-122 | a call that finds a pending lookup joins it as a served waiter |
| `KeyCache.SettledWaiterEnds` | src/gg_relay/auth/db_resolver.py:120-122 | a waiter wakes iff its future is settled and has an answer iff the future carries one |
| `KeyCache.CancelledLeaderLeaves` | src/gg_relay/auth/db_resolver.py:135-140 | a cancelled leader leaves the in-flight table, its future and the cache as they are otherwise |
| `KeyCache.WaiterFate` | src/gg_relay/auth/db_resolver.py:120-140 | in every run a served waiter that is not cancelled itself is stranded if the flight was spoiled, and otherwise has the leader's value or waits for it |
| `KeyCache.WaiterAnsweredIff` | src/gg_relay/auth/db_resolver.py:120-140 | once done, it has the leader's value if and only if the leader neither raised nor was cancelled and no fellow waiter was cancelled first |
| `KeyCache.InvalidationTakesEffect` | src/gg_relay/auth/db_resolver.py:219-230 | if no lookup that read the row earlier and can still reach a later caller is under way, every later call is answered from a read at or after the invalidation, in every continuation |
| `KeyCache.InvalidationOutrun` | src/gg_relay/auth/db_resolver.py:128-134 | if one has, the next call after it finishes is answered from the older read |
| `KeyCache.InvalidationTakesEffectIff` | src/gg_relay/auth/db_resolver.py:219-230 | for every ttl, an invalidation takes effect in all continuations if and only if no such lookup is under way |
| `KeyCache.RevokedKeyStillResolves` | src/gg_relay/auth/db_resolver.py:113-178 | a run in which a key that is revoked and then invalidated still resolves |
| `KeyCache.CancelStrands` | src/gg_relay/auth/db_resolver.py:126-140 | cancelling the leader, or any waiter of a pending flight, strands the other waiters |
| `KeyCache.StrandedForever` | src/gg_relay/auth/db_resolver.py:120-122 | a stranded waiter returns no value in any continuation |
| `KeyCache.FellowWaiterStrands` | src/gg_relay/auth/db_resolver.py:120-140 | in any continuation of a run where one of two waiters is cancelled, the other never gets a value although the lookup goes on |
| `RedisPump.PumpBatch` | src/gg_relay/cluster/redis_bus.py:305-335 | every queue ends as if it had received the batch alone |
| `RedisPump.BatchDelivered` | src/gg_relay/cluster/redis_bus.py:121-131 | a batch offers exactly its matching decodable entries in order, and what the queue and its consumer have are those that found room |
| `RedisPump.OfferedIff` | src/gg_relay/cluster/redis_bus.py:106-119 | an event is offered iff its entry is in the stretch and decodes and the queue's topic is the wildcard or the event's |
| `RedisPump.CloseEnds` | src/gg_relay/cluster/redis_bus.py:121-123 | a closed queue takes nothing more in any continuation |
| `RedisPump.ReadReturns` | src/gg_relay/cluster/redis_bus.py:295-304 | a read returns the next entries from its position, at most a hundred, and nothing iff there is none |
| `RedisPump.BatchKept` | src/gg_relay/cluster/redis_bus.py:121-131 | told from the queue before the batch: a bounded queue gains the first of the matching entries that fit, and no more |
| `RedisPump.NothingLostIff` | src/gg_relay/cluster/redis_bus.py:121-131 | a queue loses nothing of a batch if and only if it is unbounded or has room for all matching entries |
| `RedisPump.FloodDrops` | src/gg_relay/cluster/redis_bus.py:85-131 | for every size a run in which an unread queue keeps its first events and drops the rest |
| `RedisPump.PumpLaw` | src/gg_relay/cluster/redis_bus.py:291-335 | over every run without trimming, one contiguous stretch of the stream is processed once in order, and the queue received its matching entries minus those that found it full |
| `RedisPump.TailGap` | src/gg_relay/cluster/redis_bus.py:291-304 | a run from the start in which an entry added between two reads is passed over |
| `RedisPump.MissedForGood` | src/gg_relay/cluster/redis_bus.py:291-328 | and in no continuation is it processed |
| `RedisPump.SafeIsReached` | src/gg_relay/cluster/redis_bus.py:295-324 | an entry at or after the start of the first stretch is processed after enough reads |
| `RedisPump.AddedIsProcessedIff` | src/gg_relay/cluster/redis_bus.py:291-324 | after any run, a new entry is processed in some continuation if and only if the pump has had a non-empty reply or a read is under way |
| `Retention.CeilDivIsCeiling` | src/gg_relay/maintenance/retention.py:186-227 | the batch count is the least number of batches that covers n rows |
| `Retention.Table.SelectDue` | src/gg_relay/maintenance/retention.py:186-205 | at most one batch of due rows, and all of them if they fit |
| `Retention.Table.Delete` | src/gg_relay/maintenance/retention.py:206-222 | removes exactly the chosen rows and counts them |
| `Retention.Table.DeleteInBatches` | src/gg_relay/maintenance/retention.py:186-227 | terminates; exactly the due rows go and are counted in ceil(n / batch) batches; a dry run reports min(n, batch) and deletes nothing; a zero batch size does nothing |

## Left out

- FastAPI wiring, middleware, dashboard, CLI, configuration, proxies, IM cards, webhooks, OTel and metrics: I/O and glue that would only add easy members.
- Fernet, hashing, JSON, regexes, redaction and wire encoding: opaque libraries or simple structural recursion.
- The SQL engine, Postgres `nextval` commit order and several processes writing one SQLite file: the store is serialisable here.
- The lifecycle status table, audit rows, publishes and the row writes inside `pause`, `resume` and `_run`: the row protocol is modelled by itself in `OptimisticLock`, and in the scheduler a write is a point where a call may fail.
- Recovery of pause timers after a restart: its in-memory sets are empty then.
- `asyncio.Semaphore` hand-off: a permit granted to a waiter whose coroutine has not run counts as free until it runs.
- The manager's pure bookkeeping stretches (sending a request, queueing for a permit, giving up) have methods in `SessionManager.dfy` but no row of their own.
- HostRunner.HostRunnerAgreement: assumes that continuations of acknowledged calls run in ack order, as the event loop schedules them.
- The text of reasons, hints and SDK errors in control messages.
- The bus's topic table, `close` and the `_stream` generator object: `SseReplay` models one reader on the wildcard list as a state machine on values, so aliasing between topic lists is not captured.
- A replayed row carries a fresh `event_id`, because the row's id is not passed on; `SseReplay` identifies events by their stored identity instead.
- The legacy frame back-fill of the SSE stream, and header characters beyond Latin-1 in `ReplayCursor`.
- The tool policy, the host's decisions and the content of frames in the runner core.
- Trimming of the Redis stream, decoding errors that stop the pump, and subscribers that join after the pump has started.
- Retention.Table.DeleteInBatches: assumes nobody else writes to the table meanwhile.
- SessionManagerState.SessionManager.CancelSession: the cancelled run ends in a later step, because the run sees the cancellation only when its coroutine is resumed.
- HostRunner.WedgedStays: the control loop is not torn down at the end of its run; a loop that is gone is one that serves no more, which every run allows.
- ControlProtocol.ReplyMatchesRequest: assumes that a wire message or ack under one of the channel's ids carries that id's operation, and that no injected ack claims a closed channel; `RepliesAreSound` does not.
- RunnerFrames.ExecutePreRun: a time budget cuts a command off between two reads, not inside a send; UTF-8 decoding of a chunk cut inside a character is not modelled.
- TokenBucket.RedisRateLimitStore.Acquire: uses exact reals; Lua's number printing and float rounding are not modelled, nor is the fail-open path when Redis is unreachable.
- KeyCache.DBKeyResolver.InvalidateCache: the hash that the store finds for a label is a parameter; the `touch_last_used` throttle is left out.
