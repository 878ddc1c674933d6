# Verified models of the RiverBank device software

A Dafny model of the parts of RiverBank that decide something over time or over adversarial
input, with proofs of what those parts are for. Code that changes state step by step is a class
with loops; each of its methods is proved equal to a function on values, and the theorems are about
that function, over every input or every run. Pure code is functions and lemmas.

| file | part of the system |
|---|---|
| `frames.dfy` | the serial frame codec of the microphone and its resynchronising read loop |
| `calendar.dfy`, `pomodoro*.dfy` | the Pomodoro timer: phases, accounting by day, saving, restarting |
| `leases.dfy`, `supervisor.dfy` | expiring vision leases, and the supervisor that shares one accelerator |
| `tasks.dfy`, `task_worker.dfy` | the background-task queue, and the worker with its crashes |
| `chats.dfy` | the chat queue |
| `chunker.dfy`, `router.dfy` | streamed model text: cutting it into clauses, finding the emotion tag |
| `events.dfy`, `bridge.dfy` | ordered expression events over a lossy channel, and the display bridge |
| `broker.dfy` | the agent runtime broker |
| `markdown.dfy`, `reports.dfy` | the Markdown block renderer and report ids |
| `workshop*.dfy` | Workshop manifests: normalisation and request authorisation |
| `common.dfy`, `text.dfy` | shared definitions |

Times are whole milliseconds (tenths of a microsecond in the chat store), and the clock never goes
back where a theorem says `last <= now` or `InOrder`. Where the code and a natural expectation of it
disagree, the model follows the code, and the exact condition under which the expectation holds is
proved, most often beside a lemma with a concrete failing input:

- Cutting the serial stream into reads goes unnoticed for every continuation if and only if no drain
  clears a buffer that ends in the byte A5 (`SplitUnseenIff`, `SplitCanBeSeen`).
- A restart of the timer is unobservable, whatever was not saved, if and only if accounting straight
  to that moment would leave at most 191 days (`RestartUnnoticedIff`); beyond that, pruning earlier
  keeps a different set of days (`RestartCanBeNoticed`).
- `release` answers like a table that drops leases at expiry unless the lease has expired and was not
  purged (`CallAgrees`, `ExpiredStillReleased`).
- A run leaves a waiting task flagged for cancelling if and only if the worker lets a flagged task wait
  for input (`CleanIff`); the next answer then strands it in the queue for good (`FlaggedWaitStrands`,
  `StrandedReachable`, `StrandedNeverClaimed`), and without such a wait none is (`NeverStranded`).
- The query for the user message of a chat answer finds that of its own turn if and only if every later
  user message of the conversation came at least 0.0001 s after it (`PrecedingIff`), which
  `FinishedMayFindNextTurn` fails with a turn 0.00003 s later.
- Streamed text in which no think block is closed is cut alike in one call of `feed` and in many if and
  only if no cut is decided on characters that turn out to begin a marker, `[[`, `<think` or `<THINK`
  (`SplitUnseenIff`, `FeedCallsIff`, `HalvedMarkerSpoken`). The last-soft-boundary fallback of `_next_cut`
  is never reached: `FindCut` holds the assertion.
- An emotion tag survives every fragmentation if and only if it begins literally with `[[emotion:`
  and has at most 65 characters (`RobustIffCanonical`); the pattern alone accepts more (`SpacedTagMissed`).
- A report id decodes to its path if and only if the path has 1 to 768 bytes (`DecodeEncode`).
- Validating a normalised manifest changes nothing, and authorising by it decides the same, if and
  only if it still fits 64 KiB once defaults are filled in (`ValidateTwice`, `NormalFormAuthorises`,
  `NormalFormCanBeTooLarge`).
- Submitting sanitised parameters again changes nothing, except that a storage path with white space
  at an end is cut again (`ResubmitIff`, `ResubmissionDrifts`).

## Model

| member | source | states |
|---|---|---|
| Frames.EncodeMessage | apps/listengo-mic/listengo_daemon.py:31-40 | encoding succeeds exactly when length and id fit 16 bits; header, payload and fields lie where the format says, and all bytes of a frame add up to 0 modulo 256 |
| Frames.FrameReader.Read | apps/listengo-mic/listengo_daemon.py:247-274 | one read and the draining loop deliver exactly the messages of `Drain`, in order, and keep its residue |
| Frames.ReadThenFrame | apps/listengo-mic/listengo_daemon.py:255-274 | a message that passed length and checksum, encoded again, is byte for byte the frame it was read from |
| Frames.ReceiveConserves | apps/listengo-mic/listengo_daemon.py:247-274 | on arbitrary bytes and chunks, dropped stretches, the re-encoded delivered messages and the residue, in order, are the received stream |
| Frames.DrainSettles | apps/listengo-mic/listengo_daemon.py:250-274 | the residue is shorter than 10240 bytes, and draining it again delivers and changes nothing |
| Frames.DrainIsScan | apps/listengo-mic/listengo_daemon.py:247-274 | draining any buffer delivers exactly the messages of a scan that looks at one position after another: at a sync pair a complete frame with a good checksum, skipping bad ones |
| Frames.CleanStreamDelivered | apps/listengo-mic/listengo_daemon.py:31-40 | however the concatenation of frames is cut into reads, exactly those messages are delivered in order and the buffer ends empty |
| Frames.ResyncAfterJunk | apps/listengo-mic/listengo_daemon.py:251-256 | after junk without a sync pair, in the same read, every following frame is delivered |
| Frames.SplitHarmless | apps/listengo-mic/listengo_daemon.py:250-254 | reading in two goes equals reading at once, unless the first drain lost A5 and 01 comes next |
| Frames.SplitHarmful | apps/listengo-mic/listengo_daemon.py:251-254 | when the drain lost an A5, there is a continuation whose first frame is lost by the split alone |
| Frames.SplitUnseenIff | apps/listengo-mic/listengo_daemon.py:250-254 | a split is harmless for all continuations if and only if the drain loses no sync byte |
| Frames.SplitCanBeSeen | apps/listengo-mic/listengo_daemon.py:251-254 | seven bytes of junk after which a split loses a frame that one read delivers |
| Frames.ChunkingUnseen | apps/listengo-mic/listengo_daemon.py:247-274 | on any bytes, a chunking that never loses a sync byte delivers what one read of everything delivers |
| PomodoroAccounting.SpreadDay | apps/expression-ui/pomodoro.py:388-408 | splitting at midnights credits every day with exactly its share of the interval and touches no other |
| PomodoroAccounting.SpreadTwice | apps/expression-ui/pomodoro.py:388-408 | accounting to one instant and then to another equals accounting straight to the second |
| PomodoroAccounting.PruneSpec | apps/expression-ui/pomodoro.py:416-420 | up to 190 days are kept; otherwise exactly the latest 180, unchanged |
| PomodoroAccounting.StepKeepsInv | apps/expression-ui/pomodoro.py:228-371 | every operation keeps the timer's invariant: deadline and accounting mark while running, bounded remaining time, long breaks earned, history bounded |
| PomodoroRestart.AccountTwice | apps/expression-ui/pomodoro.py:388-420 | with pruning, accounting in two goes equals one go when at most 191 days result |
| PomodoroRestart.QuietThenUpdate | apps/expression-ui/pomodoro.py:359-371 | any number of unsaved updates and statistics reads before an update leaves its result unchanged, within 191 days |
| PomodoroRestart.LoadIsUpdate | apps/expression-ui/pomodoro.py:95-214 | loading the saved state at t looks like the saved timer after `update(t)` |
| PomodoroRestart.RestartUnnoticedIff | apps/expression-ui/pomodoro.py:95-214 | no unsaved updates make a restart observable, if and only if accounting straight to t leaves at most 191 days |
| PomodoroExample.RestartCanBeNoticed | apps/expression-ui/pomodoro.py:416-420 | a state that one press of the start button reaches, for which a later restart can be noticed |
| PomodoroTotals.RunConservesDay | apps/expression-ui/pomodoro.py:388-420 | in every run, what a day shows plus what was pruned from it is the time that ran on that day |
| PomodoroTotals.RunConservesTotal | apps/expression-ui/pomodoro.py:388-420 | in every run, totals kept plus totals pruned are the wall time spent running, capped at each deadline |
| PomodoroTotals.DayWithinItsLength | apps/expression-ui/pomodoro.py:377-420 | in every run no day holds more focus plus break than the day is long |
| PomodoroTotals.LongBreakEarned | apps/expression-ui/pomodoro.py:324-352 | in every run a long break means a positive whole number of full cycles of completed sessions |
| PomodoroCommands.PhaseEnds | apps/expression-ui/pomodoro.py:324-371 | a running phase ends once its deadline is reached and not before: a focus session is counted in the cycle and on the day of the deadline and is followed by a long break if and only if it completes a cycle, otherwise by a short one; a break is followed by focus; each waits with its configured length |
| PomodoroCommands.RunCounts | apps/expression-ui/pomodoro.py:324-371 | in every run the cycle counter is the number of focus sessions that reached their deadline since the last reset |
| PomodoroCommands.SkipEnds | apps/expression-ui/pomodoro.py:354-357 | a skip counts nothing and gives a short break after focus, focus after a break |
| PomodoroCommands.CountdownRuns | apps/expression-ui/pomodoro.py:216-248 | however often it is paused and resumed, a phase counts down by exactly the time it runs, and is due exactly when that has used up what was left |
| PomodoroCommands.StartAgain | apps/expression-ui/pomodoro.py:228-239 | a start with nothing left runs the whole phase again, or all of the one that follows |
| PomodoroCommands.ResetCycleRestores | apps/expression-ui/pomodoro.py:264-274 | resetting the cycle gives a first focus phase of its configured length and no completed sessions |
| PomodoroCommands.ChosenLength | apps/expression-ui/pomodoro.py:276-322 | a chosen length is brought between one second and twelve hours and holds for that phase |
| PomodoroCommands.AnyFileLoads | apps/expression-ui/pomodoro.py:95-170 | loading any file gives numbers in range, no overdue phase, and a first focus phase if the file is unreadable |
| PomodoroCommands.FileRestored | apps/expression-ui/pomodoro.py:95-170 | a readable file is restored field by field: days with negative entries at zero, a running phase without deadline paused, one never accounted from the time the file was written |
| PomodoroService.EventKeepsInv | apps/expression-ui/pomodoro.py:95-371 | commands, unsaved updates, saves and restarts keep live and saved timer valid, with the same running time ahead of them |
| PomodoroService.ServiceConserves | apps/expression-ui/pomodoro.py:388-420 | in every run with restarts, for each day and for all, time kept plus time pruned is the wall time that ran, capped at each deadline |
| PomodoroService.ServiceSound | apps/expression-ui/pomodoro.py:95-420 | in every run with restarts no day shows more time than it has and every long break has been earned |
| PomodoroTimers.PomodoroTimer.constructor | apps/expression-ui/pomodoro.py:58-83 | the settings are clamped, the state is that of loading the file, and the file is rewritten exactly when a deadline had passed |
| PomodoroTimers.PomodoroTimer.LoadFile | apps/expression-ui/pomodoro.py:95-170 | loading gives `Load` of the file, missing, unreadable, partial or complete, and saves exactly when a deadline had passed |
| PomodoroTimers.PomodoroTimer.AccountElapsed | apps/expression-ui/pomodoro.py:388-408 | the state becomes `Account` of the old state |
| PomodoroTimers.PomodoroTimer.CreditSegments | apps/expression-ui/pomodoro.py:398-407 | the loop over midnights computes `Spread` |
| PomodoroTimers.PomodoroTimer.PruneHistory | apps/expression-ui/pomodoro.py:416-420 | the history becomes `Prune` of itself |
| PomodoroTimers.PomodoroTimer.Save | apps/expression-ui/pomodoro.py:172-214 | saving accounts first, and the file is the document of the resulting state |
| PomodoroTimers.PomodoroTimer.AdvancePhase | apps/expression-ui/pomodoro.py:324-352 | the phase change is `Advance`, whose outcome `PhaseEnds` and `SkipEnds` state |
| PomodoroTimers.PomodoroTimer.UpdateAt | apps/expression-ui/pomodoro.py:359-371 | the state becomes `Update` of the old one; true exactly when the deadline was reached |
| PomodoroTimers.PomodoroTimer.Perform | apps/expression-ui/pomodoro.py:228-357 | every command makes its `Step`, a start that reaches a deadline an update and then a start at its second clock reading, then accounts to the time of saving and writes that state |
| VisionLeases.CallAgrees | apps/face-tracker/vision_leases.py:36-111 | one call on a lazily purged table answers as on a table purged at expiry; for `release`, exactly unless the lease is expired and still present |
| VisionLeases.ExpiredStillReleased | apps/face-tracker/vision_leases.py:67-69 | a lease released at its expiry before any purge is found, where a table that drops it at expiry finds none |
| VisionLeases.RunAgrees | apps/face-tracker/vision_leases.py:36-111 | over any run, every acquire, renew, active and snapshot answers as the eager timed map does |
| VisionLeases.RunKeepsDated | apps/face-tracker/vision_leases.py:29-66 | in every run a lease expires its own time to live after its last grant or renewal, within the limits |
| VisionLeases.SilenceExpires | apps/face-tracker/vision_leases.py:77-81 | once the maximum time to live has passed since the last call, nothing is active |
| VisionLeases.LeaseLastsExactly | apps/face-tracker/vision_leases.py:36-111 | whatever other calls come in between, a lease that is granted or renewed can be renewed if and only if its time has not passed; until then the device is active and the snapshot shows the lease with the time it has left |
| VisionLeases.TtlNearest | apps/face-tracker/vision_leases.py:13-34 | the time granted is the one asked for or the nearest limit, and the limits are those given, at least a tenth of a second and in order |
| VisionLeases.ExpireReports | apps/face-tracker/vision_leases.py:71-75 | an expiry pass reports exactly the leases that are over and removes them |
| VisionLeases.SourceIs | apps/face-tracker/vision_leases.py:36-52 | the source of a lease is its trimmed text, cut after 80 characters, or "unknown" |
| VisionLeases.VisionLeaseManager.ExpireLocked | apps/face-tracker/vision_leases.py:105-111 | the table becomes its purge, and exactly the expired leases are returned |
| VisionLeases.VisionLeaseManager.AcquireLease | apps/face-tracker/vision_leases.py:36-52 | table and answer are those of `Lazy` |
| VisionLeases.VisionLeaseManager.RenewLease | apps/face-tracker/vision_leases.py:54-65 | table and answer are those of `Lazy`, errors included |
| VisionLeases.VisionLeaseManager.ReleaseLease | apps/face-tracker/vision_leases.py:67-69 | only the lease goes; true exactly when it was in the unpurged table |
| VisionLeases.VisionLeaseManager.SnapshotNow | apps/face-tracker/vision_leases.py:83-103 | every live lease once, in order of expiry, with the time to the next expiry |
| VisionLeases.SortedByExpiry | apps/face-tracker/vision_leases.py:83-103 | every lease of the table exactly once, in non-decreasing order of expiry |
| Supervisor.HandleKeepsExclusive | apps/face-tracker/face_tracker_supervisor.py:259-372 | no command, successful, refused or failed, leaves both tables non-empty, or a reservation with a worker handle |
| Supervisor.TickKeepsExclusive | apps/face-tracker/face_tracker_supervisor.py:406-426 | nor does a maintenance tick, with any exit of the worker or failed start |
| Supervisor.RunKeepsExclusive | apps/face-tracker/face_tracker_supervisor.py:178-187 | nor any run of commands and ticks with any clocks, polls and launch failures |
| Supervisor.AcquireRefusedIff | apps/face-tracker/face_tracker_supervisor.py:259-372 | a face lease is refused exactly when a reservation is still running at that moment |
| Supervisor.ReserveOutcome | apps/face-tracker/face_tracker_supervisor.py:259-372 | a reservation is refused exactly when a face lease is running; when granted, no face lease and no worker handle remain and it stands until it expires |
| Supervisor.TickStopsIdleWorker | apps/face-tracker/face_tracker_supervisor.py:406-426 | a tick that finds every face lease expired leaves no worker handle |
| Supervisor.RunRespectsBackoff | apps/face-tracker/face_tracker_supervisor.py:178-187 | without a worker, no run of commands and ticks before the restart time launches one or moves that time |
| Supervisor.TickSetsBackoff | apps/face-tracker/face_tracker_supervisor.py:411-419 | a tick that sees an exited worker drops it and starts none before two seconds have passed |
| Supervisor.ReconcileSettles | apps/face-tracker/face_tracker_supervisor.py:178-187 | while a face lease and no reservation runs, a live worker is kept, a missing one is launched exactly when the restart time is reached, and a failed launch is reported; otherwise no worker is kept |
| Supervisor.AcquireStarts | apps/face-tracker/face_tracker_supervisor.py:259-372 | a granted face lease keeps the running worker or launches one unless the restart is still put off; the reply says whether the launch failed |
| Supervisor.RenewOutcome | apps/face-tracker/face_tracker_supervisor.py:259-372 | a renewal finds exactly a running lease and keeps its worker |
| Supervisor.ReleaseOutcome | apps/face-tracker/face_tracker_supervisor.py:259-372 | a release removes its lease, says whether there was one, stops the worker with the last face lease, and launches it when the last reservation goes while the device is wanted |
| Supervisor.TickRestarts | apps/face-tracker/face_tracker_supervisor.py:406-426 | while the device is wanted, a tick keeps a live worker and launches a missing one at the restart time; a failed launch puts it off by two seconds |
| Supervisor.RefusalsTouchNothing | apps/face-tracker/face_tracker_supervisor.py:259-372 | a status command, a refusal, and a renewal that finds nothing leave the worker, its restart time and every running lease as they were |
| Supervisor.FaceTrackerSupervisor.ReconcileNow | apps/face-tracker/face_tracker_supervisor.py:178-187 | both lease managers, the handle and the raise are those of `Reconcile` |
| Supervisor.FaceTrackerSupervisor.HandleRequest | apps/face-tracker/face_tracker_supervisor.py:259-372 | state and reply of every command, lazily purged tables included, are those of `Handle` |
| Supervisor.FaceTrackerSupervisor.MaintainOnce | apps/face-tracker/face_tracker_supervisor.py:406-426 | one turn of the maintenance loop is `Tick` |
| TaskQueue.SameKeySameTask | apps/video-call/task_store.py:145-249 | after a creation with a new idempotency key, that key finds the created task and no other |
| TaskQueue.TaskStore.CreateTask | apps/video-call/task_store.py:145-249 | a new row exactly when the key is free; otherwise the row of that key and no change |
| TaskQueue.TaskStore.ClaimNext | apps/video-call/task_store.py:349-383 | None exactly when nothing is claimable; otherwise the oldest claimable row becomes that of `Claim`, with one more attempt by `ClaimAttempts` |
| TaskQueue.TaskStore.AnswerTask | apps/video-call/task_store.py:483-540 | only a waiting row of the caller is queued again, question and answer recorded |
| TaskQueue.TaskStore.CancelTask | apps/video-call/task_store.py:542-589 | queued and waiting rows end, a running one is flagged, finished ones stay as they are |
| TaskProtocol.StepKeepsOwned | apps/video-call/task_worker.py:353-443 | every step of callers and worker keeps ownership: the running row is the one the worker holds, ids and keys stay unique |
| TaskProtocol.StepEvolves | apps/video-call/task_store.py:349-689 | no step of anyone changes a finished row but for an empty owner, takes a flag back, attempts a flagged row again, or removes an active one |
| TaskProtocol.WorkerWritesOwnRow | apps/video-call/task_store.py:401-481 | the updates guarded by the id alone touch exactly the running row the worker holds, end or park it, and leave every other row as it is |
| TaskProtocol.RunSafe | apps/video-call/task_store.py:349-383 | in every run with crashes and recovery, a finished task never changes, a task flagged for cancelling is never attempted again, and a deleted one never returns |
| TaskProtocol.CreatedRow | apps/video-call/task_store.py:145-249 | a created task is at once claimable, with no attempt, and no other row changes |
| TaskProtocol.ClaimAttempts | apps/video-call/task_store.py:349-383 | a claim takes an oldest queued and unflagged task, runs it with exactly one more attempt, and changes no other row |
| TaskProtocol.AttemptsAreClaims | apps/video-call/task_store.py:349-383 | in every run the attempt count of a task grows by exactly the number of its claims |
| TaskProtocol.FlaggedNeverClaimed | apps/video-call/task_store.py:349-383 | in every run no claim of a task follows its cancellation flag |
| TaskProtocol.CancelOutcome | apps/video-call/task_store.py:542-589 | a cancellation by someone who may see the task ends it while it waits, flags it while it runs, leaves a finished one, and changes no other row |
| TaskProtocol.AnswerOutcome | apps/video-call/task_store.py:483-540 | an answer reaches exactly a waiting task of the caller, is kept with its question, and queues the task again |
| TaskProtocol.WorkerWords | apps/video-call/task_worker.py:353-443 | what the worker writes is the result, the error or the question it was given, and it is then free |
| TaskProtocol.FlagSeenOnReturn | apps/video-call/task_worker.py:353-381 | a flag set while the agent works is seen on its return: the task can then end as cancelled, not complete or wait |
| TaskProtocol.AtMostOneRunning | apps/video-call/task_worker.py:428-443 | in every run from an empty store at most one task is running |
| TaskProtocol.OnlyFlaggedWaits | apps/video-call/task_store.py:465-481 | of all steps only a wait while the flag is set, which `wait_for_input` does not check, leaves a waiting task flagged |
| TaskProtocol.CleanIff | apps/video-call/task_worker.py:363-371 | a run has a state with a queued or waiting task already flagged if and only if one of its steps is such a wait |
| TaskProtocol.NeverStranded | apps/video-call/task_worker.py:363-371 | a run without such a wait strands no task |
| TaskProtocol.FlaggedWaitStrands | apps/video-call/task_store.py:483-540 | after such a wait the next answer strands that task |
| TaskProtocol.StrandedReachable | apps/video-call/task_worker.py:363-371 | a run from an empty store that strands a task |
| TaskProtocol.StrandedNeverClaimed | apps/video-call/task_store.py:349-383 | such a task is never attempted again: it stays queued, is cancelled, or is deleted |
| Chats.StepKeepsInv | apps/video-call/chat_store.py:424-498 | every store operation keeps each assistant message right after the user message of its own turn, user messages in order around it, ids unique, and active messages last in their conversation |
| Chats.OneActivePerConversation | apps/video-call/chat_store.py:424-498 | in every run a conversation has at most one queued or running assistant message |
| Chats.PrecedingIsOwnTurn | apps/video-call/chat_store.py:770-800 | in every run, recovery included, the message found before an active assistant message is the user message of the same turn and no other |
| Chats.PrecedingIff | apps/video-call/chat_store.py:424-498 | an answer is stamped 0.0001 s after its user message, and for any assistant message of any run the query finds the user message of its own turn if and only if no later user message of the conversation is stamped before the answer |
| Chats.FinishedMayFindNextTurn | apps/video-call/chat_store.py:770-800 | a run where a finished message finds the user message of the next turn, 0.00003 s later, and not its own |
| Chats.ShapeKept | apps/video-call/chat_store.py:741-1015 | but for new turns, no operation changes an id, place, role or date, revives a message, or removes part of a conversation |
| Chats.FinishFreesConversation | apps/video-call/chat_store.py:820-845 | finishing an active message changes that message alone and frees its conversation for the next turn |
| Chats.CancelFlagsOne | apps/video-call/chat_store.py:847-884 | a cancellation flags the message it names, only while it is active, and changes nothing else |
| Chats.TurnAdds | apps/video-call/chat_store.py:424-498 | a turn, only in a conversation of the caller that is not busy, adds the completed user message and, one row and 0.0001 s later, an empty queued answer, and nothing else |
| Chats.ClaimRuns | apps/video-call/chat_store.py:741-768 | a claim takes an oldest queued answer, sets it running and changes nothing else |
| Chats.RecoveryRequeues | apps/video-call/chat_store.py:1004-1015 | recovery queues what was running, emptied and unflagged, and changes nothing else |
| Chats.DeleteTakes | apps/video-call/chat_store.py:357-383 | deleting a conversation takes it and exactly its messages |
| Chats.DeleteOwnerTakes | apps/video-call/chat_store.py:955-1002 | deleting an owner's conversations is possible exactly when none is busy, and takes exactly theirs |
| Chats.ChatStore.CreateTurn | apps/video-call/chat_store.py:424-498 | which of the three outcomes happens, exactly, and the two rows added |
| Chats.ChatStore.ClaimNext | apps/video-call/chat_store.py:741-768 | the oldest queued assistant message becomes running, or there is none |
| Chats.ChatStore.PrecedingUserMessage | apps/video-call/chat_store.py:770-800 | the row the query selects, or None exactly when no earlier user message exists |
| SpeechChunker.StreamingSpeechChunker.FindCut | apps/expression-ui/daily_voice_assistant.py:963-990 | the scanning loop finds `NextCut`; its last fallback is unreachable |
| SpeechChunker.StreamingSpeechChunker.Feed | apps/expression-ui/daily_voice_assistant.py:992-1003 | for any text, feeding removes closed think blocks, returns the cleaned, non-empty cuts and keeps the leftover, which holds no further cut |
| SpeechChunker.CutsAccountForText | apps/expression-ui/daily_voice_assistant.py:992-1003 | cuts plus leftover are the text, and the leftover holds no further cut |
| SpeechChunker.CutsWithinLimit | apps/expression-ui/daily_voice_assistant.py:963-990 | every cut is non-empty and has at most the hard limit of visible characters |
| SpeechChunker.NextCutIff | apps/expression-ui/daily_voice_assistant.py:963-990 | the next cut is decided at the first character that is a pause with enough visible text before it or reaches the hard limit, and falls after a pause or else after the last white space; without such a character there is none |
| SpeechChunker.MarkerIff | apps/expression-ui/daily_voice_assistant.py:955-961 | speakable text ends before `[[`, `<think` or `<THINK`, character by character |
| SpeechChunker.FeedAccounts | apps/expression-ui/daily_voice_assistant.py:992-1003 | the cuts of a feed and what it holds back are what think-block removal leaves of the text held back and the new text |
| SpeechChunker.SplitUnseenIff | apps/expression-ui/daily_voice_assistant.py:955-1003 | cutting in two goes equals cutting at once, if and only if no cut of the first text is decided where a marker begins once the second has arrived |
| SpeechChunker.FragmentationIff | apps/expression-ui/daily_voice_assistant.py:955-1003 | a fragmentation gives the cuts and leftover of the whole text if and only if no split in it is noticed |
| SpeechChunker.FeedCallsIff | apps/expression-ui/daily_voice_assistant.py:947-1003 | for any text in which no tag is closed, the same holds of the calls of `feed`, think-block removal and empty texts included |
| SpeechChunker.PlainFragmentationUnseen | apps/expression-ui/daily_voice_assistant.py:938-1003 | for text with neither `[` nor `<` every fragmentation gives the same cuts and leftover, complete and within the limit |
| SpeechChunker.HalvedMarkerSpoken | apps/expression-ui/daily_voice_assistant.py:955-990 | a concrete text whose half marker is cut only because of the split |
| EmotionRouter.CanonicalTagRouted | apps/expression-ui/response_emotions.py:103-141 | for every fragmentation a canonical leading tag is selected once, before anything is forwarded, and the rest is forwarded minus leading white space |
| EmotionRouter.RobustIffCanonical | apps/expression-ui/response_emotions.py:103-141 | a tag is recognised in every fragmentation if and only if it is canonical |
| EmotionRouter.SpacedTagMissed | apps/expression-ui/response_emotions.py:103-141 | a known tag with one space that some fragmentation misses |
| EmotionRouter.PlainTextForwarded | apps/expression-ui/response_emotions.py:103-141 | text whose first visible character is not a bracket is forwarded word for word after one selection |
| EmotionRouter.UntaggedForwarded | apps/expression-ui/response_emotions.py:103-141 | text that is no tag and cannot become one is forwarded word for word in every fragmentation after one guessed selection |
| EmotionRouter.OneSelectionFirst | apps/expression-ui/response_emotions.py:103-141 | whatever arrives, in any fragments, at most one state is selected and nothing is forwarded before it |
| EmotionRouter.WaitsIff | apps/expression-ui/response_emotions.py:103-141 | text is held back exactly while it is no tag but may become one, has at most 64 characters and no closing brackets |
| EmotionRouter.MatchTagIff | apps/expression-ui/response_emotions.py:22-33 | text begins with a tag exactly if it has the parts of the pattern one after another |
| EmotionRouter.IncompleteDropped | apps/expression-ui/response_emotions.py:28-33 | of a tag that is never closed properly, the opening, at most 48 characters, closing brackets and white space are removed |
| EmotionRouter.TaggedReply | apps/expression-ui/response_emotions.py:55-67 | a reply with a leading tag is its trimmed rest, with the tag's state if the label is known and a guess otherwise |
| EmotionRouter.UntaggedReply | apps/expression-ui/response_emotions.py:55-67 | any other reply is what is left without an unfinished tag, with a guessed state |
| EmotionRouter.FinalizeSelects | apps/expression-ui/response_emotions.py:143-148 | finalising returns the cleaned reply and selects its state unless that is already selected |
| EmotionRouter.TagExtend | apps/expression-ui/response_emotions.py:22-33 | a leading tag once complete is the same tag whatever text follows |
| EmotionRouter.FinalizeAgrees | apps/expression-ui/response_emotions.py:143-148 | finalising the reply a known tag began selects nothing again and returns the stripped rest |
| EmotionRouter.ResponseEmotionStreamRouter.FeedDelta | apps/expression-ui/response_emotions.py:103-141 | state and downstream calls of every delta, empty and end markers included, are those of `Feed` |
| EmotionRouter.ResponseEmotionStreamRouter.FeedBuffer | apps/expression-ui/response_emotions.py:115-141 | the buffered text waits or is resolved as `Examine` says |
| ExpressionEvents.ValidateOrdered | apps/expression-ui/expression_events.py:173-243 | acceptance moves the (publisher start, sequence) key up; rejection changes one counter only, so a publisher is activated only by acceptance |
| ExpressionEvents.AcceptedIff | apps/expression-ui/expression_events.py:173-232 | an event is accepted if and only if it is complete, of one of the twelve states, at most five seconds ahead, not too old unless an idle snapshot, and newer than what its publisher had accepted, or of a publisher started later |
| ExpressionEvents.ScreenNames | apps/expression-ui/expression_events.py:173-212 | a refusal that does not depend on earlier events names the first check that the event fails |
| ExpressionEvents.OrderRefusals | apps/expression-ui/expression_events.py:213-232 | a timely event is refused as of a retired publisher, out of order, or of a retired interaction in exactly these cases |
| ExpressionEvents.KeysIncrease | apps/expression-ui/expression_events.py:173-243 | under any loss, repetition, reordering or forgery the keys of accepted events strictly increase |
| ExpressionEvents.PublisherStaysHonest | apps/expression-ui/expression_events.py:79-132 | publishing keeps numbers consecutive and interactions non-decreasing |
| ExpressionEvents.PublishAppends | apps/expression-ui/expression_events.py:79-132 | a published event carries the trimmed listed state, the next number, the current interaction and the time; another state publishes nothing |
| ExpressionEvents.HonestAcceptance | apps/expression-ui/expression_events.py:206-232 | with honest publishers a fresh event is accepted exactly when it is newer: a later number, or a publisher started later |
| ExpressionEvents.NoRetiredInteraction | apps/expression-ui/expression_events.py:218-225 | in every run with honest publishers "retired-interaction" is unreachable |
| ExpressionEvents.OnePublisherAcceptsIff | apps/expression-ui/expression_events.py:173-232 | for one honest publisher a fresh event is accepted exactly when its number exceeds every accepted one |
| ExpressionEvents.ExpressionEventPublisher.StartInteraction | apps/expression-ui/expression_events.py:79-84 | the next interaction begins, nothing is published |
| ExpressionEvents.ExpressionEventPublisher.PublishState | apps/expression-ui/expression_events.py:86-132 | an allowed state is appended with the next number; another publishes nothing |
| ExpressionEvents.ExpressionEventConsumer.ValidateEvent | apps/expression-ui/expression_events.py:173-243 | the consumer's fields and decision are those of `Validate` for every event |
| ExpressionBridge.RunKeepsUpToDate | apps/expression-ui/hermes_expression_bridge.py:90-151 | in every run, whenever the last delivery succeeded the display shows the last accepted event's state |
| ExpressionBridge.TurnDelivers | apps/expression-ui/hermes_expression_bridge.py:90-151 | a datagram is delivered exactly if it is accepted, a timeout delivers only after a failure, and what is shown, attempted and recovered follows from that |
| ExpressionBridge.StartShows | apps/expression-ui/hermes_expression_bridge.py:153-163 | at startup a snapshot that is accepted shows its state, and one that is refused or missing shows idle |
| ExpressionBridge.DisplayUpToDate | apps/expression-ui/hermes_expression_bridge.py:90-163 | from reconciliation onward this holds, and one retry with a working display restores it after any failures |
| ExpressionBridge.NewestEventShown | apps/expression-ui/hermes_expression_bridge.py:128-163 | after any run from startup, an event of an honest publisher that arrives in time is delivered if and only if it is newer than everything accepted, and is then on the display |
| ExpressionBridge.VoiceExpressionBridge.DeliverState | apps/expression-ui/hermes_expression_bridge.py:90-108 | the delivery flags are those of `Deliver` |
| ExpressionBridge.VoiceExpressionBridge.RetryPending | apps/expression-ui/hermes_expression_bridge.py:110-126 | a retry sends the last accepted state, or idle |
| ExpressionBridge.VoiceExpressionBridge.ProcessEvent | apps/expression-ui/hermes_expression_bridge.py:128-151 | only an accepted event is delivered, in the consumer and the bridge |
| ExpressionBridge.VoiceExpressionBridge.ReconcileSnapshot | apps/expression-ui/hermes_expression_bridge.py:153-163 | a missing snapshot shows idle, another is processed as one that may be stale and idle |
| AgentBroker.BrokerSafe | apps/agent-runtime/agent_runtime_service.py:94-173 | in every interleaving the keys of `active` are exactly the ids of live registered handlers, ids are unique, and at most clamp(max, 1, 8) handlers are inside |
| AgentBroker.OnlyOwnerRemoves | apps/agent-runtime/agent_runtime_service.py:166-171 | an id leaves the registry only when its own handler cleans up |
| AgentBroker.FreshRegisters | apps/agent-runtime/agent_runtime_service.py:124-129 | an id that is not in use is registered and its handler goes on to wait |
| AgentBroker.EntersAndLeaves | apps/agent-runtime/agent_runtime_service.py:137-147 | a waiting handler enters whenever a permit is free, calls the adapter unless it was cancelled, and gives the permit back |
| AgentBroker.CleanUpFrees | apps/agent-runtime/agent_runtime_service.py:166-171 | cleaning up frees exactly the handler's own id |
| AgentBroker.DuplicateRejected | apps/agent-runtime/agent_runtime_service.py:124-173 | a rejected duplicate changes no entry, neither on rejection nor on its own clean-up |
| AgentBroker.CancelDooms | apps/agent-runtime/agent_runtime_service.py:65-68 | a cancel dooms exactly the waiting handler of that id, and closing dooms all |
| AgentBroker.DoomedNeverRuns | apps/agent-runtime/agent_runtime_service.py:137-147 | a handler cancelled before it entered never runs the adapter, however the run goes on |
| AgentBroker.AgentRuntimeServer.RegisterRequest | apps/agent-runtime/agent_runtime_service.py:124-129 | registration or the duplicate error, as in `Next` |
| AgentBroker.AgentRuntimeServer.EnterSemaphore | apps/agent-runtime/agent_runtime_service.py:137-147 | the adapter runs exactly when the event is not set; otherwise the permit is given back |
| MarkdownBlocks.RenderIsStructure | apps/video-call/task_worker.py:125-184 | the line-by-line renderer prints the document's structure: each list around its own items, each code block whole |
| MarkdownBlocks.RenderBalanced | apps/video-call/task_worker.py:125-184 | for every source the tags are balanced, items only in a list, nothing else in one, all closed at the end |
| MarkdownBlocks.ClassifyIff | apps/video-call/task_worker.py:139-184 | a stripped line is read as the one kind of block whose pattern it matches |
| MarkdownBlocks.MarkdownToBlocks | apps/video-call/task_worker.py:125-184 | the loop with its four variables renders exactly that, balanced |
| ReportIds.EncodedShape | apps/video-call/report_library.py:31-35 | an id consists of alphabet letters, its length is determined, and the computed padding restores the stripped one |
| ReportIds.QuadIsNumber | apps/video-call/report_library.py:31-35 | the four letters of three bytes are the digits of their number in base 64 |
| ReportIds.TestVectors | apps/video-call/report_library.py:31-35 | three vectors of section 10 of RFC 4648 and one with the two letters of the URL-safe alphabet |
| ReportIds.DecodeEncode | apps/video-call/report_library.py:31-45 | decoding an id gives the path back if and only if it has 1 to 768 bytes, and is an error otherwise |
| ReportIds.EncodeInjective | apps/video-call/report_library.py:31-35 | different paths have different ids |
| ReportIds.DecodesIff | apps/video-call/report_library.py:37-45 | alphabet text within the limit decodes if and only if its length is not 1 modulo 4 |
| ReportIds.DecodeTrims | apps/video-call/report_library.py:37-45 | white space around an id is ignored; nothing outside the alphabet or the limit decodes |
| WorkshopText.SafePathNormal | apps/workshop/workshop_contract.py:241-250 | a normalised package path is its own normal form and no longer than the original |
| WorkshopDecisions.SafePathIff | apps/workshop/workshop_contract.py:241-250 | a package path is accepted with this normal form if and only if it is relative, has no part ".." and no NUL, and the form joins the parts that are neither empty nor "." |
| WorkshopPatterns.AppIdIff | apps/workshop/workshop_contract.py:31-31 | the test for application ids is the regular expression read as a concatenation |
| WorkshopPatterns.DomainPatternIff | apps/workshop/workshop_contract.py:36-39 | the test for domain names is the regular expression read as a concatenation |
| WorkshopPermissions.ValidateDomains | apps/workshop/workshop_contract.py:309-326 | the loop computes `CheckDomains`, its error at the first bad entry included |
| WorkshopPermissions.CheckDomainsNormal | apps/workshop/workshop_contract.py:309-326 | a validated domain list is its own validation: trimmed, lower case, without repetition |
| WorkshopPermissions.CheckConstraintsNormal | apps/workshop/workshop_contract.py:343-435 | validated constraints are their own validation, for every capability |
| WorkshopPermissions.PermissionsNormal | apps/workshop/workshop_contract.py:553-594 | validated permissions are their own validation |
| WorkshopPermissions.PermissionsSound | apps/workshop/workshop_contract.py:553-594 | no capability twice, none forbidden or unknown, all constraints valid |
| WorkshopPermissions.ValidatePermissions | apps/workshop/workshop_contract.py:553-594 | the loop computes `PermissionsOf` and the set of names it has seen |
| WorkshopManifest.ValidateTwice | apps/workshop/workshop_contract.py:438-663 | the normal form of a valid manifest is valid and its own normal form, or too large, exactly by its length |
| WorkshopDeclarations.ManifestIff | apps/workshop/workshop_contract.py:438-663 | a manifest is valid with this normal form if and only if it has the listed fields and no others, every text, number and path within its bounds, every capability once with its constraints, and the form holds them with white space, case, repetitions and defaults settled |
| WorkshopManifest.PackagePathNormal | apps/workshop/workshop_contract.py:241-250 | a path trimmed and normalised twice stays the same if and only if it has no white space at its ends |
| WorkshopRequests.NormalFormAuthorises | apps/workshop/workshop_contract.py:865-962 | authorising by the normal form decides every request as the manifest does, if and only if the normal form fits the limit |
| WorkshopDecisions.AuthorizeIff | apps/workshop/workshop_contract.py:865-962 | a request is allowed with these parameters if and only if the manifest is valid, the session is that of its app, the capability of the method is declared and granted, the app is in the foreground and the user present where the method asks for it, and the parameters keep to what is declared |
| WorkshopDecisions.Refusals | apps/workshop/workshop_contract.py:883-919 | each of the five refusals is given exactly when the requirements before it hold and its own does not: identity, declaration, grant, foreground, user |
| WorkshopDecisions.RequestIff | apps/workshop/workshop_contract.py:674-703 | a request is well formed if and only if it has the protocol, the type, an id, a method of the catalogue, and parameters that name no identity |
| WorkshopDecisions.ParamsIff | apps/workshop/workshop_contract.py:721-960 | for every method, the parameters that are let through and what becomes of them, by host, range, speed, lease, rate, frame, path and volume |
| WorkshopNames.ServesIff | apps/workshop/workshop_contract.py:70-196 | a method name belongs to a capability name exactly as the catalogue lists it |
| WorkshopNames.SessionNames | apps/workshop/workshop_contract.py:106-168 | the methods that need the foreground, and those that need the user, are exactly the ones listed |
| WorkshopGrowth.NormalFormCanBeTooLarge | apps/workshop/workshop_contract.py:446-453 | a manifest of at most 64 KiB of compact JSON whose normal form is longer, is refused, and decides no request as the manifest does |
| WorkshopRequests.ResubmitIff | apps/workshop/workshop_contract.py:865-962 | an allowed request sent again with its sanitised parameters is allowed and unchanged, for storage exactly when the path has no white space at its ends |
| WorkshopExample.ResubmissionDrifts | apps/workshop/workshop_contract.py:926-930 | a valid manifest and an allowed storage request for "./ a" whose sanitised form is allowed too, with another path |
| WorkshopRequests.FetchConfined | apps/workshop/workshop_contract.py:721-750 | an allowed fetch goes by HTTPS without credentials to a domain that the granted permission of the manifest declares, or below one, by a method declared there |
| WorkshopRequests.MoveConfined | apps/workshop/workshop_contract.py:753-772 | an allowed movement keeps to the ranges and the speed that the granted permission declares, themselves within 180 degrees and 120 degrees a second |

## Left out

- Sockets, the serial port, SQLite, files, subprocesses and threads: an operation under a lock or in a transaction is one atomic step, and what it reads from outside is a parameter.
- Chats.ChatStore.CreateTurn: the check and the inserts are one atomic step, although the source starts no explicit transaction; attachments are not modelled.
- Floating point: rounding of saved seconds, NaN and infinity are not modelled; a NaN speed would pass the comparisons of the motor authorisation.
- Clocks that go back, except for the supervisor, whose exclusion holds for any clocks.
- Supervisor.FaceTrackerSupervisor.HandleRequest: a failed write of the state file, the time a worker process takes to end after its handle is dropped, and the worker's exit code are not modelled.
- The supervisor's snapshot contents beyond the tables.
- The worker's `process` and `serve` are a protocol of steps on values rather than an object; progress, report files and the images of a task are not modelled.
- SpeechChunker.FeedCallsIff: fragmentations of a text in which a think block is closed are not compared; removing closed blocks and cleaning a cut for speech are given functions, and flushing and segment boundaries are not modelled.
- PomodoroTimers.PomodoroTimer.CreditSegments: the source stops when at most 0.1 ms remain and drops that remainder; on whole milliseconds none does.
- EmotionRouter.TagExtend: letters outside ASCII in tags, as in Workshop domains and application ids, where Unicode case folding would match more; guessing an emotion from content is an arbitrary function.
- Decoding of datagrams: an event arrives as a value of any shape; the time to live of a shown expression is not modelled.
- Inline Markdown, escaping and `splitlines`; digits outside ASCII in numbered lists.
- UTF-8 coding of report paths and `ReportLibrary.resolve`.
- The Workshop's `urlsplit`, version pattern, `str(value).upper()` and length as JSON are parameters (the length is given in `workshop_size.dfy`, up to the text of numbers that are not integers); a `methods` constraint given as a JSON object (whose keys Python would iterate) counts as an error; manifests that JSON cannot express and the messages of errors are not modelled.
- The broker's peer check, wire format and server shutdown: a refused request is one step.
- The rest of the voice assistant, the face tracker, and the services around them.
