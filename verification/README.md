# Admission, rotation, ownership and projection in Free Claude Code

This project models the parts of the gateway whose correctness rests on interleavings, on bookkeeping
across many calls, or on transformations that must not change meaning, and proves what they promise.

- **Provider admission** (`AdmissionMachine`, `AdmissionInvariant`, `AdmissionTheorems`, `AdmissionLifecycle`,
  `AdmissionStranding`, `AdmissionWaiters`, `AdmissionWitness`, `AdmissionController`): per-model recovery episodes
  with a leader, one half-open probe, waiters and a terminal hold, in front of a rate window and a concurrency
  limit. Every stretch of code between two awaits is one atomic step of a state machine; each session has a
  program counter; cancellation may land at any await. The controller class performs the critical sections
  branch by branch and is proved to take exactly the machine's steps; the theorems are about all runs of it.
- **Rate window and credential pool** (`SlidingWindow`, `KeyPool`, `KeyHealth`, `KeyLineage`, `KeyPoolObject`):
  the deque of timestamps refines the log of everything ever recorded; N such windows are combined with
  least-recently-used order, holds and retirement; and a credential is followed over configuration reloads,
  each of which builds a fresh pool from its predecessor's snapshot.
- **Pending voice notes** (`VoiceRegistry`, `VoiceConcurrency`, `VoiceOutcomes`, `VoiceObjects`): who owns a voice
  note while handoffs, cancels and discards race for it, what is reported of it, and why handoffs that cancel
  one another never deadlock.
- **Stream holdback** (`StreamRecovery`) and the **compacting delivery queue** (`MessagingQueue`).
- **Reasoning history** (`Base64Url`, `ReplayRecords`, `ReplayJoin`, `ReplayJoinTheorems`, `ReplayResolve`,
  `ReadableReasoning`, `ReplayProjection`, `ReplayFate`, `ReplayCarry`): carriers in the base64url form of RFC 4648
  (section 5, with the padding omitted as section 3.2 allows), joining late metadata, and projection onto a destination.
- **Tool names** (`ToolNames`) and the **native messaging bridge** (`Bridge`).
- **Schema patterns** (`CategoryRanges`, `SchemaPatterns`, `PatternAcceptance`, `PatternMeaning`,
  `PatternTheorems`, `ToolSchemas`): the scanner and its rewriting, the patterns it accepts, and a reader of
  patterns (tokens, classes, the points a class matches) under which every class keeps its meaning.

## Assumptions

- Time is a real number read from a clock that never goes back and, for the credential pool, is positive. A
  critical section of admission reads it once; the waiting loop of the rate window and the holdback buffer read
  it twice, as the code does.
- Code between two awaits runs without interruption. A cleanup handler, once entered, completes.
- A session opens its attempts one after another and its model is fixed. Its driver reopens at once, as
  `run_with_retry` does, or after work of its own, which may suspend, fail or be cancelled.
- Timestamps imported into a window or a pool were read off the same clock.
- "Retryable", delays, jitter and the outcome of upstream calls are inputs; delays are not negative.
- A claim's unique id is a serial number.
- The stream's caller reports generated output whenever content has reached the client.
- JSON text, `str`, UTF-8 decoding, digests, the Unicode database and the regular-expression compiler are
  parameters. For JSON text: what was written reads back. For digests: they are hexadecimal, and for any
  reserved set smaller than the set of names some attempt yields a new alias (`DistinctDigestsLeave` gives a
  sufficient condition). For the database: surrogates are in none of the four categories, and each category has a
  point (an empty table would leave an empty class behind).
- JSON objects are maps and their member order is not modelled. A number is its literal, and one too
  small for a float is not rounded to zero. Strings hold Unicode scalar values, so a lone surrogate, which the
  writer refuses, does not occur.

## Where the code and its promises differ

- The window's documentation speaks of any interval. Eviction uses `<=`, so the bound holds for half-open
  windows; `ClosedWindowMayHoldMore` gives two acquisitions that break it for a closed one. `ClosedWindowExactly`
  says, over every run with one limit, exactly when closed windows keep it, and `AcquisitionKeepsClosedBound` and
  `PassKeepsClosedBound` say so for one call.
- Recording a request correction when the session's budget is spent leaves an ended session as leader.
  `CorrectionStrandsExactly` gives the exact condition, which a caller can check with `can_attempt`. Nothing holds
  the condition's lock across an await; `ContendedLockStrands` is hypothetical, a run that only a contended lock
  would allow, and `EndedLeadersAreDoomedOrSpent` is what would still hold.
- A driver that gives up between two attempts also leaves an ended session as leader, and no cleanup of admission
  covers it. The Codex driver awaits its credentials there (src/free_claude_code/providers/openai_codex/provider.py:281),
  and a cancellation or error may end it. `NoStrandedLeadership` makes this exact over every run that respects
  the two points above: all leaders are still in the protocol if and only if no driver gave up while its session
  led. `PausedLeaderStrands` is such a run, and by `StrandedForever` the model admits nobody ever after.
- Importing a predecessor's state is documented to keep retired keys from coming back over a reload. It does over
  one reload; a second one that strikes before the provider is used again finds no pool to export, and drops the
  snapshot still waiting. `TurnKeepsBar` says exactly when a key is carried over, `SecondReloadRevives` is a run
  in which a retired key is handed out again, and `KeysStayOut` what holds over every other run.
- A Responses reasoning item is carried into Messages with its readable text, except that a carrier of signed
  thinking whose text is empty silences the text the item itself still has; `TextIsLostExactly` says when, and
  `TextIsLostHere` gives an item.

## Model

Main results first, then the results behind them and the methods, file by file.

| member | source | states |
|---|---|---|
| AdmissionStranding.NoStrandedLeadership | src/free_claude_code/providers/admission.py:397-494 | over every run in which the never-contended lock is entered at once and corrections are recorded only with budget left, with drivers that may work, fail or be cancelled between attempts: every episode is led by a session still in the protocol if and only if no driver gave up between attempts while its session led; then whoever waits unnotified waits for such a leader |
| AdmissionStranding.StrandedForever | src/free_claude_code/providers/admission.py:434-466 | over any run, an episode led by an ended session stays led by it, and no session of its model, already there or started meanwhile, starts another attempt |
| AdmissionInvariant.StepKeepsInv | src/free_claude_code/providers/admission.py:346-494 | every step of every session, with cancellation at any await, keeps the whole-controller invariant: who may lead, who holds which permit, one probe per model, exhausted episodes empty, slots and budgets balanced, the rate window sound |
| AdmissionTheorems.RunKeepsInv | src/free_claude_code/providers/admission.py:346-879 | the invariant holds after every interleaving of any length |
| AdmissionWaiters.WaitersReceiveTheTerminalError | src/free_claude_code/providers/admission.py:639-665 | after every run from the start with the lock uncontended and corrections within budget, and over every run that follows: when the failure that exhausts an episode is recorded, each session in its waiter set has that failure's error as its terminal error for good, starts no further attempt, and if it ends, ends by raising that error, by cancellation, or because its driver gave up between attempts |
| AdmissionTheorems.NoAttemptDuringHold | src/free_claude_code/providers/admission.py:432-438 | over any run that ends before the hold does: the exhausted episode is unchanged and no session of the model, known when the hold began or started meanwhile, has started another attempt |
| AdmissionLifecycle.EpisodesBeginAndEndExactly | src/free_claude_code/providers/admission.py:530-607 | every step: an episode ends if and only if its own probe succeeds or is finally rejected, and one begins if and only if a session of a model without one fails retryably |
| AdmissionLifecycle.ClosingReopensTheGate | src/free_claude_code/providers/admission.py:540-541 | when its probe succeeds or is rejected the model has no episode, every waiting session is notified, and each of them without a terminal error, and anyone new, gets a normal permit at the gate |
| AdmissionLifecycle.GateAnswers | src/free_claude_code/providers/admission.py:424-465 | what the gate answers, in every case: a normal permit with no episode; the episode's error during a hold; otherwise whoever may lead leads, with the probe at once or asleep until the episode is ready, and everyone else joins the waiters of an episode left as it is |
| AdmissionLifecycle.NoAttemptBeforeTheDelay | src/free_claude_code/providers/admission.py:620-638 | over every prudent run: after a failure that puts its session in charge, no session of the model, known or new, starts an attempt before the delay has passed |
| AdmissionTheorems.ClaimsAreGated | src/free_claude_code/providers/admission.py:360-369 | the only attempts claimed: with no episode for the model, or by the leader of a live episode holding its one probe, granted no earlier than the episode was ready; each claim is within budget and counts one |
| AdmissionTheorems.LiveProbesAreCurrentAndUnique | src/free_claude_code/providers/admission.py:513-528 | two live probe permits of one model are held by the same session, and a live probe permit is current |
| AdmissionTheorems.SlotsAndBudgetsConserved | src/free_claude_code/providers/admission.py:346-374 | over every run: free slots, slots of open or opening attempts and hedge slots add up to the capacity, and no session starts more attempts than its budget |
| AdmissionTheorems.AdmissionsRespectTheWindow | src/free_claude_code/providers/admission.py:352-354 | over every run of the whole controller, no half-open window holds more recorded admissions (attempts, probes and hedges together) than the largest limit in force |
| AdmissionWitness.CorrectionStrandsExactly | src/free_claude_code/providers/admission.py:151-156 | recording a correction and closing strands the leadership if and only if the budget is spent (or, where a lock could be contended, a terminal error was recorded meanwhile) |
| SlidingWindow.StrictWindowOverEveryRun | src/free_claude_code/core/rate_limit.py:10-13 | the window bound over every interleaving of acquire, acquire_if, try_acquire, inspections and retuning |
| SlidingWindow.ExactWaitTime | src/free_claude_code/core/rate_limit.py:83-90 | with no acquisition in between, try_acquire succeeds at a later instant if and only if the announced wait has run out, also when the limit is below the number recorded |
| SlidingWindow.ClosedWindowExactly | src/free_claude_code/core/rate_limit.py:92-96 | over every run with one limit and no imports: every closed window of one width holds at most the limit if and only if no acquisition falls exactly one width after the one `limit` places before it |
| KeyPool.SelectionAgrees | src/free_claude_code/providers/key_pool.py:118-183 | at one instant: has_eligible_key, get_next_key returning a key, and next_available_in being zero hold together or not at all |
| KeyPool.PoolWindowBound | src/free_claude_code/providers/key_pool.py:52-60 | over any run from an unused pool, each key keeps its own window and N keys hand out at most N times the limit per half-open window |
| KeyHealth.RetiredExactly | src/free_claude_code/providers/key_pool.py:195-209 | over every run of a pool a key is retired if and only if it failed three times in a row without a success in between |
| KeyLineage.KeysStayOut | src/free_claude_code/providers/key_pool.py:73-103 | over every run of uses, reloads and rebuilt pools that carries the key over: while a key is retired, or held until a time not yet reached, it is never handed out, and neither its retirement nor its hold is shortened |
| KeyLineage.WindowSurvivesReloads | src/free_claude_code/providers/key_pool.py:73-103 | over every such run from a pool that has not used the key, with one window width throughout, all generations together hand a key out at most the largest configured limit in any half-open window |
| KeyLineage.SecondReloadRevives | src/free_claude_code/providers/runtime/runtime.py:34-60 | a concrete run from a new pool: a key retired by three failures, two reloads with no use in between, and the key is handed out again |
| VoiceConcurrency.AtMostOneReport | src/free_claude_code/messaging/voice.py:125-252 | over every interleaving of handoffs, cancels and discards: for each claim at most one completion, cancellation result or true discard is ever returned, once; until then it has exactly one owner |
| VoiceOutcomes.EveryEndIsReported | src/free_claude_code/messaging/voice.py:145-252 | over every run whose ending operations return, each claim whose ownership has ended was reported exactly once |
| VoiceOutcomes.HandoffBeginsExactly | src/free_claude_code/messaging/voice.py:131-143 | over every run: a handoff begins if and only if its claim is registered, published under a status message, and has not begun before |
| VoiceConcurrency.NoCyclicDrain | src/free_claude_code/messaging/voice.py:193-252 | in every reachable state the graph of handoffs waiting to drain other handoffs has no cycle |
| StreamRecovery.RetriedAttemptsAreInvisible | src/free_claude_code/providers/stream_recovery.py:70-264 | over any run: the client never holds content of a retried attempt; emitted plus buffered is what was pushed; an uncommitted buffer is under the byte cap |
| StreamRecovery.FailuresGoExactly | src/free_claude_code/providers/stream_recovery.py:207-264 | which failures are replayed from the start, which go on midstream and which are final, with the reserved last attempt; a replay starts afresh |
| MessagingQueue.DequeueTakesLatestForAll | src/free_claude_code/messaging/limiter.py:83-98 | over every run, read off the calls made: the worker takes the key that stands first by its earliest enqueue since it was last taken, with the function of the last of those enqueues, for the futures of all of them |
| MessagingQueue.NoFutureIsLost | src/free_claude_code/messaging/limiter.py:83-270 | over every run: each accepted future is in exactly one queued task, with the worker, or done; after shutdown none waits |
| ReplayRecords.EncodeDecode | src/free_claude_code/core/history_replay.py:93-102 | a carrier reads back as the record it was written from, and is recognised as a carrier |
| ReplayJoin.ResolvesIff | src/free_claude_code/core/history_replay.py:221-252 | joining succeeds exactly when every carrier decodes, every final sits in a redacted block, and two blocks of one group are an anchor then a final of the same origin |
| ReplayJoinTheorems.NoHalvesRemain | src/free_claude_code/core/history_replay.py:221-265 | after joining, no associated carrier remains and every carrier can be read |
| ReplayJoinTheorems.JoiningTwiceIsJoiningOnce | src/free_claude_code/core/history_replay.py:221-265 | a second application is the identity |
| ReplayFate.AcceptedStateComesOut | src/free_claude_code/core/history_replay.py:456-463 | an accepted carrier's native state stands in the output at the item's place, followed by the item's own texts if and only if the native state has none |
| ReplayProjection.EveryReadableTextIsSaid | src/free_claude_code/core/history_replay.py:343-347 | every readable text is said in the output, once and in order, natively or as context |
| ReplayCarry.TextIsLostExactly | src/free_claude_code/core/history_replay.py:416-427 | readable text is lost on the way exactly when a carrier of empty Messages thinking sits on an item with readable text of its own |
| ToolNames.DecodeUndoesEncode | src/free_claude_code/core/openai_tool_names.py:58-64 | decoding undoes encoding on every supplied name |
| ToolNames.EncodeIsInjective | src/free_claude_code/core/openai_tool_names.py:58-60 | distinct names are sent as distinct names |
| PatternTheorems.ClassesMatchTheSame | src/free_claude_code/core/tool_schema_patterns.py:72-138 | for every pattern and every dialect, the pattern and its translation read as the same elements: equal text outside classes, and class by class the same sign and the same points matched |
| SchemaPatterns.AllOrNothing | src/free_claude_code/core/tool_schema_patterns.py:72-138 | the pattern is unchanged, or no property escape is left in it; exactly when it is rewritten |
| CategoryRanges.CategorySpans | src/free_claude_code/core/tool_schema_patterns.py:144-153 | one pass over every code point yields, for each category, disjoint ascending spans of exactly its points |
| Bridge.OneAnswerPerFrame | src/free_claude_code/cli/bridge.py:411-421 | frames are answered one by one in order; a refused frame costs nothing after it |
| Bridge.WrittenMessageReadsBack | src/free_claude_code/cli/bridge.py:382-388 | a written message within the limit reads back as itself; a longer one is refused; either way the stream stays in step |
| AdmissionInvariant.LocalStep | src/free_claude_code/providers/admission.py:418-879 | each step of one session keeps that session and its episode right and leaves other sessions' leadership alone; whoever stops leading, or removes the episode, has everyone notified |
| AdmissionInvariant.OtherSession | src/free_claude_code/providers/admission.py:454-465 | after any step of one session, every other session of the model is still consistent with the changed episode |
| AdmissionTheorems.EndedLeadersAreDoomedOrSpent | src/free_claude_code/providers/admission.py:376-494 | over every interleaving: an episode is led by a known session of its model; an ended session can lead only if a terminal error was recorded against it, its budget is spent, or its driver gave up between two attempts; an unnotified waiter waits for a different leader |
| AdmissionTheorems.ProbeFlagMeansLivePermit | src/free_claude_code/providers/admission.py:449-453 | an episode's probe flag is set exactly while some session of its model holds a live probe permit |
| AdmissionTheorems.PermitsAreGrantedCurrent | src/free_claude_code/providers/admission.py:425-491 | a permit leaves the gate current, and a probe permit only at or after the episode's ready time |
| AdmissionTheorems.StalePermitsChangeNothing | src/free_claude_code/providers/admission.py:530-607 | succeeding, correcting, rejecting, dropping or abandoning with a permit that no longer matches leaves every episode as it was |
| AdmissionTheorems.OldGenerationsNeverReturn | src/free_claude_code/providers/admission.py:764-775 | over any run, an episode with an old generation number is the old episode: numbers are never reused |
| AdmissionTheorems.HoldIsStable | src/free_claude_code/providers/admission.py:434-438 | while a terminal hold lasts, no step changes the exhausted episode or starts an attempt for its model |
| AdmissionTheorems.ExhaustionSealsWaiters | src/free_claude_code/providers/admission.py:639-665 | exhausting an episode leaves it on hold with no leader, probe or waiters; every waiter has the terminal error recorded, is notified if parked, and raises that error when woken |
| AdmissionTheorems.SealedNeverClaims | src/free_claude_code/providers/admission.py:419-421 | over any run, a session with a terminal error that is not past the gate's check never starts another attempt |
| AdmissionLifecycle.EpisodesLast | src/free_claude_code/providers/admission.py:530-716 | the same over every run: an episode that is gone was closed by its probe, and one that is new was begun by a failure |
| AdmissionLifecycle.SleepersProbeExactly | src/free_claude_code/providers/admission.py:479-491 | a leader back from its sleep gets the probe if and only if it still leads the same live episode and that is ready; otherwise it goes back to the top of the gate |
| AdmissionLifecycle.FailuresAreCoordinated | src/free_claude_code/providers/admission.py:609-668 | a retryable failure allows another try exactly while the budget lasts; with no episode, or as the probe, its session leads, the episode is ready once the delay has passed and has its error; otherwise it joins the waiters, or takes an exhausted episode's error |
| AdmissionLifecycle.AcceptedFailuresBackOffAlone | src/free_claude_code/providers/admission.py:720-774 | a stream that fails after acceptance touches no episode and, with budget left, backs off alone until the given time |
| AdmissionLifecycle.NoAttemptBeforeOwnBackoff | src/free_claude_code/providers/admission.py:776-784 | over every run that ends before a session's own backoff does, that session starts no attempt |
| AdmissionLifecycle.CorrectionProbesAgainAtOnce | src/free_claude_code/providers/admission.py:553-567 | after a corrected request, reopened with budget left, the session gets a new probe of the same episode at once |
| AdmissionLifecycle.GivenBackIsTakenOver | src/free_claude_code/providers/admission.py:830-879 | whoever gives back a probe or a leadership leaves it to the next: all who wait are notified, and the first of them through the gate leads, with the probe at once, or asleep until ready where the leader was cancelled in its sleep |
| AdmissionLifecycle.OnlyCurrentPermitsAreRecorded | src/free_claude_code/providers/admission.py:352-357 | the rate window records an admission if and only if it has room and the permit is still current; a stale permit is given up |
| AdmissionLifecycle.ClaimsExactlyWhileCurrent | src/free_claude_code/providers/admission.py:358-369 | with the slot in hand an attempt starts if and only if the permit is still current; otherwise the slot goes back |
| AdmissionLifecycle.EndingsExactly | src/free_claude_code/providers/admission.py:220-231 | how a session ends, outcome by outcome: exactly which steps make it return, raise, raise the terminal error, end as cancelled, or leave |
| AdmissionLifecycle.CancelledStartNothing | src/free_claude_code/providers/admission.py:370-374 | over any run a cancelled session starts no further attempt, and if it has ended, it ended as cancelled |
| AdmissionLifecycle.CancelledFollowersLeave | src/free_claude_code/providers/admission.py:457-465 | a follower cancelled while it waits leaves the waiters of its own generation, and of no later one |
| AdmissionLifecycle.HedgesNeedRoom | src/free_claude_code/providers/admission.py:316-331 | a hedge takes a slot and records an admission if and only if the window has room; retuning changes the limit alone, never below one |
| AdmissionWitness.SpentCorrectionStrands | src/free_claude_code/providers/admission.py:553-567 | a concrete run from the start in which a correction with the budget spent leaves an ended session as leader |
| AdmissionWitness.ContendedLockStrands | src/free_claude_code/providers/admission.py:418-424 | hypothetical, a run the single-threaded code cannot take: if entering the condition could suspend, a session past the terminal check would outlive its exhausted episode, claim another attempt and end as leader |
| AdmissionWitness.PausedLeaderStrands | src/free_claude_code/providers/openai_codex/provider.py:259-282 | a concrete run from the start: the attempt fails, is closed, and the driver gives up before it reopens; an ended session leads |
| AdmissionController.ProviderAdmissionController.constructor | src/free_claude_code/providers/admission.py:243-276 | a new controller is the machine's initial state |
| AdmissionController.ProviderAdmissionController.GateSection | src/free_claude_code/providers/admission.py:418-466 | one pass under the condition: pass freely, raise during a hold, restart an expired hold, take over a leaderless episode, grant a probe, sleep, or park, exactly as the machine's gate step |
| AdmissionController.ProviderAdmissionController.RecheckSection | src/free_claude_code/providers/admission.py:479-491 | a leader back from its sleep is granted the probe only if it still leads the same live generation and the episode is ready |
| AdmissionController.ProviderAdmissionController.WakeParkedSession | src/free_claude_code/providers/admission.py:449-466 | a notified waiter returns to the top of the gate |
| AdmissionController.ProviderAdmissionController.CancelParkedSession | src/free_claude_code/providers/admission.py:457-465 | a cancelled waiter leaves the waiters of its own generation only |
| AdmissionController.ProviderAdmissionController.AbandonWaitingLeader | src/free_claude_code/providers/admission.py:844-858 | a leader cancelled in its sleep gives up only a leadership of that generation without an active probe |
| AdmissionController.ProviderAdmissionController.AbandonOrphanedLeadership | src/free_claude_code/providers/admission.py:860-879 | a session cancelled inside the gate gives up any leadership it still holds and wakes everyone |
| AdmissionController.ProviderAdmissionController.MatchingProbe | src/free_claude_code/providers/admission.py:812-828 | a permit matches exactly when it is the active probe of its episode's current generation and leader |
| AdmissionController.ProviderAdmissionController.AbandonProbePermit | src/free_claude_code/providers/admission.py:830-842 | dropping a matching permit frees leadership and probe at once; any other changes nothing |
| AdmissionController.ProviderAdmissionController.AttemptAbandoned | src/free_claude_code/providers/admission.py:593-607 | closing an unresolved attempt gives its probe back and releases its slot |
| AdmissionController.ProviderAdmissionController.AttemptSucceeded | src/free_claude_code/providers/admission.py:530-551 | success of the matching probe removes the episode and wakes everyone |
| AdmissionController.ProviderAdmissionController.AttemptCorrected | src/free_claude_code/providers/admission.py:553-567 | a correction keeps leadership and makes the episode ready at once |
| AdmissionController.ProviderAdmissionController.AttemptRejected | src/free_claude_code/providers/admission.py:569-591 | a final rejection of the matching probe removes the episode |
| AdmissionController.ProviderAdmissionController.FailWaiters | src/free_claude_code/providers/admission.py:657-659 | the loop records the terminal error against exactly the waiters |
| AdmissionController.ProviderAdmissionController.ExhaustEpisode | src/free_claude_code/providers/admission.py:639-665 | puts the model's episode, new or old, on hold and hands its waiters the terminal error |
| AdmissionController.ProviderAdmissionController.ScheduleRetry | src/free_claude_code/providers/admission.py:624-638 | opens a new episode, keeps leading, takes over an exhausted episode's error, or joins the waiters |
| AdmissionController.ProviderAdmissionController.AttemptFailed | src/free_claude_code/providers/admission.py:609-716 | a retryable failure is exactly the machine's failure step; it says whether budget is left |
| AdmissionController.ProviderAdmissionController.AcceptedAttemptFailed | src/free_claude_code/providers/admission.py:718-762 | a stream that failed after acceptance backs off alone and touches no episode |
| AdmissionController.ProviderAdmissionController.AcquireRate | src/free_claude_code/providers/admission.py:352-357 | one pass of the rate window records an admission only while the permit is current |
| AdmissionController.ProviderAdmissionController.ClaimAttempt | src/free_claude_code/providers/admission.py:358-369 | with the slot in hand, a stale permit gives the slot back, a current one starts the attempt |
| AdmissionController.ProviderAdmissionController.CloseAttempt | src/free_claude_code/providers/admission.py:220-231 | closing releases the slot once; an unresolved attempt is first abandoned |
| AdmissionController.ProviderAdmissionController.TryAcquireHedgeSlot | src/free_claude_code/providers/admission.py:320-327 | a hedge takes a slot only with a slot free, nobody queued for one, and room in the window |
| AdmissionController.ProviderAdmissionController.ReleaseHedgeSlot | src/free_claude_code/providers/admission.py:329-331 | gives a slot back: the machine's step while a hedge holds one, and otherwise one slot above the capacity |
| AdmissionController.ProviderAdmissionController.SetRateLimit | src/free_claude_code/providers/admission.py:316-318 | retuning never goes below one and keeps what was recorded |
| AdmissionController.ProviderAdmissionController.PauseAttempt | src/free_claude_code/providers/admission.py:220-231 | closing a resolved attempt frees its slot and leaves leadership and episodes alone while the driver does other work |
| AdmissionController.ProviderAdmissionController.ReopenAttempt | src/free_claude_code/providers/admission.py:346-350 | opening again ends a session whose budget is spent, waits out its own backoff, or returns to the top of the gate |
| SlidingWindow.EvictedDequeIsUnexpiredLog | src/free_claude_code/core/rate_limit.py:92-96 | after eviction the deque is exactly the unexpired part of the full acquisition log |
| SlidingWindow.StepKeepsInv | src/free_claude_code/core/rate_limit.py:32-113 | every operation keeps the deque a suffix of the sorted log and every admission within its limit, and a pass whose condition refuses records nothing |
| SlidingWindow.WindowEndingAtAdmission | src/free_claude_code/core/rate_limit.py:10-13 | every half-open window whose latest acquisition is an admission holds at most the limit in force at it |
| SlidingWindow.EveryWindowBounded | src/free_claude_code/core/rate_limit.py:10-13 | without imports, no half-open window of the full log exceeds the largest limit |
| SlidingWindow.ClosedWindowMayHoldMore | src/free_claude_code/core/rate_limit.py:92-96 | two acquisitions exactly one width apart: a closed window holds more than the limit |
| SlidingWindow.AdmitsExactlyWhenRoom | src/free_claude_code/core/rate_limit.py:74-81 | try_acquire succeeds if and only if the window ending now has room in the full log, and logs exactly one admission then |
| SlidingWindow.StrictSlidingWindowLimiter.constructor | src/free_claude_code/core/rate_limit.py:21-30 | a new limiter has an empty window |
| SlidingWindow.StrictSlidingWindowLimiter.SetRateLimit | src/free_claude_code/core/rate_limit.py:46-57 | a capacity that is not positive is refused; otherwise recorded acquisitions stay |
| SlidingWindow.StrictSlidingWindowLimiter.EvictExpired | src/free_claude_code/core/rate_limit.py:92-96 | the popping loop leaves exactly the unexpired log |
| SlidingWindow.StrictSlidingWindowLimiter.RecordedTimes | src/free_claude_code/core/rate_limit.py:59-62 | returns the unexpired acquisitions, oldest first |
| SlidingWindow.StrictSlidingWindowLimiter.RecordTimes | src/free_claude_code/core/rate_limit.py:64-67 | replaces what was recorded by sorted timestamps and evicts |
| SlidingWindow.StrictSlidingWindowLimiter.Headroom | src/free_claude_code/core/rate_limit.py:69-72 | is positive exactly when try_acquire would succeed |
| SlidingWindow.StrictSlidingWindowLimiter.TryAcquire | src/free_claude_code/core/rate_limit.py:74-81 | evicts, then records only with room |
| SlidingWindow.StrictSlidingWindowLimiter.NextAvailableIn | src/free_claude_code/core/rate_limit.py:83-90 | computes the wait that ExactWaitTime shows exact |
| SlidingWindow.StrictSlidingWindowLimiter.AcquirePass | src/free_claude_code/core/rate_limit.py:98-118 | one locked pass of the waiting loop: admit, refuse or ask for a positive wait |
| SlidingWindow.AcquisitionKeepsClosedBound | src/free_claude_code/core/rate_limit.py:74-81 | one try_acquire keeps every closed window within the limit if and only if it is refused, fewer than `limit` are logged, or the one `limit` places back is not exactly one width old |
| SlidingWindow.PassKeepsClosedBound | src/free_claude_code/core/rate_limit.py:98-113 | the same condition for a pass of the waiting loop and the time it records |
| SlidingWindow.HeadroomIsRoomLeft | src/free_claude_code/core/rate_limit.py:69-72 | the headroom is how many acquisitions the window still has room for, and each takes one |
| KeyPool.WaitIsZeroIffUsable | src/free_claude_code/providers/key_pool.py:137-155 | the minimum wait is zero exactly when some eligible key has room, and absent exactly when no key is eligible |
| KeyPool.ChoiceExists | src/free_claude_code/providers/key_pool.py:157-183 | a key can be chosen exactly when some eligible key has room |
| KeyPool.TransKeepsInv | src/free_claude_code/providers/key_pool.py:38-235 | every pool operation keeps every key's window sound |
| KeyPool.TransKeepsHealth | src/free_claude_code/providers/key_pool.py:157-231 | one use of a pool keeps retired keys retired and hands none out, shortens no running hold, and keeps every hold within one cooldown of the clock |
| KeyPool.ResumeRestores | src/free_claude_code/providers/key_pool.py:73-103 | exporting from one generation and importing into the next keeps health, order and room at every later instant |
| KeyPool.UniqueNamesAreDistinct | src/free_claude_code/providers/key_pool.py:52 | deduplication keeps every non-empty name once, in order |
| KeyHealth.ShortestWaitIsExact | src/free_claude_code/providers/key_pool.py:137-155 | while nothing is handed out, some key eligible now has room at a later instant if and only if the announced wait has run out |
| KeyHealth.ShortestWaitIsLeast | src/free_claude_code/providers/key_pool.py:147-155 | the announced wait is the least over the eligible keys, and one of them has it |
| KeyHealth.MarkedKeysStayOut | src/free_claude_code/providers/key_pool.py:195-231 | over every run that carries it over, reloads included, a key that failed or met a 429 is not handed out before its cooldown of 300 or 60 seconds has passed |
| KeyHealth.MarksExactly | src/free_claude_code/providers/key_pool.py:185-231 | what each mark does to the marked key, and that it does nothing to the others |
| KeyHealth.FirstConfiguredFirst | src/free_claude_code/providers/key_pool.py:52-60 | a new pool hands out the first configured key that is not excluded |
| KeyLineage.TurnKeepsBar | src/free_claude_code/providers/runtime/runtime.py:34-60 | such a key is not handed out by a turn, and stays barred in full if and only if the turn carries it over: a new pool must configure it, and a reload must strike a generation that has built its pool |
| KeyLineage.TurnKeepsSound | src/free_claude_code/providers/runtime/runtime.py:34-60 | uses, reloads and new pools keep windows sound and holds within one cooldown: a snapshot the program exports never brings in a longer hold |
| KeyPoolObject.ApiKeyPool.constructor | src/free_claude_code/providers/key_pool.py:41-61 | one record per distinct non-empty name, the first configured the longest idle |
| KeyPoolObject.ApiKeyPool.ExportState | src/free_claude_code/providers/key_pool.py:73-85 | every key's snapshot, after evicting its window |
| KeyPoolObject.ApiKeyPool.ImportState | src/free_claude_code/providers/key_pool.py:87-103 | the keys named in the snapshot resume it; the others are left alone |
| KeyPoolObject.ApiKeyPool.HasEligibleKey | src/free_claude_code/providers/key_pool.py:118-135 | true exactly when some key is eligible with room |
| KeyPoolObject.ApiKeyPool.NextAvailableIn | src/free_claude_code/providers/key_pool.py:137-155 | the shortest wait among eligible keys |
| KeyPoolObject.ApiKeyPool.Rank | src/free_claude_code/providers/key_pool.py:169-178 | the eligible keys, longest idle first, ties by configuration order |
| KeyPoolObject.ApiKeyPool.TryInOrder | src/free_claude_code/providers/key_pool.py:179-182 | tries keys in order until one has room |
| KeyPoolObject.ApiKeyPool.GetNextKey | src/free_claude_code/providers/key_pool.py:157-183 | hands out the least recently used usable key, or nothing when none is usable |
| KeyPoolObject.ApiKeyPool.MarkSucceeded | src/free_claude_code/providers/key_pool.py:185-193 | ends a failure streak and a hold that has run out |
| KeyPoolObject.ApiKeyPool.MarkFailed | src/free_claude_code/providers/key_pool.py:195-212 | holds the key, and retires it at the third failure in a row |
| KeyPoolObject.ApiKeyPool.MarkRateLimited | src/free_claude_code/providers/key_pool.py:220-231 | holds the key without shortening a running hold |
| VoiceRegistry.KeysAreExclusive | src/free_claude_code/messaging/voice.py:89-123 | no two registered claims share a key, and each sits under its voice id |
| VoiceRegistry.OwnedMeansRegistered | src/free_claude_code/messaging/voice.py:338-342 | a claim is found by its voice key exactly while it is registered |
| VoiceRegistry.ReserveKeeps | src/free_claude_code/messaging/voice.py:89-104 | a reservation succeeds exactly when the key is free, and adds one new, unbound claim |
| VoiceRegistry.BindKeeps | src/free_claude_code/messaging/voice.py:106-123 | binding binds and indexes the status and changes nothing else, or changes nothing |
| VoiceRegistry.TakeKeeps | src/free_claude_code/messaging/voice.py:264-269 | taking a claim succeeds exactly when it is registered, and removes only it |
| VoiceRegistry.RemoveIsRemoveAll | src/free_claude_code/messaging/voice.py:368-376 | popping the claim's own keys, each only if it maps to the claim, removes exactly the keys that map to it |
| VoiceRegistry.TakenAreUnprotected | src/free_claude_code/messaging/voice.py:344-352 | a cancel takes only registered claims that are neither the caller's nor protected |
| VoiceRegistry.BindsExactly | src/free_claude_code/messaging/voice.py:106-123 | binding succeeds if and only if the claim is registered and is bound to that message already, or is unbound and no other claim has the message |
| VoiceRegistry.BeginHandoffKeeps | src/free_claude_code/messaging/voice.py:131-143 | a handoff begins if and only if the claim is registered, bound and not handed off before, and that uses up its one beginning |
| VoiceRegistry.TakenExactly | src/free_claude_code/messaging/voice.py:199-240 | a cancel takes exactly the registered claims it is aimed at, by id, scope or all, but the caller's own and the protected |
| VoiceRegistry.CancellationDeletes | src/free_claude_code/messaging/voice.py:320-336 | the messages a cancellation deletes: the bound status message, and the voice note unless the cancel named another message |
| VoiceConcurrency.TakenHaveNoCancels | src/free_claude_code/messaging/voice.py:193-209 | a cancel takes only claims inside which no cancel is in progress |
| VoiceConcurrency.SomeDrainedHandoffIsFree | src/free_claude_code/messaging/voice.py:193-252 | while any handoff waits to drain another, some drained handoff waits for nobody |
| VoiceConcurrency.StepKeepsWaitInv | src/free_claude_code/messaging/voice.py:344-366 | every step keeps ownership exclusive, protection counts equal to the cancels in progress, and draining ordered |
| VoiceOutcomes.HandoffBeginsOnce | src/free_claude_code/messaging/voice.py:131-143 | over every run a claim's handoff begins at most once, and only after its note was published |
| VoiceOutcomes.ReportsOfAStep | src/free_claude_code/messaging/voice.py:145-252 | what each step reports of a claim: a completion, a cancellation or a discard by the operation that owned its end, and nothing else |
| VoiceOutcomes.NoClaimIsLost | src/free_claude_code/messaging/voice.py:264-269 | over every run a reserved claim is registered, or with the cancel or discard that took it, or its ownership has ended |
| VoiceOutcomes.NoTaskOutlivesItsReport | src/free_claude_code/messaging/voice.py:283-316 | once a completion or a cancellation is reported no task of the handoff is left running |
| VoiceObjects.PendingVoiceRegistry.constructor | src/free_claude_code/messaging/voice.py:84-87 | a new registry is empty |
| VoiceObjects.PendingVoiceRegistry.Reserve | src/free_claude_code/messaging/voice.py:89-104 | registers a new entry object under its voice key, or refuses |
| VoiceObjects.PendingVoiceRegistry.EntryForClaim | src/free_claude_code/messaging/voice.py:338-342 | finds the entry exactly while the claim is registered |
| VoiceObjects.PendingVoiceRegistry.BindStatus | src/free_claude_code/messaging/voice.py:106-123 | puts the same entry under its status key too, or refuses a foreign key |
| VoiceObjects.PendingVoiceRegistry.BeginHandoff | src/free_claude_code/messaging/voice.py:131-143 | creates the handoff once, for a registered claim with a bound status |
| VoiceObjects.PendingVoiceRegistry.RemoveEntry | src/free_claude_code/messaging/voice.py:368-376 | removes the entry from both keys and touches no other |
| VoiceObjects.PendingVoiceRegistry.TakeIfOwned | src/free_claude_code/messaging/voice.py:264-269 | removes the claim exactly if it is still registered, and says whether its handoff existed |
| VoiceObjects.PendingVoiceRegistry.ProtectClaim | src/free_claude_code/messaging/voice.py:354-357 | counts one more cancel inside the claim |
| VoiceObjects.PendingVoiceRegistry.UnprotectClaim | src/free_claude_code/messaging/voice.py:359-366 | counts one less, forgetting the claim at zero |
| VoiceObjects.PendingVoiceRegistry.CancelReply | src/free_claude_code/messaging/voice.py:199-205 | takes the entry under a reply id unless excluded, and reports which messages to delete |
| VoiceObjects.PendingVoiceRegistry.CancelMatching | src/free_claude_code/messaging/voice.py:230-240 | takes every entry of a scope, or all, that is not excluded |
| StreamRecovery.AsciiShortcutIsExact | src/free_claude_code/providers/stream_recovery.py:76-80 | the ASCII shortcut counts the same bytes as the UTF-8 encoding |
| StreamRecovery.PushKeepsBuffer | src/free_claude_code/providers/stream_recovery.py:70-86 | emitted plus buffered is what was pushed, in order; an uncommitted buffer emits nothing and stays under the cap |
| StreamRecovery.StepKeepsInv | src/free_claude_code/providers/stream_recovery.py:70-264 | every push, flush, discard and failure keeps the stream's history consistent; with output generated, a retryable failure and an attempt left, the failure is not final |
| StreamRecovery.RecoveryHoldbackBuffer.Push | src/free_claude_code/providers/stream_recovery.py:70-86 | buffers, or releases everything at the cap or the deadline |
| StreamRecovery.RecoveryHoldbackBuffer.FlushNow | src/free_claude_code/providers/stream_recovery.py:88-96 | commits and releases once |
| StreamRecovery.RecoveryHoldbackBuffer.Discard | src/free_claude_code/providers/stream_recovery.py:98-101 | drops what is held without committing |
| StreamRecovery.RecoveryHoldbackBuffer.RemainingDelay | src/free_claude_code/providers/stream_recovery.py:107-111 | a delay is given exactly while something uncommitted is held, zero exactly past the deadline |
| StreamRecovery.RecoveryController.PushEvent | src/free_claude_code/providers/stream_recovery.py:193-194 | a push is one step of the stream's history |
| StreamRecovery.RecoveryController.FlushAll | src/free_claude_code/providers/stream_recovery.py:196-197 | a flush releases everything held and commits |
| StreamRecovery.RecoveryController.DiscardHeld | src/free_claude_code/providers/stream_recovery.py:199-200 | a discard sends nothing |
| StreamRecovery.RecoveryController.FlushUncommitted | src/free_claude_code/providers/stream_recovery.py:202-205 | releases what an unrecoverable failure left uncommitted |
| StreamRecovery.RecoveryController.AdvanceFailure | src/free_claude_code/providers/stream_recovery.py:207-264 | the decision, and on an early retry a fresh buffer with nothing of the attempt's content sent |
| StreamRecovery.PushReleasesExactly | src/free_claude_code/providers/stream_recovery.py:70-86 | a push holds the event back if and only if nothing was released, what is held stays under the cap on the wire, and the first event held has not waited for the holdback; otherwise everything is released |
| StreamRecovery.FlushAndDiscard | src/free_claude_code/providers/stream_recovery.py:88-101 | a flush releases everything held once, a discard drops it |
| MessagingQueue.SettleReachesAllMerged | src/free_claude_code/messaging/limiter.py:112-133 | one outcome reaches every merged future still waiting, and nobody else |
| MessagingQueue.ShutdownResolvesAll | src/free_claude_code/messaging/limiter.py:177-196 | shutdown leaves no accepted future waiting and changes no finished one |
| MessagingQueue.StepKeepsInv | src/free_claude_code/messaging/limiter.py:83-270 | every step keeps the deque duplicate-free over exactly the dictionary's keys, tasks equal to what the log says, and order by first enqueue |
| MessagingQueue.CompactingQueue.EnqueueInternal | src/free_claude_code/messaging/limiter.py:235-270 | refuses once closed or with no worker running; merges into a queued key keeping its place; otherwise appends at either end |
| MessagingQueue.CompactingQueue.TakeNext | src/free_claude_code/messaging/limiter.py:89-98 | pops the first key and its task |
| MessagingQueue.CompactingQueue.SettleEach | src/free_claude_code/messaging/limiter.py:113-133 | sets every future of the list that is not done |
| MessagingQueue.CompactingQueue.Deliver | src/free_claude_code/messaging/limiter.py:110-154 | delivers one outcome to all merged futures and holds nobody |
| MessagingQueue.CompactingQueue.Close | src/free_claude_code/messaging/limiter.py:177-196 | cancels queued and active futures and refuses everything from then on |
| MessagingQueue.OutcomesAreFinal | src/free_claude_code/messaging/limiter.py:112-133 | over every run a future that is done stays as it ended |
| MessagingQueue.StepKeepsOutcomes | src/free_claude_code/messaging/limiter.py:112-196 | what each step does to a future: nothing once done; to a waiting one the outcome of its task, or a cancellation by its caller or shutdown |
| Base64Url.RoundTrip | src/free_claude_code/core/history_replay.py:102 | decoding a text whose padding was stripped restores every byte |
| ReplayRecords.AcceptanceExactly | src/free_claude_code/core/history_replay.py:40-47 | acceptance is a preorder that never looks at the model: full agreement for a fully described source, provider and protocol for one with unknown endpoint and connection |
| ReplayRecords.VersionsHold | src/free_claude_code/core/history_replay.py:180-218 | what each carrier version holds; a legacy carrier is accepted by exactly the Messages destinations of its provider |
| ReplayRecords.ValidateInverse | src/free_claude_code/core/history_replay.py:105-177 | a payload that passes the check is exactly the payload of the record it yields |
| ReplayRecords.DecodedIsWritable | src/free_claude_code/core/history_replay.py:180-218 | whatever any carrier version decodes to can be written again, and means the same |
| ReplayRecords.JoinedIsWritable | src/free_claude_code/core/history_replay.py:257-261 | joining two decoded records of one origin gives a record that can be written and read back |
| ReplayRecords.ChecksExactly | src/free_claude_code/core/history_replay.py:112-181 | the check passes exactly the payloads of well-formed records |
| ReplayRecords.RefusalsExactly | src/free_claude_code/core/history_replay.py:184-218 | a carrier is refused as unsupported, malformed or malformed legacy in exactly these cases |
| ReplayRecords.LegacyReads | src/free_claude_code/core/history_replay.py:196-218 | a legacy carrier reads as a Messages record of its provider, model and block |
| ReplayJoinTheorems.LengthDropsByPairs | src/free_claude_code/core/history_replay.py:262-265 | the result is shorter by exactly the number of anchor-final pairs |
| ReplayJoinTheorems.UnrelatedBlocksAreKept | src/free_claude_code/core/history_replay.py:265 | a block without an association reappears unchanged at its place less the pairs completed before it |
| ReplayJoinTheorems.PairBecomesOneBlock | src/free_claude_code/core/history_replay.py:250-263 | an anchor and its final become one block at the anchor's place, carrying the final's native state |
| ReplayJoinTheorems.PairsAreDisjoint | src/free_claude_code/core/history_replay.py:239-243 | each anchor meets at most one final and each final at most one anchor |
| ReplayResolve.Scan | src/free_claude_code/core/history_replay.py:224-248 | the first loop files every half by group and stops at the first objection |
| ReplayResolve.Rewrite | src/free_claude_code/core/history_replay.py:249-263 | the second loop rewrites each group's target and marks absorbed finals |
| ReplayResolve.ResolveMessagesReplay | src/free_claude_code/core/history_replay.py:221-265 | the whole pass returns what the specification returns, errors included |
| ReadableReasoning.FieldsAreDistinct | src/free_claude_code/core/history_replay.py:273-285 | content and summary are read as two texts only when they differ |
| ReadableReasoning.NativeTextsAreNew | src/free_claude_code/core/history_replay.py:303-319 | a native string is read only when no detail says the same, alone or run together, and only once |
| ReadableReasoning.JoinedTextsKeepAll | src/free_claude_code/core/history_replay.py:276-280 | running parts together keeps each text, in order, with the separator between neighbours |
| ReadableReasoning.ReadReasoning | src/free_claude_code/core/history_replay.py:268-319 | the loops compute the readings in the source's order |
| ReadableReasoning.EveryPartIsRead | src/free_claude_code/core/history_replay.py:273-285 | every non-empty text part of content or summary is in some reading |
| ReadableReasoning.FieldIsRead | src/free_claude_code/core/history_replay.py:273-285 | content is read as full text, and a summary as a summary unless the content says the same |
| ReadableReasoning.EveryDetailIsRead | src/free_claude_code/core/history_replay.py:288-303 | without those fields every detail with a text is read, as full text or as a summary by its kind |
| ReadableReasoning.NativeStringIsRead | src/free_claude_code/core/history_replay.py:306-324 | and a native string is read unless the details say the same |
| ReadableReasoning.ThinkingIsRead | src/free_claude_code/core/history_replay.py:270-272 | thinking is read as its text |
| ReplayProjection.NativeStateNeedsAcceptance | src/free_claude_code/core/history_replay.py:452-472 | every output element is an item without a carrier, the native state of a carrier whose origin the destination accepts, or readable text as context |
| ReplayProjection.OtherItemsKeepTheirOrder | src/free_claude_code/core/history_replay.py:452-455 | items that are not reasoning come out unchanged and in order |
| ReplayProjection.PreparedMessagesSayEverything | src/free_claude_code/core/history_replay.py:473-526 | a prepared Messages body says all it had to say, although emptied assistant messages are dropped |
| ReplayProjection.ProjectItems | src/free_claude_code/core/history_replay.py:563-588 | the loop over blocks or items computes the projection and stops at the first unreadable carrier |
| ReplayProjection.PrepareHistory | src/free_claude_code/core/history_replay.py:435-526 | the prepared body for Responses and Messages destinations |
| ReplayProjection.FirstCarrierDecides | src/free_claude_code/core/history_replay.py:386-391 | the first field holding a carrier decides the record, or the error |
| ReplayFate.OpaqueStateStands | src/free_claude_code/core/history_replay.py:464-468 | opaque state that is not a carrier stands in the output unchanged |
| ReplayFate.OtherReasoningBecomesText | src/free_claude_code/core/history_replay.py:469-470 | any other reasoning item becomes context alone: the texts of a refused carrier, or the item's own |
| ReplayFate.OtherItemStands | src/free_claude_code/core/history_replay.py:452-454 | an item that is not reasoning stands in the output unchanged |
| ReplayFate.FailsExactlyOnUnreadable | src/free_claude_code/core/history_replay.py:386-391 | projecting fails if and only if some deciding carrier cannot be read, with the error of the first |
| ReplayFate.PreparedResponses | src/free_claude_code/core/history_replay.py:444-472 | a prepared Responses body differs in its input alone, a lone object being one item; every text is said in order and every element comes from an item it may come from |
| ReplayFate.ResponsesFailExactly | src/free_claude_code/core/history_replay.py:444-472 | a Responses body is refused if and only if some item holds a carrier that cannot be read |
| ReplayFate.PreparedMessages | src/free_claude_code/core/history_replay.py:473-526 | a prepared Messages body differs in its messages alone: each is projected with its other fields as they were, those kept stand in order, and exactly the emptied ones are dropped |
| ReplayFate.EmptiedExactly | src/free_claude_code/core/history_replay.py:506-524 | which assistant messages count as emptied |
| ReplayFate.MessagesFailExactly | src/free_claude_code/core/history_replay.py:563-588 | a Messages body is refused if and only if a block of an assistant message holds a carrier that cannot be read |
| ReplayCarry.CarryIntoMessages | src/free_claude_code/core/history_replay.py:398-432 | the Messages blocks a Responses reasoning item is carried in |
| ReplayCarry.CarriedHasTheSameToSay | src/free_claude_code/core/history_replay.py:398-432 | the carried blocks have the item's texts to say, run together beside opaque state that is not a carrier, and nothing for a carrier of empty thinking |
| ReplayCarry.TextIsLostHere | src/free_claude_code/core/history_replay.py:416-427 | a concrete item that has a readable text to say, carried into blocks that have nothing to say |
| ReplayCarry.OpaqueStateTravels | src/free_claude_code/core/history_replay.py:398-427 | opaque state is carried whole: the first block holds that very text, so that a Messages destination finds the same record or the same state |
| ToolNames.EncodedNamesArePortable | src/free_claude_code/core/openai_tool_names.py:30-60 | every name sent is portable and at most 64 characters; a name changes exactly when it is not portable itself |
| ToolNames.AliasesComeFromNames | src/free_claude_code/core/openai_tool_names.py:62-72 | every alias decodes to a supplied non-portable name and never equals an unchanged one |
| ToolNames.OrderDoesNotMatter | src/free_claude_code/core/openai_tool_names.py:31-51 | the codec depends on the set of names only, not on order or repetition |
| ToolNames.DistinctDigestsLeave | src/free_claude_code/core/openai_tool_names.py:175-188 | digests that differ over the first attempts leave every smaller reserved set, so the search ends |
| ToolNames.IncompleteAliases | src/free_claude_code/core/openai_tool_names.py:53-79 | a text is an incomplete alias exactly when it is a proper non-empty prefix of what a supplied name is sent as; there are aliases exactly when some name is not portable |
| ToolNames.UniqueAlias | src/free_claude_code/core/openai_tool_names.py:175-188 | the search returns the first attempt's alias that is not reserved |
| ToolNames.FromNames | src/free_claude_code/core/openai_tool_names.py:30-51 | the construction loop builds the codec of the set of names |
| ToolNames.AliasesShowTheirNames | src/free_claude_code/core/openai_tool_names.py:175-178 | the readable part of an alias shows the letters and digits of its name, in order, cut to length; without any it is `tool` |
| ToolNames.AttemptsDiffer | src/free_claude_code/core/openai_tool_names.py:180-181 | no two attempts on a name digest the same text |
| CategoryRanges.SpansAreMaximal | src/free_claude_code/core/tool_schema_patterns.py:149-153 | no span can be widened |
| CategoryRanges.TablesAreUnique | src/free_claude_code/core/tool_schema_patterns.py:142-162 | a category has exactly one such table |
| CategoryRanges.TableReadsBack | src/free_claude_code/core/tool_schema_patterns.py:154-168 | the written table, read as points and dashed pairs, is the same spans |
| SchemaPatterns.FindAtoms | src/free_claude_code/core/tool_schema_patterns.py:77-125 | the scanner loop finds the atoms the scan specification names, or gives up where it does |
| SchemaPatterns.TranslatePattern | src/free_claude_code/core/tool_schema_patterns.py:72-138 | the returned pattern is the specified translation |
| SchemaPatterns.TranslatingTwiceIsTranslatingOnce | src/free_claude_code/core/tool_schema_patterns.py:72-138 | translating a translated pattern changes nothing |
| SchemaPatterns.RangeTexts | src/free_claude_code/core/tool_schema_patterns.py:142-162 | the four texts are those of the four tables |
| PatternAcceptance.PlainPatternsAreTranslated | src/free_claude_code/core/tool_schema_patterns.py:72-138 | every pattern of plain text, escapes and negated classes of plain members and categories, with no dash beside a category and no set operator, is rewritten if it has a category and the engine takes the result |
| PatternAcceptance.PlainPatternsAreScanned | src/free_claude_code/core/tool_schema_patterns.py:77-125 | such a pattern is scanned, and exactly its categories are found, in order |
| PatternMeaning.ReadingIsLossless | src/free_claude_code/core/tool_schema_patterns.py:77-125 | the elements of a reading spell the pattern |
| PatternTheorems.SpellingOutKeepsTheMeaning | src/free_claude_code/core/tool_schema_patterns.py:77-133 | the same for the scanned pattern with its categories spelled out, whatever the compiler then says |
| PatternTheorems.AtomsAreWellPlaced | src/free_claude_code/core/tool_schema_patterns.py:85-99 | every category escape of a scanned pattern is read, in every dialect, inside a class and beside no dash, and the class is a negated one where a leading `]` closes a class |
| PatternTheorems.ExpandedMatches | src/free_claude_code/core/tool_schema_patterns.py:126-133 | a class of tokens and the class with tables for its categories have the same sign and match the same points when no dash touches a category |
| PatternTheorems.TableLexes | src/free_claude_code/core/tool_schema_patterns.py:154-168 | behind any finished token, the text of a table splits into exactly the tokens of its points and dashes |
| ToolSchemas.SchemaKeepsItsOutline | src/free_claude_code/core/tool_schema_patterns.py:41-69 | only texts of `pattern` members change; everything else in a schema stays |
| ToolSchemas.SchemaTranslatesOnce | src/free_claude_code/core/tool_schema_patterns.py:41-69 | translating a translated schema changes nothing |
| ToolSchemas.EveryPatternIsTranslated | src/free_claude_code/core/tool_schema_patterns.py:41-69 | along every path: a pattern text in the position of a schema becomes its translation, at any depth, and instance data stays |
| ToolSchemas.PatternsAreTranslatedInPlace | src/free_claude_code/core/tool_schema_patterns.py:41-69 | the path through a schema and through its translation lead to the same place |
| Bridge.ReadMessage | src/free_claude_code/cli/bridge.py:355-379 | one read takes one frame, refuses an oversized one after consuming it, and reports the end of input |
| Bridge.DiscardFrame | src/free_claude_code/cli/bridge.py:335-352 | consumes exactly the refused payload, or all there is, and says which |
| Bridge.OneFramePerRead | src/free_claude_code/cli/bridge.py:355-379 | a read of a frame followed by anything yields that frame's result and leaves the rest |
| Bridge.StreamIsFrames | src/free_claude_code/cli/bridge.py:355-363 | every byte stream is a sequence of frames and an incomplete rest |
| Bridge.AnswersReadBack | src/free_claude_code/cli/bridge.py:382-421 | a stream of written messages is answered message by message |
| Bridge.WriteMessage | src/free_claude_code/cli/bridge.py:382-388 | writes one frame, or nothing when the length does not fit its prefix |
| Bridge.Serve | src/free_claude_code/cli/bridge.py:411-421 | writes one framed answer for each frame read, in order, until the input closes |
| Bridge.ReadBounded | src/free_claude_code/cli/bridge.py:159-174 | keeps exactly the first bytes up to the limit and reports truncation exactly when more arrived |
| Bridge.FrameOnTheWire | src/free_claude_code/cli/bridge.py:382-388 | a frame is four bytes, least significant first, of the payload's length, and the payload |
| Bridge.ReadTakesWhatIsAnnounced | src/free_claude_code/cli/bridge.py:355-379 | a read takes as many bytes behind the prefix as the prefix announces, least significant byte first, and is the end of input if and only if they are not all there |
| Bridge.RequestsAreObjects | src/free_claude_code/cli/bridge.py:362-379 | a payload is a request if and only if it is within the limit and holds a JSON object, and every other is refused for its own reason |
| ReplayJoin.RefusalsAreExplained | src/free_claude_code/core/history_replay.py:224-256 | a refusal to join names the objection to the first block there is one to, and otherwise that a final precedes its anchor |

## Left out

- AdmissionStranding.NoStrandedLeadership: is stated for runs in which entering the condition never suspends, as in the code, and corrections respect the budget; that neither can be dropped is shown by runs, the first a hypothetical one.
- AdmissionTheorems.AdmissionsRespectTheWindow: bounds recorded admissions, not the times at which attempts start, because the timestamp is recorded before the wait for a slot.
- AdmissionController.ProviderAdmissionController.AcquireRate: is one pass of the waiting loop with one clock reading, where the code reads it once to evict and once to record; `SlidingWindow.StrictSlidingWindowLimiter.AcquirePass` and its theorems have both readings. The sleep between passes is a suspension of the machine.
- VoiceOutcomes.EveryEndIsReported: is about operations that return; one that raises instead reports nothing, and `VoiceConcurrency.AtMostOneReport` covers it.
- PatternAcceptance.PlainPatternsAreTranslated: names a family of patterns that are translated, not all of them; classes that are not negated, and escapes of more than two characters, are scanned as well.
- KeyPoolObject.ApiKeyPool.ExportState: reads the clock once for the whole call, where the code reads it for each key.
- KeyPoolObject.ApiKeyPool.HasEligibleKey: reads the clock once, where the code reads it again for each key's window.
- KeyPoolObject.ApiKeyPool.NextAvailableIn: reads the clock once, where the code reads it again for each key's window.
- KeyPoolObject.ApiKeyPool.GetNextKey: reads the clock once, where the code reads it again for each key's window.
- KeyLineage.KeysStayOut: follows the generation in charge; marks that a replaced generation still receives after its snapshot was taken reach nobody, and its late sends are not counted by `WindowSurvivesReloads`.
- KeyPool.TransKeepsHealth: excludes imports, which `KeyLineage.TurnKeepsSound` and `KeyLineage.TurnKeepsBar` cover.
- KeyPool.PoolWindowBound: excludes imports, whose timestamps no limit of this pool vouches for.
- StreamRecovery.RetriedAttemptsAreInvisible: rests on the caller's report of generated output.
- ToolNames.FromNames: asks of the digest that the search ends, and of nothing else that it is SHA-256.
- PatternTheorems.ClassesMatchTheSame: reads a class as a list of characters, escapes and dashed ranges; what escapes other than `\uXXXX` and `\p{..}` stand for, how far they run over plain ASCII characters, and what a range with such an end means are the dialect's choice. Nested classes and set operators of Unicode set syntax are not read.
- Sessions, episodes and attempts as heap objects: they are records in the controller's dictionaries; only the limiter is an object of its own.
- A second `aclose` of an attempt, which the code ignores: closing takes the session out of the state that holds it.
- A cancellation landing while a driver closes its response, before it closes the attempt: the slot that this keeps is not modelled.
- A second cancellation landing inside a cleanup handler of admission.
- Fairness of the event loop, of the semaphore and of the condition; progress is stated as safety.
- The retry delay with its exponent, ceiling and jitter; classification of upstream errors.
- Key pool: the capacity callback, `active_rate_limit` and thread locking.
- Voice: what callbacks do, fatal errors, and a discard issued inside a handoff, which takes no protection and is outside the acyclicity theorem.
- Messaging: `fire_and_forget` with its generations, flood-wait pauses, the rate wait between dequeue and execution, and an exception raised by the limiter itself between dequeue and execution.
- Stream recovery: the reader that borrows the source and its deadline handling.
- History: projection onto OpenAI Chat messages and its detail merging, hosted-tool checks, and an unhashable `type` value, which raises `TypeError`.
- Tool names: collecting the names of a request and rewriting a Chat body in place.
- Schema patterns: identity of unchanged sub-objects (values are compared, not references).
- Bridge: shell execution, the audit log, path and timeout checks, and decoding errors other than UTF-8 and JSON ones.
- HTTP routes, settings, the admin interface, launchers, desktop and tray code, logging and tracing.
