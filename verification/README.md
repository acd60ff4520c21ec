# Verified model of Geem's gateway, agent admission and billing cores

This project models the stateful cores of the repository in Dafny 4.11 and proves what each of them
keeps over every input, run or interleaving. Loops and objects of the source are methods and classes
proved against specification functions; the theorems are lemmas about those functions.

| part | files | what is modelled |
|---|---|---|
| Stream guard | `SseFrameGuard`, `SseStreams`, `SseBoundary` | the incremental SSE parser that withholds bytes until a bounded event is complete, and the grammar it reads |
| Session pool | `SessionPool`, `SessionProtocol`, `SessionInvariants`, `SessionSafety`, `SessionLeaks`, `SessionOrigins`, `SessionSections` | the bounded pool of legacy MCP sessions, as steps between awaits under any scheduler |
| Write outcome | `Transport`, `WriteOutcome`, `SessionOwner`, `OperationErrors`, `FailureRules` | whether a tools/call write may already have happened, what a session carries to its next operation, and what the caller is told |
| Tool transcripts | `Transcript`, `TranscriptGrammar`, `TranscriptText`, `TranscriptErrors` | the one-pass transcript validator and the grammar it accepts |
| Runtime fences | `RuntimeFences`, `FenceProtocol`, `FenceComposition`, `FenceTransactions` | lock lists of paid admissions and mutations, a lock table with a fair queue, what combining calls leads to, and all transactions of the code |
| CIDR rewriting | `CidrRewrite` | network lists rewritten around the IPv4-mapped range |
| JSON depth | `JsonDepth` | the byte scanner that bounds nesting, against the grammar of RFC 8259 |
| Daily quota | `Quota`, `QuotaAnswers` | one charge for each committed request and day, with replayable receipts |
| Calendar, purchases | `Calendar`, `Purchases`, `PurchaseRuns`, `StaleReturns`, `BillingRules` | clamped months, the life of a purchase and what it pays for, and returns that go by a stale row |
| Tool schemas | `ToolSchema`, `SchemaReferences`, `SchemaPlaces`, `SchemaKeywords`, `PointerNumbers` | two walks over one schema, anchors and JSON pointers |
| Redirects | `Redirects`, `RedirectRules` | the redirect loop of the bounded executor |
| Audit metadata | `Sanitize`, `ScrubRules` | the metadata scrubber |
| Rate limit | `RateLimit` | the in-memory sliding window |

`Common` holds shared types. `dafny verify dfyconfig.toml` checks everything.

## Where the code does not keep a promise

Each item has a lemma with a concrete input or run, and a lemma that says exactly when the promise holds.

- A cancellation that reaches a request while it gives its reservation back, which is not shielded, loses the
  slot for good (`CancelledReleaseLeaks`); at quiescence the pending count is zero exactly when none did
  (`ReservationAccounting`, `LeaksAreCancelledReleases`).
- Inside the window of a dispatched write the event stream of a legacy session, or any other request on the
  same transport, can still end with a retryable error (`PersistentStreamEndsInsideTheWindow`,
  `NothingRetryableExactlyWhen`).
- Inside that window an exception of the SDK, such as its own read timeout, reaches the caller as a protocol error,
  and a timeout or socket error as retryable (`ReadTimeoutHidesTheWindow`, `WindowIsToldExactlyWhen`); in a group an
  earlier gateway error hides an unknown outcome (`EarlierErrorHidesUnknown`, `ToldExactly`).
- The owner of a session asks the tracker only after a cancellation. After a result it goes on even while the tracker
  says unknown, with the answer's body open or, when the result came by the event stream, with the request still out,
  and the tracker can then miss the next window (`FramedResultMisleads`, `StreamedResultMisleads`,
  `UnclosedAnswerMisleads`, `OwnerLeaves`, `ReliableExactlyWhenQuiet`). A cancelled write that is still being resolved
  would do the same, but the caller evicts the session (`ResolvingWriteMisleads`).
- The frame of an event without lines is two line feeds, which pass a limit of one byte and are read back as
  two events (`EmptyEventIsReleased`, `FrameBounds`, `FramesAreNormalForms`).
- The scanner for terminal responses reads a `data` line without colon, or with several spaces after it, otherwise
  than the guard (`ScannerReadsTheDataExactlyWhen`).
- Each acquire function takes its locks in the canonical order, but nothing orders the calls of one
  transaction. Disconnecting a widget takes the fence of its surface and then, uninstalling the app, the fence of the app
  in the workspace; the admission of a call from the widget takes the two the other way round, and the two can deadlock
  (`DisconnectDeadlocks`). The transactions of the code are free of wait-for cycles exactly when no widget is
  disconnected while it is served (`FreeOfCyclesExactlyWhen`); any combination of calls is exactly when its list is orderly
  (`SafeExactlyWhenOrderly`, `AdmittedTargetMustNotBeMutated`).
- Two moments can change order when a month is added, because clamping keeps the time of day
  (`OrderCanBeLost`, `OrderLostExactlyWhen`).
- `_mark_failed` calls its result terminal, but a later browser return asks the provider again and can pay
  the purchase (`FailedThenPaid`, `FulfilledExactlyWhen`).
- A browser return reads its purchase before it locks it, and the locking query does not refresh the row. A return that
  waited for another one can fulfil a paid purchase again, or take its paid status away (`ThirdMonthForTwoPayments`,
  `StaleReturnPaysAgain`, `StaleReturnIsHarmlessExactlyWhen`).
- `_json_pointer_exists` finds indexes with a sign, a leading zero, an underscore or blanks, and tokens with a
  stray tilde (`NegativeIndexExists`, `LaxIndexesExist`), and accepts the reference `#/` in every schema
  (`EmptyPointerIsUnchecked`); `FoundExactlyWhenNamed` says for which pointers it is right.
- Metadata sanitized before it is redacted can lose everything to one value that cannot be printed, although
  the redaction would have dropped that value (`UnprintableValueEmptiesAll`, `AllowlistsComposeExactlyWhen`).

## Model

| member | source | states |
|---|---|---|
| SseStreams.ChunkIndependence | apps/mcp_egress_gateway/gateway/mcp_client.py:122-141 | However a byte stream is cut into chunks, successive `feed` calls release the frames and reach the state of one call on the whole stream, or end in the same first error |
| SseStreams.EveryStreamIsADocument | apps/mcp_egress_gateway/gateway/mcp_client.py:150-158 | Every byte stream is the text of some document of lines and events, so the statements about documents cover all streams |
| SseStreams.ReadsEveryDocument | apps/mcp_egress_gateway/gateway/mcp_client.py:122-184 | Fed any document in any chunks, the guard releases the frame of every event, in order, exactly when no event is refused and the open rest fits; otherwise it raises the error of the first refused event, or the size error |
| SseStreams.RefusedExactlyWhen | apps/mcp_egress_gateway/gateway/mcp_client.py:160-197 | An event within the byte limit is refused exactly when an event name is not UTF-8 or it advertises an endpoint that the policy does not allow |
| SseStreams.DataSizeCheckIsDead | apps/mcp_egress_gateway/gateway/mcp_client.py:176-181 | The data-size check of `_finish_event` can never fire on an event that passed the byte limit |
| SseStreams.FrameBounds | apps/mcp_egress_gateway/gateway/mcp_client.py:122-148 | After a successful run of calls the retained bytes are within `max_message_bytes`, so `finish` does not raise, and every released frame is, except the frame of an event without lines under a limit of one byte |
| SseStreams.ReleasedEndpointsAreAllowed | apps/mcp_egress_gateway/gateway/mcp_client.py:98-104 | Whatever arrives in whatever chunks, a guard that validates endpoints releases no endpoint event whose joined data the policy does not allow |
| SseBoundary.ReadsExactly | apps/mcp_egress_gateway/gateway/mcp_client.py:163-175 | The name and the data that the guard takes from an event are those its lines say: the last `event` value, or `message`, and the `data` values joined by line feeds |
| SseBoundary.PassesExactlyWhen | apps/mcp_egress_gateway/gateway/mcp_client.py:160-213 | An event within the byte limit passes exactly when all its names are UTF-8 and, where endpoints are validated, an event named `endpoint` has data that is UTF-8, not empty, does not begin with two slashes, and is of the target's origin |
| SseBoundary.NoOtherEndpointIsReleased | apps/mcp_egress_gateway/gateway/mcp_client.py:98-104 | Whatever arrives in whatever chunks, the data of every endpoint event that a validating guard releases is UTF-8, not empty, does not begin with two slashes, and is of the target's origin |
| SseStreams.TerminalScannerSeesTheEvents | apps/mcp_egress_gateway/gateway/mcp_client.py:1836-1844 | Normalising the concatenated frames and splitting them as the terminal-response scanner does gives back exactly the released event bodies in order, and their lines |
| SseBoundary.ScannerUnifiesBreaks | apps/mcp_egress_gateway/gateway/mcp_client.py:1836-1838 | The terminal scanner reads every CRLF, CR and LF as one line feed and changes nothing else |
| SseStreams.ScannerReadsTheDataExactlyWhen | apps/mcp_egress_gateway/gateway/mcp_client.py:1836-1846 | From a released event the scanner takes the event's data values exactly when no line is a `data` without colon or has two spaces after it |
| SseStreams.LineReadAlikeExactlyWhen | apps/mcp_egress_gateway/gateway/mcp_client.py:1840-1844 | The same for one line, and the scanner never takes more than the guard |
| SseStreams.FramesAreNormalForms | apps/mcp_egress_gateway/gateway/mcp_client.py:184 | A released frame, fed to a fresh guard, comes back as the only frame; the frame of an event without lines, exactly, comes back twice |
| SseStreams.EmptyEventIsReleased | apps/mcp_egress_gateway/gateway/mcp_client.py:139-141 | A stream of one line feed is released, under a limit of one byte too, as a frame of two bytes, which is read back as two events |
| SseStreams.DrainsEvent | apps/mcp_egress_gateway/gateway/mcp_client.py:122-184 | One whole event at the front of the buffer is released, or refused for its size or its fields, and the rest is read as before |
| SseFrameGuard.FrameGuard.NextLineBoundary | apps/mcp_egress_gateway/gateway/mcp_client.py:150-158 | The scan finds the first complete line break and its width, and nothing when there is none or a CR ends the buffer |
| SseFrameGuard.FrameGuard.FinishEvent | apps/mcp_egress_gateway/gateway/mcp_client.py:160-184 | The event under construction is closed and rendered, or refused with the first failing check |
| SseFrameGuard.FrameGuard.FeedChunk | apps/mcp_egress_gateway/gateway/mcp_client.py:122-141 | One call has the frames, the error and the new fields of the specification `Feed` |
| SessionPool.GatewaySessions.ReserveLegacySlot | apps/mcp_egress_gateway/gateway/mcp_client.py:1331-1342 | Keeps the pool sound, takes one slot exactly when one is left, and changes nothing else |
| SessionPool.GatewaySessions.ReleaseLegacyReservation | apps/mcp_egress_gateway/gateway/mcp_client.py:1344-1347 | Keeps the pool sound and frees exactly one slot if one is reserved |
| SessionPool.GatewaySessions.StoreLegacySession | apps/mcp_egress_gateway/gateway/mcp_client.py:1299-1329 | A reserved session gets a handle that no other has, is found by its owner from then on until it expires, and neither wins nor loses a slot; without a reservation nothing changes |
| SessionPool.GatewaySessions.FindSession | apps/mcp_egress_gateway/gateway/mcp_client.py:1349-1385 | Succeeds exactly for a live session of this caller for this target; a session is dropped only if it is theirs and has expired; another caller's or another target's is never theirs at any time |
| SessionPool.GatewaySessions.RecheckSession | apps/mcp_egress_gateway/gateway/mcp_client.py:1386-1416 | Passes exactly an entry that is pooled and live; an expired one is not pooled afterwards, and no other entry is touched |
| SessionPool.GatewaySessions.EvictSession | apps/mcp_egress_gateway/gateway/mcp_client.py:1238-1248 | Afterwards the entry is not pooled, every other one is as before, and its slot is free again |
| SessionPool.GatewaySessions.ExecuteNew | apps/mcp_egress_gateway/gateway/mcp_client.py:1147-1212 | From end to end, uninterrupted, a new session is pooled under an unused handle exactly when it opens on a legacy protocol with a slot left and its first response fits; otherwise the pool is as it was, and no reservation is kept |
| SessionPool.GatewaySessions.RemoveSession | apps/mcp_egress_gateway/gateway/mcp_client.py:1484-1489 | Takes out whatever is pooled under the entry's handle, and nothing else |
| SessionPool.GatewaySessions.AcquireSession | apps/mcp_egress_gateway/gateway/mcp_client.py:1349-1416 | Both checks in a row succeed exactly for a session that is live at the second, and then drop nothing |
| SessionPool.GatewaySessions.PruneExpired | apps/mcp_egress_gateway/gateway/mcp_client.py:1459-1472 | What stays pooled is exactly what is still live |
| SessionSafety.InvHolds | apps/mcp_egress_gateway/gateway/mcp_client.py:1147-1538 | Every state of every interleaving of requests, closers, timers and shutdown, with deadlines and cancellations at every await that is not shielded, satisfies the lock, slot, pool, authorization and poison invariants |
| SessionInvariants.SectionSlots | apps/mcp_egress_gateway/gateway/mcp_client.py:1299-1347 | Each critical section changes the pending count by exactly what its task owns before and after, and keeps the bound |
| SessionInvariants.SectionShrinks | apps/mcp_egress_gateway/gateway/mcp_client.py:1349-1538 | Outside reservation, storing and release a critical section only removes sessions and leaves no task owning a reservation |
| SessionSafety.ReservationAccounting | apps/mcp_egress_gateway/gateway/mcp_client.py:1147-1212 | In every state of every run pooled plus pending sessions are within the bound, pending is the number of tasks that own a reservation plus those lost, the `> 0` guard on release never matters, and at quiescence pending is zero exactly when none was lost |
| SessionLeaks.LeaksAreCancelledReleases | apps/mcp_egress_gateway/gateway/mcp_client.py:1208-1210 | The reservations that nobody owns are exactly the releases that were cancelled while waiting for the cache lock |
| SessionLeaks.CancelledReleaseLeaks | apps/mcp_egress_gateway/gateway/mcp_client.py:1208-1210 | A run that ends with nothing going on, an empty pool of one slot, and no slot left |
| SessionSafety.DispatchSafety | apps/mcp_egress_gateway/gateway/mcp_client.py:1214-1252 | A cached operation is dispatched only by the holder of the entry's lock since a recheck under both locks that found it pooled and unexpired, for the entry's own caller and target, and never after an operation on it ended poisoned |
| SessionOrigins.UsedByItsOpener | apps/mcp_egress_gateway/gateway/mcp_client.py:1308-1416 | Whoever works on a session for a request names its handle and is the caller whose earlier request opened it, for an operation also the same target; and the session lives for one lifetime from that opening |
| SessionOrigins.EveryEntryWasStored | apps/mcp_egress_gateway/gateway/mcp_client.py:1308-1328 | Every entry was stored by an earlier step of a request to open a session, under that step's token and with that request's caller and target, and never changes |
| SessionOrigins.DeadlineIsOneLifetime | apps/mcp_egress_gateway/gateway/mcp_client.py:1156-1161 | The deadline a session is stored with is one lifetime after the moment its opening began |
| SessionSections.SectionMeans | apps/mcp_egress_gateway/gateway/mcp_client.py:1294-1470 | What each critical section does to the pool and where its task goes next, said of the entries that are pooled |
| SessionSections.ClosedAreOutHolds | apps/mcp_egress_gateway/gateway/mcp_client.py:1436-1455 | In every state of every run a session whose owner is being closed is out of the pool |
| SessionSections.SessionEnds | apps/mcp_egress_gateway/gateway/mcp_client.py:1147-1457 | A run in which a session is opened, serves a second request and is closed by its caller, after which the pool has its slot back and nothing is locked |
| SessionSections.SessionExpires | apps/mcp_egress_gateway/gateway/mcp_client.py:1459-1517 | A run in which the timer ends a session when its lifetime is over |
| SessionSafety.ReadyWasRechecked | apps/mcp_egress_gateway/gateway/mcp_client.py:1386-1416 | A task about to dispatch passed the second check at an earlier step and has held the entry's lock ever since |
| SessionSafety.OperationsExclude | apps/mcp_egress_gateway/gateway/mcp_client.py:1214-1252 | Operations on one entry exclude each other in every state of every run |
| SessionSafety.NeverDeadlocked | apps/mcp_egress_gateway/gateway/mcp_client.py:1349-1416 | While a task waits for a lock, it, the holder of the cache lock or the holder of the entry's lock it waits for can take a step of its own, without a deadline or a cancellation |
| SessionInvariants.PoisonContainedKept | apps/mcp_egress_gateway/gateway/mcp_client.py:1232-1250 | No step makes a poisoned entry usable: it is out of the pool, or still locked by whoever evicts it |
| SessionInvariants.ReserversByMove | apps/mcp_egress_gateway/gateway/mcp_client.py:1147-1212 | Each step changes the number of owned reservations by exactly the share of the one that moves |
| Transport.OpenStream | apps/mcp_egress_gateway/gateway/transport.py:264-359 | Whatever fails at whichever stages, the first failure is reported, and as dispatched exactly when every stage before `sendall` had gone well |
| Transport.ResponseStream.ReadChunk | apps/mcp_egress_gateway/gateway/transport.py:131-180 | A read stays within the byte limit of an ordinary body, and every failure closes the stream and is reported as dispatched |
| Transport.ResponseStream.ActivateSession | apps/mcp_egress_gateway/gateway/transport.py:182-215 | A validated event stream becomes a session stream whose deadline never passes the absolute one; a refusal is reported as dispatched and changes nothing |
| WriteOutcome.WriteOutcomeTracker.Attempt | apps/mcp_egress_gateway/gateway/mcp_client.py:444-532 | After an attempt that fails the tracker is dispatched exactly when `sendall` was reached, and still submitted only then |
| WriteOutcome.WriteOutcomeTracker.HandleRequest | apps/mcp_egress_gateway/gateway/mcp_client.py:381-532 | A request that nothing interrupts takes the shared tracker through the steps of the state machine, and raises what the last of them raises |
| WriteOutcome.WriteOutcomeTracker.VerifyWriteCompletion | apps/mcp_egress_gateway/gateway/mcp_client.py:305-321 | The end of a body confirms a write exactly with a terminal answer, and is outcome-unknown without one |
| WriteOutcome.WriteOutcomeTracker.PerformWrite | apps/mcp_egress_gateway/gateway/mcp_client.py:351-532 | An uninterrupted write succeeds exactly with a terminal answer that is neither a redirect nor an authorization error; a failure after `sendall` was reached is never retryable and leaves the outcome unknown, and one before it never says unknown |
| WriteOutcome.TimeoutTellsTheTruth | apps/mcp_egress_gateway/gateway/mcp_client.py:357-368 | At any point of an operation a retryable timeout leaves no write open, and an outcome-unknown one follows a write that was handed to the transport |
| WriteOutcome.WindowErrors | apps/mcp_egress_gateway/gateway/mcp_client.py:381-561 | From the first byte of a tools/call write to its confirmed answer the tracker says unknown, and no error about the write or the deadline is retryable; each is outcome-unknown exactly unless the answer asks for authorization or breaks a rule of the frame guard |
| WriteOutcome.EarlierFailureIsKnown | apps/mcp_egress_gateway/gateway/mcp_client.py:523-532 | A write that fails before `sendall` is not outcome-unknown, and neither is a timeout after it |
| FailureRules.AttemptsComeTo | apps/mcp_egress_gateway/gateway/mcp_client.py:444-532 | Stage by stage and status by status, which failure the SDK sees of an attempt: a write that may have been sent is outcome-unknown whatever fails, authorization errors and blocked targets are final, and the rest may be retried when the transport says so |
| FailureRules.EarlyFailuresComeTo | apps/mcp_egress_gateway/gateway/mcp_client.py:399-443 | What stops a request before a worker has it, and that a stopped or abandoned request leaves nothing behind |
| WriteOutcome.NothingRetryableExactlyWhen | apps/mcp_egress_gateway/gateway/mcp_client.py:262-297 | Inside the window the whole transport raises nothing retryable exactly when nothing but the write is in flight on it |
| WriteOutcome.ReliableExactlyWhenQuiet | apps/mcp_egress_gateway/gateway/mcp_client.py:351-355 | The tracker misses no window of an operation exactly when, at its start, no earlier write and no answer that could confirm one is in flight |
| WriteOutcome.LeftoverMisleads | apps/mcp_egress_gateway/gateway/mcp_client.py:351-355 | Each kind of leftover of an earlier write has a continuation in which the tracker misses an open window |
| WriteOutcome.OperationKeeps | apps/mcp_egress_gateway/gateway/mcp_client.py:381-561 | Every sequence of events of one operation keeps tracker, requests in flight and response bodies in agreement with what truly happened |
| WriteOutcome.EveryRunIsSane | apps/mcp_egress_gateway/gateway/mcp_client.py:348-355 | The condition on the transport under which these statements are made holds in every state of every run from a new transport |
| SessionOwner.OwnerLeaves | apps/mcp_egress_gateway/gateway/mcp_client.py:887-990 | When the owner goes on after an operation that began quiet, its write was answered or is still on the transport; after a cancellation it is still being resolved or its answer was read to the end; after a result that did not come by the event stream no request of it is left; and the tracker can be relied on next exactly when neither a write nor an answer to one is left |
| SessionOwner.KeptExactlyWhen | apps/mcp_egress_gateway/gateway/mcp_client.py:1232-1247 | A session is kept for another operation exactly without a fatal error and with its result in, before any call, or after a final refusal |
| SessionOwner.WithoutReportAccounted | apps/mcp_egress_gateway/gateway/mcp_client.py:374-379 | A write is never lost silently: while nothing was reported as fatal, it was answered, is in flight, or has its body open |
| SessionOwner.WindowIsToldExactlyWhen | apps/mcp_egress_gateway/gateway/mcp_client.py:966-975 | While a dispatched write is unanswered the caller is told that the outcome is unknown exactly when the operation ran out of time or was cancelled, or the first gateway error raised says so, and told to retry exactly when that error says so or only input and output failed |
| SessionOwner.ReadTimeoutHidesTheWindow | apps/mcp_egress_gateway/gateway/mcp_client.py:1284-1289 | A run in which the SDK's own read timeout, or an error of input and output, ends the operation inside the window: the first is told as a protocol error, the second as retryable, and neither as outcome-unknown |
| SessionOwner.PersistentStreamEndsInsideTheWindow | apps/mcp_egress_gateway/gateway/mcp_client.py:277-284 | A run from a new transport in which the event stream of a legacy session ends with a retryable error while a dispatched write is unanswered |
| SessionOwner.FramedResultMisleads | apps/mcp_egress_gateway/gateway/mcp_client.py:963-986 | A run in which the result comes in a frame of the answer: the session is kept with the body open and the tracker saying unknown, and the next write can be missed |
| SessionOwner.StreamedResultMisleads | apps/mcp_egress_gateway/gateway/mcp_client.py:963-986 | A run in which the result comes by the event stream: the session is kept with the request still out, and the next write can be missed |
| SessionOwner.UnclosedAnswerMisleads | apps/mcp_egress_gateway/gateway/mcp_client.py:963-986 | A run that leaves the body of an answer read to its end open, after which the next write can be missed |
| SessionOwner.ResolvingWriteMisleads | apps/mcp_egress_gateway/gateway/mcp_client.py:952-962 | A run that leaves a cancelled write being resolved; only the eviction by its caller keeps the next write from being missed |
| OperationErrors.FindsTheFirst | apps/mcp_egress_gateway/gateway/mcp_client.py:1880-1891 | The search of an exception group finds the first exception of the wanted class, however deeply it is nested |
| OperationErrors.ToldExactly | apps/mcp_egress_gateway/gateway/mcp_client.py:1058-1106 | Whatever is raised, the caller is told outcome-unknown exactly when the first gateway error says so, and told to retry exactly when it says so or, without any gateway, run-time or protocol error, there is one of input and output |
| OperationErrors.EarlierErrorHidesUnknown | apps/mcp_egress_gateway/gateway/mcp_client.py:1065-1068 | An outcome-unknown error behind another gateway error of its group is lost |
| Transcript.CollectInstructions | apps/api/app/agent/messages.py:87-98 | The leading instructions are split off, and one further on is an error |
| Transcript.LinkToolCalls | apps/api/app/agent/messages.py:135-193 | The linkage loop gives the first error or the rendered transcript and final state of the specification `Pass` |
| Transcript.NormalizeAgentMessages | apps/api/app/agent/messages.py:73-220 | The call fails with the first failing check, or returns one entry for each ordinary message in order, with its role, and the stripped last user text |
| Transcript.StripBlank | apps/api/app/agent/messages.py:206 | Stripping leaves nothing exactly of a blank text |
| TranscriptGrammar.AcceptedExactlyWhenGrammatical | apps/api/app/agent/messages.py:88-210 | A request is accepted exactly when it is an instruction prefix and turns in which each assistant turn with calls is followed at once by a permutation of its ids, ids are globally unique, names are declared, the last message is not an assistant's and the last user text is not blank; the text returned is the last user turn's |
| TranscriptGrammar.GrammaticalIsAccepted | apps/api/app/agent/messages.py:88-210 | Every grammatical transcript passes all checks |
| TranscriptGrammar.AcceptedIsGrammatical | apps/api/app/agent/messages.py:88-210 | Every accepted transcript can be parsed into turns |
| TranscriptGrammar.PassReplies | apps/api/app/agent/messages.py:167-193 | Any permutation of results resolves exactly the pending calls |
| TranscriptGrammar.EnvelopeIsSealed | apps/api/app/agent/messages.py:250-290 | Text placed in an envelope holds no bracket that could close it, and reads back as it was |
| TranscriptText.EnvelopeSeals | apps/api/app/agent/messages.py:250-257 | The envelope of a text has one opening and one closing tag and no other angle bracket, and what is between reads back as the text with only the characters that XML lacks replaced |
| TranscriptText.ReturnsTheMessages | apps/api/app/agent/messages.py:73-221 | A successful call returns every message in its place with its role, content, calls and id, each tool result bounded and sealed, the instructions tidied, joined and sealed, and the last user text, trimmed, as the question |
| TranscriptText.StripTrims | apps/api/app/agent/messages.py:301-303 | Stripping leaves the middle of a text between the spaces around it |
| TranscriptText.BreaksAreReplaced | apps/api/app/agent/messages.py:301-303 | Every line break, CRLF, CR or LF, becomes one line feed and nothing else changes |
| TranscriptErrors.ErrorsAreTrue | apps/api/app/agent/messages.py:73-221 | Each error says something true of the messages: the id that is called or answered twice, the result without a call, the undeclared function, the call left open, and where |
| RuntimeFences.AdmissionLocks | apps/api/app/apps_catalog/runtime_locks.py:47-83 | The lock list of an admission is in the canonical order and holds exactly its apps, workspace, workspace apps and surface targets, all shared |
| RuntimeFences.SurfaceMutationLocks | apps/api/app/apps_catalog/runtime_locks.py:113-138 | The lock list of a surface mutation is in the canonical order and holds exactly its targets, exclusive |
| RuntimeFences.AdmissionThenSurfaceMutation | apps/api/app/apps_catalog/runtime_locks.py:47-138 | An admission without targets followed by a surface mutation in one transaction is still in order |
| FenceProtocol.NoWaitCycle | apps/api/app/apps_catalog/runtime_locks.py:47-162 | No run of any number of transactions with canonical lock lists, or one orderly list beside them, reaches a wait-for cycle, queueing behind waiters included |
| FenceProtocol.NeverStuck | apps/api/app/apps_catalog/runtime_locks.py:141-162 | While some transaction waits, one that does not can go on or a waiting one can be granted its lock |
| FenceProtocol.NoOverlap | apps/api/app/apps_catalog/runtime_locks.py:47-138 | While a transaction holds a fence, no other holds the matching one exclusively |
| FenceProtocol.AuthorityIsStable | apps/api/app/apps_catalog/runtime_locks.py:47-83 | What an admission reads under its shared fences still holds when it commits, whatever others do |
| FenceProtocol.RetakeIsImmediate | apps/api/app/apps_catalog/runtime_locks.py:141-162 | A lock that the transaction already holds, in the same or the stronger mode, is granted at once, whoever waits for it |
| FenceProtocol.GrantedExactlyInTurn | apps/api/app/apps_catalog/runtime_locks.py:141-162 | A lock is granted exactly when no other transaction holds it in a conflicting mode and, to one that does not hold it yet, none that holds it or came before waits for it in a conflicting mode |
| FenceComposition.SafeExactlyWhenOrderly | apps/api/app/apps_catalog/runtime_locks.py:47-162 | A combination of acquire calls, repeated fences and upgrades included, is free of cycles beside canonical transactions and its own kind exactly when each fence is first taken in order and a shared fence is upgraded only with no later fence held and something held exclusively |
| FenceComposition.OutOfOrderDeadlocks | apps/api/app/apps_catalog/runtime_locks.py:47-162 | A fence first taken after a later one has a run into two transactions that hold each other up |
| FenceComposition.UpgradeBelowDeadlocks | apps/api/app/apps_catalog/runtime_locks.py:47-162 | So has an upgrade with a later fence held, beside a canonical transaction |
| FenceComposition.SharedUpgradesDeadlock | apps/api/app/apps_catalog/runtime_locks.py:47-162 | So have two equal transactions that upgrade with nothing held exclusively |
| FenceComposition.CallsAscend | apps/api/app/apps_catalog/runtime_locks.py:47-138 | Each of the five acquire functions asks in the canonical order |
| FenceComposition.AdmissionShutsMutationsOut | apps/api/app/apps_catalog/runtime_locks.py:47-138 | From the moment an admission has its fences to its end no other transaction, whatever calls it combines, holds a fence of its apps, workspace, workspace apps or targets exclusively |
| FenceComposition.NeverBothAtWork | apps/api/app/apps_catalog/runtime_locks.py:47-138 | In no state of any run do an admission and a mutation of an app, the workspace, an app in the workspace or a surface that the admission names both have all their locks |
| FenceComposition.MutationWaitsItsTurn | apps/api/app/apps_catalog/runtime_locks.py:86-138 | A run in which a mutation waits while an admission holds its fence, is granted it when the admission is over, and then changes what the fence protects |
| FenceComposition.ReconciliationIsCanonical | apps/api/app/apps_catalog/reconcile_mcp.py:160-169 | The reconciliation, which takes its app's fence again further down, is canonical |
| FenceComposition.SeedIsCanonical | apps/api/app/apps_catalog/seed.py:352-362 | The catalog seed takes the fences of the two products it may guard in order |
| FenceComposition.BindingIsCanonical | apps/api/app/mcp/surfaces.py:243-252 | A surface mutation under an admission without targets is canonical |
| FenceComposition.AdmittedTargetMustNotBeMutated | apps/api/app/apps_catalog/runtime_locks.py:113-138 | A surface mutation under an admission that named its target is not safe |
| FenceTransactions.TransactionIsSafeExactlyWhen | apps/api/app/widgets/service.py:185-210 | Of all transactions that take fences, only disconnecting a widget is not canonical, and only it is not safe |
| FenceTransactions.NoneChangesWhatAnotherReliesOn | apps/api/app/workspaces/service.py:211-213 | While a transaction that relies on an app, a workspace, an app in it or a surface is past its locks, none that changes the same is past its own |
| FenceTransactions.DisconnectDeadlocks | apps/api/app/widgets/service.py:198-208 | Disconnecting a widget beside the admission of a call from it, or beside a binding to it, has a run into two transactions that hold each other up |
| FenceTransactions.FreeOfCyclesExactlyWhen | apps/api/app/mcp/surfaces.py:664-687 | Any mix of the transactions of the code, any number of each in any interleaving, is free of wait-for cycles exactly when no widget is disconnected while calls from it are admitted or tools bound to it |
| CidrRewrite.ParseNetworkValues | infra/mcp-egress/proxy/render_config.py:43-66 | A list is refused exactly when an entry is malformed; otherwise the result is sorted and holds exactly the listed networks |
| CidrRewrite.AddressExclude | infra/mcp-egress/proxy/render_config.py:116-119 | Repeated halving leaves pairwise disjoint networks inside the network and off the excluded one that cover exactly the difference, one for each extra prefix bit |
| CidrRewrite.RenderEntry | infra/mcp-egress/proxy/render_config.py:99-120 | An entry is refused exactly when it is IPv4-mapped policy; otherwise its rendering stands for it |
| CidrRewrite.SquidAclNetworks | infra/mcp-egress/proxy/render_config.py:93-121 | An accepted list is rendered so that IPv6 addresses outside ::ffff:0:0/96 are covered exactly as before, no IPv6 entry meets that range, and IPv4 entries are unchanged and in order |
| CidrRewrite.NestedOrDisjoint | infra/mcp-egress/proxy/render_config.py:103-119 | Two networks of one version are nested or disjoint, so the three branches leave no case out |
| CidrRewrite.NetworksInFigures | infra/mcp-egress/proxy/render_config.py:93-121 | IPv4 networks lie within 2^32 addresses and IPv6 networks within 2^128, and the mapped range is the 2^32 addresses from 0xFFFF00000000 |
| CidrRewrite.KeysAreOrdered | infra/mcp-egress/proxy/render_config.py:43-67 | Networks are ordered by version, address and prefix |
| CidrRewrite.RendersSplit | infra/mcp-egress/proxy/render_config.py:116-119 | The sorted parts around the mapped range stand for the network |
| JsonDepth.JsonDepthExceeds | apps/mcp_egress_gateway/gateway/main.py:404-427 | The loop reports whether the scan passes the limit at some byte |
| JsonDepth.ScannerMatchesDepth | apps/mcp_egress_gateway/gateway/main.py:404-427 | On every JSON text of every value, with any white space and string escapes, the answer is True exactly when the nesting depth exceeds the limit, and the clamp never acts |
| JsonDepth.ValueBalanced | apps/mcp_egress_gateway/gateway/main.py:412-426 | Scanning a value's text peaks at its nesting depth and ends where it started, outside strings |
| JsonDepth.CharsStayInside | apps/mcp_egress_gateway/gateway/main.py:413-420 | Inside a string no bracket counts and only an unescaped quote ends it |
| JsonDepth.ClampNeverActed | apps/mcp_egress_gateway/gateway/main.py:426 | If the scans with and without the clamp end alike on a text, they were alike at every byte |
| Quota.DailyWindow | apps/api/app/usage/periods.py:64-66 | The day that holds a moment, and all moments of it have the same day |
| Quota.QuotaRows.ChargeCounter | apps/api/app/apps_catalog/agent_usage.py:139-154 | The conditional update charges exactly a row of the right period with room left, by one, and nothing else |
| Quota.QuotaRows.Consume | apps/api/app/apps_catalog/agent_usage.py:68-205 | Rows and result are those of the specification: one charge with its receipt, a replay that changes nothing, or a refusal |
| Quota.UsageIsConserved | apps/api/app/apps_catalog/agent_usage.py:139-195 | Over every run of admissions, with rollbacks, each counter's `used` is the number of reservations whose receipt names it |
| Quota.ExactlyTheQuotaIsCharged | apps/api/app/apps_catalog/agent_usage.py:75-80 | Under a constant limit L exactly min(N, L) of the N distinct requests decided on a day are charged, however days, workspaces, replays and rollbacks are interleaved |
| Quota.ReplayIsStable | apps/api/app/apps_catalog/agent_usage.py:207-258 | A charged request is answered by every later admission with its own period, counter and limit, on any day and under any limit, and no row changes |
| Quota.ReceiptsStayForGood | apps/api/app/apps_catalog/agent_usage.py:183-195 | No later admission touches a receipt |
| Quota.StepIs | apps/api/app/agent/admission.py:213-245 | An admission either charges exactly one reservation on one counter or leaves every row as it was |
| Quota.RefusedAtTheLimit | apps/api/app/apps_catalog/agent_usage.py:156-182 | The quota refuses only when the day's charges have reached the limit, and charges only below it |
| QuotaAnswers.AnswersAreTrue | apps/api/app/apps_catalog/agent_usage.py:68-280 | Over every run an admission is told the truth: a new charge is the next one of its UTC day and within the limit, a replay is the receipt of before, a refusal gives the number charged that day, the limit, the next midnight and a wait that reaches it, and no receipt turns out unusable |
| QuotaAnswers.ConsumesExactlyWhen | apps/api/app/apps_catalog/agent_usage.py:68-261 | On any rows a stored receipt is answered exactly when it is sound and its own counter is there, and a new request is charged exactly when the row of its day can be charged and has room |
| Quota.RetryAfterReachesTheReset | apps/api/app/apps_catalog/agent_usage.py:263-280 | Waiting the announced seconds reaches the next period, one second less does not, and it is never more than a day |
| Quota.InvHolds | apps/api/app/apps_catalog/agent_usage.py:68-205 | In every reachable state ids are distinct, usage equals charges, and every receipt names a row that a replay will find |
| Calendar.AddMonthsLands | apps/api/app/apps_catalog/calendar.py:18-32 | Adding months moves the month by exactly that many, clamps the day to the month's length and keeps the time, for every Gregorian year and negative counts too |
| Calendar.MonthLengthsAlternate | apps/api/app/apps_catalog/calendar.py:18-31 | Months but February alternate between 31 and 30 days from January and from August on, and February has 29 in leap years |
| Calendar.OrdinalOfNewYear | apps/api/app/apps_catalog/calendar.py:12-31 | Days are counted from 1 January of the year 1 by the Gregorian rule |
| Calendar.OrdinalOrders | apps/api/app/apps_catalog/calendar.py:18-32 | Day counts order dates as the calendar does, so advances in days are real |
| Calendar.OneMonthAdvances | apps/api/app/apps_catalog/calendar.py:18-32 | One month is 28 to 31 days, to the same time of day |
| Calendar.MonotoneOnDates | apps/api/app/apps_catalog/calendar.py:18-32 | On dates, adding months keeps the order |
| Calendar.OrderLostExactlyWhen | apps/api/app/apps_catalog/calendar.py:29-32 | With the time of day, two ordered moments change order exactly when both are cut back to one last day and the earlier has the later time |
| Calendar.OrderCanBeLost | apps/api/app/apps_catalog/calendar.py:29-32 | Two concrete moments that change order |
| Calendar.StackedLands | apps/api/app/apps_catalog/calendar.py:51-55 | k renewals of one month reach the month of one k-month step, on the least of the first day and every visited month's length |
| Calendar.StackingAgreesExactlyWhen | apps/api/app/apps_catalog/calendar.py:51-55 | Stacked renewals never pass the long step, and equal it exactly when no month on the way is shorter than its day |
| Calendar.ShortestDayIsLeast | apps/api/app/apps_catalog/calendar.py:29-31 | The day reached is a lower bound of all visited month lengths and one of them, or the first day |
| Calendar.RenewalExtends | apps/api/app/apps_catalog/calendar.py:40-55 | The renewed end lies 28 to 31 days after the later of the old end and the payment, so strictly later than both |
| Purchases.BillingRows.ApplySubscriptionPeriod | apps/api/app/apps_catalog/commerce.py:444-480 | All three branches give the renewal period; the plan changes only on a resubscription after the end; a renewal for another plan is refused |
| Purchases.BillingRows.FulfillSubscription | apps/api/app/apps_catalog/commerce.py:368-438 | A first payment starts a period, the same purchase again changes nothing, any other extends |
| Purchases.BillingRows.FulfillOneTime | apps/api/app/apps_catalog/commerce.py:259-366 | A license is granted, reactivated when it was not active, and otherwise left alone |
| Purchases.BillingRows.CompleteFromProvider | apps/api/app/billing/checkout.py:267-361 | Rows and result for every provider answer; a refusal leaves all rows alone |
| Purchases.BillingRows.CompleteOnReturn | apps/api/app/billing/checkout.py:211-240 | A browser return is admitted by its token and gateway code alone, in any status |
| Purchases.BillingRows.ReconcilePurchase | apps/api/app/billing/checkout.py:242-265 | A reconciliation is admitted only for a pending, redirected or paid purchase |
| PurchaseRuns.FulfilledExactlyWhen | apps/api/app/billing/checkout.py:211-361 | A call fulfils its purchase exactly when its door admits it, it is not paid yet, the provider confirms payment, amount and currency, and it is deliverable: readable goods, a place, and a renewal only for the plan the subscription has |
| BillingRules.CallComesTo | apps/api/app/billing/checkout.py:211-361 | Every call to complete a purchase is admitted by token, code and status, refused for a reason that is true, or makes the status what the provider's answer says, and changes nothing else but by a fulfilment |
| BillingRules.FulfilmentDelivers | apps/api/app/apps_catalog/commerce.py:259-438 | A fulfilment changes only the place of the purchase: an active license of this purchase unless one is active there, or a subscription whose latest purchase this is |
| PurchaseRuns.FulfilmentSucceedsExactlyWhen | apps/api/app/apps_catalog/commerce.py:368-457 | A fulfilment succeeds exactly for deliverable goods |
| PurchaseRuns.FulfilledAtMostOnce | apps/api/app/billing/checkout.py:267-361 | Over every history of checkouts, returns and reconciliations, each in one step, a purchase is paid exactly when it was fulfilled, and it is fulfilled at most once |
| PurchaseRuns.PaidIsAbsorbing | apps/api/app/billing/checkout.py:269-275 | In such a history a paid row never changes again |
| PurchaseRuns.FailedCanStillBePaid | apps/api/app/billing/checkout.py:484-498 | A purchase marked failed is fulfilled by a later return that the provider confirms, though it can no longer be reconciled |
| PurchaseRuns.FailedThenPaid | apps/api/app/billing/checkout.py:315-322 | A history in which the provider first names another amount, which marks the purchase failed, and then the right one, which pays it |
| PurchaseRuns.PeriodIsTheFold | apps/api/app/apps_catalog/commerce.py:368-480 | Over every history a subscription is the fold of the renewal rule over its payments, and the guard on the latest purchase never acts |
| PurchaseRuns.PaymentsAreDistinct | apps/api/app/apps_catalog/commerce.py:383-390 | No purchase is in that fold twice |
| PurchaseRuns.RenewalsPayTheCurrentPlan | apps/api/app/apps_catalog/commerce.py:453-457 | Over every history each fulfilled renewal was for the plan that the payments before it left |
| PurchaseRuns.EndGrows | apps/api/app/apps_catalog/commerce.py:476-479 | Each payment moves the end at least 28 days on, and n payments end at least 28 n days after the first |
| PurchaseRuns.LicenseIsTheFirstPaid | apps/api/app/apps_catalog/commerce.py:272-297 | A license is the one that its first payment granted |
| PurchaseRuns.InstalledExactlyWhenPaid | apps/api/app/apps_catalog/commerce.py:428-432 | An app is installed in a workspace exactly when something there was paid for |
| StaleReturns.FreshReturnIsTheCall | apps/api/app/billing/checkout.py:219-229 | A return that nothing overtakes between its read and its lock is the call of one step that the histories consist of |
| StaleReturns.StaleReturnIsHarmlessExactlyWhen | apps/api/app/billing/checkout.py:219-240 | A return that read the purchase before it was paid and is served after it changes nothing exactly when the provider confirms and the goods are still the last paid for there, or the answer is the status it had read |
| StaleReturns.StaleReturnPaysAgain | apps/api/app/billing/checkout.py:332-341 | Such a return of a subscription purchase that is no longer the last one extends the subscription by another month |
| StaleReturns.ThirdMonthForTwoPayments | apps/api/app/billing/checkout.py:219-229 | A history with two paid months after which such a return adds a third |
| ToolSchema.SchemaWalk.Collect | apps/api/app/agent/schemas.py:778-806 | The collector visits the nodes of `Visited` in order and refuses exactly when an anchor occurs twice among them |
| ToolSchema.SchemaWalk.Validate | apps/api/app/agent/schemas.py:639-776 | The validator visits the nodes of `Visited` in order, lists their references, and refuses exactly when a node is malformed |
| SchemaReferences.ValidateAgentToolSchema | apps/api/app/agent/schemas.py:533-579 | A schema is accepted exactly when its root, every visited node, its anchors, its references and the metaschema are in order, and then both walks have visited the same nodes in the same order |
| SchemaReferences.AcceptedReferencesResolve | apps/api/app/agent/schemas.py:556-565 | In an accepted schema each reference of every visited node is the root, an existing place, or an anchor that exactly one visited node declares |
| SchemaPlaces.VisitedExactlyThePlaces | apps/api/app/agent/schemas.py:281-299 | Both walks visit the root and whatever can be reached from it through the twenty keywords that hold schemas, and nothing else |
| SchemaKeywords.NodeOkExactlyWhen | apps/api/app/agent/schemas.py:639-776 | A node is well formed exactly when it is a boolean or an object in which every keyword allows its value |
| SchemaKeywords.AcceptedExactlyWhen | apps/api/app/agent/schemas.py:533-579 | A schema is accepted exactly when its root describes objects, every place in it is well formed, no anchor is declared twice, every reference in it is local and finds something, and the metaschema agrees |
| SchemaKeywords.AcceptedReferencesAreLocal | apps/api/app/agent/schemas.py:651-658 | In an accepted schema every `$ref` and `$dynamicRef`, at any depth, begins with `#` and finds the root, an existing place, or a declared anchor |
| SchemaReferences.AnchorHasOneNode | apps/api/app/agent/schemas.py:778-787 | An anchor that is declared without duplicates has one declaring node |
| SchemaReferences.JsonPointerExists | apps/api/app/agent/schemas.py:809-825 | The loop reports whether the pointer is empty or resolves token by token |
| PointerNumbers.ReadIntExactly | apps/api/app/agent/schemas.py:816-823 | A token counts as an index exactly when, without spaces around it and a sign, it is digits with single underscores between them, and as the number they make |
| SchemaReferences.PrintedPointerFinds | apps/api/app/agent/schemas.py:809-825 | For every path of a document, the pointer printed with the escaping of section 4 of RFC 6901 leads to the node at that path |
| SchemaReferences.ResolvesExactlyAlongAPath | apps/api/app/agent/schemas.py:809-825 | Tokens resolve exactly along a path of the document that answers them, names as escaped and indexes as `int` reads them from either end, to the node at its end |
| SchemaReferences.NamesExactlyWhenPlain | apps/api/app/agent/schemas.py:809-825 | Some path of the document is printed as a pointer exactly when its tokens resolve, every one that meets an array is the plain decimal of an index, and every one that meets an object is well escaped |
| SchemaReferences.FoundExactlyWhenNamed | apps/api/app/agent/schemas.py:809-825 | The answer is right about a pointer exactly when the pointer is plain or does not resolve, and about the empty one exactly when the document has a member with the empty name |
| SchemaReferences.EscapeRoundTrip | apps/api/app/agent/schemas.py:814 | Escaping a token and reading it back gives the token, although the two replacements run one after the other |
| SchemaReferences.NegativeIndexExists | apps/api/app/agent/schemas.py:818-823 | The pointer `-1` is found in exactly the non-empty arrays |
| SchemaReferences.LaxIndexesExist | apps/api/app/agent/schemas.py:818-823 | So are `+0` and `00`, and none of the three is plain |
| SchemaReferences.EmptyPointerIsUnchecked | apps/api/app/agent/schemas.py:811-812 | The pointer to the member with the empty name is found in a document that has no such member |
| ToolSchema.AddedExactlyWhenDistinct | apps/api/app/agent/schemas.py:779-787 | Adding names one by one succeeds exactly when they are distinct and new, and yields all of them |
| Redirects.Execute | apps/mcp_egress_gateway/gateway/service.py:58-140 | Against any replies and resolutions the sends run up to the first hop that ends the operation, each to its own target, with the request's headers while every hop had one origin and only the safe ones for good after that |
| Redirects.SendsAreBounded | apps/mcp_egress_gateway/gateway/service.py:76-138 | At most `max_redirects + 1` sends, at most one for POST, and a success reports sends minus one redirects and the last origin |
| Redirects.HeadersNeverGrow | apps/mcp_egress_gateway/gateway/service.py:127-136 | No send has a header that the one before it did not have |
| Redirects.CustomHeadersStayWithTheOrigin | apps/mcp_egress_gateway/gateway/service.py:127-136 | A custom header is sent at hop k exactly when hops 0 to k share one origin, even if a later hop returns to the first; safe headers are always sent |
| RedirectRules.ResultsAreExplained | apps/mcp_egress_gateway/gateway/service.py:76-138 | Every result has the reason it gives, in the reply to the last send or the target that was not resolved, and every earlier reply sent the client on |
| RedirectRules.OtherOriginsGetSafeHeadersOnly | apps/mcp_egress_gateway/gateway/service.py:127-136 | Once the origin has changed a send has exactly the request's `accept`, `accept-language` and `user-agent` headers, in any case |
| Sanitize.ScrubValue | apps/api/app/audit/sanitize.py:168-192 | The recursive loop computes the specification `Scrub` |
| Sanitize.ScrubCleans | apps/api/app/audit/sanitize.py:168-192 | Every scrubbed value is bounded in depth, list length and string length and has no blocked key at any depth |
| Sanitize.CleanExactlyWhenFixed | apps/api/app/audit/sanitize.py:168-192 | The clean values are exactly the fixed points of scrubbing |
| Sanitize.ScrubIsIdempotent | apps/api/app/audit/sanitize.py:168-192 | Scrubbing twice is scrubbing once, at every depth |
| Sanitize.SanitizeIsIdempotent | apps/api/app/audit/sanitize.py:143-157 | Sanitizing twice with one allowlist is sanitizing once |
| ScrubRules.BlockedExactly | apps/api/app/audit/sanitize.py:12-66 | A key is dropped exactly when it spells one of the blocked names, in any case and with hyphens for underscores |
| ScrubRules.ScrubKeeps | apps/api/app/audit/sanitize.py:168-192 | What a scrub keeps: the first 500 characters of a text, the first 50 items of a list, and for each allowed key the last value that leaves something |
| ScrubRules.StoredIsHarmless | apps/api/app/audit/sanitize.py:168-192 | Stored metadata has no blocked key at any depth, five levels, short texts and lists, and only allowed keys; it is what the scrub keeps, or nothing if something cannot be printed |
| Sanitize.ScrubsExactlyWhenPrintable | apps/api/app/audit/sanitize.py:168-192 | A scrub raises exactly when a key of a dictionary it goes through, or a value within its depth and list limits under a kept key, cannot be printed |
| Sanitize.EmptyExactlyWhen | apps/api/app/audit/sanitize.py:143-157 | Sanitized metadata is empty exactly when something kept cannot be printed or no kept key has a value |
| Sanitize.AllowlistsComposeExactlyWhen | apps/api/app/audit/sanitize.py:143-165 | Sanitizing with A and redacting with B equals sanitizing with their intersection exactly unless something A keeps cannot be printed, while all that both keep can be and some of it has a value |
| Sanitize.UnprintableValueEmptiesAll | apps/api/app/audit/sanitize.py:153-157 | A concrete metadata value for which the two differ |
| RateLimit.MemoryBuckets.Allow | apps/api/app/common/rate_limit.py:19-27 | A call is admitted exactly while fewer than `limit` kept times remain, and the key's bucket is pruned and extended accordingly |
| RateLimit.WindowHoldsTheLimit | apps/api/app/common/rate_limit.py:19-27 | Over every run with a clock that never goes back, each half-open window of the given length holds at most `limit` admissions of one key, however keys are interleaved |
| RateLimit.RefusedExactlyWhenFull | apps/api/app/common/rate_limit.py:24-25 | A call is refused exactly when the window ending with it already holds `limit` admissions of its key |

## Left out

- Sockets, TLS, DNS, the HTTP parser, the MCP SDK, URL joining and canonicalisation: each is an arbitrary choice of the environment, or a parameter such as strict UTF-8 decoding and the origin comparison of an endpoint.
- SQL, advisory-lock and Redis mechanics: rows are records, a transaction is one step, and a lock is its set of holders and its queue.
- Hashing, HMAC, encryption and random tokens: digests and fence keys are taken as injective, and handles and counter ids as values the environment picks.
- Closing of pruned sessions: not claimed, because the detached closer can be cancelled when expiry is rescheduled (apps/mcp_egress_gateway/gateway/mcp_client.py:1250-1252, 1469-1472, 1513-1517); background tasks may start at any time in the protocol, which allows more runs than the code has.
- WriteOutcome.WindowErrors: speaks of the write and the deadline, because the same statement about every request of the transport is false; the exact condition is `WriteOutcome.NothingRetryableExactlyWhen`.
- FenceProtocol.NoWaitCycle: the queue is the one PostgreSQL keeps, where a holder goes before those that do not hold; its deadlock detector, which can also reorder waiters or abort one of them, is not modelled.
- WriteOutcome.WriteOutcomeTracker.Attempt: the tracker is a class and a request by itself a method of it, but the transport is a machine over values, because its requests interleave at awaits; the fallback branch for a wire transport without `open_stream` is not modelled.
- Header bytes and lines of a response (`_BoundedHeaderReader`) and the tool paging of `_find_tool` are not modelled.
- Slug and target-key normalisation, and the text that `ip_network` parses: fences and networks are given in parsed form.
- The message digest, provider payloads and system-prompt composition of the transcript code; its error carries no parameter path.
- Numbers and literal names of JSON are taken as bytes without meaning for the scanner, which is a superset of those RFC 8259 allows.
- Quota.QuotaRows.Consume: the request id is already stripped, the entitlement is present, and counters of other metrics and period types are separate rows that the metric's updates never match.
- Quota.StepIs: the admission around the quota is only the reservation row, the charge and commit or rollback; the reservation code itself, which is taken to keep existing metadata, is not part of this model.
- Calendar.AddMonthsLands: years run through all integers, where Python stops with an error outside 1 to 9999; naive moments are already UTC.
- Purchases.BillingRows.FulfillSubscription: the unique-constraint race on the first insert, which the advisory lock excludes, is not modelled, and neither are status values written by cancellations, revocations and admin grants, which do not keep the period a fold.
- Purchases.BillingRows.CompleteOnReturn: reads and locks its row in one step, and so do the histories of `PurchaseRuns`; what the code does when another call comes between the read at apps/api/app/billing/checkout.py:219 and the lock, which does not refresh (apps/api/app/billing/repository.py:375-378), is in `StaleReturns`, for one return after such a history.
- SessionOwner.OwnerLeaves: the session is quiet at the start of the operation; commands that are cancelled before they begin, and the shutdown of the owner, are not modelled.
- FenceTransactions.FreeOfCyclesExactlyWhen: speaks of the runtime fences alone; row locks and the other advisory locks of the same transactions are not modelled.
- Purchases.BillingRows.CompleteFromProvider: amounts and currency codes are compared as already parsed; invoices, audit rows and the fulfilment of credit packs and workspace plans are outside.
- ToolSchema.SchemaWalk.Validate: keywords are walked in one fixed order, single ones before lists before maps, and a node's own keywords are checked before its subschemas, so which of several errors is reported is not modelled; regular expressions, percent-decoding and the metaschema are parameters, and integers too large for `math.isfinite` are not treated.
- SchemaReferences.JsonPointerExists: `int` is modelled on ASCII text, without its limit on the number of digits.
- Redirects.Execute: replies and resolutions are functions of the hop; response sizes are one flag, deadlines are part of a failing resolution or send, and header names are lowered as ASCII.
- Sanitize.SanitizeAuditMetadata: keys are lowered as ASCII, numbers pass as atoms, and redaction for reading is the same function with any allowlist in place of the fixed one.
- RateLimit.MemoryBuckets.Allow: times are reals, so float rounding is left out, and so is the Redis path.
- FastAPI routers, pydantic models, logging, tracing, seeds, catalog listings and all user interface code: plumbing or easy members.
