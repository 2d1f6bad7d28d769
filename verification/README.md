# Verification of the computer-use control plane

A Dafny model of the FastAPI control plane under `backend/app` and of the retained demo code under
`computer_use_demo`, with machine-checked proofs of what they guarantee and of exactly where they stop
guaranteeing it. Verify the whole project with

    dafny verify --resource-limit 2000000 --verification-time-limit 0 --warn-contradictory-assumptions dfyconfig.toml

## What is modelled

**Event delivery** (`Events`, `Stream`, `Delivery`, `DeliverySafety`, `DeliveryExact`, `DeliveryTheorems`,
`StreamOverflow`, `BrowserGaps`, `StaleRecovery`; classes in `Broker` and `StreamServer`; wire format in `Json`,
`JsonText`, `Sse`, `EventText` and `ClientText`). A step system with an event table, a lossless FIFO per live
subscription, one server-side stream with its paged replay, bounded queue and pump, the frames on the wire, and the
browser: its list, cursor, selection version and the history requests it has in flight. Inserting a row (which assigns
its id), committing it, publishing it and failing to publish it are separate steps, so appends may overlap; a history
request is made, answered from the table and acted upon in separate steps, so its page may arrive after another
selection. The safety results hold for every interleaving. The exactness results need *serial* appends: at most one
append of the session between id assignment and the end of its publish. The code does not enforce this: the
RUN_COMPLETED append (`run_executor.py:109`) and those of a leaked callback worker run after the session is READY
again, so a new run may append beside them (`CompletingBesideWorking` reaches it, `OneBusyExecutor` says what else it
takes). `OverlapLosesAnEvent` gives a run in which two overlapping appends lose an event although no publish fails, so
the statement of `README.en.md:57` that the ordering prevents gaps holds only with serial appends and successful
publishes. `FailedPublishIsPassed` gives a serial run in which a failed publish is passed by the cursor; the log
message in `events.py:50` says that replay recovers such an event, and by `PassedStaysMissing` no reconnect does, only
a history page that holds it or a new selection. With no hypothesis at all, `GapFreeIffNothingOpened` says when one
connection has a gap.

The handler of a reset (`app.js:378-384`) adds its page and reconnects without comparing versions again. When the user
has made another selection meanwhile, the page goes into the list of that selection, and the stream opened is one whose
messages are all ignored. `StaleRecoveryLeavesAGap` is a serial run without a failed publish in which an event between the
new cursor and the page is never shown, `StaleRecoveryMixesSessions` one in which events of another session enter the
list. `ListIsOwnIff` and `BrowserIsCompleteIff` say exactly when this happens, over every run. With serial appends the
browser is complete up to its cursor, except for failed publishes, if the page of a reset is added under its own selection
only (`TimelyIsComplete`, the comparison the code lacks), hence for a user who makes no selection while such a request
is in flight (`BrowserIsComplete`).

**Session and run lifecycle** (`SessionRows`, `Lifecycle`, `LifecycleInvariants`, `LifecycleLogs`,
`LifecycleTranscript`, `LifecycleTheorems`, `LifecycleExecutors`, `LifecycleOutcomes`; class in `ControlPlane`). One
session's rows, with creations, stops, deletes, executors and leaked callback workers in flight. Each operation is cut
at its commits, keeps the row it loaded, and writes only the attributes it changed. The executor's last read of its
rows, its read of the next message number and its final commit are separate steps, because a stop can commit between
them. The partial unique index and the unique constraints on idempotency keys and message numbers are guards of the
commit. A run that fails with its callback buffer full leaves its worker alive, which may go on emitting for that run.
What runs, keys, numbers and executors satisfy over every interleaving needs no hypothesis (`AlwaysOrderly`), nor does
it that a CREATING session has no run (`CreatingHasNoRun`) and that a run is started at most once
(`StartedAtMostOnce`). The rest is exact:

- Event logs match run statuses over a run if and only if no step ends a COMPLETED run once more (the handler of an
  exception after the commit at `run_executor.py:103` rewrites it as FAILED) and no worker that outlived a FAILED run
  emits (`RunEventsMatchStatus`; `ErrorAfterCompletion` and `AgentEventAfterFailure` are concrete runs).
- The message log is the transcript of the runs if and only if no step ends a COMPLETED run once more or commits
  the answer of a run when a newer one has asked (`MessagesAreTranscript`, `OldAnswerOutOfPlace`). The second kind
  needs a reconciler that changes a session in creation (`UnmeddledTranscript`).
- Terminal statuses and the closed region after a stop or a delete are kept exactly by the steps that are not *late*,
  that is, do not end a run that is no longer active (`TerminalIsFinal`, `RegionIsClosed`, `LateFinishReopens`); a late
  one changes a run for good (`RegionIsForever`).
- READY means idle if finishes are *prompt* (never late) and sessions in creation are *unmeddled*, that is, not changed
  by the reconciler; `ReadyBreaksExactly` is the exact condition on a step, `MeddlingBreaksReady` a run in which the
  unique index then rejects a submission that passed the READY check.

**Runtime reconciler** (`Reconciler`; class in `ReconcilerPass`). One atomic pass over sessions and labelled runtimes
with an arbitrary set of failing deletes. Rows reach a fixpoint after one pass whatever fails. Retrying the failed
deletes converges only in part: `RetryConverges` proves that the next pass completes the first one if and only if no
failed delete concerned a session that the pass moved to STOPPED or FAILED, because such a session is not looked at
again. Runtime ids are unique in the table of sessions (`db/models/session.py:31`): `CommitIsUniqueIff` says for which
rows the commit of a pass respects that, and `OwnLabelsKept` that it always does when bindings agree with labels; the
other results are about passes that commit.

**Agent loop** (`Agent`, `AgentAnswers`; classes in `AgentRunner`). The loop over model responses, the callbacks it
produces and the conversation it sends, for every sequence of responses and tool outcomes; the callback adapter with
its bounded queue and worker, for every sequence of emit outcomes and every scheduling of the worker. After a callback
overflow the buffer is still full when `close` puts its stop marker, so `close` raises too and the worker is left
alone; it goes on delivering after the run has ended (`WorkOff`).

**Conversation upkeep** (`Conversation`, `ConversationAtoms`, `SampledTurns`; class in `SamplingLoop`). Image
truncation over nested tool results and cache breakpoints. The comment in `loop.py:309` relies on one new turn per
call; `NewTurnsIff` is the exact condition.

**Line editor** (`Text`, `TextMeaning`, `Editor`). Python's split, join, count, replace and expandtabs, and the four
commands over a file system. The check that the text to replace is unique counts occurrences that do not overlap
(`CountedOnceIff`, `OverlapCountedOnce`), and text copied from a file can be missed when tabs expand from another
column (`ExpandedOccurrenceIff` says exactly when, `ExpandedOccurrenceLost` is an example). Replacing the empty text
in an empty file writes the file and then raises.

**Coordinate scaling** (`Scaling`). Exact rational arithmetic with half-even rounding. The comment in
`computer.py:282` that both factors are below 1 is true of the x factor only: the aspect tolerance admits a target
that is higher than the screen (`HigherTarget`), and the round trip is the identity exactly when it is not. The bounds
check compares with the screen instead of the advertised size, so accepted points to the right of it or below it land
off the screen, on either axis exactly these (`AcceptedOffScreenIff`, `AcceptedBelowScreen`).

## Model

| member | source | states |
|---|---|---|
| `Events.ListAfterCorrect` | backend/app/repositories/events.py:15-34 | a page holds the session's rows above the cursor, strictly increasing, at most `limit`; a shorter page holds all of them, a full one every row up to its last id |
| `Events.SortByIdCorrect` | backend/app/static/app.js:297 | sorting rows with distinct ids permutes them into strictly increasing id order |
| `Broker.InMemoryBroker.Publish` | backend/app/events/broker.py:102-104 | every live subscription of the session gets the event at its end, no other queue changes |
| `Broker.InMemoryBroker.Subscribe` | backend/app/events/broker.py:106-110 | a new empty queue is registered under the session only |
| `Broker.InMemoryBroker.Unsubscribe` | backend/app/events/broker.py:92-93 | a closed subscription is registered nowhere, the others stay |
| `StreamServer.EventStream.ReplayPage` | backend/app/services/event_stream.py:102-115 | one pass of the replay loop is a page read and its sends of the step system |
| `StreamServer.EventStream.PumpOnce` | backend/app/services/event_stream.py:156-166 | one event pumped, or the queue collapsed to the overflow marker, as the step of which `OverflowsExactly` says when it overflows |
| `StreamServer.EventStream.Next` | backend/app/services/event_stream.py:121-144 | one item taken: sent, skipped as a duplicate, or the stream reset and ended |
| `StreamServer.EventStream.Open` | backend/app/services/event_stream.py:91-96 | a stream subscribes through the broker and starts as the connection of the step system |
| `StreamServer.EventStream.Publish` | backend/app/events/broker.py:102-104 | a publish to the session offers the event to the connection, one to another session offers it nothing |
| `StreamServer.EventStream.Close` | backend/app/services/event_stream.py:145-149 | after the end no publish reaches the subscription |
| `StreamServer.BrowserState.AddEvent` | backend/app/static/app.js:292-299 | a known id is ignored, a new event is inserted in order and moves the cursor |
| `StreamServer.BrowserState.HandleStreamMessage` | backend/app/static/app.js:387-391 | the event of a message is added under the current version only |
| `StreamServer.BrowserState.HandleReset` | backend/app/static/app.js:378-382 | under the current version the stream is closed and the rows after the cursor are asked for, under another nothing happens |
| `StreamServer.BrowserState.ReloadHistory` | backend/app/static/app.js:407-413 | the page is added event by event to whatever list is shown when it arrives |
| `StreamServer.BrowserState.FinishReset` | backend/app/static/app.js:382-383 | the page is added and a stream of the version of the reset replaces any other |
| `StreamServer.BrowserState.Select` | backend/app/static/app.js:315-318 | a selection takes a new version and closes the stream before its request |
| `StreamServer.BrowserState.FinishSelection` | backend/app/static/app.js:329-339 | an outdated page changes nothing, another replaces the list, with its largest id as cursor, and connects |
| `DeliverySafety.RunKeeps` | backend/app/services/event_stream.py:85-166 | the protocol invariant holds after every run, with no hypothesis on how appends overlap |
| `DeliveryTheorems.StreamIsSafe` | backend/app/services/event_stream.py:96-144 | over every run a stream emits only committed events of its session, above its cursor, in strictly increasing order |
| `DeliveryTheorems.LiveDeliveryIsPrefix` | backend/app/services/event_stream.py:131-166 | over every run the queue keeps its bound and is a contiguous part of the subscription or just the overflow marker; live delivery is the deduplicated prefix of the subscription |
| `StreamOverflow.OverflowsExactly` | backend/app/services/event_stream.py:151-166 | over every run a connection has overflowed if and only if its queue has a size above zero and exactly one event more than that was pumped and not consumed; never more are |
| `StreamOverflow.ResetIsSent` | backend/app/services/event_stream.py:130-138 | over every run a reset is on the wire only as the last frame of a connection that has ended, and it is there as long as the browser heeds the stream |
| `DeliveryTheorems.BrowserIsSafe` | backend/app/static/app.js:292-413 | over every run, late history pages included, the list is sorted, duplicate-free and committed, the cursor is its last id, and a stream that is heeded resumes there; `ListIsOwnIff` says when its events are all of the session shown |
| `DeliveryTheorems.ExactDelivery` | backend/app/services/event_stream.py:91-144 | with serial appends a connection has emitted exactly the committed events up to its last id, except failed publishes above the replay end |
| `DeliveryTheorems.GapFreeIffPublished` | backend/app/services/events.py:42-53 | with serial appends there is no gap if and only if no publish between replay end and last id failed |
| `DeliveryTheorems.GapGrowth` | backend/app/services/event_stream.py:102-144 | at each step of a held connection the missed events grow by exactly a set read off the state before |
| `DeliveryTheorems.GapFreeIffNothingOpened` | backend/app/services/event_stream.py:91-144 | without any hypothesis, no gap at the end if and only if none at the start and no step opened one |
| `DeliveryTheorems.OverlapLosesAnEvent` | backend/app/services/run_executor.py:103-114 | two overlapping appends and no failed publish: the browser's cursor passes an event it never shows |
| `DeliveryTheorems.FailedPublishIsPassed` | backend/app/services/events.py:46-53 | serial appends and one failed publish: the cursor passes the event |
| `BrowserGaps.AlwaysVersions` | backend/app/static/app.js:315-384 | over every run at most one request of the current version is in flight, and then no stream is heeded; a stream that is heeded is one of the session shown |
| `BrowserGaps.UnseenGrowth` | backend/app/static/app.js:292-299 | at each step the unseen events change by exactly the rows of a page added, a row committed at or below the cursor, the committed rows between the cursor and an event received, and the rows a page moves the cursor over |
| `BrowserGaps.ForeignGrowth` | backend/app/static/app.js:407-413 | events of another session enter the list exactly with the page of a reset received while that session was shown |
| `BrowserGaps.PassedStaysMissing` | backend/app/static/app.js:355-413 | an event the cursor has passed is shown by no later step but a history page that holds it or a new selection |
| `BrowserGaps.UnseenIsLeftBehind` | backend/app/static/app.js:355-413 | over any run the unseen events are exactly those left behind since the selection |
| `BrowserGaps.ListIsOwnIff` | backend/app/static/app.js:378-413 | over any run the list holds events of the session shown only, if and only if no page of a reset for another session was added since the selection |
| `BrowserGaps.BrowserIsCompleteIff` | backend/app/static/app.js:315-413 | with no hypothesis the list equals the committed events of the session shown up to the cursor if and only if nothing was left behind and no page of another session was added |
| `BrowserGaps.PageGapGrowth` | backend/app/repositories/events.py:15-34 | a page in flight leaves out of its range exactly the rows committed there after it was read |
| `BrowserGaps.SerialRecoveryPasses` | backend/app/static/app.js:407-413 | with serial appends the page of a reset makes the cursor pass exactly the rows up to the id it was asked after, none if it is added under its own selection |
| `BrowserGaps.TimelyIsComplete` | backend/app/static/app.js:378-384 | with serial appends and pages of resets added under their own selection only, every committed event up to the cursor is shown unless its publish failed; if none failed the list equals them |
| `BrowserGaps.UndisturbedIsTimely` | backend/app/static/app.js:315-384 | without a selection while the request of a reset is in flight every page is added under its own selection |
| `BrowserGaps.RecoveryContinues` | backend/app/static/app.js:378-413 | for a user who makes no selection while the request of a reset is in flight the page that arrives holds events of the session shown only, all above the cursor |
| `BrowserGaps.BrowserIsComplete` | backend/app/api/routes/sessions.py:173-186 | end to end, through drops, reconnects, resets and selections, the same for a user who makes no selection while the request of a reset is in flight |
| `StaleRecovery.StaleRecoveryLeavesAGap` | backend/app/static/app.js:378-384 | serial appends, no failed publish, the session selected again before the page of a reset arrives: the cursor passes an event that is not shown, and the stream opened is not heeded |
| `StaleRecovery.StaleRecoveryMixesSessions` | backend/app/static/app.js:407-413 | another session selected before the page of a reset arrives: its list holds events of the first one |
| `Json.DecimalRoundTrip` | backend/app/services/event_stream.py:25 | decimal ids are read back as the number written |
| `Sse.FrameIsRead` | backend/app/services/event_stream.py:22-34 | by section 9.2.6 of the WHATWG HTML Living Standard one frame is dispatched as its message, the retry frame sets the reconnection time 2000, and the reader is left clean; `ClientHearsFrames` says what the message means |
| `Sse.StreamRoundTrip` | backend/app/services/event_stream.py:99-144 | interpreting any concatenation of frames recovers the messages of the frames in order with id, type and data; retry, heartbeat and reset never change the last event id |
| `Sse.CutStream` | backend/app/services/event_stream.py:85-144 | a stream cut at any character has delivered exactly the frames that end before the cut, and the last id of these |
| `Sse.IdRoundTrip` | backend/app/api/routes/sessions.py:176-184 | the id a client sends back is the id of the event |
| `JsonText.ValueRoundTrip` | backend/app/services/event_stream.py:22-25 | parsing a rendered JSON value gives the value back, escapes included |
| `EventText.BrowserAddsEmittedEvents` | backend/app/static/app.js:370-391 | through encoding, the event-stream rules and JSON parsing the browser adds, wherever the connection is cut, exactly the events of the frames that end before the cut, in order |
| `EventText.ClientHearsFrames` | backend/app/static/app.js:370-391 | wherever the connection is cut, the listeners by name hear exactly the frames that end before the cut, in order: a heartbeat with its timestamp, a reset with its reason, an event under its own name as it was committed |
| `ClientText.TextIsReceived` | backend/app/static/app.js:370-391 | what the text of a stream does to the browser through its listeners is what receiving those frames does in the step system |
| `LifecycleInvariants.AlwaysOrderly` | backend/app/db/models/run.py:31-42 | over every interleaving only the newest run is active, keys are distinct, sequences are 1 to n, each run has one question, and executors and leaked workers know the statuses their runs can have |
| `LifecycleInvariants.UnusedIsNext` | backend/app/db/models/message.py:31-35 | the unique constraint lets an answer numbered earlier be committed only with the next number |
| `LifecycleLogs.LogsKeptIff` | backend/app/services/run_executor.py:83-132 | a step keeps all logs fitting their statuses if and only if it neither ends a completed run once more nor is an append of a worker that outlived a failed run |
| `LifecycleLogs.AlwaysLogs` | backend/app/services/run_executor.py:50-132 | over every run the logs fit as long as no step breaks one, and one is broken for good afterwards |
| `LifecycleTranscript.TranscriptKeptIff` | backend/app/services/run_executor.py:88-132 | a step keeps the transcript if and only if it neither ends a completed run once more nor answers an old run |
| `LifecycleTranscript.AlwaysTranscribed` | backend/app/services/run_executor.py:88-132 | over every run the transcript is kept as long as no step misplaces a message, and a misplaced message stays misplaced |
| `LifecycleTheorems.OneActiveRun` | backend/app/db/models/run.py:36-42 | every reachable state has at most one PENDING or RUNNING run |
| `LifecycleTheorems.CreatingHasNoRun` | backend/app/services/sessions.py:36-61 | over every interleaving a CREATING session has no run |
| `LifecycleTheorems.ReadyIsIdle` | backend/app/services/sessions.py:84-122 | prompt and unmeddled: READY means no active run, and the unique index rejects no submission that passed the READY check, except a reused empty key |
| `LifecycleTheorems.MessagesAreTranscript` | backend/app/services/sessions.py:112-120 | the message log is, for each run in creation order, its question and its answer exactly if COMPLETED, numbered 1 to n, if and only if no step ended a completed run once more or answered an old run |
| `LifecycleTheorems.UnmeddledTranscript` | backend/app/services/run_executor.py:83-108 | if sessions in creation are left alone, stops and deletes in the last window included, it is the transcript if and only if no exception followed a completion |
| `LifecycleTheorems.RunEventsMatchStatus` | backend/app/services/run_executor.py:52-132 | however often `execute` is called the events of every run match its status, if and only if no step ended a completed run once more or was an append of a worker that outlived a failed run |
| `LifecycleTheorems.RecordsTellStatus` | backend/app/services/run_executor.py:103-132 | in a matching log the answer is there exactly if the run is COMPLETED and RUN_FAILED exactly if FAILED |
| `LifecycleTheorems.TerminalIsFinal` | backend/app/services/run_executor.py:83-119 | terminal statuses are kept by a step if and only if it is not a late finish |
| `LifecycleTheorems.RegionIsEntered` | backend/app/services/sessions.py:166-201 | the last commit of a delete, and of a stop with no creation in flight, enters the closed region |
| `LifecycleTheorems.RegionIsClosed` | backend/app/services/run_executor.py:55-59 | a step keeps the region, the runs and the messages if and only if it is not a late finish |
| `LifecycleTheorems.RegionIsForever` | backend/app/services/sessions.py:146-201 | over any continuation nothing returns, changes or is added if and only if no finish is late |
| `LifecycleTheorems.SameKeySameRun` | backend/app/services/sessions.py:89-95 | after a successful submission every later one with the key gets the same run until the session is deleted |
| `LifecycleOutcomes.SubmitIff` | backend/app/services/sessions.py:84-122 | exactly when a submission gets which answer, read off the rows: not found if deleted, a replay if a run carries its nonempty key, a conflict if not READY, rejected by an index, otherwise created |
| `LifecycleOutcomes.SubmitAdds` | backend/app/services/sessions.py:102-122 | a created run is PENDING with its key, its question gets the next number and the session is RUNNING; any other submission changes nothing |
| `LifecycleOutcomes.CreationEnds` | backend/app/services/sessions.py:48-61 | a creation ends READY with its runtime or FAILED, whatever was written in between, and a delete in between stays |
| `LifecycleOutcomes.StopBegins` | backend/app/services/sessions.py:146-155 | a stop begins exactly if the session is not deleted, not in creation and not stopped |
| `LifecycleOutcomes.StopEnds` | backend/app/services/sessions.py:157-179 | a stop ends STOPPED with exactly the waiting runs cancelled, or FAILED with the runs left alone |
| `LifecycleOutcomes.StopFailsIff` | backend/app/services/sessions.py:157-164 | a stop can fail exactly if there is a runtime to stop |
| `LifecycleOutcomes.DeleteBegins` | backend/app/services/sessions.py:183-189 | a delete begins exactly if the session is not deleted |
| `LifecycleOutcomes.DeleteEnds` | backend/app/services/sessions.py:189-201 | a delete marks the row and cancels exactly the waiting runs; the status is STOPPED unless it was loaded as STOPPED |
| `LifecycleOutcomes.LossIsSilent` | backend/app/services/sessions.py:153-177 | an operation whose process dies between its commits leaves rows, messages and events as they are |
| `LifecycleOutcomes.ExecutorBegins` | backend/app/services/run_executor.py:52-75 | an executor begins exactly with a PENDING run of a session that is not deleted |
| `LifecycleOutcomes.ExecutorLoads` | backend/app/services/run_executor.py:83-86 | its last read ends the executor of a cancelled run and gives any other one its rows |
| `LifecycleOutcomes.AnswerIsNumbered` | backend/app/services/run_executor.py:94-96 | the number of an answer is one above those in use |
| `LifecycleOutcomes.ExecutorEnds` | backend/app/services/run_executor.py:88-132 | the final commit: one status, one event, for an answer one message, and the session READY unless its row was loaded as READY |
| `LifecycleTheorems.OneRowOneMessage` | backend/app/services/sessions.py:102-120 | a key names at most one run row and each run row has exactly one USER message |
| `LifecycleTheorems.ReadyBreaksExactly` | backend/app/services/sessions.py:56-59 | the exact steps after which READY no longer means idle |
| `LifecycleTheorems.LateFinishReopens` | backend/app/services/run_executor.py:83-108 | a stop between the executor's last read and its commit ends with a READY session and a COMPLETED cancelled run |
| `LifecycleTheorems.ErrorAfterCompletion` | backend/app/services/run_executor.py:115-132 | an exception after the COMPLETED commit leaves a FAILED run with an answer |
| `LifecycleTheorems.AgentEventAfterFailure` | backend/app/agents/anthropic_callbacks.py:30-35 | a run that failed by callback overflow gets an agent event after RUN_FAILED |
| `LifecycleTheorems.OldAnswerOutOfPlace` | backend/app/services/run_executor.py:83-108 | with a meddling reconciler a stopped run is answered after the next run has asked |
| `LifecycleTheorems.MeddlingBreaksReady` | backend/app/services/sessions.py:48-59 | the reconciler readies a session in creation, the creation writes READY over RUNNING, the next submission hits the index |
| `LifecycleExecutors.StartedAtMostOnce` | backend/app/services/run_executor.py:52-75 | over every interleaving a run has one RUN_STARTED if it is RUNNING, COMPLETED or FAILED, none if PENDING, at most one if CANCELLED |
| `LifecycleExecutors.OneBusyExecutor` | backend/app/services/run_executor.py:77-132 | prompt and unmeddled: an executor that has still to end its run is never beside another one or beside a PENDING run, and its run is active or the session over |
| `LifecycleExecutors.CompletingBesideWorking` | backend/app/services/run_executor.py:103-114 | prompt and unmeddled, the executor of a completed run is still to append RUN_COMPLETED while the next one appends |
| `ControlPlane.ControlPlane.Commit` | backend/app/services/sessions.py:177 | only attributes that differ from the loaded row are written |
| `ControlPlane.ControlPlane.FinishCreate` | backend/app/services/sessions.py:48-61 | the segment after the provider call is its step |
| `ControlPlane.ControlPlane.FindByKey` | backend/app/repositories/sessions.py:52-62 | finds the run of a key if there is one |
| `ControlPlane.ControlPlane.NextMessageSequence` | backend/app/repositories/sessions.py:86-90 | one more than the largest sequence, or 1 |
| `ControlPlane.ControlPlane.CheckSubmission` | backend/app/services/sessions.py:84-110 | the checks and the unique indexes answer as the submission of the step system, which `SubmitIff` characterises |
| `ControlPlane.ControlPlane.CreateRun` | backend/app/services/sessions.py:84-125 | replay, conflict, index rejection or a new run with its USER message, as its step, which `SubmitAdds` characterises |
| `ControlPlane.ControlPlane.BeginStop` | backend/app/services/sessions.py:146-155 | the segment up to the first commit of a stop is its step |
| `ControlPlane.ControlPlane.FinishStop` | backend/app/services/sessions.py:166-179 | active runs cancelled and the loaded row written as STOPPED |
| `ControlPlane.ControlPlane.FailStop` | backend/app/services/sessions.py:160-164 | a failed stop writes FAILED and leaves the runs |
| `ControlPlane.ControlPlane.FinishDelete` | backend/app/services/sessions.py:189-201 | active runs cancelled, the row STOPPED and deleted |
| `ControlPlane.ControlPlane.Start` | backend/app/services/run_executor.py:52-75 | a run starts if and only if it is PENDING and its session not deleted |
| `ControlPlane.ControlPlane.LoadRows` | backend/app/services/run_executor.py:83-86 | the executor's last read; a cancelled run ends here, and after an overflow the callback worker is left |
| `ControlPlane.ControlPlane.ReadSequence` | backend/app/services/run_executor.py:94-96 | the number of the answer is read before its commit |
| `ControlPlane.ControlPlane.SequenceUnused` | backend/app/db/models/message.py:31-35 | decides whether a message number is unused |
| `ControlPlane.ControlPlane.CompleteRun` | backend/app/services/run_executor.py:88-108 | answer, COMPLETED, READY and the event in one commit, which fails and changes nothing exactly if the number read before was taken |
| `ControlPlane.ControlPlane.FailRun` | backend/app/services/run_executor.py:115-132 | FAILED, READY and the event in one commit |
| `ControlPlane.ControlPlane.DrainLeft` | backend/app/services/run_executor.py:28-34 | a worker that outlived its run appends to its log |
| `ControlPlane.ControlPlane.CancelActiveRuns` | backend/app/services/sessions.py:167-174 | exactly the PENDING and RUNNING runs become CANCELLED |
| `Reconciler.VersionTellsChange` | backend/app/services/runtime_reconciler.py:50-92 | a row is changed exactly when its version grows, by at most two |
| `Reconciler.AliveStatusIff` | backend/app/services/runtime_reconciler.py:69-92 | the status of a live session after a pass, as an if-and-only-if for each status over its runtimes: bound one if listed, otherwise the first |
| `Reconciler.AliveIsBound` | backend/app/services/runtime_reconciler.py:69-82 | a live session is bound to the runtime that serves it, and keeps its binding without one |
| `Reconciler.OverRowStays` | backend/app/services/runtime_reconciler.py:52-67 | a row that is deleted or over stays as it is, except that it becomes EXPIRED when its time is over |
| `Reconciler.CreationWaits` | backend/app/services/runtime_reconciler.py:74-78 | a session in creation is changed only if a runtime carries its label |
| `Reconciler.DoomedIff` | backend/app/services/runtime_reconciler.py:45-72 | a pass tries to delete exactly the runtimes of unknown, deleted and expired sessions and those of a live session that do not serve it |
| `Reconciler.SelectedIsKept` | backend/app/services/runtime_reconciler.py:69-72 | no pass tries to delete the runtime it selected |
| `Reconciler.SessionsConverge` | backend/app/services/runtime_reconciler.py:45-94 | whatever deletes failed, rows are at a fixpoint after one pass |
| `Reconciler.DoomedAgain` | backend/app/services/runtime_reconciler.py:107-120 | the next pass retries exactly the failed deletes of sessions the first did not end |
| `Reconciler.CleanPassIsFinal` | backend/app/services/runtime_reconciler.py:34-94 | runtimes only shrink, and after a pass without failures a second one changes nothing |
| `Reconciler.CleanPassIsConsistent` | backend/app/services/runtime_reconciler.py:36-92 | afterwards every runtime belongs to a live session, and each served session is bound to its only, running runtime, shared with no other |
| `Reconciler.RetryConverges` | backend/app/services/runtime_reconciler.py:66-72 | a retrying pass completes a failed one if and only if no failed delete concerned a session the pass ended |
| `Reconciler.CommitIsUniqueIff` | backend/app/db/models/session.py:31 | the rows of a pass keep runtime ids unique if and only if no session is given a runtime that the row of another keeps |
| `Reconciler.OwnLabelsKept` | backend/app/services/runtime_reconciler.py:78-80 | if bindings agree with labels, a pass keeps that and the unique constraint |
| `ReconcilerPass.RuntimeReconciler.Reconcile` | backend/app/services/runtime_reconciler.py:34-94 | the loops compute the rows and runtimes of the pass, for every set of failing deletes; `AliveStatusIff` and `DoomedIff` say what these are |
| `ReconcilerPass.RuntimeReconciler.ReconcileSession` | backend/app/services/runtime_reconciler.py:50-92 | one session's row and deletions, as `AliveStatusIff`, `AliveIsBound`, `OverRowStays` and `DoomedIff` say |
| `Agent.CallbacksArePaired` | backend/app/agents/anthropic.py:109-153 | each TOOL_STARTED is directly followed by its TOOL_RESULT and optional screenshot, except the last one of a run whose tool raised |
| `Agent.ConversationAlternates` | backend/app/agents/anthropic.py:83-159 | roles alternate, and a continued turn answers each of its tool calls once, in order, if and only if it does not mix them with textual calls |
| `Agent.ResultsInOrder` | backend/app/agents/anthropic.py:118-127 | the k-th tool call of a response is answered with the result of the k-th tool run under its own id |
| `Agent.AnnouncedInOrder` | backend/app/agents/anthropic.py:109-126 | tool calls are announced in their order, all of them unless a tool raised |
| `Agent.ShownIsTold` | backend/app/agents/anthropic_callbacks.py:59-78 | the sink and the model get the same error flag and text, and an image exactly with a screenshot event |
| `AgentAnswers.ScanSays` | backend/app/agents/anthropic.py:109-127 | the texts kept are those called back; if no tool raised they are the nonempty text blocks without textual calls in order, the calls announced are the tool calls with names and inputs, and the proposed ones are collected in order |
| `AgentAnswers.ScanRaisesIff` | backend/app/agents/anthropic.py:118-127 | a scan ends early exactly if one of its tools raised |
| `AgentAnswers.TextualSays` | backend/app/agents/anthropic.py:141-153 | proposed calls are announced with names and inputs under made-up ids, in order, all of them unless a tool raised |
| `AgentAnswers.TextIdsDiffer` | backend/app/agents/anthropic.py:142 | the ids made up for proposed calls are distinct over a whole run |
| `AgentAnswers.ResultShown` | backend/app/agents/anthropic_callbacks.py:59-78 | the user is shown the error flag, the first 10000 characters of error or output, and a screenshot exactly if there is an image |
| `AgentAnswers.ResultTold` | backend/app/agents/anthropic.py:168-191 | the model is told the same flag and the whole words behind the system note, and gets the image |
| `AgentAnswers.ProposalTold` | backend/app/agents/anthropic.py:215-238 | of a proposed call the model is told the name, success or error, the words or that there are none, and gets the image |
| `AgentAnswers.TurnAnswered` | backend/app/agents/anthropic.py:157-158 | a response without calls is the answer |
| `AgentAnswers.TurnContinues` | backend/app/agents/anthropic.py:129-159 | any other response whose tools all returned is followed by the results of its calls, and the run goes on |
| `AgentAnswers.OutcomeIs` | backend/app/agents/anthropic.py:83-161 | how a run ends, exactly: answered with the words of the first response without calls, failed at a request that failed or a tool that raised, or out of turns; its conversation is the input and the responses, each followed by its results |
| `AgentAnswers.AnswerIsLastTurn` | backend/app/agents/anthropic.py:157-158 | the answer of a run is the words of the last turn of its conversation, which has no calls |
| `AgentAnswers.RunSays` | backend/app/agents/anthropic.py:89-159 | over a run that no failure ended the texts and calls called back are those of the responses heard, all in order |
| `AgentRunner.CallbackAdapter.Put` | backend/app/agents/anthropic_callbacks.py:93-97 | appends, or raises exactly when the queue is full |
| `AgentRunner.CallbackAdapter.WorkerStep` | backend/app/agents/anthropic_callbacks.py:99-105 | the item taken or emitted and what follows from it; what is delivered, in hand and queued stays the sequence produced, until an emit fails, and the worker dies exactly of the first emit that is not accepted |
| `AgentRunner.CallbackAdapter.Close` | backend/app/agents/anthropic_callbacks.py:30-35 | a normal return means the sink has everything; a full queue raises and leaves the worker as it is; otherwise it raises exactly if the sink does not accept all that was produced |
| `AgentRunner.CallbackAdapter.ToolOutputCallback` | backend/app/agents/anthropic_callbacks.py:59-78 | both callbacks of a result, or a proper prefix when it raises |
| `AgentRunner.AnthropicAgentRunner.RunBlocks` | backend/app/agents/anthropic.py:109-127 | the block loop produces the scan of the response, or a prefix of its callbacks when the buffer is full |
| `AgentRunner.AnthropicAgentRunner.RunFallback` | backend/app/agents/anthropic.py:129-154 | the textual calls are run in order under their own ids |
| `AgentRunner.AnthropicAgentRunner.Run` | backend/app/agents/anthropic.py:63-165 | the sink gets a paired prefix of the callbacks, in order, and all of them unless the buffer or the sink failed; the sink failed, if the buffer did not, exactly if it does not accept every callback of the run; if a callback was refused `close` raises too, with the buffer full and the worker not told to stop |
| `AgentRunner.AnthropicAgentRunner.WorkOff` | backend/app/agents/anthropic_callbacks.py:99-105 | a worker left alone by a full buffer later delivers everything produced, at least one callback more than the run had, if and only if the sink accepts all of it |
| `Conversation.OldestImagesGo` | computer_use_demo/loop.py:252-261 | truncation removes exactly the oldest images and keeps everything else in order |
| `ConversationAtoms.AtomsTellAll` | computer_use_demo/loop.py:229-261 | a conversation can be told back from the list it is read as, so nothing of it escapes what is said about the list |
| `Conversation.RemovedInChunks` | computer_use_demo/loop.py:248-250 | for every threshold but zero, negative ones included, images are removed in whole chunks, as many as the surplus holds |
| `Conversation.TruncationSettles` | computer_use_demo/loop.py:241-250 | k + ((T - k) mod t) of T >= k images are left, otherwise all; a second call removes nothing |
| `Conversation.InjectionFailsIff` | computer_use_demo/loop.py:296-310 | a call raises if and only if one of the last four turns has empty content |
| `Conversation.InjectionSettlesIff` | computer_use_demo/loop.py:287-310 | a call leaves exactly the last three turns marked if and only if no mark was beyond the last blocks of the last four turns |
| `Conversation.FirstMarks` | computer_use_demo/loop.py:287-310 | in a conversation without marks exactly the last blocks of the last three user turns that are lists are marked |
| `Conversation.NewTurnsIff` | computer_use_demo/loop.py:306-310 | the number of new turns per call for which the marks stay right, exactly |
| `Conversation.TwoNewTurnsLeaveAMark` | computer_use_demo/loop.py:309-310 | two new turns after three leave a stale mark |
| `SamplingLoop.FilterParts` | computer_use_demo/loop.py:254-261 | the inner loop drops the first images of one result and counts down |
| `SamplingLoop.Sampling.FilterImages` | computer_use_demo/loop.py:215-261 | the nested loops drop the first images of the conversation read as one list; only a zero threshold raises |
| `SamplingLoop.Sampling.VisitMessage` | computer_use_demo/loop.py:291-310 | one turn of the loop marks, unmarks or passes its message, or raises on empty content |
| `SamplingLoop.Sampling.InjectPromptCaching` | computer_use_demo/loop.py:287-310 | the backward loop computes the injection, with its marks so far when it raises |
| `SamplingLoop.Sampling.Exchange` | computer_use_demo/loop.py:111-212 | one request: what is sent and what the messages are afterwards hold what was said so far |
| `SampledTurns.InjectIsPlain` | computer_use_demo/loop.py:287-310 | setting cache marks changes nothing else of the conversation |
| `SamplingLoop.Sampling.Sample` | computer_use_demo/loop.py:111-212 | one request for each reply up to the first without results; request k holds the conversation given and the first k replies, each response followed by its results, of which preparing it changed marks, or with truncation dropped the oldest images, only; every cached request has the right marks and none raises; without caching every request has fewer than twice the wanted images, and at least the wanted ones if there are as many |
| `Text.SplitJoin` | computer_use_demo/tools/edit.py:220-233 | splitting joined lines gives the lines |
| `Text.ExpandedLine` | computer_use_demo/tools/edit.py:269-277 | expanding a text expands each of its lines on its own |
| `Text.ExpandFromColumn` | computer_use_demo/tools/edit.py:163-165 | text expands the same from two columns if and only if they agree modulo 8 or no tab comes before its first line break |
| `Text.ExpandedOccurrence` | computer_use_demo/tools/edit.py:163-172 | an occurrence at a tab stop or without early tabs survives the expansion |
| `Text.ExpandedOccurrenceIff` | computer_use_demo/tools/edit.py:163-172 | an occurrence survives the expansion at its place if and only if its first early tab keeps its width, or only blanks follow it and there are enough of them |
| `Text.ExpandedOccurrenceLost` | computer_use_demo/tools/edit.py:163-172 | a text that occurs verbatim can be reported as not found |
| `Text.CountedOnceIff` | computer_use_demo/tools/edit.py:168-173 | a text is counted once if and only if it occurs and every occurrence overlaps the first |
| `Text.CountIsMost` | computer_use_demo/tools/edit.py:168 | no choice of occurrences that do not overlap has more than the count |
| `Text.CountIsReached` | computer_use_demo/tools/edit.py:168 | some choice of occurrences that do not overlap has as many as the count |
| `Text.CountedNeverIff` | computer_use_demo/tools/edit.py:168-172 | a text is counted zero times if and only if it occurs nowhere |
| `Text.OverlapCountedOnce` | computer_use_demo/tools/edit.py:168-173 | the uniqueness check passes for a text that occurs twice |
| `Text.ReplacedOnce` | computer_use_demo/tools/edit.py:185 | replacing a text counted once gives before + new + after |
| `TextMeaning.ReplacedEverywhere` | computer_use_demo/tools/edit.py:185 | replacing puts the new text for the old one between the same pieces, one more than are counted, none of which holds the old text |
| `TextMeaning.TabFillsToStop` | computer_use_demo/tools/edit.py:163-165 | a tab becomes the blanks up to the next multiple of eight columns of the expanded line, any other character stays |
| `Text.ReadBackIff` | computer_use_demo/tools/edit.py:247-259 | a written text is read back unchanged if and only if it holds no carriage return |
| `TextMeaning.ReadLines` | computer_use_demo/tools/edit.py:247-252 | reading gives the lines of a file with line feeds between them, whichever of the three line ends each of them had |
| `Editor.SnippetShows` | computer_use_demo/tools/edit.py:261-282 | up to the cut, every numbered row is the line of that number, tabs expanded |
| `Editor.RowTellsLine` | computer_use_demo/tools/edit.py:272-277 | a numbered row determines its number and its line |
| `Editor.EditTool.Validate` | computer_use_demo/tools/edit.py:85-112 | a path is accepted exactly if it is absolute, exists and is a file or viewed; exactly when it gets which error |
| `Editor.EditTool.View` | computer_use_demo/tools/edit.py:113-158 | every range error, and otherwise exactly the lines of the range under their numbers |
| `Editor.EditTool.Create` | computer_use_demo/tools/edit.py:61-67 | writes a new file, never over an existing one |
| `Editor.EditTool.Insert` | computer_use_demo/tools/edit.py:208-245 | the lines written are old[:i] + new + old[i:] of the expanded text, and the rows shown are theirs |
| `Editor.InsertionShownIff` | computer_use_demo/tools/edit.py:226-230 | a line is shown exactly if it is new or within four lines of the new ones |
| `Editor.EditTool.StrReplace` | computer_use_demo/tools/edit.py:160-206 | written exactly when counted once, as before + new + after and tab-free, with its rows; the empty text in an empty file is written before the call raises |
| `Editor.ReplacementShownIff` | computer_use_demo/tools/edit.py:194-197 | a line is shown exactly if it is within four lines of the replacement |
| `Editor.LinesWithIff` | computer_use_demo/tools/edit.py:174-179 | the lines reported are exactly those that contain the text |
| `Editor.SeveralLinesNameNone` | computer_use_demo/tools/edit.py:174-179 | a text of several lines is reported in no line |
| `Scaling.TargetShrinks` | computer_use_demo/tools/computer.py:272-283 | a chosen target is narrower than the screen and less than twice as high |
| `Scaling.AspectIff` | computer_use_demo/tools/computer.py:272-276 | the aspect test is a difference of the two ratios below 0.02 |
| `Scaling.TargetIff` | computer_use_demo/tools/computer.py:274-281 | the target is the first one of the same aspect, if it is narrower than the screen |
| `Scaling.RefusedIff` | computer_use_demo/tools/computer.py:285-287 | a point is refused exactly if it comes from the model, lies beyond the screen and a target is chosen |
| `Scaling.ScaledIsNearest` | computer_use_demo/tools/computer.py:288-291 | an accepted point lands at the integers nearest to the exact quotients, and without a target where it was |
| `Scaling.AxisRoundTripIff` | computer_use_demo/tools/computer.py:283-291 | on one axis every accepted coordinate survives the round trip if and only if the screen is at least as large as the target |
| `Scaling.RoundTripIff` | computer_use_demo/tools/computer.py:268-291 | every accepted point survives the round trip if and only if the target is not higher than the screen |
| `Scaling.HigherTarget` | computer_use_demo/tools/computer.py:276-284 | a screen of 1025 by 760 gets a target 768 high, and y = 48 does not come back |
| `Scaling.AdvertisedLandsInside` | computer_use_demo/tools/computer.py:103-111 | the advertised size is the target, and its accepted points land on the screen |
| `Scaling.AcceptedOffScreenIff` | computer_use_demo/tools/computer.py:285-289 | on either axis an accepted point lands beyond the screen if and only if it is beyond the advertised size |
| `Scaling.AcceptedBelowScreen` | computer_use_demo/tools/computer.py:285-289 | on a screen of 2048 by 1536 the accepted point (0, 1000) lands at (0, 2000) |
| `Scaling.ScalingIsMonotone` | computer_use_demo/tools/computer.py:268-291 | scaling keeps the order of coordinates on both axes, in both directions |
| `Scaling.ComputerTool.ScaleCoordinates` | computer_use_demo/tools/computer.py:268-291 | the search loop and both directions compute the scaling of the chosen target |

## Left out

- Redis, PostgreSQL, SQLAlchemy, Docker and the Anthropic SDK: a FIFO per subscription, tables with commit guards, a list of runtimes and arbitrary responses stand for them; message loss while subscribed is not modelled.
- Time: heartbeats and timeouts are steps that may happen at any point; `now` is a parameter.
- Liveness: runs left RUNNING by an API crash are not recovered by the code, so only safety is claimed.
- Several sessions at once in the lifecycle: the theorems are about one session's rows; the event table and the reconciler hold many sessions.
- The reconciler inside the lifecycle is one atomic step on the session row; its own pass is atomic with respect to the other operations.
- `ControlPlane.ControlPlane.BeginDelete`: the provider's delete between load and commit is not a step of its own, it touches no row.
- noVNC tokens, JWT, health checks, configuration, container limits, the DOM and `streamlit.py`: input and output or one-branch code.
- Deleting or stopping the session shown: only the close of its stream is a step (`Close`); what the two handlers assign to the session shown, without comparing versions, is left out.
- The unique constraint on runtime ids inside `ReconcilerPass.RuntimeReconciler`: the rows are computed as if the commit succeeded.
- Parsing of textual tool calls: the parsed calls come with their text block.
- The agent's final text is given as its list of texts; joining, stripping and the default text are left out.
- What SQLAlchemy makes of a leaked worker that shares the database session of its executor: its appends are modelled as commits of their own.
- Exceptions of the model client other than its API errors, and `api_error` of the adapter, which nothing reads.
- `AgentRunner.AnthropicAgentRunner.Run`: how far the worker gets while the loop waits is one number per wait; cancellation of the run from outside is left out.
- `JsonText.ValueRoundTrip`: numbers with fractions are no values of the model: ids, sequences and strings are enough for the envelopes.
- `Sse.StreamRoundTrip`: works on characters; UTF-8 and the byte order mark are left out.
- Content blocks of the conversation that are not dictionaries, and two entries of a list that are the same object.
- `_response_to_params` and `_make_api_tool_result`: the blocks and results of a reply are inputs of the sampling loop.
- Editor input and output: unreadable files, failed writes, path normalisation and the directory listing command; `Listing` stands for its output.
- Screen sizes below zero, and floating-point error in the scale factors: the arithmetic is exact.
- `bash.py`, `remote_tools.py`, `run.py` (except the truncation of output) and the xdotool commands: process plumbing.
