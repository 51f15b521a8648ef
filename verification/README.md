# Forgeloop dogfood runners and automation daemon, modelled in Dafny

Forgeloop checks itself with "dogfood" programs that drive its own public API, and runs its automation through a daemon. This project
models the stateful and the transforming parts of those programs and proves what they promise. Everything outside the programs (HTTP,
Docker, Postgres, Git, files, clocks, the JSON parser, the pattern bodies) is a parameter about which nothing, or only what is stated,
is assumed. Nothing was executed.

| part | modules | what it is about |
|---|---|---|
| event streams | `SseText`, `EventStream`, `TailRun`, `DeliverySse` | two incremental readers of server-sent events (a subset of sections 9.2.5 and 9.2.6 of the WHATWG HTML standard), a reconnecting tail, and a wait for one event |
| strict release run | `Effects`, `DurablePostgres`, `ReleaseMarkers`, `ReleaseRun`, `ReleaseSafety`, `ReleaseOwnership` | a staged run over a database, clients, apps and perhaps a container, any step of which may throw; its cleanup and its exit code |
| runtime dogfood | `Polling`, `BoundaryRecord`, `BoundaryRuns`, `BoundaryDriver`, `Evidence`, `SuperpowersRun` | a bounded wait, the driver of a boundary conversation, the gate over five phases of evidence, and the two put together |
| automation daemon | `Daemon` | stop and sleep in any interleaving of any number of loops |
| smaller cores | `Sanitizer`, `SanitizerTwice`, `Acceptance`, `Recovery`, `TomlPolicy` | a recursive redaction, a verdict over work items, a pigeonhole verdict, a text rewrite |

Code that changes state is a method or a class, proved against a specification function or a record of its calls; what the system promises
is then proved of that specification, for all inputs, all answers from outside and all interleavings.

## How effects are modelled

- In `Effects` an oracle gives the answer, or the exception, of the n-th call of a run, whatever the call is; a `World` records every call.
  In `ReleaseOwnership` the run's calls on its target are answered by what the Docker and Postgres calls behind them come to.
- In `Polling` and `BoundaryDriver` every answer is a function of the instant of the call, so "for every server" means "for every sequence
  of well-typed answers". Of the clock it is assumed that it does not go back, that a sleep lasts its interval, and that a round takes time.
- The interleavings of `Daemon` are runs of a state machine whose steps are the code between two awaits; the class holds the same segments
  as methods, and both are defined by the same functions `Stopped`, `Parked` and `Unparked`.

## Where the code is not what one would expect

Each is proved, and the lemmas named "exactly" say for all inputs when the expectation holds.

- `DeliverySse`: the wait decodes the whole buffer before it looks at any event, so the chunking can decide whether an event is found
  (`MessagesShareAChunk`). It cannot if and only if all closed frames decode or nothing before the first bad one is wanted
  (`CutIndependentExactly`).
- `DeliverySse`: the two parsers differ on arrays, and on nothing else where the text has no carriage return (`ReadersAgree`).
- `TailRun`: the server's `next_cursor` is that of its last raw event, public or not, so a run that emits nothing after its backfill can hold
  the cursor of an event that was never emitted (`PrivateEntryIsHeld`, `HeldCursorExactly`).
- `DurablePostgres`: a container is removed after a failed start only if `docker run` itself returned; when that call throws, there is no
  identifier to remove (`StartAccounts`).
- `Sanitizer`, `SanitizerTwice`: a count entry of the input survives when nothing is redacted (`CountFieldExactly`). A second pass over what
  the first one made can change it in two ways: a path under dirty entries that stays absolute (`AbsoluteSurvivors`), and a count that the
  second pass replaces by that of the placeholders alone (`TwoKindsOfRedaction`); `RecordTwice` says exactly when neither happens.
- `Acceptance`: a done work item without packages neither qualifies nor yields a blocker (`BlockedExactly`). A work item listed twice counts
  twice (`ListedTwiceIsEnough`); with each item listed once, entries are items (`QualifyingItemsExactly`).
- `Recovery`: a run counted twice can hide a lost one (`RepeatedIdsHideALoss`), and nothing else can (`BelievedExactly`).
- `TomlPolicy`: without a table header, or with stray carriage returns, a second rewrite can differ (`UnsettledWithoutTable`,
  `LastWriterWinsExactly`).
- `Polling`: an unreadable run session counts as no failure (`UnreadableSessionHidesFailure`, `FailureRuledOutExactly`).
- `BoundaryRecord`: a session without a status can end a wait and still be taken for the next turn (`TurnsAreFinished`).

## Model

| member | source | states |
|---|---|---|
| `SseText.CutIsStable` | scripts/tail-run-events.ts:169-170 | the leftmost delimiter found in a text keeps its place and extent whatever text follows |
| `SseText.SplitInInstalments` | scripts/tail-run-events.ts:167-170 | closed pieces and open piece of `a + b` come out the same when the open piece of `a` is kept and split again with `b`, even if the delimiter itself is cut |
| `SseText.ClosedGrows` | scripts/tail-run-events.ts:169-170 | pieces once closed stay closed and unchanged, for every continuation |
| `SseText.NotationsAgree` | scripts/delivery-dogfood.ts:402-407 | on text without carriage returns the `\r?\n` and `\n` notations split alike, at every piece |
| `EventStream.ConsumeAppend` | scripts/tail-run-events.ts:171-176 | frames handled in two batches give the same events, cursor and failure as in one |
| `EventStream.CursorFollowsEvents` | scripts/tail-run-events.ts:171-176 | when every event carries a cursor, the cursor held is that of the last event delivered |
| `EventStream.CutTextShowsPrefix` | scripts/tail-run-events.ts:164-177 | text cut at any character shows a prefix of the events, and fails only if the whole text does |
| `EventStream.DataOfEncoded` | scripts/tail-run-events.ts:126-136 | the data of an encoded frame is exactly the JSON text that was put in |
| `EventStream.EncodeRoundTrip` | scripts/tail-run-events.ts:126-136 | reading the encoding of any list of messages gives exactly their events, in order, without failing |
| `TailRun.HandleFrames` | scripts/tail-run-events.ts:171-176 | the nested loops deliver frame by frame and stop at the first frame that does not decode |
| `TailRun.HandleBuffer` | scripts/tail-run-events.ts:169-176 | one buffer: its outcome is that of its whole text, and the carry-over is its open piece |
| `TailRun.ReadSseUntilDisconnect` | scripts/tail-run-events.ts:143-181 | the loop over arriving chunks is the fold of one step a chunk, and a refused, broken or aborted stream throws what it has |
| `TailRun.ChunkInvariance` | scripts/tail-run-events.ts:143-181 | two ways of cutting the same text, anywhere, leave the incremental reader with the same events, cursor and failure, and the same buffer |
| `TailRun.StopsAtThrow` | scripts/tail-run-events.ts:163-180 | chunks after an undecodable frame leave the incremental reader as it was |
| `TailRun.IncrementalIsWhole` | scripts/tail-run-events.ts:160-177 | the fold over chunks, with its buffer and cursor, has the events, cursor and failure of the whole text split once, and carries over its open piece |
| `TailRun.RunTail` | scripts/tail-run-events.ts:183-219 | backfill and every reconnect as one fold over the connections: an error ends the run, the abort signal ends it silently, between connections or during one |
| `TailRun.HonestReadAdvances` | apps/control-plane-api/src/modules/run-control/run-control.service.ts:106-162 | one connection, cut anywhere, emits the next log segment and leaves the cursor at its end |
| `TailRun.TailFromIsSegment` | scripts/tail-run-events.ts:199-209 | any number of reconnects extends one contiguous segment |
| `TailRun.ExactlyOnce` | scripts/tail-run-events.ts:183-219 | over any number of reconnects and cuts the emitted events are exactly the public entries of one log segment starting after the requested cursor, in order and without duplicates; unless a rejection ended the run the cursor marks its end |
| `TailRun.HeldCursorExactly` | scripts/tail-run-events.ts:194-209 | a finished run that emitted anything after its backfill holds the last emitted event's cursor; one that did not holds it if and only if the last entry the backfill went past is public |
| `TailRun.PrivateEntryIsHeld` | apps/control-plane-api/src/modules/run-control/run-control.service.ts:113-119 | the log of a public and a private entry: over any number of silent reconnects the private one's cursor is held |
| `TailRun.CursorIsLastEmitted` | apps/control-plane-api/src/modules/run-control/run-control.service.ts:113-119 | a cursor at the end of a segment is its last public event's if and only if the segment ends with it |
| `DeliverySse.DecodeFrames` | scripts/delivery-dogfood.ts:405-417 | all events of the closed frames, or nothing when one does not decode |
| `DeliverySse.ParseSseData` | scripts/delivery-dogfood.ts:400-420 | succeeds if and only if the buffer's closed frames all decode, and then gives their events and the open piece |
| `DeliverySse.FindWanted` | scripts/delivery-dogfood.ts:467-473 | the first wanted event of a batch |
| `DeliverySse.WaitForSseEvent` | scripts/delivery-dogfood.ts:422-484 | an event is returned if and only if the text up to some chunk boundary decodes and has it as first match |
| `DeliverySse.DecodableStreamIsChunkInvariant` | scripts/delivery-dogfood.ts:422-484 | on decodable text the wait finds the first wanted event in stream order, however it is cut |
| `DeliverySse.CutIndependentExactly` | scripts/delivery-dogfood.ts:464-474 | the outcome is the same for all ways of cutting a text if and only if its closed frames all decode or no event before the first that does not is wanted |
| `DeliverySse.UndecodableStreamDependsOnCut` | scripts/delivery-dogfood.ts:464-474 | a wanted event before an undecodable frame is found when a chunk boundary separates them, and never when none does |
| `SseText.BeginningThatCloses` | scripts/delivery-dogfood.ts:402-403 | every number of closed pieces is reached by some beginning of the text |
| `DeliverySse.MessagesShareAChunk` | scripts/delivery-dogfood.ts:464-474 | the same with concrete encoded messages |
| `DeliverySse.FramesAgree` | scripts/delivery-dogfood.ts:405-417 | frame by frame the two parsers agree, save that the tail reader takes an array for an event |
| `DeliverySse.ReadersAgree` | scripts/delivery-dogfood.ts:400-420 | on decodable text without carriage returns the two readers give the same events if and only if no closed frame holds an array |
| `DurablePostgres.PlanDatabase` | scripts/dogfood/durable-postgres.ts:142-177 | when a plan comes out and which error otherwise; a given database is used as it is and never owned, another gets a made-up name, is dropped, and no container is removed |
| `DurablePostgres.StartDisposablePostgres` | scripts/dogfood/durable-postgres.ts:218-273 | the calls made, in order, for every pattern of failures; a failed `docker run`, a time-out and a time-out with a failed removal are told apart |
| `DurablePostgres.PollOnce` | scripts/dogfood/durable-postgres.ts:246-258 | one attempt: ready only when both calls answer and a candidate is found, with a pause only after an exception |
| `DurablePostgres.PollUntilReady` | scripts/dogfood/durable-postgres.ts:245-259 | attempts up to the first that is ready, at most the configured number |
| `DurablePostgres.PollsOnlyLook` | scripts/dogfood/durable-postgres.ts:245-259 | polling never removes anything and makes at most three calls an attempt |
| `DurablePostgres.StartAccounts` | scripts/dogfood/durable-postgres.ts:243-273 | removal of a container is attempted if and only if this run brought it up and never found it usable |
| `DurablePostgres.PlanStrictReleaseDogfoodDatabase` | scripts/dogfood/release-flow-core.ts:1100-1123 | the calls and the plan or error, for every answer |
| `DurablePostgres.PlanningAccounts` | scripts/dogfood/release-flow-core.ts:1100-1123 | a container is handed to the plan if and only if it was brought up and no removal was attempted; nothing else is removed; a given database makes no call at all |
| `DurablePostgres.RunSession` | scripts/dogfood/durable-postgres.ts:191-197 | an admin session: statements up to the first failure, success only if all of it succeeds |
| `DurablePostgres.CreateDatabase` | scripts/dogfood/durable-postgres.ts:186-198 | no call for a database the run does not own or may not reset; otherwise one session, successful exactly when name and all calls are good |
| `DurablePostgres.DropDatabase` | scripts/dogfood/durable-postgres.ts:200-216 | the same for dropping |
| `DurablePostgres.SessionEndsItsClient` | scripts/dogfood/durable-postgres.ts:191-197 | a client that connected is ended exactly once, as the last call, whatever throws |
| `DurablePostgres.OwnNamesAreQuotable` | scripts/dogfood/durable-postgres.ts:57-57 | every database name the program makes up passes its own quoting rule |
| `ReleaseMarkers.LastPassed` | scripts/dogfood/release-flow-core.ts:1194-1198 | the last passed marker of that name, none exactly when there is none |
| `ReleaseMarkers.WithCleanupFailureDetails` | scripts/dogfood/release-flow-core.ts:1142-1156 | cleanup failures fail the reset marker, keep its details and touch no other marker |
| `ReleaseMarkers.StatusCodeMeaning` | scripts/dogfood/release-flow-core.ts:318-333 | exit 0 if and only if every marker passed, or blocked runs are allowed and only closure markers are blocked |
| `ReleaseRun.RunDogfoodCleanup` | scripts/dogfood/release-flow-core.ts:335-369 | every action is attempted in order whatever the others do; the primary error wins over the first cleanup error |
| `ReleaseRun.CleanupStrictReleaseFlow` | scripts/dogfood/release-flow-core.ts:1865-1903 | cleans up what is held in the fixed order, reports all failures, throws nothing |
| `ReleaseRun.RunStages` | scripts/dogfood/release-flow-core.ts:1957-2012 | stages run in order up to the first that throws, and leave held exactly what that point implies |
| `ReleaseRun.SettleStages` | scripts/dogfood/release-flow-core.ts:2058-2074 | cleanup always runs and its failures are written over whatever markers there are |
| `ReleaseRun.RunStrictReleaseFlow` | scripts/dogfood/release-flow-core.ts:1905-2075 | the whole run: its calls and its verdict for every pattern of failures |
| `ReleaseSafety.CleanupCloses` | scripts/dogfood/release-flow-core.ts:1878-1889 | cleanup closes a resource if and only if it is held, once, and opens none |
| `ReleaseSafety.OpenedIsClosed` | scripts/dogfood/release-flow-core.ts:1957-2073 | in every run a resource whose opening succeeded has a close attempted later |
| `ReleaseSafety.ClosedOnlyOnce` | scripts/dogfood/release-flow-core.ts:1991-1994 | in every run a successful close is never followed by another close of the same resource |
| `ReleaseSafety.ResourceSafety` | scripts/dogfood/release-flow-core.ts:1905-2075 | apps and clients over the record of any run: every one opened has a close attempted later, none closed successfully is closed again |
| `ReleaseSafety.RunCleansUpInOrder` | scripts/dogfood/release-flow-core.ts:1957-2073 | in every run all that follows the forward calls is cleanup in its fixed order, and every drop and removal is there |
| `ReleaseSafety.CleanupOrderAndOwnership` | scripts/dogfood/release-flow-core.ts:1876-1894 | any cleanup list: closes, then the database, then the container, then registered actions; a container is removed if and only if the plan owns it |
| `ReleaseSafety.StagesOnlyGoForward` | scripts/dogfood/release-flow-core.ts:1957-2012 | no stage drops the database, removes a container or runs a registered cleanup |
| `ReleaseSafety.SuccessExit` | scripts/dogfood/release-flow-core.ts:2014-2041 | what the lifecycle's markers must be for a clean run to exit 0 |
| `ReleaseSafety.BlockedExit` | scripts/dogfood/release-flow-core.ts:1922-1945 | a blocked run exits 0 if and only if that is allowed and the report passes its scan; with a cleanup error never |
| `ReleaseSafety.FailureForcesExitOne` | scripts/dogfood/release-flow-core.ts:2042-2074 | with a prepared target any stage or cleanup error forces exit 1, even when blocked runs are allowed |
| `ReleaseSafety.ExitCodeExact` | scripts/release-flow-strict-dogfood.ts:22-42 | the exit code as an if-and-only-if, with and without a usable target, writing the report included |
| `ReleaseSafety.StrictExitZero` | scripts/release-flow-strict-dogfood.ts:22-42 | exit 0 without allowance implies every stage, the reopen check and all cleanup succeeded, full evidence, and every marker passed |
| `ReleaseOwnership.PerformOnTarget` | scripts/dogfood/release-flow-core.ts:1125-1130 | the calls on the target are carried out by creation, dropping and removal, and succeed exactly when those do |
| `ReleaseOwnership.PlanAndRun` | scripts/dogfood/release-flow-core.ts:1905-2075 | planning and the run in sequence: the calls of both, and the verdict |
| `ReleaseOwnership.RunOnTarget` | scripts/dogfood/release-flow-core.ts:1957-1963 | the Docker and Postgres calls behind a whole run are those of creation, dropping and removal in this order, and the run is told how each went |
| `ReleaseOwnership.ContainersAreAccountedFor` | scripts/dogfood/release-flow-core.ts:1125-1130 | over planning and run the containers brought up are exactly those whose removal is attempted, by one or the other |
| `ReleaseOwnership.CreatedIsDropped` | scripts/dogfood/release-flow-core.ts:1957-2073 | after a database was created the dropping session is begun, and drops it unless an answer on its way is an exception |
| `ReleaseOwnership.DatabaseIsOwn` | scripts/dogfood/durable-postgres.ts:186-216 | every statement of the whole run names the database the run made up |
| `ReleaseOwnership.GivenDatabaseIsLeftAlone` | scripts/dogfood/release-flow-core.ts:1107-1109 | with a given database the whole run makes no Docker or administrative Postgres call |
| `ReleaseOwnership.WholeRunIsAccountedFor` | scripts/dogfood/release-flow-core.ts:1905-2075 | all of it in one: apps, clients, containers, database and order, over planning, stages and cleanup, whatever throws anywhere |
| `ReleaseOwnership.StrictExitMeansTargetGone` | scripts/release-flow-strict-dogfood.ts:22-42 | exit 0 without allowance implies at the level of Postgres and Docker that the database was created and dropped and the own container removed |
| `Polling.PollOnce` | scripts/codex-runtime-superpowers-dogfood.ts:1742-1756 | one round returns, throws the first thing that goes wrong, or sleeps, and the calls it makes |
| `Polling.InvokeRemoteWorkerUntil` | scripts/codex-runtime-superpowers-dogfood.ts:1731-1758 | terminates with measure deadline minus now; every round but the last goes on and the last one decides the result |
| `Polling.ReturnedFactsHoldTogether` | scripts/codex-runtime-superpowers-dogfood.ts:1746-1752 | with stable facts, a returned value means observation, job success and action success hold together at one instant, and a readable run session has not failed by then |
| `Polling.FailureRuledOutExactly` | scripts/codex-runtime-superpowers-dogfood.ts:1515-1532 | for every returned value: that the run session has not failed up to the last inspection is certain if and only if the session reads open at it or later |
| `Polling.UnreadableSessionHidesFailure` | scripts/codex-runtime-superpowers-dogfood.ts:1515-1532 | a concrete wait that returns although its run session has failed, because it cannot be read |
| `Polling.RoundIsDetermined` | scripts/codex-runtime-superpowers-dogfood.ts:1741-1757 | each round does exactly one of returning, throwing and going on, with one value or error |
| `Polling.WaitIsDetermined` | scripts/codex-runtime-superpowers-dogfood.ts:1731-1758 | rounds and result of a wait are determined by its start |
| `Polling.SettledWaitReturns` | scripts/codex-runtime-superpowers-dogfood.ts:1750-1752 | once all is well, the first round begun in time from then on returns |
| `Polling.GivesUpOnlyWhenLate` | scripts/codex-runtime-superpowers-dogfood.ts:1742-1755 | the wait's own blocker is thrown only after the deadline |
| `Polling.RoundsFitTheTimeout` | scripts/codex-runtime-superpowers-dogfood.ts:1740-1757 | the rounds of a wait, an interval apart, fit into the time-out |
| `Polling.PositiveIntervalTicks` | scripts/codex-runtime-superpowers-dogfood.ts:1756-1756 | a positive poll interval is enough for every round to take time |
| `BoundaryRecord.DecisionsSeeWrites` | scripts/codex-runtime-superpowers-dogfood.ts:1934-1993 | between any post or worker run and the next decision lies a fetch of the very session decided on |
| `BoundaryRecord.TurnsAreFinished` | scripts/codex-runtime-superpowers-dogfood.ts:1941-1969 | between a turn and the next decision the worker has run, the turn's job was seen to succeed, and the session does not say that it is in its AI turn; it is taken for a turn again if and only if it says nothing and has no summary and no open question |
| `BoundaryRecord.JobsAtMostTurns` | scripts/codex-runtime-superpowers-dogfood.ts:1948-1952 | at most one runtime job a turn |
| `BoundaryRuns.TurnKeeps` | scripts/codex-runtime-superpowers-dogfood.ts:1941-1969 | a turn keeps every running total equal to its meaning over the record |
| `BoundaryRuns.LeaderKeeps` | scripts/codex-runtime-superpowers-dogfood.ts:1971-1994 | so does a leader visit, with the follow-up flag decided before the new answers are added |
| `BoundaryRuns.RequestKeeps` | scripts/codex-runtime-superpowers-dogfood.ts:2001-2006 | so does the change request |
| `BoundaryRuns.VerdictsSoFar` | scripts/codex-runtime-superpowers-dogfood.ts:1996-2026 | while the loop goes on nothing is approved, and one change is asked for once an initial conversation shows a summary |
| `BoundaryRuns.ChangeRequestsExactly` | scripts/codex-runtime-superpowers-dogfood.ts:1996-2052 | a returned initial run posted exactly one change request, a rebase none, the result says so, and one approval is posted if and only if the last visit saw a proposed summary |
| `BoundaryRuns.ThrownRunAsksAtMostOnce` | scripts/codex-runtime-superpowers-dogfood.ts:2001-2006 | even a run that throws posts at most one change request, none in a rebase, and at most one approval |
| `BoundaryRuns.AnsweredMeansPosted` | scripts/codex-runtime-superpowers-dogfood.ts:1972-1981 | the set of answered questions is exactly that of the answers due to be posted |
| `BoundaryRuns.ResultSumsUpTheRun` | scripts/codex-runtime-superpowers-dogfood.ts:2014-2025 | turns within budget, duplicate-free digests of exactly the turns' jobs and no more than turns, cleanup blocked if and only if some turn's job was, follow-up if and only if a leader visit saw a new open question after an answer |
| `BoundaryDriver.BoundaryDriver.constructor` | scripts/codex-runtime-superpowers-dogfood.ts:1157-1167 | a driver begins without session and cache |
| `BoundaryDriver.BoundaryDriver.FetchBoundarySession` | scripts/codex-runtime-superpowers-dogfood.ts:1563-1567 | caches what it fetched, and keeps the cache when it throws |
| `BoundaryDriver.BoundaryDriver.AnswerOpenBoundaryQuestions` | scripts/codex-runtime-superpowers-dogfood.ts:1591-1612 | posts the answers in order up to the first that throws; any answer posted empties the cache |
| `BoundaryDriver.BoundaryDriver.RequestBoundarySummaryChanges` | scripts/codex-runtime-superpowers-dogfood.ts:1637-1652 | one post, and an empty cache when it succeeds |
| `BoundaryDriver.BoundaryDriver.ApproveBoundarySummaryRevision` | scripts/codex-runtime-superpowers-dogfood.ts:1621-1636 | one post; the approved revision is the answer's first name for it, else the one asked for |
| `BoundaryDriver.BoundaryDriver.WaitForTurn` | scripts/codex-runtime-superpowers-dogfood.ts:1953-1961 | leaves in the cache a session read after the last worker run that does not say it is in its AI turn, with the job seen to succeed; an error is the wait's own, begun at the instant of the call |
| `BoundaryDriver.WaitEndsFresh` | scripts/codex-runtime-superpowers-dogfood.ts:1956-1959 | the calls of any completed wait end that way |
| `BoundaryDriver.BoundaryDriver.WorkTurn` | scripts/codex-runtime-superpowers-dogfood.ts:1953-1967 | the wait, then three readings of the job if the turn has one |
| `BoundaryDriver.BoundaryDriver.TakeTurn` | scripts/codex-runtime-superpowers-dogfood.ts:1941-1969 | a turn keeps the loop invariant or throws, beyond the budget always |
| `BoundaryDriver.BoundaryDriver.VisitLeader` | scripts/codex-runtime-superpowers-dogfood.ts:1971-1994 | all open questions answered and the continuation posted, or a beginning of that and an error |
| `BoundaryDriver.BoundaryDriver.VisitSummary` | scripts/codex-runtime-superpowers-dogfood.ts:1996-2026 | first summary of an initial conversation: a change request; otherwise an approval and the result |
| `BoundaryDriver.BoundaryDriver.VisitApproved` | scripts/codex-runtime-superpowers-dogfood.ts:2028-2052 | returns the approved revision, unless an initial conversation has asked for no change yet |
| `BoundaryDriver.BoundaryDriver.Iterate` | scripts/codex-runtime-superpowers-dogfood.ts:1937-2058 | one iteration for any status the server may show |
| `BoundaryDriver.BoundaryDriver.OpenSession` | scripts/codex-runtime-superpowers-dogfood.ts:1895-1934 | the worker is refreshed and the session created, or the first error ends the run there |
| `BoundaryDriver.BoundaryDriver.CompleteBoundaryBrainstorming` | scripts/codex-runtime-superpowers-dogfood.ts:1895-2064 | for every sequence of answers the loop ends within three times the budget; a returned run is orderly, posted exactly what its visits call for and is summed up by its result; a thrown run posted a beginning of that, each own error has its reason, and every other error is that of the last call of this run, of the wait just ended, or of the refresh it began with |
| `BoundaryDriver.ChangedSummaryCanBeReturned` | scripts/codex-runtime-superpowers-dogfood.ts:1996-2052 | returned initial runs exist: for any proposed summary that is found approved after the change request |
| `BoundaryDriver.ApprovedRebaseCanBeReturned` | scripts/codex-runtime-superpowers-dogfood.ts:2028-2052 | returned rebases exist: for any restarted session that is already approved |
| `Evidence.CollectExactly` | scripts/codex-runtime-superpowers-dogfood.ts:507-547 | collection succeeds if and only if both boundary modes are present, and gives the five phases in fixed order with their own evidence |
| `Evidence.DeriveExactly` | scripts/codex-runtime-superpowers-dogfood.ts:549-590 | evidence is derived if and only if there are phases and all are valid; aggregates are the first-occurrence unions; a blocker reports the first invalid phase's cleanup |
| `Evidence.PassMeansFullEvidence` | scripts/codex-runtime-superpowers-dogfood.ts:852-918 | a report comes out only with full evidence in all five phases and both coverages, and with these comes out if it renders and is written |
| `Evidence.BlockersCarryTheBase` | scripts/codex-runtime-superpowers-dogfood.ts:919-924 | every blocker leaves with a worktree base, its own if it had one, and is otherwise unchanged |
| `Prelude.UniqueKeepsFirstOrder` | scripts/codex-runtime-superpowers-dogfood.ts:490-490 | de-duplication keeps the order of first occurrences |
| `Prelude.GatherIsUnion` | scripts/codex-runtime-superpowers-dogfood.ts:569-571 | an aggregate list holds exactly the members of the phases' lists |
| `SuperpowersRun.PassOverTheDriver` | scripts/codex-runtime-superpowers-dogfood.ts:852-918 | a PASS over driven conversations: one change request in the first and none in the second, a follow-up seen, each with a real turn and no blocked cleanup, and the reported turns are those taken, between two and twice the budget |
| `SuperpowersRun.CoverageMissingExactly` | scripts/codex-runtime-superpowers-dogfood.ts:870-879 | with the driver, the coverage blocker is raised if and only if neither conversation saw a follow-up question |
| `Daemon.AutomationDaemon.constructor` | apps/automation-daemon/src/automation-daemon.ts:71-76 | a daemon begins running, without waiters |
| `Daemon.AutomationDaemon.Stop` | apps/automation-daemon/src/automation-daemon.ts:78-88 | empties the set and resolves each waiter in it once; a second stop changes nothing |
| `Daemon.AutomationDaemon.BeginSleep` | apps/automation-daemon/src/automation-daemon.ts:177-186 | registers a new waiter, and none once stopped |
| `Daemon.AutomationDaemon.EndSleep` | apps/automation-daemon/src/automation-daemon.ts:202-204 | removes that waiter only |
| `Daemon.AutomationDaemon.NextClaimToken` | apps/automation-daemon/src/automation-daemon.ts:169-175 | the configured token, or a new one with the next counter |
| `Daemon.TokensDiffer` | apps/automation-daemon/src/automation-daemon.ts:169-175 | tokens with different counters differ as strings, whatever identity and clock |
| `Daemon.DecimalInjective` | apps/automation-daemon/src/automation-daemon.ts:174-174 | different numbers are written differently |
| `Daemon.StepKeeps` | apps/automation-daemon/src/automation-daemon.ts:78-105 | every step of every interleaving keeps the invariant |
| `Daemon.EveryRunIsSafe` | apps/automation-daemon/src/automation-daemon.ts:78-205 | a parked sleep is registered or already resolved, the set is empty when nothing is parked or once stopped, no waiter is resolved twice, no iteration starts after a stop |
| `Daemon.StoppedLoopsWindDown` | apps/automation-daemon/src/automation-daemon.ts:90-105 | once stopped, each step of a loop uses up work |
| `Daemon.StopIsGraceful` | apps/automation-daemon/src/automation-daemon.ts:90-105 | so a bounded number of loop steps remains, in every continuation |
| `Daemon.StoppedLoopCanMove` | apps/automation-daemon/src/automation-daemon.ts:90-105 | and no unfinished loop is stuck |
| `Sanitizer.SanitizeStrictDetailValue` | scripts/dogfood/strict-local-codex.ts:654-694 | the loops over an array refine the recursive specification |
| `Sanitizer.SanitizeStrictDetailRecord` | scripts/dogfood/strict-local-codex.ts:696-724 | the loop over a record's entries refines it too |
| `Sanitizer.ValueIsClean` | scripts/dogfood/strict-local-codex.ts:654-694 | at every depth: no unsafe key, and outside dirty entries no unsafe string, survives |
| `Sanitizer.RecordIsClean` | scripts/dogfood/strict-local-codex.ts:696-724 | the same for whole records, the count entry included |
| `Sanitizer.ValueCount` | scripts/dogfood/strict-local-codex.ts:654-694 | what is kept and what is counted add up to what was there; under dirty entries the count is that of the placeholders |
| `Sanitizer.RecordCount` | scripts/dogfood/strict-local-codex.ts:698-717 | conservation for a record: dropped keys, dropped leaves and placeholders make up the count |
| `Sanitizer.ChargeOfFields` | scripts/dogfood/strict-local-codex.ts:698-717 | the count, from the input alone: unsafe keys, unsafe strings through arrays, and dirty entries with nothing to keep |
| `Sanitizer.CountFieldExactly` | scripts/dogfood/strict-local-codex.ts:719-724 | the count entry says how many redactions the record's entries call for if and only if they call for some or the input's own entry is absent or zero |
| `Sanitizer.CleanIsFixed` | scripts/dogfood/strict-local-codex.ts:654-724 | a clean value without dirty entries passes unchanged |
| `Sanitizer.Idempotent` | scripts/dogfood/strict-local-codex.ts:654-724 | a second pass changes nothing where there are no dirty entries |
| `Sanitizer.AbsoluteResult` | scripts/dogfood/strict-local-codex.ts:629-640 | what is kept of a path is absolute if and only if the path is absolute after normalisation and so is what follows its last marker |
| `Sanitizer.PlaceholderExactly` | scripts/dogfood/strict-local-codex.ts:629-640 | which paths become the placeholder |
| `Sanitizer.RelativeExactly` | scripts/dogfood/strict-local-codex.ts:629-640 | shortening a path twice changes nothing more if and only if it is not such a path |
| `SanitizerTwice.RecordTwice` | scripts/dogfood/strict-local-codex.ts:654-724 | for every record: a second pass changes nothing if and only if, in it and in every record below it that is kept, no path under dirty entries stays absolute and no placeholder is made beside another redaction |
| `SanitizerTwice.ValueTwice` | scripts/dogfood/strict-local-codex.ts:654-694 | the same for every value, at every depth |
| `SanitizerTwice.SecondCount` | scripts/dogfood/strict-local-codex.ts:696-724 | otherwise settled, a second pass counts the placeholders alone |
| `SanitizerTwice.DirtyPathIdempotentExactly` | scripts/dogfood/strict-local-codex.ts:705-710 | one path under a dirty-entries key is changed by a second pass if and only if it stays absolute |
| `SanitizerTwice.TwoKindsOfRedaction` | scripts/dogfood/strict-local-codex.ts:700-721 | a dropped key beside a placeholder: two redactions are reported, and one after a second pass |
| `Sanitizer.AbsoluteSurvivors` | scripts/dogfood/strict-local-codex.ts:634-638 | a family of paths that stay absolute |
| `Acceptance.ApprovedReviewPacketForRun` | scripts/delivery-dogfood-work-items.ts:235-246 | an approving packet for that package and run, none exactly when there is none |
| `Acceptance.PackageBlockedExactly` | scripts/delivery-dogfood-work-items.ts:274-364 | a package has no blocker if and only if its current run is a succeeded, non-workflow-only `local_codex` run with an approved packet and no missing artifact |
| `Acceptance.BlockedExactly` | scripts/delivery-dogfood-work-items.ts:262-383 | an item has no blocker if and only if it qualifies or is done without packages |
| `Acceptance.EvaluatePackage` | scripts/delivery-dogfood-work-items.ts:274-375 | blockers of one package, and its evidence exactly when there are none and the item is done |
| `Acceptance.EvaluatePackages` | scripts/delivery-dogfood-work-items.ts:274-376 | blockers accumulate over the packages and the first candidate is kept |
| `Acceptance.EvaluateItem` | scripts/delivery-dogfood-work-items.ts:257-383 | an item is accepted if and only if it qualifies, with evidence from its own package, run and packet |
| `Acceptance.EvaluateStrictLocalCodexAcceptance` | scripts/delivery-dogfood-work-items.ts:248-400 | one entry of evidence for each qualifying item, in input order; passed if and only if there are two or more; otherwise all blockers and the minimum |
| `Acceptance.QualifyingItemsExactly` | scripts/delivery-dogfood-work-items.ts:378-387 | the qualifying items are exactly those that qualify, as often as they were given |
| `Acceptance.ListedTwiceIsEnough` | scripts/delivery-dogfood-work-items.ts:385-387 | one qualifying item listed twice reaches the minimum |
| `Recovery.RecoveredIds` | scripts/automation-dogfood.ts:1042-1051 | as many recovered runs as pending ids if and only if every pending id is recovered |
| `Recovery.AccountedExactly` | scripts/automation-dogfood.ts:1044-1053 | with unique ids and kept keys the accounting holds if and only if pending runs have distinct ids and keys and each is there, succeeded, and alone under its key |
| `Recovery.AccountedIsSound` | scripts/automation-dogfood.ts:1049-1053 | the counting argument from left to right, for any number of runs |
| `Recovery.AccountedIsComplete` | scripts/automation-dogfood.ts:1049-1053 | and from right to left |
| `Recovery.RestartRecoveredIsSound` | scripts/automation-dogfood.ts:1021-1053 | a true verdict implies every run pending before the restart succeeded after it and owns its key |
| `Recovery.BelievedExactly` | scripts/automation-dogfood.ts:1042-1053 | with kept keys, a true accounting means that every pending run was recovered in place if and only if no recovered id is counted twice |
| `Recovery.RepeatedIdsHideALoss` | scripts/automation-dogfood.ts:1042-1053 | a repeated entry can stand in for a lost run |
| `TomlPolicy.SplitJoined` | scripts/codex-runtime-dogfood-bootstrap.ts:114-123 | splitting joined lines gives them back, less a return at each joint |
| `TomlPolicy.JoinIsInjective` | scripts/codex-runtime-dogfood-bootstrap.ts:123-123 | lists of lines with the same text are the same |
| `TomlPolicy.KindWithoutReturn` | scripts/codex-runtime-dogfood-bootstrap.ts:115-120 | a return at the end of a line never changes whether it is a header, a blank or a policy line |
| `TomlPolicy.ReadBack` | scripts/codex-runtime-dogfood-bootstrap.ts:115-122 | reading the output back finds the tables and, without the policy, the root |
| `TomlPolicy.SecondRoot` | scripts/codex-runtime-dogfood-bootstrap.ts:114-122 | what a second rewrite sees of the first one's text |
| `TomlPolicy.RewriteShape` | scripts/codex-runtime-dogfood-bootstrap.ts:109-124 | kept root lines in order, exactly one line for each policy key, tables verbatim |
| `TomlPolicy.LastWriterWinsExactly` | scripts/codex-runtime-dogfood-bootstrap.ts:109-124 | for every text and two targets, rewriting twice equals rewriting for the last target alone if and only if no joined line ends in a stray return and the root is settled |
| `TomlPolicy.LineFeedTextWithTable` | scripts/codex-runtime-dogfood-bootstrap.ts:109-124 | line-feed text with a table header always meets that condition |
| `TomlPolicy.UnsettledWithoutTable` | scripts/codex-runtime-dogfood-bootstrap.ts:117-120 | a text without header on which two rewrites differ from one |

## Left out

- HTTP, Nest, Docker, Git, Postgres and the file system: calls that answer or throw.
- JSON parsing, UTF-8 decoding and the pattern bodies of the redaction scans: uninterpreted functions; the frame delimiter, the table header and the policy keys are concrete.
- Wording of markers, blockers and error messages, report texts, digests and generated identifiers: left abstract.
- When the abort signal of the tail fires: any point between or during connections. The wait's time-out: the end of the chunks that arrive.
- TailRun.HonestReadAdvances: assumes that a connection sends a beginning of an honest text for the log, which is a statement about the server.
- TailRun.ExactlyOnce: after a rejected read the held cursor is only known to lie within the segment, because the code throws it away.
- The daemon's planning and claiming within one iteration, with its order of projection actions: an iteration is one step that returns or throws.
- Daemon.StopIsGraceful: an iteration that never settles keeps its loop alive, since the code does not interrupt it.
- Concurrency below the await, and the order in which JavaScript runs settled promises: any order is allowed.
- The release lifecycle itself (preflight, worker run, evidence of the strict run) and the readiness retry when an app is opened: one stage each.
- Discovery of a running container by parsing Docker's output: a parameter.
- ReleaseSafety.ExitCodeExact: the scans for unsafe text and writing the report are parameters, so the exit code is exact relative to them.
- ReleaseOwnership.WholeRunIsAccountedFor: resetting and using the database are single calls of the run; only its creation and dropping, and the container, are followed further.
- Answers that are not well-typed, such as `null` for an absent field: not modelled in the boundary driver.
- The order of the two schema readings within one job, and which artifacts they come from: one list a reading.
- Polling.InvokeRemoteWorkerUntil: with a poll interval of zero, which the configuration allows, termination rests on the assumption that each round takes time.
- The diagnostics attached to failed jobs and runs, and the reading of a job's identifier for a run: not part of the wait's outcome.
- Record keys in the sanitizer are a list of distinct keys in order; the engine's special order for integer keys and the `__proto__` key are not modelled.
- SanitizerTwice.RecordTwice: assumes of the patterns that the count's own key is neither an unsafe nor a dirty-entries key, which is so in the source.
- The classification of dirty sources, environment loaders and argument parsers: easy members.
- Sorting in the restart verdict: a parameter, since the verdict only compares the sorted list with a fixed one.
