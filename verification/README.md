# M2Harness: a verified model

M2Harness drives the solution of mathematical-modeling questions: workers lease a question, run its stages
(modeling, coding, review, finalize) as leased activities and commit results and artifacts to a store; a
scheduler runs a whole problem as a graph of tasks. This project models the five state machines at its core and
proves what every run keeps, over arbitrary interleavings of workers, crashes, lease expiries and clock readings.

How the files hang together:

- **The store.** `Store.dfy` gives every transaction of `HarnessStore` as one function on tables (a raise leaves the
  tables as they were). `HarnessStore.dfy` is the object with its tables as fields and its event log as hash-chained
  JSON text rows; every method is proved against its function. `EventCodec.dfy` writes and reads the event
  payloads. `StoreRuns.dfy`: what sequences of calls keep. `StoreAudit.dfy` proves that the log rebuilds the
  tables, `StoreCalls.dfy` what each call writes into the log, from its arguments alone, `Fencing.dfy` the properties of
  attempts and commits, `CommitHistory.dfy` that everything stored for an activity comes from one call, and
  `LeaseGrants.dfy` what a granted or renewed lease or claim allows afterwards.
- **Hashes, JSON and time.** `Json.dfy` and `JsonRoundTrip.dfy`: the canonical printer, a parser, and their round
  trip; `JsonText.dfy`: what the canonical texts look like. `HashChain.dfy`: the global chain. `AggregateLog.dfy`: the
  interleaved chain per aggregate with its outbox. `Timestamps.dfy`, `IsoText.dfy`, `LeaseClock.dfy`: the clock of the
  calendar, ISO texts that are ordered like the instants they stand for, and what that means for the store's lease
  tests. The digest is a parameter, any function to
  64-character texts; where a result needs more, the lemma hands back two texts with one digest, or a text that
  digests to zeros.
- **The question workflow.** `Workflow.dfy` is `run_step` as a state machine, one step per transaction or separate
  read. `WorkflowSafety.dfy` proves the evidence gate, and `GateVerdict.dfy` what a single review leads to;
  `WorkflowMoves.dfy`: the edges along which every run moves a question; `WorkflowBounds.dfy`, `WorkflowCounts.dfy` and
  `WorkflowAttempts.dfy` the bounds on transitions, activities and attempts; `WorkflowLoop.dfy` is
  `run_until_terminal`. `WorkflowRaces.dfy`: when a worker acts on what was committed. `WorkflowCourses.dfy` puts
  steps together to runs, and `WorkflowExamples.dfy` uses them to show that the bounds are exact. `WorkflowCalls.dfy`:
  several calls in flight under one worker id; `NoRevisions.dfy`: the gate when no revision is allowed.
- **The task graph.** `Dag.dfy`, `Kahn.dfy`, `DagValidator.dfy`: topological order and validation. `Scheduler.dfy`,
  `SchedulerInvariants.dfy`, `SchedulerReadiness.dfy`, `SchedulerExamples.dfy`: start, dispatch, unlock, publish,
  rollback, replan; `SchedulerHistory.dfy`: what a run of operations leaves in the records. `DispatchKeys.dfy`: the idempotency keys under which dispatch calls the tool. `GraphRun.dfy`: the
  graph run with its recursion limit, `GraphLimit.dfy`: what exhausts it. `Publication.dfy`: the final paper's checks.
- **The event-sourced engine.** `SingleQuestionV1.dfy` (the reducer), `FlowLog.dfy` (what the texts of a log say about
  the state it folds to), `EngineLog.dfy` (several engines, save and append
  as two writes), `Engine.dfy` (repository and engine as objects on the event store).
- **Tools and the solve loop.** `ToolStore.dfy`, `ToolRuntime.dfy`, `Tools.dfy`: idempotent tool calls; `ToolClock.dfy`: their
  leases in seconds of the calendar clock.
  `HumanControl.dfy`, `SolveLoop.dfy`: the bounded solve/repair loop with operator commands.
- `Contracts.dfy`, `Strings.dfy`, `Wrappers.dfy`: the shared records, code-point order on texts, and result types.

Where the program does not do what one might expect of it, the exact condition is proved and a run is given:

- `claim_activity` hands back a row that another worker committed without an error, and `run_step` executes all the
  same. With one worker per question the response acted on is the committed one; with two it can be any other
  (`WorkflowRaces.OneWorkerActsOnCommitted`, `WorkflowRaces.CompletionActsOnCommitted`,
  `WorkflowExamples.TwoWorkersCanDisagree`). The evidence gate reads committed rows and holds regardless.
- `_enter_stage` reads the question again after its transition committed. A worker that lost the lease in between
  can create one modeling activity of a later revision. So 2R+4 bounds the activities of a question if and only if no
  revision is allowed (R = 0); otherwise the exact bound is 2R+5, and for attempts (2R+4) x the configured number + 1
  (`WorkflowExamples.ActivityBoundIff`, `WorkflowExamples.AttemptBoundIff`).
- The store knows a caller by its worker id only. With one call in flight per worker id and question the evidence gate
  holds (`WorkflowSafety.EvidenceGate`, `WorkflowCalls.EvidenceGateForCalls`). Two calls of one worker id share the
  lease, and if revisions are allowed one of them can approve a revision on the evidence of an earlier one
  (`WorkflowCalls.TwoCallsPassTheGate`). So the gate holds in all runs with at most n such calls if and only if n is at
  most 1 or no revision is allowed (`WorkflowCalls.GateIffOneCall`).
- `rollback` makes a task READY without looking at its dependencies, and `replan` keeps a completed task on top of a
  changed one (`SchedulerReadiness.RunReadiness`, `SchedulerExamples.RollbackReadiness`,
  `SchedulerInvariants.ReplanClosure` and the two runs).
- `replan` starts the attempts of every task it does not keep again at 0, so the next dispatch of such a task calls the
  tool under a key that was used before, and gets the recorded result of then. The keys of a run are pairwise different if and only if no
  replan resets an attempted task that is dispatched again (`DispatchKeys.DispatchKeysDistinctIff`,
  `DispatchKeys.KeyComesBack`, `DispatchKeys.SolveTwice`).
- A BLOCKED solve result makes the task READY again at once. A run raises on its recursion limit if and only if it does
  not end by itself within it, and only BLOCKED results bring that about (`GraphRun.Run`,
  `GraphLimit.LimitNeedsBlocked`, `GraphLimit.BlockedExhaustsEveryLimit`).
- The engine's log is a prefix of the history, and a skipped event is never appended later
  (`EngineLog.LostCapsTheLog`, `EngineLog.OverlapLosesAnEvent`). The payload given to `apply_activity_result` may
  replace the stage it reports; then the save is refused (`SingleQuestionV1.AdmittedMovesOneVersion`).
- Between a tool call's cache write and its completion, its process can hand out a result that never gets on record
  (`ToolRuntime.WindowCanDisagree`). It takes a second reservation: all results agree if and only if all attempts to
  reserve lie within the seconds of one lease (`ToolRuntime.OneReservationAgrees`, `ToolClock.AgreementIff`).
- A checkpoint that sees an interrupt stops the call, whatever else was submitted (`SolveLoop.InterruptStopsIff`), as
  long as the context has passed no interrupt. The program itself makes no other context. For one handed in with a
  cursor past an interrupt, newer suggestions hide the interrupt (`SolveLoop.InterruptOverlookedIff`).
- Removing the tail of the log, or re-spacing a stored payload, is not detected by chain verification
  (`HashChain.TruncationIsNotDetected`, `HashChain.ReformattingIsNotDetected`). Given the head hash, what passes
  undetected is exactly what leaves every event the same (`HashChain.UndetectedIff`).

Check everything with `dafny verify dfyconfig.toml`.

## Model

| member | source | states |
|---|---|---|
| JsonRoundTrip.LoadsPrint | src/m2harness/store.py:35-38 | parsing the canonical text of any JSON value gives exactly that value back |
| JsonRoundTrip.PrintInjective | src/m2harness/infrastructure/db/sqlite_events.py:20-21 | two float-free values with the same canonical text are the same value, so the text under a hash determines the event |
| JsonRoundTrip.ReserialisationIsIdentity | src/m2harness/store.py:473-480 | loading a stored payload and writing it again gives the stored text, as `verify_event_chain` relies on |
| JsonRoundTrip.BlankDoesNotChangeValue | src/m2harness/store.py:474-474 | a blank after a canonical text does not change the value loaded from it |
| JsonText.ObjectText | src/m2harness/store.py:35-38 | the canonical text of an object is its fields in ascending code-point order of their keys, without blanks, between braces |
| JsonText.ObjectHasText | src/m2harness/store.py:35-38 | every object with a key has exactly such a list of fields: all of its keys, each once |
| JsonText.OnlyTheseAreEscaped | src/m2harness/store.py:35-38 | quote, backslash and control characters are escaped and no other character is |
| JsonText.DigestedText | src/m2harness/store.py:156-163 | an event row's hash is taken of the previous hash followed by the text of its eight columns in ascending order of their names |
| JsonText.RowText | src/m2harness/infrastructure/db/sqlite_events.py:104-121 | a domain event's hash is taken of the text of its thirteen columns in ascending order of their names |
| Timestamps.TextOrderIsInstantOrder | src/m2harness/store.py:281-317 | for valid UTC times, comparing isoformat texts character by character agrees with comparing the instants, with and without the fraction |
| Timestamps.FractionOrder | src/m2harness/store.py:287-287 | the optional six-digit fraction before the offset sorts like the microseconds, also when one text has none |
| Timestamps.SecondsLater | src/m2harness/store.py:281-282 | n ticks of the calendar clock, through minutes, days, months and leap years, are n seconds of the instant |
| IsoText.DateReads | src/m2harness/store.py:283-288 | year, month and day stand at their places in the text, with their marks |
| IsoText.TimeReads | src/m2harness/store.py:283-288 | then hour, minute and second, six digits of microseconds unless they are zero, and the offset of UTC |
| IsoText.TextDeterminesTime | src/m2harness/store.py:283-288 | different times have different texts |
| LeaseClock.LiveIsNumeric | src/m2harness/store.py:350-352 | on isoformat texts a claim is live if and only if it runs and the instant is not after its expiry |
| LeaseClock.HoldsClaimIsNumeric | src/m2harness/store.py:380-381 | on isoformat texts completing and failing need the newest claim at an instant not after its expiry |
| LeaseClock.AcquireIsNumeric | src/m2harness/store.py:286-288 | another worker gets the question if and only if the lease's expiry is not after the instant |
| LeaseClock.OwnerIsNumeric | src/m2harness/store.py:293-320 | the owner can renew and move the question if and only if the instant is not after the expiry |
| LeaseClock.ExpiryInstantIsShared | src/m2harness/store.py:287-317 | at the expiry instant itself the owner can still renew and another worker can already take over |
| LeaseGrants.GrantedLeaseWorks | src/m2harness/store.py:280-325 | after a granted acquisition or renewal up to a time the owner's renewals and its transitions from an expected state succeed at every reading up to that time, and another worker's acquisition is refused at every reading before it, whatever others call meanwhile |
| LeaseGrants.ReleasedIsFree | src/m2harness/store.py:302-308 | after a release any worker acquires the question at once, and the former owner can no longer renew |
| LeaseGrants.GrantedClaimWorks | src/m2harness/store.py:342-417 | after a granted claim its holder can renew, fail and complete the activity at every reading up to the expiry, and up to then nobody else can, nor claim it, whatever others call meanwhile |
| LeaseGrants.RenewedClaimWorks | src/m2harness/store.py:362-370 | the same for a renewed claim, up to its new expiry |
| HashChain.AppendVerifies | src/m2harness/store.py:148-169 | appending keeps a verifying log verifying |
| HashChain.VerifyEventChain | src/m2harness/store.py:468-484 | the verification loop accepts a log if and only if every row loads, links and hashes, and then returns the full count |
| HashChain.SameHeadSameEvents | src/m2harness/store.py:468-484 | two verifying logs with the same head hash are equal event by event, or the lemma returns a collision or a text with the zero digest |
| HashChain.SameEventsVerify | src/m2harness/store.py:473-483 | the converse: a log that equals a verifying one event by event verifies and has the same head hash |
| HashChain.UndetectedIff | src/m2harness/store.py:468-484 | given the head hash of a verifying log, another log passes in its place if and only if it is the same event by event, or the lemma returns a broken digest |
| HashChain.TruncationIsNotDetected | src/m2harness/store.py:468-484 | every proper prefix of a verifying log verifies too |
| HashChain.ReformattingIsNotDetected | src/m2harness/store.py:473-483 | re-spacing the last stored payload changes the log but neither verification nor the head |
| AggregateLog.Verify | src/m2harness/infrastructure/db/sqlite_events.py:147-173 | the single pass with two maps accepts a table of float-free payloads if and only if every aggregate's rows form a hash chain with versions 1 to n |
| AggregateLog.VerificationDecomposes | src/m2harness/infrastructure/db/sqlite_events.py:147-173 | the interleaved table is accepted if and only if each aggregate's rows are accepted on their own |
| AggregateLog.EveryInterleavingVerifies | src/m2harness/infrastructure/db/sqlite_events.py:83-131 | any sequence of append attempts with any expected versions leaves a table that verifies |
| AggregateLog.EventStore.Last | src/m2harness/infrastructure/db/sqlite_events.py:77-81 | the aggregate's row with the greatest version is the last of its chain |
| AggregateLog.EventStore.AppendDomain | src/m2harness/infrastructure/db/sqlite_events.py:83-131 | compare-and-swap on the aggregate's version; one event row and one outbox row together, or neither |
| AggregateLog.EventStore.Unpublished | src/m2harness/infrastructure/db/sqlite_events.py:175-186 | the oldest unpublished events in table order, all of them if fewer than the limit |
| AggregateLog.EventStore.MarkPublished | src/m2harness/infrastructure/db/sqlite_events.py:188-190 | exactly the outbox row of that event is marked |
| AggregateLog.PendingExactly | src/m2harness/infrastructure/db/sqlite_events.py:175-186 | the pending list holds an event if and only if some outbox row of it is unmarked |
| StoreAudit.LogRebuildsTables | src/m2harness/store.py:137-417 | after any sequence of store calls, replaying the log alone gives every project, every question's state, revision, version, failure reason and lease owner, every activity's status, attempts, error and worker, and the artifact ids |
| StoreCalls.CallIsLogged | src/m2harness/store.py:137-417 | every call writes at most one event, and the event holds what the call was given and the columns it found: owner and expiry, from and to, attempt, artifact ids, the first 4000 characters of an error |
| StoreCalls.EveryEventIsACall | src/m2harness/store.py:137-417 | after any calls the log holds nothing but such events, at most one for each call |
| StoreCalls.UnloggedColumns | src/m2harness/store.py:327-360 | what the log does not show: the stored request is that of the claim, and the creation time that of the call |
| Fencing.AttemptsAreConsecutive | src/m2harness/store.py:342-360 | the attempts granted for an activity are 1, 2, 3, ... and their number is the attempt column |
| Fencing.AttemptsAreBounded | src/m2harness/store.py:353-354 | when no claim asks for more than a maximum, no attempt beyond it is granted |
| Fencing.OnlyNewestLiveAttemptCommits | src/m2harness/store.py:372-403 | only a completion by the holder of the newest attempt, with a lease that has not run out, commits an activity |
| Fencing.SucceededIsAbsorbing | src/m2harness/store.py:348-349 | a committed activity row never changes again, whatever is called |
| Fencing.StaleAttemptIsFenced | src/m2harness/store.py:380-381 | a corollary of one step: an attempt other than the newest can neither complete nor fail the activity |
| Fencing.EvidenceIsExactAndInside | src/m2harness/store.py:386-398 | all stored evidence stays inside its question, and claim rows exist exactly for the non-blank claims of the stored result |
| CommitHistory.CommitIsOneCall | src/m2harness/store.py:372-403 | for every committed activity there is one completing call by the holder of its claim from which the stored result, every produced artifact, every claim row with its evidence, and the only commit event come |
| EventCodec.BodyRoundTrip | src/m2harness/store.py:171-417 | every event type and payload the store writes reads back as the same typed event |
| EventCodec.DecodeEncode | src/m2harness/store.py:148-169 | the text row written for an event decodes to that event |
| HarnessStore.InsertArtifacts | src/m2harness/store.py:382-385 | the artifact loop checks provenance, key and project of each in turn, and inserts all or reports the first failure |
| HarnessStore.InsertClaimRows | src/m2harness/store.py:389-398 | the claim loop stores each non-blank claim under its index once |
| HarnessStore.Select | src/m2harness/store.py:329-329 | finds the row of a question, stage and revision if and only if there is one |
| HarnessStore.CheckClaims | src/m2harness/store.py:437-444 | succeeds with the number of the question's claims if and only if all their evidence exists inside the question |
| HarnessStore.HarnessStore.constructor | src/m2harness/store.py:45-130 | an empty store is sound |
| HarnessStore.HarnessStore.AppendEvent | src/m2harness/store.py:148-169 | one more row linked to the last, and the decoded log grows by the event |
| HarnessStore.HarnessStore.CreateProject | src/m2harness/store.py:171-178 | the new tables and the result of the call, with the log's text kept in step |
| HarnessStore.HarnessStore.CreateQuestion | src/m2harness/store.py:187-206 | the problem artifact and the question row are inserted together, or the call raises and nothing changes |
| HarnessStore.HarnessStore.RegisterArtifact | src/m2harness/store.py:243-264 | provenance errors in order, else one artifact and one event |
| HarnessStore.HarnessStore.AcquireQuestionLease | src/m2harness/store.py:280-291 | refused only while another owner's lease lasts beyond now |
| HarnessStore.HarnessStore.RenewQuestionLease | src/m2harness/store.py:293-300 | extends only the caller's own lease that has not run out, without an event |
| HarnessStore.HarnessStore.ReleaseQuestionLease | src/m2harness/store.py:302-308 | clears only the caller's own lease |
| HarnessStore.HarnessStore.Transition | src/m2harness/store.py:310-325 | owner, live lease and expected state are checked in order; then state, revision, reason and version change together with the event |
| HarnessStore.HarnessStore.GetOrCreateActivity | src/m2harness/store.py:327-340 | the one row of the question, stage and revision, created if absent |
| HarnessStore.HarnessStore.ClaimActivity | src/m2harness/store.py:342-360 | a committed row is handed back, a live one or an exhausted one refused, otherwise the next attempt is granted |
| HarnessStore.HarnessStore.RenewActivityLease | src/m2harness/store.py:362-370 | extends only the caller's running attempt whose lease has not run out |
| HarnessStore.HarnessStore.CompleteActivity | src/m2harness/store.py:372-403 | artifacts, claims, result and event are committed together by the live attempt, or nothing changes |
| HarnessStore.HarnessStore.FailActivity | src/m2harness/store.py:405-417 | only the live attempt can fail the activity, with its error cut to 4000 characters |
| HarnessStore.HarnessStore.VerifyEventChain | src/m2harness/store.py:468-484 | over a store that only these methods changed, verification succeeds with the full count |
| HarnessStore.HarnessStore.VerifyClaimEvidence | src/m2harness/store.py:437-444 | over such a store, evidence verification succeeds with the number of claims |
| HarnessStore.HarnessStore.LogTextRebuildsTables | src/m2harness/store.py:137-417 | end to end: decoding and replaying the text of the log gives what the tables say |
| WorkflowSafety.EvidenceGate | src/m2harness/workflow.py:169-378 | over all interleavings with one call in flight per worker id and question, an APPROVED, FINALIZING or COMPLETED question has a committed modeling result and a committed coding result of its revision whose execution succeeded, whose validations are true for every name the model requires, and whose backend is not the remote interpreter, and is the local sandbox if the provider is qwen; a completed one has a committed final result with exactly one valid paper when that gate is on |
| WorkflowSafety.GateErrorIff | src/m2harness/workflow.py:350-379 | the gate reports nothing if and only if the two results meet these conditions |
| GateVerdict.ReviewVerdict | src/m2harness/workflow.py:329-338 | the step of an approving review: to APPROVED if and only if the rows it reads meet these conditions, to FAILED otherwise |
| GateVerdict.NoRowsNoApproval | src/m2harness/workflow.py:350-355 | without a committed model, or committed code of the revision, an approving review never leads to APPROVED |
| GateVerdict.VerdictMoves | src/m2harness/workflow.py:329-338 | the transition that follows changes the state from REVIEWING to the verdict's, with the failure reason if there is one |
| WorkflowMoves.RunFollowsEdges | src/m2harness/workflow.py:169-348 | whatever the workers did before, every step leaves a question in place or moves it by one version along one edge of the workflow; only a review that asks for revision changes the revision, by one and within the limit |
| WorkflowMoves.EndsAreFinal | src/m2harness/workflow.py:173-175 | a COMPLETED or FAILED question stays so through every later step |
| WorkflowMoves.RunIsStoreRun | src/m2harness/workflow.py:169-348 | the tables of every run of workers come from store calls alone, so that what is proved of all sequences of store calls holds of them |
| WorkflowSafety.EveryRunKeepsInv | src/m2harness/workflow.py:169-223 | with one call in flight per worker id and question: while a worker still owns the lease the question is where the worker last saw it |
| WorkflowCalls.OneCallIsWorkflow | src/m2harness/workflow.py:169-223 | any number of calls, at most one in flight per worker id and question at any time, leave tables that the workflow model reaches too |
| WorkflowCalls.EvidenceGateForCalls | src/m2harness/workflow.py:324-379 | the evidence gate for such calls |
| WorkflowCalls.TwoCallsPassTheGate | src/m2harness/store.py:309-320 | if revisions are allowed, two calls of one worker id can bring a question behind the gate without admissible evidence for its revision |
| WorkflowCalls.GateIffOneCall | src/m2harness/workflow.py:169-378 | the gate, with the final evidence of completed questions, holds in all runs with at most n calls in flight per worker id and question if and only if n is at most 1 or no revision is allowed |
| WorkflowCalls.NoRevisionsGate | src/m2harness/workflow.py:324-379 | with R = 0 the gate holds after any run, however many calls of one worker id are in flight |
| NoRevisions.StepIsSound | src/m2harness/workflow.py:169-379 | with R = 0 a step of a call that may have lost its lease keeps every row at revision 0 with its evidence, and takes nothing from what other calls know |
| WorkflowBounds.WorkflowIsBounded | src/m2harness/workflow.py:169-348 | at most 8+4R transitions per question, the revision stays within R, and no worker's step returns more than 2R+3 times with the question open |
| WorkflowLoop.RunUntilTerminal | src/m2harness/workflow.py:225-231 | the loop ends with the first step that raises or ends the question, and with its own error if and only if all steps return with the question open |
| WorkflowLoop.RunsOutIsAllOpen | src/m2harness/workflow.py:225-231 | on consecutive calls of one worker the loop gives up if and only if they all returned with the question open |
| WorkflowLoop.MovedByTransition | src/m2harness/workflow.py:324-348 | a worker looks back at the question only after a committed transition of its own |
| WorkflowLoop.OpenReturnHasMoved | src/m2harness/workflow.py:169-223 | a step returns with the question open only from that look back; a question found ended, an exhausted activity and an exception do not lead there |
| WorkflowExamples.StepsSufficeIff | src/m2harness/workflow.py:225-231 | the loop can never run out of its steps, whatever other workers do, if and only if it has at least 2R+4; the default of 100 is never used up |
| WorkflowBounds.LeasedActivitiesAreFewer | src/m2harness/store.py:327-340 | for a single run: if every activity in it was created by a worker that still owned the lease, the question has at most 2R+4 |
| WorkflowCounts.ActivitiesAreBounded | src/m2harness/workflow.py:233-255 | over all interleavings a question has at most 2R+5 activities, 2R+4 if R = 0, each attempted at most the configured number of times |
| WorkflowAttempts.AttemptsAreBounded | src/m2harness/store.py:342-360 | over all interleavings at most (2R+4) x the configured number of attempts are granted for a question, and one more if R >= 1, because the late modeling activity is claimed once |
| WorkflowExamples.BoundIsAttained | src/m2harness/workflow.py:233-255 | for all settings one run attains both bounds |
| WorkflowExamples.ActivityBoundIff | src/m2harness/workflow.py:233-255 | exactly which numbers bound the activities of a question, and 2R+4 does if and only if R = 0 |
| WorkflowExamples.AttemptBoundIff | src/m2harness/store.py:342-360 | exactly which numbers bound the attempts granted for a question |
| WorkflowRaces.OneWorkerActsOnCommitted | src/m2harness/workflow.py:169-223 | with one worker per question and any crashes the response acted on is the committed one, and a committed activity is not executed again |
| WorkflowRaces.CompletionActsOnCommitted | src/m2harness/store.py:378-379 | a corollary of one step: with any workers, completing leads to acting on the committed response if and only if the row was still open or holds that very response |
| WorkflowExamples.TwoWorkersCanDisagree | src/m2harness/store.py:348-349 | for every two modeling responses a run commits one and acts on the other |
| Dag.LeastTopologicalIsUnique | src/m2harness/domain/dag.py:83-105 | there is only one lexicographically least topological order |
| Dag.GreedyIsLeast | src/m2harness/domain/dag.py:92-102 | an order that always takes the least available task is no greater than any topological order |
| Dag.StuckMeansCycle | src/m2harness/domain/dag.py:103-104 | if every task left waits for another one left, the graph has a cycle |
| Dag.CycleHasNoOrder | src/m2harness/domain/dag.py:103-104 | a graph with a cycle has no topological order |
| Kahn.BuildChildren | src/m2harness/domain/dag.py:88-91 | the nested loops list each task under each of its dependencies, once for each mention |
| Kahn.TopologicalOrder | src/m2harness/domain/dag.py:83-105 | returns the least topological order of all ids if the graph has no cycle, and raises exactly when it has one |
| DagValidator.ReachableFromRoots | src/m2harness/domain/dag.py:107-121 | the stack walk returns exactly the tasks reachable from tasks without dependencies |
| DagValidator.EverythingIsReached | src/m2harness/domain/dag.py:74-80 | in an acyclic graph that is every task, so the reachability check never fails after the order succeeded |
| DagValidator.Validate | src/m2harness/domain/dag.py:50-81 | the validator accepts a table if and only if ids are unique, dependencies local, the one terminal publication task is the sink, there is no cycle and the least order ends in it |
| SchedulerInvariants.EveryCommittedStateIsSound | src/m2harness/application/main_harness.py:104-433 | after any operations no BLOCKED task has all dependencies COMPLETED, no RUNNING or REVISION_REQUIRED is stored, and a run is terminal exactly when all is COMPLETED and exactly when it has a report |
| SchedulerHistory.RunIsHistory | src/m2harness/application/main_harness.py:198-413 | after any run of operations a task is COMPLETED or FAILED as the last call that came back for it said, unless a rollback or a replan touched it since; its record refers to the last report stored for it; and the report ids of the run are those of its dispatches, in order |
| SchedulerHistory.DispatchCommitsIff | src/m2harness/application/main_harness.py:174-188 | a dispatch takes effect if and only if the task is a READY solve task all of whose dependencies are COMPLETED |
| SchedulerHistory.PublishCommitsIff | src/m2harness/application/main_harness.py:302-338 | a publication takes effect if and only if the paper is valid and all other tasks are COMPLETED |
| SchedulerHistory.WayBackCommitsIff | src/m2harness/application/main_harness.py:356-391 | rollback to a task of the table and replan take effect exactly while the run is not terminal |
| SchedulerHistory.ErrorTexts | src/m2harness/application/main_harness.py:245-300 | the attempt count grows by one, and the error that a record shows is the one that its call came back with |
| SchedulerHistory.RunColumns | src/m2harness/application/main_harness.py:302-413 | what publication, rollback and replan record: the final report and paper, and one decision with its reason and the tasks it concerns |
| SchedulerInvariants.FinishedThreeWays | src/m2harness/application/main_harness.py:302-338 | a corollary of the invariant in one state: terminal, all tasks COMPLETED and a final report coincide |
| SchedulerInvariants.BlockedResultIsReadyAgain | src/m2harness/application/main_harness.py:287-300 | a BLOCKED solve result is committed as READY |
| SchedulerInvariants.RollbackIsExact | src/m2harness/application/main_harness.py:356-383 | rollback resets exactly the task and its transitive dependents and leaves all other records |
| SchedulerInvariants.RollbackKeepsClosure | src/m2harness/application/main_harness.py:356-383 | if the COMPLETED set was closed under dependencies, it still is |
| SchedulerInvariants.ReplanClosure | src/m2harness/application/main_harness.py:385-413 | replan keeps the COMPLETED set closed if and only if every kept task's dependencies are unchanged |
| SchedulerInvariants.RunKeepsClosure | src/m2harness/application/main_harness.py:104-383 | start, dispatch, publish and rollback keep the COMPLETED set closed under dependencies |
| Scheduler.Affected | src/m2harness/application/main_harness.py:360-368 | the fixpoint loop ends with exactly the task and everything that depends on it |
| Scheduler.RunRollback | src/m2harness/application/main_harness.py:356-383 | the imperative rollback computes the specified state |
| Scheduler.RunUnlock | src/m2harness/application/main_harness.py:421-433 | the dictionary loop turns BLOCKED tasks whose dependencies are COMPLETED into READY ones, whatever the order |
| SchedulerExamples.RollbackReadiness | src/m2harness/application/main_harness.py:375-376 | rollback keeps "READY implies dependencies COMPLETED" if and only if the task's own dependencies are COMPLETED |
| SchedulerExamples.RollbackBreaksReadiness | src/m2harness/application/main_harness.py:375-376 | a rollback of a blocked task makes it READY too early |
| SchedulerExamples.ReplanBreaksClosure | src/m2harness/application/main_harness.py:393-402 | a replan of the first task keeps the second COMPLETED |
| SchedulerReadiness.RunReadiness | src/m2harness/application/main_harness.py:104-433 | in every state of a run of start, dispatch, publish, rollback and replan READY means that the dependencies are COMPLETED, if and only if every rollback that takes effect is of a task whose dependencies are COMPLETED |
| DispatchKeys.KeyTextIsInjective | src/m2harness/application/main_harness.py:236-236 | within a run the key's text determines task and attempt |
| DispatchKeys.KeysDistinctIff | src/m2harness/application/main_harness.py:385-413 | the keys of one task are pairwise different if and only if no replan resets it after an attempt and it is dispatched again |
| DispatchKeys.DispatchKeysDistinctIff | src/m2harness/application/main_harness.py:198-236 | over every run of operations the key texts of all dispatches are pairwise different if and only if no replan resets an attempted task that is dispatched again |
| DispatchKeys.KeyComesBack | src/m2harness/application/main_harness.py:403-404 | a plan, a changed plan and three operations after which two dispatches have used one key |
| DispatchKeys.SolveTwice | src/m2harness/application/tools.py:170-185 | of two calls under one key the second gets the recorded result of the first, whatever the handler would answer, and the handler does not run |
| GraphRun.DispatchAll | src/m2harness/application/langgraph_main_harness.py:65-125 | the dispatch rounds keep every scheduler invariant and shrink the open solve tasks |
| GraphRun.Run | src/m2harness/application/langgraph_main_harness.py:111-137 | if every solve result is COMPLETED or FAILED the run takes at most the solve tasks plus two steps, within the recursion limit; if all are COMPLETED it ends terminal with every task COMPLETED, dispatched in a topological order; a run that raises nothing ends published with a valid paper and every task COMPLETED, or with some solve task not COMPLETED and none that can be dispatched; for any results it raises on the recursion limit if and only if the step after which its route first leads away from dispatching, plus one if that is to the composition, does not come within the limit |
| GraphRun.NextSolve | src/m2harness/application/langgraph_main_harness.py:65-76 | the task dispatched next is the first in table order among the solve tasks that can be |
| GraphRun.LimitIsEnough | src/m2harness/application/langgraph_main_harness.py:125-125 | the recursion limit is the larger of 32 and the tasks times the iterations plus three, plus eight, and so more than the solve tasks plus two |
| GraphLimit.LimitNeedsBlocked | src/m2harness/application/langgraph_main_harness.py:111-128 | a run that exhausts the limit had at least limit - (solve tasks) - 1 BLOCKED results |
| GraphLimit.BlockedExhaustsEveryLimit | src/m2harness/application/langgraph_main_harness.py:86-102 | if all results are BLOCKED from some round on, with a solve task ready there, the run ends within no limit |
| GraphRun.NoSolveReadyMeansCompleted | src/m2harness/application/langgraph_main_harness.py:86-102 | a run that failed nothing and has no READY solve task has completed all of them |
| Publication.PublicationIsOnePaper | src/m2harness/publication.py:91-114 | the final artifacts are accepted if and only if exactly one is declared the paper, and it has a TeX name and a TeX media type, in any case, and a text that is a valid source |
| Publication.BalancedIffDepth | src/m2harness/publication.py:71-87 | the unescaped braces form a word of the bracket grammar if and only if the depth never falls below zero and ends at zero |
| Publication.BraceErrors | src/m2harness/publication.py:71-87 | the scan reports no brace error if and only if the braces with an even number of backslashes directly before them form a word of the bracket grammar |
| SingleQuestionV1.AdmittedMovesOneVersion | src/m2harness/application/workflow_engine.py:69-79 | an admitted request moves the workflow by one version if and only if its payload does not replace the stage it reports |
| FlowLog.HistoryReads | src/m2harness/workflows/single_question_v1.py:16-50 | what the texts of a log say: the results report ingest, modeling and rounds of coding, validation and review, each round followed by a revision if and only if its review wanted one, and by the final stage otherwise; the revision is the number of reviews that wanted one; the workflow is published if and only if the final stage was reported; pause, resume and cancel set their own flag and nothing else does |
| FlowLog.FinalAfterReview | src/m2harness/workflows/single_question_v1.py:42-49 | a workflow in the final stage, or published, has a last review that wanted no revision |
| FlowLog.StraightRun | src/m2harness/workflows/single_question_v1.py:34-50 | if no review wants a revision the results are the six stages in order, and the workflow is published with the sixth |
| FlowLog.PlannedIsAdmitted | src/m2harness/application/workflow_engine.py:69-74 | while a workflow goes on, a result is admitted if and only if it names the stage that its log leads to |
| EngineLog.EnginesFollowThePlan | src/m2harness/application/workflow_engine.py:59-98 | under any interleaving and crash of engines the log and the committed transitions are such histories, and the stored state is what the texts of the committed ones say |
| EngineLog.LogIsPrefixOfHistory | src/m2harness/application/workflow_engine.py:59-98 | under any interleaving and crash the log is a prefix of the committed transitions, and folding the reducer over it gives the state stored at that version |
| EngineLog.FoldIsStoredIffComplete | src/m2harness/application/workflow_engine.py:69-98 | replaying a non-empty log gives the stored state if and only if the log is as long as the stored version |
| EngineLog.AppendSucceedsIffInOrder | src/m2harness/infrastructure/db/sqlite_events.py:96-103 | an engine's append succeeds if and only if every earlier event is in the log, and otherwise its event is lost |
| EngineLog.LostCapsTheLog | src/m2harness/application/workflow_engine.py:76-79 | the log never grows past a lost event |
| EngineLog.BehindAtRestIsForever | src/m2harness/application/workflow_engine.py:76-79 | a log that is behind while nothing is in flight stays as it is for good |
| EngineLog.WholeOperationsKeepLogComplete | src/m2harness/application/workflow_engine.py:69-98 | without overlap or crash the log stays complete and its replay is the stored state |
| EngineLog.StartComesToRest | src/m2harness/application/workflow_engine.py:59-64 | start alone leaves a complete log |
| EngineLog.OverlapLosesAnEvent | src/m2harness/application/workflow_engine.py:76-79 | two engines that save in one order and append in the other lose an event without any crash |
| Engine.WorkflowRepository.Create | src/m2harness/application/workflow_engine.py:20-24 | refuses an existing workflow and stores a new one |
| Engine.WorkflowRepository.Save | src/m2harness/application/workflow_engine.py:32-39 | compare-and-swap: succeeds exactly for the expected stored version and its successor |
| Engine.ChainDeterminesLog | src/m2harness/infrastructure/db/sqlite_events.py:136-145 | the rows of an aggregate hold at most one event log |
| Engine.WorkflowEngine.Start | src/m2harness/application/workflow_engine.py:59-64 | a new workflow gets its initial state and a log of one started event, every other one stays in step |
| Engine.WorkflowEngine.Handle | src/m2harness/application/workflow_engine.py:69-98 | a request is answered and logged in step, or nothing changes, for every workflow of the store; with `Engine.InStepReads` every state it stores is the one that the texts of its log lead to |
| Engine.InStepReads | src/m2harness/application/workflow_engine.py:59-98 | a workflow that is in step with its log has the stage, the revision, the end and the flags that the texts of the log say |
| Engine.OperatorAnswers | src/m2harness/application/workflow_engine.py:81-98 | pause and resume set exactly the paused flag and cancel ends the workflow, in a new version |
| ToolStore.ToolExecutionStore.Reserve | src/m2harness/infrastructure/db/tool_runs.py:66-95 | reserves an absent key, or a running one that started more than the lease's seconds, at least one, before; never a completed one |
| ToolStore.ToolExecutionStore.Complete | src/m2harness/infrastructure/db/tool_runs.py:97-105 | completes a running key for the holder of its token only |
| ToolRuntime.HandlerRunsAreBounded | src/m2harness/application/tools.py:168-210 | the handler runs at most once per reservation, and reservations after the first are more than the lease's seconds apart |
| ToolRuntime.OnlyNewestTokenCompletes | src/m2harness/infrastructure/db/tool_runs.py:97-105 | a row is completed only by the newest reservation, with that call's result |
| ToolRuntime.CompletedForever | src/m2harness/infrastructure/db/tool_runs.py:66-105 | a completed row stays as it is and is never reserved again |
| ToolRuntime.RecordedResultsAgree | src/m2harness/application/tools.py:168-246 | results from the store and from own completions are the one on record; a cached one too, unless a call of that process is between cache write and completion |
| ToolRuntime.AllAnswersAgree | src/m2harness/application/tools.py:229-243 | with cache write and completion as one step, every recorded result ever given back is the same |
| ToolRuntime.WindowCanDisagree | src/m2harness/application/tools.py:229-243 | for every two results a run with two reservations, just over a lease apart, gives back one from the cache and records the other |
| ToolRuntime.OneReservationAgrees | src/m2harness/application/tools.py:168-246 | with at most one reservation all results ever given back are the same, through crashes, store failures and cache answers |
| ToolRuntime.AgreementIff | src/m2harness/infrastructure/db/tool_runs.py:66-95 | in all runs whose attempts to reserve lie within so many microseconds all results given back agree, if and only if these are at most a million for each second of the lease |
| ToolClock.ReserveAt | src/m2harness/infrastructure/db/tool_runs.py:66-95 | for a key that has been running since one date and time, a reservation at another succeeds if and only if that is later than the first by more ticks of the calendar clock than the lease has seconds |
| ToolClock.ReservationsApart | src/m2harness/infrastructure/db/tool_runs.py:66-95 | a later reservation of a key comes after the end of the lease of the one before, on that clock |
| ToolClock.AgreementIff | src/m2harness/infrastructure/db/tool_runs.py:66-95 | in all runs whose attempts to reserve lie within n seconds from some date and time on all results given back agree, if and only if n is at most the seconds of the lease |
| Tools.ToolRuntime.Execute | src/m2harness/application/tools.py:168-246 | one call after another: a recorded result is given back and nothing runs, otherwise the handler runs once if nobody holds the key and its outcome is on record, in process and store |
| HumanControl.HumanControlStore.Append | src/m2harness/human_control.py:148-175 | the new command has the greatest readable number plus one; blank and overlong messages are refused |
| HumanControl.HumanControlStore.Pending | src/m2harness/human_control.py:64-88 | exactly the readable commands after the cursor, in order |
| SolveLoop.InterruptStopsIff | src/m2harness/application/solve_problem.py:836-879 | for a context that has passed no interrupt a checkpoint goes on if and only if no interrupt is in the file, and the context has still passed none |
| SolveLoop.StopReason | src/m2harness/application/solve_problem.py:862-873 | a checkpoint that stops the call gives as its reason the message of the first interrupt among the commands after the cursor, or the fixed text if nothing came after it |
| SolveLoop.InterruptOverlookedIff | src/m2harness/application/solve_problem.py:853-877 | for any cursor a caller may hand in: with an interrupt in the file a checkpoint goes on if and only if newer commands came and all are suggestions |
| SolveLoop.InterruptCanBeOverlooked | src/m2harness/application/solve_problem.py:853-877 | such a file, with a cursor handed in past its interrupt, exists |
| SolveLoop.CheckpointHearsAll | src/m2harness/application/solve_problem.py:836-879 | a checkpoint adds every suggestion not yet heard, each once and in order, and moves the cursor past all commands |
| SolveLoop.MoreCommands | src/m2harness/human_control.py:156-158 | new commands never fall before a context's cursor |
| SolveLoop.SolveProblemService.ControlCheckpoint | src/m2harness/application/solve_problem.py:836-879 | the loop over the pending commands computes the specified checkpoint |
| SolveLoop.SolveProblemService.Solve | src/m2harness/application/solve_problem.py:317-807 | the call ends inside the loop: never REVISION_REQUIRED, never the exhausted budget, at most three code runs, one per iteration, with every checkpoint passed in order; a call COMPLETED in an iteration had no approval from the reviews before it, and an approval there or the last iteration; for each earlier review the texts of its own instructions were added in their order, after the contract line if and only if it did not aim at the code; every suggestion is heard once in order; a context that has passed no interrupt ends BLOCKED if and only if an interrupt is in the file at the last checkpoint |

## Left out

- SQLite, its journal, pydantic validation, SHA-256 and LangGraph themselves: a table is a map or a sequence, a transaction one step, the digest a parameter.
- Floats and lone surrogates in JSON: the events of the question store hold neither, but a domain event's payload is any dictionary and may hold floats; the values and the parser of the model know integers only.
- JsonRoundTrip.PrintInjective: is for values without floats, see above.
- AggregateLog.Verify: rejects a row whose payload holds a float, where the program accepts it; see above.
- WorkflowSafety.EvidenceGate: assumes at most one call of `run_step` in flight per worker id and question; `WorkflowCalls.TwoCallsPassTheGate` shows what happens otherwise.
- WorkflowSafety.EveryRunKeepsInv: makes the same assumption, and so do the bounds on transitions, activities, attempts and steps.
- `created_at` and `updated_at` columns, row ids of claim evidence, and the order of lists by creation time: only an activity's creation time is kept, because the evidence gate picks the first modeling activity by it.
- UNIQUE on event ids and event hashes of the store: uuid4 is taken to give fresh ids; the domain event store does model a repeated event id.
- Threads, the heartbeat timer, subprocesses and sandboxes: a heartbeat is an optional renewal step of any worker.
- Fixed strings: the gate's error is modelled as a value, but the failure reason written for it, and those of an exhausted revision limit and of exhausted attempts are parameters; `str.strip` is modelled on ASCII white space.
- The DAG artifact check inside `run_step`: it can only raise, which the workflow model allows at any point.
- The regular-expression checks of a LaTeX source: whether a source is valid is a parameter; only the brace scan is modelled.
- Tool capability, network-policy and schema checks, middlewares and audit records: the model starts at the idempotency check; whatever handler and middlewares make of a call is a parameter.
- The tool audit chain: same chain as the store's event log, it would only repeat `HashChain`.
- LangGraph's way of counting steps: one step of the limit is one run of a node; its checkpoints and its start step are not counted.
- The compare-and-swap of the main-harness repository: one writer per run is assumed; each scheduler operation is one committed step.
- Activity planning of `SingleQuestionWorkflowV1.plan` and capability resolution: they choose text, not state.
- Providers, agent runtimes, CLI, renderers, reports, knowledge and context selection: arbitrary result sources or plumbing.
- Research, archive and probe writes of the solve loop: they feed no decision of the loop.
- Fencing.AttemptsAreConsecutive: "to one claimer" is stated as one claim event per attempt, because a worker id may be reused.
- ToolRuntime.HandlerRunsAreBounded: is for one idempotency key, because no operation touches two.
- SolveLoop.SolveProblemService.Solve: assumes that only one process appends to the command file; two could take the same number.
- Engine.WorkflowEngine.Handle: takes the fresh event id that uuid4 draws as an argument; a repeated id would leave the log behind by one event.
