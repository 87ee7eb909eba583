# workflow-manager: a verified model

`workflow-manager` orchestrates workflows on AWS Step Functions (SFN). This project models the parts of it
that carry state and proves what they keep. The modules follow the program:

| modules | what they model |
|---|---|
| `Strings`, `Names` | the printers and parsers of state machine names, workflow ids and ARNs |
| `Replay`, `ProcessEvents`, `SuffixReplay`, `PagedReplay`, `JobOwnership`, `JobOutcomes`, `HistoryUpdates` | turning an execution's event history into jobs: a fold over values, the code that shares and rewrites job objects, and the two cheap ways of calling it |
| `StateMachines`, `RemoveInactive`, `PruningMeaning`, `CatchRuns`, `KeptRuns`, `Acceptance`, `Definitions`, `MachineCopies`, `Expansion`, `Retriers`, `Depths` | validating, pruning, accepting, copying and expanding state machines, and what that means for their runs |
| `Versioning` | the two-table protocol that gives a workflow definition its version |
| `WorkflowStore`, `EventConsumer`, `Pagination`, `ListingCalls` | the store of workflow records, the consumer of execution events, and page-by-page listing |
| `Lifecycle`, `LifecycleRuns`, `StatusSteps`, `JobRecords`, `StatusTruth`, `Finality`, `RetryBound`, `RetryTree`, `Observers`, `SampleHistories`, `LateRuns`, `WorkflowManager` | creating, resuming, cancelling, refreshing and resolving workflows, as a transition system and as the calls that make its steps |

How to read it:

* Objects that the source changes in place are classes here: jobs and the shared event map, machine objects
  (a tree on the heap that loses map entries), the in-memory store, the DynamoDB tables, the manager. Their
  methods are proved equal to functions on values (`Run`, `Pruned`, `MemoryUpdate`, `Resumed`, ...), and the
  laws are proved about those functions.
* What the step functions mean is proved beside them, in terms that do not name them: a job's record from the
  events of the history (`JobOutcomes`), pruning from the runs that SFN can make (`KeptRuns`), validation and
  expansion from the fields of every state at every depth (`Depths`), listings from the fields of the records,
  statuses from the executions behind them (`StatusTruth`).
* Iteration over a Go map is an arbitrary choice in every loop, so what is proved holds of every order.
* Answers of the outside world are parameters: fresh ids, times, whether an SFN or DynamoDB call succeeded,
  the event lists that SFN returns. API calls and event deliveries are atomic, except in `Versioning`, where
  every read and put is a step of its own and a caller may stop anywhere.

## What was found

Where a promise does not hold as stated, the exact condition is proved, with a case in which it fails.

* Replaying a history page by page loses an execution-level event that comes in a page before that page's first
  supported state entry (`PagedReplay.PagedReplayExact`, `PagedReplay.AbortOnPageOfItsOwnIsLost`); replaying
  only the newest events needs one state entry among them (`SuffixReplay.LastJobOfSuffix`).
* `RemoveInactiveStates` says it discards the states not reachable from `StartAt`. It discards those without a
  predecessor, so unreachable cycles survive (`PruningMeaning.KeptIsReachableUnlessCycle`,
  `PruningMeaning.UnreachableCyclesSurvive`). So does a state with the empty name beside an End state
  (`KeptRuns.KeptIsWhatRunsSupport`, `KeptRuns.UnnamedStateSurvives`).
* Catch targets, and the choices of a Choice state marked as an End state, are not checked. Runs that take them
  stay in defined states exactly when one further check, a walk over the definition, passes
  (`CatchRuns.WalkDecides`, `CatchRuns.CaughtIntoNowhere`); without unreachable cycles the walk can be left
  out and all states checked (`CatchRuns.AllStatesDecideStored`).
* The comment on default retriers speaks of every state and of any Task state; the code serves the top level
  only. Both promises hold exactly when the nested machines keep them by themselves
  (`Retriers.SfnMachineKeepsPromises`, `Retriers.BranchesAreNotServed`).
* A caller that stops between the two puts of `SaveWorkflowDefinition`, or whose second put is not answered,
  makes every later update of that name fail (`Versioning.WedgedByCrashOnly`); a name is stuck in no other
  way (`Versioning.StuckExactlyWhenWedged`).
* A terminal status is not always final. It is final exactly when the execution has ended, or the runs of the
  workflow's machine come to no Task, Choice or Succeed state at any depth, or the record is done and its
  execution, still running, is past its last job (`Finality.FinalExactly`, and
  `Finality.FinalBeforeTheBeginning` for executions that have yet to begin). A workflow that was given up on
  while its execution had yet to begin can be taken back (`LateRuns.LateStartBreaksFinality`), unless its
  machine makes no jobs (`LateRuns.PassOnlyIsFinal`).
* That at most one retry of a workflow is active holds until one kind of step, and no other, breaks it: a summary
  that takes back a record which has retries or an active sibling (`RetryBound.WhatBreaksTheBound`,
  `LateRuns.LateStartBreaksBound`).
* The event that ends an execution and a summary refresh do not leave the same record: they agree but for stop
  time, output and stamp, in whatever mixture they come (`Observers.ObserversConverge`).
* Page tokens give every workflow once exactly when no page but the last ends on a workflow that shares its
  creation time with another match (`Pagination.StorePaginationExact`).
* Name and id round trips fail on trailing dashes and double dashes; the conditions are exact
  (`Names.NameRoundTrip`, `Names.WorkflowIDRoundTrip`).

## Model

| member | source | states |
|---|---|---|
| Names.StateMachineName | executor/sfnconventions/sfnconventions.go:13-19 | the replacement loop, one bad character at a time, replaces them all at once: no bad character is left and the length is kept |
| Names.NameRoundTrip | executor/sfnconventions/sfnconventions.go:13-45 | parsing a generated name gives its parts back, negative versions included, if and only if no part has a bad character or "--" and namespace and definition name do not end in "-" |
| Names.WorkflowIDRoundTrip | embedded/embedded.go:580-607 | an id cut to 80 bytes still yields its state machine name if and only if the name leaves room for "--", ends in an even number of dashes, and the kept suffix has no "--"; the kept suffix comes back too; the id is the first 80 bytes of name, "--" and suffix |
| Names.ExecutionArnRoundTrip | cmd/sfn-execution-events-consumer/main.go:152-166 | for every region, account and definition name, the consumer's two parsers recover execution id and state machine name from an execution ARN if and only if the id has no colon |
| Names.LogGroupArnRoundTrip | executor/workflow_manager_sfn.go:182-192 | a log group ARN splits into eight fields if and only if region and account have no colon, and then field 6 is the log group |
| ProcessEvents.Job.Retry | wfupdater/processevents.go:81-106 | overwriting the shared job object in place keeps state, input and the resource's name, type and namespace, takes the id and time of the scheduling event, appends the failed run to the attempts and clears the rest |
| ProcessEvents.Job.Update | wfupdater/processevents.go:38-202 | the switch over event types changes a job object as the pure step does |
| ProcessEvents.EventToJob | wfupdater/processevents.go:263-306 | finds, creates and links the shared job object exactly as the value-level map does; only a state entry creates one |
| ProcessEvents.ProcessEvents | wfupdater/processevents.go:22-208 | with job objects shared through the event map and rewritten in place, the heap after a call is the fold of the page over the heap before it, and the call returns the objects it created, in order |
| Replay.RunConcat | wfupdater/processevents.go:22-208 | replaying two stretches one after the other is replaying their concatenation |
| SuffixReplay.SuffixReplayRefinesFullReplay | wfupdater/lastjob.go:29-34 | a replay of a suffix alone, with a map of its own, produces exactly the last jobs of the whole replay, field by field, one for each state entry in the suffix |
| SuffixReplay.LastJobOfSuffix | wfupdater/lastjob.go:29-42 | the last job found from the newest events is that of the whole history if and only if they hold a supported state entry or nothing in the history does |
| PagedReplay.PagedReplayEqualsOneShot | executor/workflow_manager_sfn.go:576-600 | pages replayed with one shared map give the jobs and the map of one call on all events if each page has a state entry before its execution-level events |
| PagedReplay.PagedReplayExact | executor/workflow_manager_sfn.go:576-600 | for histories that end once, paged and one-shot replay agree if and only if the end does not stray into a page of its own or would change nothing |
| PagedReplay.PagedReplayExactForNewInstant | executor/workflow_manager_sfn.go:576-600 | if the end is at a new instant, the two agree if and only if it does not stray |
| PagedReplay.AbortOnPageOfItsOwnIsLost | wfupdater/processevents.go:286-294 | a concrete history in two pages whose abort the paged replay misses |
| JobOwnership.OwnerIsNearestEntry | wfupdater/processevents.go:263-306 | every event updates the job of its nearest state entry along the chain of previous event ids, and none if there is no such entry |
| JobOwnership.JobIsFoldOfOwnEvents | wfupdater/processevents.go:22-208 | jobs correspond one to one and in order with the supported state entries, and each is the fold of its own events alone, however branches interleave |
| JobOwnership.OwnedEventsShape | wfupdater/processevents.go:263-306 | the events of a job are its state entry followed by no other entry |
| JobOwnership.AttemptsAreConserved | wfupdater/processevents.go:81-106 | after any history a job has one attempt for each of its schedulings that found it failed, in order and with that run's data, and its state, input and resource are those of its entry |
| JobOutcomes.NearestIsWhereItComesFrom | wfupdater/processevents.go:263-306 | for events with ids of their own, the chain of previous ids that starts at a Task, Choice or Succeed entry and passes no execution-level event and no event of another state leads an event back to its nearest entry and to no other |
| JobOutcomes.JobsTellTheirRuns | wfupdater/processevents.go:22-208 | for events with ids of their own, and from the events alone: one job for each Task, Choice or Succeed entry, in order; its id, status, times, output, container and reason are what the last event of its last run to say each of them says; its attempts are its failed runs before, each with the times, container and reason of that run; it is about the state entered, with its input and resource |
| JobOutcomes.RunsAreCutAtFailures | wfupdater/processevents.go:81-106 | the runs of a job are its events, cut exactly where a scheduling comes after a run that failed |
| JobOutcomes.StartedAndDone | handler.go:588-600 | a job counts as started exactly if the last of its events to say a status is no entry and no scheduling, and as done exactly if it is no start of a run either |
| JobOutcomes.ReasonIsLastLines | wfupdater/processevents.go:222-229 | a reason keeps a text of at most three lines whole, and of a longer one what follows its last newline but two |
| HistoryUpdates.ReverseHistory | wfupdater/sfn_events.go:8-15 | the index loop fills the reversed array; reversing it again gives the original |
| HistoryUpdates.UpdateWorkflowLastJob | wfupdater/lastjob.go:20-43 | whatever events came before, the last job stored is that of the whole history; without a state entry the record is left alone |
| HistoryUpdates.UpdateWorkflowHistory | executor/workflow_manager_sfn.go:556-603 | the jobs stored after all pages are those of one replay exactly under the paging condition; a missing execution changes nothing |
| StateMachines.KeptIsGreatest | resources/workflow_definitions.go:56-96 | the states that pruning keeps are the greatest set in which each state is the start or has a predecessor in the set |
| RemoveInactive.StateMachine.Reachable | resources/workflow_definitions.go:56-96 | the scan over the map answers whether the state is the start or some state has a transition to it, in any order |
| RemoveInactive.StateMachine.DeleteUnreachable | resources/workflow_definitions.go:144-160 | deleting while iterating ends, and in every order leaves exactly the greatest supported set, the states themselves unchanged |
| RemoveInactive.StateMachine.CheckTransitions | resources/workflow_definitions.go:98-167 | it reports a state with invalid transitions if and only if there is one among those left |
| RemoveInactive.StateMachine.RemoveInactiveStates | resources/workflow_definitions.go:137-182 | on a tree of machine objects whose Map states have iterators wherever the recursion comes to them, it succeeds if and only if the machine is prunable at every depth, and then the tree stands for the pruned machine |
| PruningMeaning.PruningKeepsRoutes | resources/workflow_definitions.go:137-182 | a path from the start, at any nesting level, Catch edges included, is a path of the machine if and only if it is one of the pruned machine |
| PruningMeaning.KeptIsReachableUnlessCycle | resources/workflow_definitions.go:137-160 | what is kept is exactly what is reachable if and only if no unreachable states form a cycle |
| KeptRuns.PruningKeepsRuns | resources/workflow_definitions.go:56-182 | a run as SFN makes it, Catch edges of every state type and exits from End states included, into branches and iterators of any depth, is one of the machine if and only if it is one of the pruned machine |
| KeptRuns.KeptIsWhatRunsSupport | resources/workflow_definitions.go:56-96 | what pruning keeps of a machine that it accepts contains every set of states in which each is the start or a state that another of them can go on to as SFN runs it, and is such a set itself if and only if a state with the empty name is one that is gone on to |
| KeptRuns.StoredIsRunSupported | resources/workflow_definitions.go:56-182 | in a stored definition, at every depth, each state is the start or one that another state can go on to, if and only if that holds of states with the empty name |
| KeptRuns.UnnamedStateSurvives | resources/workflow_definitions.go:56-96 | a concrete stored definition keeps a state with the empty name that nothing goes on to |
| KeptRuns.AcceptsExactly | resources/workflow_definitions.go:98-182 | pruning accepts a machine if and only if in what is left of it, at every depth, the start is defined, End states have no Next, other states that need one have one, and every Next, choice and Default of a state that is no End state is defined |
| PruningMeaning.UnreachableCyclesSurvive | resources/workflow_definitions.go:137-160 | a concrete machine keeps two unreachable states that lead to each other |
| PruningMeaning.PruningIsIdempotent | resources/workflow_definitions.go:137-182 | pruning a second time changes nothing, at any depth |
| PruningMeaning.PrunedIsPrunable | resources/workflow_definitions.go:137-182 | what pruning accepted it accepts again |
| PruningMeaning.PrunedIsClosed | resources/workflow_definitions.go:98-135 | after pruning, at every depth, the start is defined, End states have no Next, and every Next, choice and Default target of the others is defined |
| PruningMeaning.NormalRunsAreDefined | resources/workflow_definitions.go:98-135 | in such a machine a run that takes no Catch edge and leaves no End state never comes to an undefined state |
| CatchRuns.RunsStayDefinedExactly | resources/workflow_definitions.go:98-135 | in a machine that pruning accepts, runs that may take Catch edges and leave End states stay in defined states, at every depth, if and only if every state such a run comes to has its unchecked targets defined |
| CatchRuns.StoredDefinitionsStayDefinedExactly | handler.go:565-578 | the same for every definition that the handler lets into the store |
| CatchRuns.VisitedIsWalked | resources/workflow_definitions.go:98-135 | the states that such runs come to are those found by a walk over the definition, which ends |
| CatchRuns.WalkDecides | resources/workflow_definitions.go:98-135 | the runs of a machine that pruning accepts stay in defined states, at every depth, if and only if the unchecked targets of all states walked are defined |
| CatchRuns.AllStatesDecideStored | handler.go:565-578 | for stored definitions without unreachable cycles that is so if and only if the unchecked targets of all states, at every depth, are defined |
| CatchRuns.CaughtIntoNowhere | resources/workflow_definitions.go:98-135 | a concrete definition is accepted and has a run into an undefined state |
| PruningMeaning.ResumeNeverFailsToPrune | executor/workflow_manager_sfn.go:399-404 | restarting a stored definition at any of its states never fails in pruning and gives a definition that can be resumed again |
| Acceptance.CountDetectsDeletion | handler.go:548-578 | although Parallel and Map states count zero, the count of a validated machine is unchanged by pruning if and only if nothing was deleted at any depth |
| Acceptance.CountIsPositive | handler.go:38-75 | every validated machine, and every validated state, counts at least one |
| Acceptance.ParallelCountsNothing | handler.go:548-563 | a Parallel state around one Task counts one |
| Depths.ValidatedExactly | handler.go:38-140 | a definition passes validation if and only if at every depth there is a state, and there each Task has a resource, each Choice has choices that all name a state, each Wait sets exactly one of its four fields, no Succeed or Fail has a Next, each Parallel has a branch and each Map an iterator |
| Definitions.ValidateStateMachine | handler.go:38-140 | the mutually recursive validation of a machine object accepts exactly the valid machines |
| Definitions.StateCount | handler.go:548-563 | summing over the map in any order gives the count of the machine |
| Definitions.NewWorkflowDefinitionFromRequest | handler.go:565-586 | pruning its argument in place, it accepts exactly the machines that lose nothing to pruning, and these come out unchanged |
| Definitions.NewWorkflowDefinition | handler.go:142-163 | a request is stored, as version 0 and with its machine as it came in, if and only if it is named, valid, has a start, string tags and a machine that pruning leaves alone, the name is free and both puts are answered; each other outcome leaves the tables as stated |
| MachineCopies.CopyOf | resources/workflow_definitions.go:41-49 | a deep copy stands for the same machine and shares no object with anything before it |
| Expansion.StateMachineWithFullActivityARNsAndParameters | executor/workflow_manager_sfn.go:78-130 | the recursive copy succeeds if and only if no Map state lacks its iterator, and rewrites the states of every level |
| Expansion.StateMachineWithDefaultRetriers | executor/workflow_manager_sfn.go:136-160 | the loop over the top-level states injects the default retrier where it is missing |
| Depths.ExpandedEverywhere | executor/workflow_manager_sfn.go:78-130 | the expanded machine has the same states at every depth; a Task's resource is, field by field between its colons, the activity or function of region, account and namespace, or Glue with its job name; a Map gets the execution name unless it sets it; nothing else changes |
| Expansion.CompletionCommutesWithPruning | executor/workflow_manager_sfn.go:78-160 | completing a machine for SFN and pruning it commute, with the same verdict and the same machine |
| Expansion.DefaultRetriersInjected | executor/workflow_manager_sfn.go:132-160 | injection is idempotent, gives every top-level Task a CommandTerminated retrier, puts at most the one default retrier before the user's and changes nothing else |
| Retriers.PromisesHoldExactly | executor/workflow_manager_sfn.go:132-160 | after injection any Task state retries, and no retry list is nil, at every depth, if and only if that was so in every nested machine before |
| Retriers.SfnMachineKeepsPromises | executor/workflow_manager_sfn.go:78-160 | the machine handed to SFN keeps the two promises if and only if the definition keeps them below its top level |
| Retriers.BranchesAreNotServed | executor/workflow_manager_sfn.go:132-160 | a concrete machine whose Task in a branch gets neither retrier nor retry list |
| Versioning.NextKeepsInv | store/dynamodb/dynamodb_store.go:206-257 | every step of any interleaving, crashes included, keeps the tables consistent and each caller's knowledge true |
| Versioning.VersionsInEveryRun | store/dynamodb/dynamodb_store.go:206-257 | in every reachable state the versions of a name are 0 to m-1, the latest entry is stored version m-1 or m-2 (or absent with m at most 1), and at most one caller per name is between its puts |
| Versioning.TablesOnlyGrow | store/dynamodb/dynamodb_store.go:206-237 | over any stretch of a run no stored version changes or is lost and the latest entry never goes back |
| Versioning.SavedVersionsAreDistinct | store/dynamodb/dynamodb_store.go:239-257 | two callers that both succeeded saved different versions or names |
| Versioning.SavesWhatItWasGiven | store/dynamodb/dynamodb_store.go:204-257 | in any run a caller that reports success has saved the name and body it was given, a new definition as version 0, an update under the version after one that was the latest when it read; that is stored under its version and was made the latest |
| Versioning.WedgedByCrashOnly | store/dynamodb/dynamodb_store.go:231-236 | a name gets stuck by exactly one kind of step: a caller of it that stops between its two puts |
| Versioning.WedgedForEver | store/dynamodb/dynamodb_store.go:231-257 | no step of any caller changes the rows of a stuck name again |
| Versioning.StuckExactlyWhenWedged | store/dynamodb/dynamodb_store.go:231-257 | as long as some caller is idle, some continuation gives a name a further version if and only if the name is not wedged |
| Versioning.DynamoDB.SaveWorkflowDefinition | store/dynamodb/dynamodb_store.go:204-237 | the two puts in sequence: a refused first one changes nothing, an unanswered second one leaves the definition stored but not the latest; the tables stay consistent; tables and answer are those of a run of the protocol by one caller alone |
| Versioning.DynamoDB.UpdateWorkflowDefinition | store/dynamodb/dynamodb_store.go:239-257 | saves under the version after the latest one and returns what was stored; after an unanswered second put a version beyond the latest entry is left behind; keeps the tables consistent; tables and answer are those of a run of the protocol by one caller alone |
| WorkflowStore.MemoryStore.SaveWorkflow | store/memory/memory_store.go:145-153 | stores a new, stamped record, or refuses a known id and changes nothing |
| WorkflowStore.MemoryStore.UpdateWorkflow | store/memory/memory_store.go:155-162 | replaces a known record, stamped, or changes nothing |
| WorkflowStore.MemoryStore.UpdateWorkflowAttributes | store/memory/memory_store.go:251-282 | field by field assignment is one guarded replacement: a refused update changes no field |
| WorkflowStore.NotTerminalStateCondition | store/dynamodb/dynamodb_store.go:656-663 | the condition built term by term holds of queued and running, and of no other status |
| WorkflowStore.DynamoUpdate | store/dynamodb/dynamodb_store.go:569-646 | the conditional update accepts, refuses and writes exactly what the memory store does on a stored record; an empty update and an update of a missing record are refused and change nothing |
| WorkflowStore.UpdatesKeepTerminal | store/store.go:92-110 | over any sequence of attribute updates of any workflows, no record that is neither queued nor running becomes so, and none comes or goes |
| EventConsumer.UnixMilli | cmd/sfn-execution-events-consumer/main.go:168-172 | with Go's truncating division the conversion is exact for negative times too |
| EventConsumer.HandleHistoryEvent | cmd/sfn-execution-events-consumer/main.go:186-272 | the update filled in step by step is the one its event stands for, and the store changes by at most that |
| EventConsumer.ConsumerConverges | cmd/sfn-execution-events-consumer/main.go:178-272 | for any reordering, repetition and mixing of deliveries in which the end comes through once, the record is what the end alone makes of it |
| EventConsumer.EventsFindTheirWorkflow | executor/workflow_manager_sfn.go:456-466 | the id read from an event's ARN is the id the execution was started with |
| Pagination.PaginationExact | store/memory/memory_store.go:195-224 | whatever order each call gives to equal places in time, following the tokens ends and gives every match once and in order if and only if no page but the last ends on a tied workflow |
| Pagination.StorePaginationExact | store/memory/memory_store.go:172-241 | the same on the fields of the stored records: exactly the workflows of the definition, status and resolution asked for, each once, by creation time upwards for oldest first and downwards otherwise, if and only if no page but the last ends on one created at the same time as another |
| Pagination.DistinctTimesPageCompletely | store/memory/memory_store.go:172-225 | with distinct creation times pages of any size list the store completely, in the direction asked for and for every query |
| ListingCalls.GetWorkflows | store/memory/memory_store.go:172-241 | each workflow returned has the definition name, status and resolution asked for and comes in the direction of creation time asked for; the page begins right after the workflow the token names, or at the front if it names none listed, has as many as asked for or all that are left, and its token names its last one if more are left; a token that is no UUID is refused |
| ListingCalls.SortByCreatedAt | store/memory/memory_store.go:195-199 | sorting keeps every workflow, once, and orders them by creation time, upwards if the oldest are asked for first and downwards if not |
| LifecycleRuns.NextKeepsInv | executor/workflow_manager_sfn.go:336-603 | every step keeps records under their ids, definitions prunable, and retry lists a forest |
| LifecycleRuns.RunKeepsInv | executor/workflow_manager_sfn.go:336-603 | that invariant holds in every state of every run |
| StatusTruth.RecordsAreTrue | executor/workflow_manager_sfn.go:491-553 | in every run a workflow that succeeded or was cancelled has an execution that did, and is resolved; one that failed has an execution that failed or timed out, unless an earlier summary had waited five minutes for it to begin |
| StatusTruth.DoneExactly | resources/workflows.go:66-88 | in every run a workflow is done if and only if its status is succeeded, failed or cancelled and each recorded job has succeeded, failed or been aborted |
| StatusTruth.SummaryTells | executor/workflow_manager_sfn.go:468-553 | a summary tells an unfinished record its execution's status, stop time, output, timeout reason, resolution and last failed job and leaves the rest; an execution that has not begun is given up on after five minutes and not before |
| StatusTruth.EventTells | cmd/sfn-execution-events-consumer/main.go:186-272 | the event of an end tells the record the status that the execution ended with, at the event's time, with the output of a success, the resolution of a success or cancellation and the last job of a failure, and leaves the rest |
| StatusTruth.OtherEventsTell | cmd/sfn-execution-events-consumer/main.go:186-272 | of the other events only the second changes anything: it makes a queued or running workflow running |
| StatusSteps.WhatTakesATerminalRecordBack | executor/workflow_manager_sfn.go:468-554 | in any reachable state a step takes a terminal record back if and only if it is a summary refresh that finds the execution running although the record is not done |
| StatusSteps.ExecMoves | executor/workflow_manager_sfn.go:434-450 | over any step the execution of a stored workflow begins by a late start only, and ends once |
| StatusSteps.BecomesTerminalStopped | executor/workflow_manager_sfn.go:468-554 | a workflow that becomes terminal in a step has no running execution after it |
| JobRecords.RunKeepsRecords | wfupdater/processevents.go:263-275 | in every state of every run, jobs are recorded only for workflows whose machine has runs that come to a Task, Choice or Succeed state at some depth, and a cancelled workflow is resolved |
| JobRecords.NextMovesRecord | executor/workflow_manager_sfn.go:556-603 | no step changes the machine of a record, and its jobs change only to those of a history that this very step asked for that workflow |
| Finality.FinalExactly | executor/workflow_manager_sfn.go:468-554 | in every reachable state a terminal status is final in all continuations if and only if the execution has ended, or the machine's runs come to no state that makes jobs, or the record is done and its running execution is past its last job |
| Finality.FinalBeforeTheBeginning | executor/workflow_manager_sfn.go:468-519 | in any state of any run, a terminal status whose execution has yet to begin is final if and only if runs of the machine come to no Task, Choice or Succeed state at any depth |
| Finality.TerminalIsFinal | executor/workflow_manager_sfn.go:336-603 | over any stretch of a run a terminal status without running execution stays terminal as long as the record is stored and that very execution does not begin late |
| Finality.OnlyLateStartsRunOn | executor/workflow_manager_sfn.go:491-519 | in any run a terminal record has a running execution only if that execution began after the workflow had been given up on |
| Finality.RunningRevives | executor/workflow_manager_sfn.go:518-553 | while an execution runs, any history of the workflow's own machine that replays to an unfinished job takes its record back to running, by a history refresh and a summary |
| LateRuns.LateStartBreaksFinality | executor/workflow_manager_sfn.go:491-519 | a complete run of six steps from an empty store, with the full events of a task as its history, in which a terminal workflow becomes running again |
| LateRuns.PassOnlyIsFinal | executor/workflow_manager_sfn.go:468-474 | a complete run from an empty store in which a workflow with a single Pass state is given up on before its execution begins, and its status is final |
| LateRuns.ZombieIsGivenUpOn | executor/workflow_manager_sfn.go:501-510 | a workflow whose execution is absent for longer than the waiting time is marked failed by the next summary, and nothing else changes |
| RetryBound.WhatBreaksTheBound | handler.go:468-480 | from a reachable state in which unfinished workflows have no retries and at most one retry of each workflow is active, a step leaves such a state if and only if it is a summary that takes back a record which has retries or an active sibling |
| RetryBound.BoundHoldsExactly | handler.go:462-526 | up to any point of any run at most one retry of each workflow has been active throughout, none of an unfinished one, if and only if no step so far was of that kind |
| RetryBound.BoundBreaksAfterLateStart | executor/workflow_manager_sfn.go:491-519 | such a step finds an execution that began after its workflow had been given up on |
| LateRuns.LateStartBreaksBound | handler.go:462-526 | a complete run of eight steps from an empty store that ends with a running workflow that has a retry |
| Observers.ObserversOfOneRecord | cmd/sfn-execution-events-consumer/main.go:194-271 | a note to `EventConsumer.ConsumerConverges`: for one record the event and the summary agree on all fields but stop time and output, and on those if and only if SFN gives the summary what the event gave |
| Observers.EventAndSummary | executor/workflow_manager_sfn.go:518-553 | a note to the same: the two steps, from one state, change only that workflow and leave records that differ in stop time, output and stamp at most, with the exact condition |
| Observers.FailureOutputs | executor/workflow_manager_sfn.go:552-553 | a note: after a failure a summary without output erases the record's output and the event keeps it |
| Observers.ObserversConverge | executor/workflow_manager_sfn.go:468-554 | however deliveries of all executions and summaries of one that has ended are mixed, repeated or refused, once its end has come through the record is what the end alone makes of it, but for stop time, output and stamp |
| RetryTree.RetriesFormAForest | executor/workflow_manager_sfn.go:410-423 | in every reachable store the retries listed for a workflow are exactly the stored workflows that name it, each listed once and created later |
| RetryTree.LineagesNeverMeet | executor/workflow_manager_sfn.go:410-423 | two chains of retries that end in the same workflow agree all the way back |
| RetryTree.ReachableStoresAreSearchable | handler.go:609-629 | in every reachable store descendants are stored, differ from their ancestor, and are ordered by time, which is what the search needs |
| RetryTree.AreDescendantWorkflowsDone | handler.go:609-629 | the depth-first search ends; it says true if and only if every strict descendant is done, false only for one that is not, and fails only on one that is missing |
| RetryTree.DescendantsDoneStep | handler.go:611-629 | all descendants are done if and only if each retry is done and so are all of its descendants |
| WorkflowManager.SFNWorkflowManager.CreateWorkflow | executor/workflow_manager_sfn.go:336-391 | without the state machine nothing is saved; otherwise saving before starting is the creation step, and a failed start leaves a record to be deleted |
| WorkflowManager.SFNWorkflowManager.DeleteStrayWorkflow | executor/workflow_manager_sfn.go:369-385 | the deletion that a failed start leaves behind is the deletion step: it removes that workflow and nothing else |
| WorkflowManager.SFNWorkflowManager.RetryWorkflow | executor/workflow_manager_sfn.go:393-432 | a retry of a finished workflow gets the copied, moved and pruned machine, is saved, listed with the original and started with the input given; otherwise nothing changes |
| WorkflowManager.SFNWorkflowManager.CancelWorkflow | executor/workflow_manager_sfn.go:434-454 | the cancellation step; a refused cancellation changes nothing |
| WorkflowManager.SFNWorkflowManager.UpdateWorkflowSummary | executor/workflow_manager_sfn.go:468-554 | the summary step, with the last job found by replaying the newest events; it reports success if and only if the workflow is done or everything asked of SFN was answered |
| WorkflowManager.Summarize | executor/workflow_manager_sfn.go:518-552 | the record built up assignment by assignment is the one the execution's status calls for |
| WorkflowManager.SFNWorkflowManager.UpdateWorkflowHistory | executor/workflow_manager_sfn.go:556-603 | the history step, with the jobs of the paged replay |
| WorkflowManager.SFNWorkflowManager.CheckResume | handler.go:462-484 | the guards pass if and only if the workflow and all its descendants are done and the start state is defined |
| WorkflowManager.OriginalJobIs | handler.go:486-512 | the job that is looked for is of the start state, and is the record's last job or else the first such job in the record; none is found exactly if neither exists |
| WorkflowManager.SFNWorkflowManager.ResumeWorkflowByID | handler.go:460-526 | the resume step: never stopped by pruning in a reachable state; it succeeds if and only if the guards pass, a started job is found and SFN answers, and what it starts gets the input of a started job of the start state, the last job or else the first in the record; no job found is the answer exactly if the record that is looked at has none of that state |
| WorkflowManager.SFNWorkflowManager.ResolveWorkflowByID | handler.go:528-546 | resolves a record once; a second time is a conflict and changes nothing |

## Left out

- RemoveInactive.StateMachine.RemoveInactiveStates: says nothing about the states of the tree after a failure, because the source leaves a partly pruned machine that depends on the order of visits; a missing iterator that the recursion comes to, a nil dereference in the source, is excluded.
- EventConsumer.ConsumerConverges: assumes that lookups of the last job that succeed agree, since they read the history of an execution that has ended.
- ProcessEvents.ProcessEvents: requires the details that the source dereferences without a check, as SFN sends them; an exit event without details reads as one without output.
- SuffixReplay.SuffixReplayRefinesFullReplay: for event ids that differ within the suffix, as SFN numbers events within an execution.
- WorkflowStore.DynamoUpdate: that DynamoDB refuses to set an attribute inside a record that is not stored is its documented behaviour, not the repository's code.
- RetryBound.BoundHoldsExactly: API calls are atomic, as everywhere outside `Versioning`.
- Finality.FinalExactly: where a running execution stands is modelled only by whether SFN can still show an unfinished job of it, and that a later answer extends an earlier one is not modelled; its histories enter only states that runs of its own machine come to.
- Observers.ObserversConverge: assumes, like the consumer alone, that lookups of the last job that succeed agree.
- State types and SFN statuses outside the enumerations: the source answers them with an error that depends on map order, or with "queued".
- Error texts, and which of several errors is reported when it depends on map order: success and failure, and the kinds of errors, are modelled.
- Interleavings inside the read-modify-write calls on workflow records, where a stale record may overwrite a newer one: each call is one step.
- Fields that the code only copies: the input of workflows in records, namespaces, queues, tags, comments of states, result paths and heartbeats.
- A job's name and queue, which the replay never sets, and log lines for events without a job.
- `describeOrCreateStateMachine`, log groups and logging configuration: calls to AWS whose only answer here is "ready" or not.
- Nil branches of Parallel states: branches are machines here; a missing iterator of a Map state is modelled.
- `strings.TrimSpace` knows the white space of one-byte characters only; strings are sequences of bytes.
- The memory store's definition methods: its version list is simpler than the DynamoDB protocol modelled in `Versioning`, and its lookup lets the version equal to the list's length through.
- Transient failures of DynamoDB other than the conditional check, unless they stop the caller, which is the crash step, or hit the second put of a definition.
- Listing against Elasticsearch, and listings of a store that changes between pages.
- State resources, tag helpers, the `embedded` manager apart from its workflow ids, HTTP handlers, clients, encodings, logging, metrics and the wiring of commands: input and output, or too thin to say more than their bodies.
