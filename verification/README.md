# AGM runtime: a verified model

AGM files describe nodes of work that depend on each other. The command line tool runs the
nodes of a file through an agent, keeps their execution state, gives them a scoped memory,
names the nodes of compiled Markdown, and benchmarks language-model providers. This project
models the parts of it that decide what happens in which order, and proves what they guarantee.

| files | what they model |
|---|---|
| `Options`, `Ordering`, `Text` | optional values, byte order on strings, stable sorting, `BTreeMap` key order, decimal numerals, character search |
| `Reachability` | the graph of `depends` edges, its two depth-first queries, topological orders, cycles |
| `Lifecycle` | the seven node statuses, and what one dispatch of a batch does, as code and in closed form |
| `Tracker` | the execution tracker, a class whose node map changes in place |
| `Scheduler` | node execution, parallel dispatch and the main loop, proved against a function `Run` on status maps |
| `RunTheorems`, `DryRun`, `Targets` | what holds of every topological run |
| `Moments`, `History`, `Width` | the states inside a run, what holds at every moment of every sequence of commands, and how many nodes run at once |
| `Transitions`, `ExitTests` | the transition table against every status change of a history, and when the commands' exit tests pass |
| `Groups`, `Orchestration` | Kahn's algorithm over group requirements, sequential and parallel groups, orchestrated runs |
| `OrchestrationTheorems`, `GroupTheorems` | what orchestrated runs and single groups guarantee, and when a group can abort |
| `Arrangement`, `ArrangedRuns`, `SoundRuns`, `AbortFreeRuns` | exactly which group lists respect `depends` and never abort, group by group and for whole runs |
| `Listings` | when the orchestrated dry run names the nodes that the run executes |
| `Suite` | the suite runner's threads and semaphore as interleaved steps |
| `IdGenerator` | the heading sanitiser and the collision loop |
| `Duration`, `Memory` | the time-to-live parser and the four memory stores |
| `Cassettes` | the record and replay cache of provider responses |

How the model reads the program:

- A run's outcomes are a set of node ids, `succeeds`: the agent and the verifier together succeed
  on exactly these. Every theorem about runs holds for every such set.
- `Run`, `RunGroups` and the functions below them say what one run does to the status map. The
  methods of `Scheduler`, `Orchestration` and `History` change a tracker in place and are proved to
  do what these functions say; the theorems are about the functions.
- A file has unique node ids and only known dependencies, because files are validated before a
  graph is built (crates/agm-cli/src/commands/helpers.rs:113-138). The answer of the topological
  sort is a parameter with the promise of crates/agm-core/src/graph/topo.rs:12-20.
- Errors that end a run are values: `None` from `ExecuteNode` and `DispatchParallel`, and the cases
  of `OrchError`, `OrderResult` and `ProviderError`.
- Strings are sequences of Unicode scalar values; `Memory.ByteLength` counts their UTF-8 bytes.

Where the code and its documentation differ, the model follows the code:

- `ExecutionTracker.retry` is documented for Failed nodes only; its guard also lets Pending and
  Blocked ones through. `History.RetryExact` says when that does no harm and
  `History.RetryPendingBreaks` shows a case where it does. The retry command itself selects Failed nodes.
- `propagate_blocked` does not ask the transition table (crates/agm-cli/src/runtime/state.rs:90-111), which has no edge from
  Ready to Blocked. It follows the table exactly when no dependent is Ready: `Transitions.PropagateByTable`,
  with a breaking state in `Transitions.PropagateLeavesTable`. No history reaches such a state: every
  status change of a run, a retry or a group run is an edge, `Transitions.HistoryByTable`. Resets are the
  commands that leave the table: `Transitions.ResetByTable`.
- The exit test of the run command passes although a node is left Failed by an earlier run:
  `ExitTests.ExitExact` and `ExitTests.ExitOverlooksFailed`.
- The orchestrated dry run lists the nodes of every group even with a target group: `Listings.TargetListing`.
- Documented ids are dot-separated segments that start with a letter. Collision suffixes and an
  empty segment behind a prefix break that pattern: `IdGenerator.PatternExact`.
- The duration parser also accepts a leading plus sign, and days with minutes but no hours, which its
  list of patterns leaves out: `Duration.DocumentedExact` says that this is all, and
  `Duration.PlusAccepted` and `Duration.DaysMinutesAccepted` give a text of each kind.
- Groups trust the order of their lists (crates/agm-cli/src/runtime/scheduler.rs:823-825) and check no
  `depends`: `Arrangement.GroupArrangedExact` and `SoundRuns.RunSoundExact` say which lists deserve it,
  and `Arrangement.ParallelIgnoresDepends` shows one that does not.
- The cassette key joins names with colons and does not escape them: `Cassettes.KeyExact`.
- A target group that requires another group is always refused, because skipped groups are never
  recorded as completed: `OrchestrationTheorems.TargetGroupExact`.
- An expired entry is one whose age in whole seconds, cut off toward zero, reaches its duration; for
  a duration of zero that begins almost a second early: `Memory.ExpiredExact`.

## Model

| member | source | states |
|---|---|---|
| Reachability.TransitiveDeps | crates/agm-core/src/graph/query.rs:23-49 | the depth-first search returns exactly the other nodes that a path of dependencies leads to |
| Reachability.TransitiveDependents | crates/agm-core/src/graph/query.rs:65-91 | the reverse search returns exactly the other nodes from which a path leads here |
| Reachability.TopoAcyclic | crates/agm-core/src/graph/topo.rs:12-20 | a dependencies-first order of all nodes exists only without cycles |
| Reachability.CycleInside | crates/agm-cli/src/runtime/scheduler.rs:779-783 | nodes that all wait for each other contain a cycle |
| Ordering.SortedKeys | crates/agm-cli/src/runtime/state.rs:433-448 | every key of a map, once each |
| Ordering.SortedKeysIncreasing | crates/agm-cli/src/runtime/state.rs:433-448 | in lexicographic order: a prefix comes first, and behind a common prefix the smaller character |
| Ordering.LeDecides | crates/agm-cli/src/runtime/state.rs:433-448 | behind any common prefix the first different character decides the comparison, the smaller one comes first |
| Ordering.LeExact | crates/agm-cli/src/runtime/state.rs:433-448 | the comparison of ids and names is the lexicographic order, stated by positions |
| Ordering.SortByIncreasing | crates/agm-cli/src/bench/runner.rs:112-113 | sorting leaves keys in lexicographic order |
| Ordering.SortByForgetsOrder | crates/agm-cli/src/bench/runner.rs:112-113 | sorting by distinct keys forgets the order of arrival |
| Lifecycle.TableExact | crates/agm-cli/src/runtime/state.rs:90-111 | what leads into each status: work starts from Ready only and ends in an outcome, Blocked and Skipped come from Pending only, nothing leaves Completed or Skipped |
| Lifecycle.BeginAllExact | crates/agm-cli/src/runtime/scheduler.rs:260-273 | the first phase of a dispatch succeeds exactly for distinct members that are all Pending or Ready, and makes all of them InProgress |
| Lifecycle.BeginAllStops | crates/agm-cli/src/runtime/scheduler.rs:260-273 | a dispatch that fails stops at the first inactive or repeated member and leaves exactly the ones before it InProgress |
| Lifecycle.FinishAllIsAfter | crates/agm-cli/src/runtime/scheduler.rs:338-400 | recording outcomes one by one, blocking as it goes, has an effect that does not depend on the order |
| Lifecycle.DispatchExact | crates/agm-cli/src/runtime/scheduler.rs:249-403 | when a dispatch fails, and its closed form when it does not |
| Lifecycle.AfterSafe | crates/agm-cli/src/runtime/scheduler.rs:535-591 | dispatching eligible nodes keeps every ready, running or finished node's dependencies Completed |
| Lifecycle.AfterRunInv | crates/agm-cli/src/runtime/scheduler.rs:535-591 | dispatching eligible nodes keeps "Blocked exactly below a failure" and "finished as the outcome says" |
| Lifecycle.QuiescentIsFinal | crates/agm-cli/src/runtime/scheduler.rs:537-555 | a state of a run with nothing left to dispatch is the one final map |
| Tracker.MakeGraph | crates/agm-core/src/graph/build.rs:24-40 | an edge from a node to each dependency that is a node of the file, and no other |
| Tracker.Initialize | crates/agm-cli/src/runtime/state.rs:257-284 | every node of the file starts Ready or, if it names dependencies, Pending |
| Tracker.ReconcileState | crates/agm-cli/src/runtime/state.rs:48-84 | afterwards exactly the nodes of the file are there, known ones unchanged and new ones Ready or Pending by whether they name dependencies |
| Tracker.ExecutionTracker.constructor | crates/agm-cli/src/runtime/state.rs:230-249 | a saved state is reconciled, and tracker ids equal file ids |
| Tracker.ExecutionTracker.Transition | crates/agm-cli/src/runtime/state.rs:302-315 | changes one status if the table allows it, and otherwise nothing |
| Tracker.ExecutionTracker.MarkCompleted | crates/agm-cli/src/runtime/state.rs:321-343 | only from InProgress; keeps the retry count |
| Tracker.ExecutionTracker.MarkFailed | crates/agm-cli/src/runtime/state.rs:351-368 | only from InProgress; keeps the retry count and blocks nobody |
| Tracker.ExecutionTracker.Retry | crates/agm-cli/src/runtime/state.rs:373-392 | accepts exactly Pending, Failed and Blocked nodes, counts the attempt, clears the record |
| Tracker.ExecutionTracker.Reset | crates/agm-cli/src/runtime/state.rs:399-405 | every node is Pending, without record and with no attempt counted |
| Tracker.ExecutionTracker.ResetNode | crates/agm-cli/src/runtime/state.rs:411-421 | one existing node is back in its default state |
| Tracker.ExecutionTracker.GetProgress | crates/agm-cli/src/runtime/state.rs:471-510 | each counter is the number of nodes with its status, the counters add up to the total, and the percentage is that of the Completed and Skipped nodes |
| Tracker.PercentExact | crates/agm-cli/src/runtime/state.rs:493-497 | the percentage is between 0 and 100, 100 only when all nodes are Completed or Skipped, and 0 for no nodes |
| Tracker.ExecutionTracker.PropagateBlocked | crates/agm-cli/src/runtime/state.rs:519-540 | exactly the Pending and Ready transitive dependents become Blocked, and exactly they are returned |
| Tracker.KeepSortedKeys | crates/agm-cli/src/runtime/state.rs:435-449 | filtering a map in key order lists the kept ids in key order |
| Tracker.KeepConcat | crates/agm-cli/src/runtime/scheduler.rs:451-454 | filtering a list treats one id after the other |
| Scheduler.Begin | crates/agm-cli/src/runtime/scheduler.rs:130-135 | a node enters InProgress exactly if it was Pending or Ready, and otherwise nothing changes |
| Scheduler.RecordOutcome | crates/agm-cli/src/runtime/scheduler.rs:207-213 | writes the outcome and, on failure, blocks the active dependents |
| Scheduler.ExecuteNode | crates/agm-cli/src/runtime/scheduler.rs:116-237 | executing a node is a dispatch of one; only its own record changes, other nodes change at most their status |
| Scheduler.BeginBatch | crates/agm-cli/src/runtime/scheduler.rs:262-273 | the members begin in order, up to the first that cannot |
| Scheduler.RecordBatch | crates/agm-cli/src/runtime/scheduler.rs:338-402 | the outcomes are written in batch order |
| Scheduler.DispatchParallel | crates/agm-cli/src/runtime/scheduler.rs:249-403 | the whole dispatch, with its error case, and what it leaves in the records |
| Scheduler.PickTopoFirst | crates/agm-cli/src/runtime/scheduler.rs:413-420 | the first id of the order among the candidates, and the first candidate if none of them is in the order |
| Scheduler.BatchExact | crates/agm-cli/src/runtime/scheduler.rs:571-576 | a batch takes as many candidates as the limit allows, lexicographically the smallest, in increasing order |
| Scheduler.SerialBatchExact | crates/agm-cli/src/runtime/scheduler.rs:557-559 | at concurrency 0 or 1 a turn takes the one candidate that no other precedes in topological order |
| Scheduler.BuildReport | crates/agm-cli/src/runtime/scheduler.rs:422-444 | the report counts the results and the statuses |
| Scheduler.BuildExecutionSet | crates/agm-cli/src/runtime/scheduler.rs:506-525 | the targets and their unfinished transitive dependencies |
| Scheduler.ReadyInScope | crates/agm-cli/src/runtime/scheduler.rs:537-555 | the candidates are, in lexicographic order, the nodes in scope that are Ready, or Pending with every dependency Completed or Skipped |
| Scheduler.RunStep | crates/agm-cli/src/runtime/scheduler.rs:536-591 | every turn of the main loop leaves fewer nodes Pending or Ready and adds none, so the loop ends |
| Scheduler.DispatchNext | crates/agm-cli/src/runtime/scheduler.rs:557-590 | a turn dispatches its batch, and never hits an invalid transition |
| Scheduler.MainLoop | crates/agm-cli/src/runtime/scheduler.rs:532-591 | the loop terminates, computes `Run`, and leaves a record on exactly the executed nodes |
| Scheduler.RunTopological | crates/agm-cli/src/runtime/scheduler.rs:488-594 | an error exactly for a cyclic graph; a dry run changes nothing and lists the plan as skipped and Pending; otherwise the final statuses and the report are those of `Run`, the executed nodes have their record, and of the others at most the status has changed |
| RunTheorems.AnySchedule | crates/agm-cli/src/runtime/scheduler.rs:535-591 | every way of dispatching eligible nodes, until none is left, ends in the same map |
| RunTheorems.RunReachesFinal | crates/agm-cli/src/runtime/scheduler.rs:535-591 | so does every unrestricted run, serial or batched, from any state a run can be in |
| RunTheorems.ScheduleIndependence | crates/agm-cli/src/runtime/scheduler.rs:535-593 | from a fresh acyclic file every concurrency ends in one map: Blocked below a failure, and otherwise the node's own outcome |
| RunTheorems.AfterCompose | crates/agm-cli/src/runtime/scheduler.rs:557-590 | two dispatches in a row are one dispatch of both sets of nodes |
| RunTheorems.RunIsOneDispatch | crates/agm-cli/src/runtime/scheduler.rs:535-593 | a whole run is one dispatch of the nodes it executed, each once and only active nodes in scope |
| RunTheorems.RunConserves | crates/agm-cli/src/runtime/scheduler.rs:422-444 | executed = succeeded + failed, and no node has two results |
| RunTheorems.FreshRunAccounts | crates/agm-cli/src/commands/run.rs:83-87 | a fresh unrestricted run has total = succeeded + failed + blocked, and the exit test passes exactly when every node is Completed |
| DryRun.TodoDependency | crates/agm-cli/src/runtime/state.rs:453-467 | an unfinished dependency of a node that will run will run itself |
| DryRun.FirstTodoIsCandidate | crates/agm-cli/src/runtime/scheduler.rs:413-420 | the first node of the plan that is still to run is always a candidate |
| DryRun.SerialRun | crates/agm-cli/src/runtime/scheduler.rs:557-569 | from any state of a run, a serial run executes the undoomed nodes that are left, in topological order |
| DryRun.DryRunPredicts | crates/agm-cli/src/runtime/scheduler.rs:446-474 | a fresh serial run, with or without targets, executes the dry-run plan minus the nodes with a failing ancestor, in plan order |
| DryRun.DryRunExact | crates/agm-cli/src/runtime/scheduler.rs:528-530 | if every planned node succeeds, the run is the plan |
| DryRun.SerialFailFast | crates/agm-cli/src/runtime/scheduler.rs:562-568 | a serial fail-fast run is the run without fail-fast, cut after its first failure |
| DryRun.DryRunFailFast | crates/agm-cli/src/runtime/scheduler.rs:562-568 | with fail-fast a fresh serial run is the predicted sequence up to its first failing node |
| Targets.RunConfined | crates/agm-cli/src/runtime/scheduler.rs:505-555 | outside its scope a run changes only active nodes, to Blocked, below a failed node of the scope |
| Targets.RunExhausts | crates/agm-cli/src/runtime/scheduler.rs:553-555 | a run that is not cut short leaves no candidate |
| Targets.TargetCompletes | crates/agm-cli/src/runtime/scheduler.rs:505-591 | with successful outcomes a target ends Completed or Skipped if its closure starts free of Failed, Blocked and InProgress nodes, and from a safe state only then |
| Targets.RunOrder | crates/agm-cli/src/runtime/scheduler.rs:482-484 | every executed node comes after the success of each dependency that was not done before the run |
| Moments.VisitsSafe | crates/agm-cli/src/runtime/scheduler.rs:260-400 | the safety invariant holds at every moment inside a run: while members are promoted and begin, while outcomes are written, and while dependents are blocked one by one |
| Moments.GroupVisitsSafe | crates/agm-cli/src/runtime/scheduler.rs:807-876 | likewise inside the run of a group that is ready and does not abort |
| Moments.RunEndVisited | crates/agm-cli/src/runtime/scheduler.rs:535-593 | the moments of a run include its end |
| Width.RunWidth | crates/agm-cli/src/runtime/scheduler.rs:557-580 | at no moment does a run have more nodes InProgress than its limit, and at once as many as that if there are as many candidates |
| Width.GroupWidth | crates/agm-cli/src/runtime/scheduler.rs:673-680 | at no moment does a sequential group have two members InProgress, or a parallel one more than its own maximum, or without one the run's limit |
| Width.GroupFull | crates/agm-cli/src/runtime/scheduler.rs:843-863 | a parallel group of distinct members starts as many of its active ones at once as it may |
| Width.CommandWidth | crates/agm-cli/src/commands/run.rs:51-74 | the same at every moment of a command: a run keeps to its limit, a retry to one node, a group command to the group's strategy |
| History.ApplySafe | crates/agm-cli/src/commands/retry.rs:26-66 | every run, retry, reset of the file, harmless reset of one node and guarded group run keeps the invariant and leaves nothing InProgress |
| History.MomentSettled | crates/agm-cli/src/runtime/scheduler.rs:127-135 | at every moment of such a command a node that is InProgress has all its dependencies Completed |
| History.ResultsOrderly | crates/agm-cli/src/runtime/scheduler.rs:482-484 | the results of every such command, a retry's run included, follow the dependencies |
| History.HistorySafety | crates/agm-cli/src/runtime/scheduler.rs:127-135 | over every history of such commands from a fresh file: Completed nodes have only Completed ancestors, at no moment of any command is a node InProgress before all its dependencies are Completed, and all results follow the dependencies |
| History.RunKeepsInactive | crates/agm-cli/src/runtime/state.rs:439-446 | a run changes no node that starts out neither Pending nor Ready; a stale InProgress node stays as it is |
| History.BlockedSticks | crates/agm-cli/src/runtime/state.rs:525-530 | no run and no retry lifts Blocked |
| History.RetryExact | crates/agm-cli/src/runtime/state.rs:370-392 | making a node Ready keeps the invariant exactly when its dependencies are Completed, which holds for every Failed node |
| History.RetryPendingBreaks | crates/agm-cli/src/runtime/state.rs:380-383 | a Pending node that the guard accepts and whose dependency has not run |
| History.ResetNodeExact | crates/agm-cli/src/runtime/state.rs:411-421 | resetting one node keeps the invariant unless it takes a Completed node from under one that is ready, running or finished |
| History.ResetNodeBreaks | crates/agm-cli/src/commands/state_cmd.rs:160-167 | resetting a Completed node from under a Completed dependent breaks the invariant |
| Transitions.PropagateByTable | crates/agm-cli/src/runtime/state.rs:519-540 | blocking the dependents of a node follows the transition table exactly when none of them is Ready |
| Transitions.PropagateLeavesTable | crates/agm-cli/src/runtime/state.rs:525-530 | a Ready dependent that is blocked against the table |
| Transitions.ReadyNotAbove | crates/agm-cli/src/runtime/state.rs:453-467 | in a safe state no Ready node depends on one that is not Completed |
| Transitions.RunKeepsReadyUnblocked | crates/agm-cli/src/runtime/scheduler.rs:535-593 | from a safe state no run blocks a Ready node |
| Transitions.ChangeByTable | crates/agm-cli/src/runtime/scheduler.rs:260-400 | each single change inside a dispatch of nodes whose dependencies are done, a promotion, a start, an outcome or one blocked dependent, is an edge of the table |
| Transitions.ChangeMoments | crates/agm-cli/src/runtime/scheduler.rs:260-400 | such a change joins two moments of the dispatch |
| Transitions.RunByTable | crates/agm-cli/src/runtime/scheduler.rs:535-593 | every change of a run from a safe state is an edge, and joins two moments of the run |
| Transitions.RunIsWalk | crates/agm-cli/src/runtime/scheduler.rs:535-593 | a whole run is a walk of such changes from its first state to its last |
| Transitions.GroupByTable | crates/agm-cli/src/runtime/scheduler.rs:794-880 | every change of a group that is ready and does not abort is an edge |
| Transitions.CommandByTable | crates/agm-cli/src/commands/retry.rs:61-90 | every change of a run, a retry, its marking included, or a guarded group run is an edge |
| Transitions.HistoryByTable | crates/agm-cli/src/runtime/state.rs:90-111 | over every history from a fresh file, every change of such a command is an edge |
| Transitions.ResetByTable | crates/agm-cli/src/runtime/state.rs:411-421 | a reset of a node follows the table only if the node is Pending already |
| ExitTests.ExitExact | crates/agm-cli/src/commands/run.rs:83-87 | from any safe state the exit test of a run passes exactly when nothing is Blocked at the start and every node in scope that can still come up succeeds |
| ExitTests.RunCommandExit | crates/agm-cli/src/commands/run.rs:83-87 | likewise for the run command with or without targets |
| ExitTests.ExitOverlooksFailed | crates/agm-cli/src/commands/run.rs:83-87 | a state with a Failed node from which the run passes |
| ExitTests.RetryExecutes | crates/agm-cli/src/commands/retry.rs:73-90 | a retry executes exactly the named node if it is Failed, or exactly all Failed nodes, one by one and in topological order |
| ExitTests.RetryExit | crates/agm-cli/src/commands/retry.rs:101 | its exit test passes exactly when the named node, or every Failed node, succeeds; and the report counts them |
| History.RetrySelectionExact | crates/agm-cli/src/commands/retry.rs:25-55 | the selection is the named node if it is Failed, or every Failed node, each once and in lexicographic order |
| History.RefusalExact | crates/agm-cli/src/commands/retry.rs:26-59 | the command is refused exactly when it selects no node |
| History.Retry | crates/agm-cli/src/commands/retry.rs:26-90 | each refusal with its cause and no change; otherwise the named node, or every Failed node, is made Ready and, unless the file is cyclic, run serially as target |
| History.RetryAll | crates/agm-cli/src/commands/retry.rs:61-66 | each selected node starts over with one more attempt counted |
| History.ResetNodes | crates/agm-cli/src/commands/state_cmd.rs:168-189 | a keep-completed reset leaves the Completed nodes as they are and every other in its default state, a full one every node |
| History.Reload | crates/agm-cli/src/commands/helpers.rs:141-148 | loading the saved state of an unchanged file changes nothing |
| History.RunTargetGroup | crates/agm-cli/src/commands/run.rs:51-63 | the run of one target group through the orchestrated runner does what the group command says, refusals included |
| History.Execute | crates/agm-cli/src/commands/run.rs:51-74 | each command does to the tracker what it does to the status map |
| History.Session | crates/agm-cli/src/commands/helpers.rs:141-148 | a history of commands, each loading the state anew, ends in the state the safety theorem is about |
| Groups.OpenSplit | crates/agm-cli/src/runtime/scheduler.rs:765-770 | finishing a group closes as many edges into another as it occurs in the adjacency list, repeats included |
| Groups.BuildTables | crates/agm-cli/src/runtime/scheduler.rs:726-748 | adjacency lists and in-degrees of all requirements, or, in list order, the first one that names no group |
| Groups.FirstUnknownOne | crates/agm-cli/src/runtime/scheduler.rs:733-740 | which requirement is reported is determined |
| Groups.Release | crates/agm-cli/src/runtime/scheduler.rs:765-776 | taking a finished group's edges off leaves the right counters and frees exactly the groups that only waited for it |
| Groups.ReleaseStep | crates/agm-cli/src/runtime/scheduler.rs:768-772 | an in-degree that is taken down exists and was positive: no underflow |
| Groups.LeftOver | crates/agm-cli/src/runtime/scheduler.rs:779-783 | groups that never become free are on a cycle |
| Groups.ResolveGroupOrder | crates/agm-cli/src/runtime/scheduler.rs:719-786 | an order exactly for distinct names, known requirements and no cycle; the order has requirements first and does not depend on hash iteration order |
| Groups.GroupOrderExact | crates/agm-cli/src/runtime/scheduler.rs:758-777 | of all orders with requirements first it is the one that is first freed, first served, by name among groups freed by the same one |
| Orchestration.ExecuteGroup | crates/agm-cli/src/runtime/scheduler.rs:794-880 | one group, sequential or in chunks, with its error case |
| Orchestration.ExecuteSequential | crates/agm-cli/src/runtime/scheduler.rs:807-841 | members in list order; finished, failed, blocked and unknown ones are passed over |
| Orchestration.PromotedDispatch | crates/agm-cli/src/runtime/scheduler.rs:823-831 | promoting a Pending member beforehand makes no difference |
| Orchestration.ExecuteChunks | crates/agm-cli/src/runtime/scheduler.rs:843-876 | the members that were active at the start, chunk by chunk |
| GroupTheorems.HeadSize | crates/agm-cli/src/runtime/scheduler.rs:860 | a chunk is the front of the list, as long as the limit allows |
| Orchestration.StrategyRunExact | crates/agm-cli/src/runtime/scheduler.rs:673-680 | a sequential group goes one by one whatever the limit, a parallel one in chunks of its own maximum or else of the run's limit |
| Orchestration.RunOrchestrated | crates/agm-cli/src/runtime/scheduler.rs:609-713 | no groups, no order, a dry run that changes nothing, an abort with its cause, or the report of `RunGroups` |
| OrchestrationTheorems.FirstMissingExact | crates/agm-cli/src/runtime/scheduler.rs:661-671 | the gate is open exactly when every required group is completed, and otherwise names the first in the list that is not |
| OrchestrationTheorems.GateOpen | crates/agm-cli/src/runtime/scheduler.rs:660-671 | without a target group the gate is open at every group's turn |
| OrchestrationTheorems.GroupsInOrder | crates/agm-cli/src/runtime/scheduler.rs:650-710 | without a target group the gate never fails, each group starts after all it requires and does what its strategy says to the state before it, and only an aborting group, or with fail-fast a failure, ends the run early |
| OrchestrationTheorems.TargetGroupExact | crates/agm-cli/src/runtime/scheduler.rs:651-671 | an unknown target does nothing, a target with requirements is refused for the first of them, and any other target does what its strategy says |
| GroupTheorems.GroupRunOnce | crates/agm-cli/src/runtime/scheduler.rs:794-880 | a group that does not abort is one dispatch of the nodes it executed |
| GroupTheorems.OrchestratedOnce | crates/agm-cli/src/runtime/scheduler.rs:647-712 | so is a whole orchestrated run: no node runs twice, even if groups overlap |
| GroupTheorems.OrchestratedConserves | crates/agm-cli/src/runtime/scheduler.rs:422-444 | executed = succeeded + failed in orchestrated runs too |
| GroupTheorems.ChunkFreeSafe | crates/agm-cli/src/runtime/scheduler.rs:860-876 | if no member repeats or depends on a member of an earlier chunk, no chunk hits an invalid transition |
| GroupTheorems.NotFreeFails | crates/agm-cli/src/runtime/scheduler.rs:843-863 | otherwise, without fail-fast, there are outcomes under which the group aborts |
| GroupTheorems.ChunksExact | crates/agm-cli/src/runtime/scheduler.rs:843-877 | without fail-fast, the exact condition for chunks of active members never to hit an invalid transition |
| GroupTheorems.FailFastChunksExact | crates/agm-cli/src/runtime/scheduler.rs:872-874 | with fail-fast the exact condition is that no member repeats |
| GroupTheorems.SequentialErrorExact | crates/agm-cli/src/runtime/scheduler.rs:809-841 | a sequential group without fail-fast aborts exactly when a member was left InProgress |
| GroupTheorems.NeverAbortsExact | crates/agm-cli/src/runtime/scheduler.rs:794-880 | the exact condition for a group, of either kind and with or without fail-fast, to abort under no outcome |
| GroupTheorems.IndependentGroupNeverFails | crates/agm-cli/src/runtime/scheduler.rs:843-877 | distinct members none of which depends on another never abort the run, whatever the state, the outcomes and the chunk size |
| GroupTheorems.SequentialExact | crates/agm-cli/src/runtime/scheduler.rs:823-831 | a sequential group's results follow the dependencies, under every outcome, exactly when its list arranges that |
| Arrangement.GroupArrangedExact | crates/agm-cli/src/runtime/scheduler.rs:823-863 | a group dispatches nodes only after their dependencies, under every outcome, exactly when each active member is behind its active dependencies: in a sequential group anywhere, in a parallel one by a chunk |
| Arrangement.ArrangedListed | crates/agm-cli/src/runtime/scheduler.rs:823-831 | for a sequential group this condition and the one of `SequentialExact` are the same |
| Arrangement.ParallelIgnoresDepends | crates/agm-cli/src/runtime/scheduler.rs:843-863 | a parallel group completes a node whose dependency has not run |
| ArrangedRuns.RunReadyOrder | crates/agm-cli/src/runtime/scheduler.rs:647-712 | if every dispatch of an orchestrated run has its dependencies done, all its results follow the dependencies |
| ArrangedRuns.GroupKeepsSafe | crates/agm-cli/src/runtime/scheduler.rs:794-880 | such a group keeps the safety invariant |
| SoundRuns.RunSufficient | crates/agm-cli/src/runtime/scheduler.rs:650-710 | lists that put dependencies into earlier groups, or with fail-fast into earlier chunks, make a run respect them and never abort |
| SoundRuns.RunNecessary | crates/agm-cli/src/runtime/scheduler.rs:650-710 | and no others do |
| SoundRuns.RunSoundExact | crates/agm-cli/src/runtime/scheduler.rs:650-710 | the exact condition for an orchestrated run from a safe state to dispatch every node after its dependencies and never abort, whatever the outcomes |
| AbortFreeRuns.NeverInvalidExact | crates/agm-cli/src/runtime/scheduler.rs:683-693 | the exact condition on the groups alone for an orchestrated run never to hit an invalid transition, whatever the outcomes, from the safe states that histories lead to, and as well from all states without InProgress nodes |
| Listings.DryRunLists | crates/agm-cli/src/runtime/scheduler.rs:882-903 | the dry run names the nodes of the groups, group after group, all as Pending |
| Listings.DryRunListsRun | crates/agm-cli/src/runtime/scheduler.rs:650-710 | without a target group and with successful outcomes the run executes just the listed nodes, in that order, exactly when no listed node repeats and all are active |
| Listings.TargetListing | crates/agm-cli/src/runtime/scheduler.rs:882-903 | with a target group the two agree exactly when the target requires no group and repeats no member, its members are active, and the listing is the target's members alone |
| Listings.ListingOnly | crates/agm-cli/src/runtime/scheduler.rs:882-903 | which is so exactly when all other groups are empty |
| Suite.NextPermits | crates/agm-cli/src/bench/runner.rs:479-498 | every step keeps free permits plus holders at n, and keeps enough wakeups under way |
| Suite.NextTallies | crates/agm-cli/src/bench/runner.rs:84-102 | every step keeps tallies and results equal to what the threads have passed |
| Suite.NoLostWakeup | crates/agm-cli/src/bench/runner.rs:466-498 | over all interleavings and spurious wakeups, at most n cases are in flight and no wakeup is lost |
| Suite.NoDeadlock | crates/agm-cli/src/bench/runner.rs:479-497 | with at least one permit some thread can step until all are done |
| Suite.ZeroPermitsHang | crates/agm-cli/src/bench/runner.rs:481-483 | with no permits no case is ever started |
| Suite.RunBound | crates/agm-cli/src/bench/runner.rs:73-105 | the number of steps is bounded, up to spurious wakeups |
| Suite.TalliesExact | crates/agm-cli/src/bench/runner.rs:84-102 | the tallies count the cases in the buckets Pass, NormalizeFixable and SchemaOnly, and Pass, NormalizeFixable and ValidateOnly |
| Suite.SuiteDeterministic | crates/agm-cli/src/bench/runner.rs:65-127 | a suite of m distinct cases ends within 10m steps, plus two per spurious wakeup, with the same results in lexicographic order of case id and the same counts of those buckets under every interleaving |
| Text.ValueOfDigits | crates/agm-core/src/compiler/id_generator.rs:64 | a decimal numeral stands for its number |
| Text.ValueConcat | crates/agm-cli/src/runtime/memory.rs:464-500 | a digit string is positional notation to base ten |
| Text.ValueOne | crates/agm-cli/src/runtime/memory.rs:464-500 | in which each digit stands for itself |
| Text.DigitBounds | crates/agm-core/src/compiler/id_generator.rs:64 | a numeral has no leading zero |
| Text.DigitsInjective | crates/agm-core/src/compiler/id_generator.rs:64 | different counters print differently |
| IdGenerator.MapCharacters | crates/agm-core/src/compiler/id_generator.rs:81-90 | the first loop maps character by character, as `MappedExact` says |
| IdGenerator.MappedExact | crates/agm-core/src/compiler/id_generator.rs:83-90 | a space, hyphen or underscore becomes an underscore, a letter its lower case, a digit stays, and the rest goes |
| IdGenerator.CollapseUnderscores | crates/agm-core/src/compiler/id_generator.rs:92-105 | the second loop collapses runs of underscores |
| IdGenerator.SanitizeSegment | crates/agm-core/src/compiler/id_generator.rs:80-120 | the loops compute the sanitiser that `SanitizeCore` and `GapExact` determine |
| IdGenerator.SanitizeIsSegment | crates/agm-core/src/compiler/id_generator.rs:73-79 | the result is empty, or a letter and then id characters with no doubled or trailing underscore |
| IdGenerator.SanitizeExact | crates/agm-core/src/compiler/id_generator.rs:73-120 | such segments are left alone, so sanitising twice is sanitising once |
| IdGenerator.SanitizeCore | crates/agm-core/src/compiler/id_generator.rs:83-119 | letters and digits are kept in order, lower-cased, with an `n` in front exactly if they start with a digit; nothing is left exactly if there were none |
| IdGenerator.GapExact | crates/agm-core/src/compiler/id_generator.rs:83-109 | between two consecutive letters or digits there is exactly one underscore if the heading has a space, hyphen or underscore there, and none otherwise |
| IdGenerator.OneCharacter | crates/agm-core/src/compiler/id_generator.rs:107-119 | a heading with one letter or digit becomes just that, with `n_` in front of a digit |
| IdGenerator.RequestedExact | crates/agm-core/src/compiler/id_generator.rs:33-53 | with a prefix the id is the prefix, its first dot and the sanitised heading; without one the sanitised heading, or `node` if that is empty |
| IdGenerator.RequestedUnnumbered | crates/agm-core/src/compiler/id_generator.rs:33-53 | no requested id ends in a dot and digits |
| IdGenerator.NumberedInjective | crates/agm-core/src/compiler/id_generator.rs:64 | a numbered id determines its base and its number |
| IdGenerator.UsedExact | crates/agm-core/src/compiler/id_generator.rs:57-68 | number k of a base is in use exactly after more than k requests for it |
| IdGenerator.IdsDistinct | crates/agm-core/src/compiler/id_generator.rs:55-70 | all ids of any history are distinct |
| IdGenerator.Generator.constructor | crates/agm-core/src/compiler/id_generator.rs:22-27 | the prefix is sanitised |
| IdGenerator.Generator.Generate | crates/agm-core/src/compiler/id_generator.rs:33-43 | after k earlier requests for the same base the id is the base, or for k > 0 the base, a dot and the numeral of k, and the flag says which |
| IdGenerator.Generator.MakeUnique | crates/agm-core/src/compiler/id_generator.rs:56-70 | the suffix search ends after as many tries as there were earlier requests |
| IdGenerator.PatternExact | crates/agm-core/src/compiler/id_generator.rs:1-3 | an id has the documented shape exactly if it has no suffix and is not a bare prefix and dot |
| Duration.ParseWrite | crates/agm-cli/src/runtime/memory.rs:438-543 | every well-formed duration parses to 86400 d + 3600 h + 60 m |
| Duration.ParseCountExact | crates/agm-cli/src/runtime/memory.rs:464-500 | a count is one or more digits, with or without a plus sign, whose value fits 64 bits |
| Duration.DurationShape | crates/agm-cli/src/runtime/memory.rs:438-543 | every accepted text is a well-formed duration |
| Duration.ParseExact | crates/agm-cli/src/runtime/memory.rs:438-543 | a text parses to v exactly if it is a well-formed duration of v seconds |
| Duration.RfcExact | crates/agm-cli/src/runtime/memory.rs:438-543 | a text is a duration of appendix A of RFC 3339 in days, hours and minutes exactly if it is accepted and has no plus sign |
| Duration.DocumentedExact | crates/agm-cli/src/runtime/memory.rs:427-437 | of the accepted texts the documented patterns leave out exactly those with a plus sign and those with days and minutes but no hours |
| Duration.DaysMinutesAccepted | crates/agm-cli/src/runtime/memory.rs:427-437 | `P1DT5M` is accepted and not in the documented list |
| Duration.PlusAccepted | crates/agm-cli/src/runtime/memory.rs:464-466 | `P+1D` is accepted and not in that grammar |
| Duration.ParsePrint | crates/agm-cli/src/runtime/memory.rs:438-500 | parsing undoes printing for all d, h and m |
| Memory.ExpiredExact | crates/agm-cli/src/runtime/memory.rs:612-630 | an entry expires when its age reaches its duration, a zero duration almost a second before; an entry without a readable duration and time of update never does |
| Memory.ExpiredMonotone | crates/agm-cli/src/runtime/memory.rs:628-629 | expired stays expired as time passes |
| Memory.ActionExact | crates/agm-cli/src/runtime/memory.rs:351-358 | which entry an action is about and what it writes: the session scope and the session lifetime unless it says otherwise |
| Memory.OversizedExact | crates/agm-cli/src/runtime/memory.rs:361-369 | of plain text a write is refused exactly above 32768 characters |
| Memory.Utf8Exact | crates/agm-cli/src/runtime/memory.rs:361-369 | a character counts as many bytes as its UTF-8 form |
| Memory.PutUpsert | crates/agm-cli/src/runtime/memory.rs:202-293 | writing into one of the four stores is writing into the one map they represent |
| Memory.PutDelete | crates/agm-cli/src/runtime/memory.rs:295-307 | likewise for deleting |
| Memory.RepresentsSize | crates/agm-cli/src/runtime/memory.rs:553-606 | the map has as many entries as the four stores together |
| Memory.MemoryRuntime.constructor | crates/agm-cli/src/runtime/memory.rs:157-180 | a new runtime holds the loaded project and global entries |
| Memory.MemoryRuntime.DoUpsert | crates/agm-cli/src/runtime/memory.rs:202-293 | the write of the map, in the store of the scope |
| Memory.MemoryRuntime.DoDelete | crates/agm-cli/src/runtime/memory.rs:295-307 | the removal from the map, and whether there was something to remove |
| Memory.MemoryRuntime.ExecuteAction | crates/agm-cli/src/runtime/memory.rs:354-376 | each action does and returns what it does on the map; an oversized value is refused and changes nothing |
| Memory.MemoryRuntime.ClearNodeScope | crates/agm-cli/src/runtime/memory.rs:385-387 | exactly the entries of that node go |
| Memory.MemoryRuntime.ClearSessionScope | crates/agm-cli/src/runtime/memory.rs:390-392 | exactly the session entries go |
| Memory.MemoryRuntime.DoExpire | crates/agm-cli/src/runtime/memory.rs:553-606 | exactly the expired entries go, and the count is the fall in size over all stores |
| Memory.MemoryRuntime.Perform | crates/agm-cli/src/runtime/memory.rs:350-421 | any one event does what it does on the map |
| Memory.MemoryRuntime.PerformAll | crates/agm-cli/src/runtime/memory.rs:188-606 | after any sequence of actions, clears and expiries the four stores hold what a replay on one map does |
| Memory.ListExact | crates/agm-cli/src/runtime/memory.rs:309-343 | listing a store lists the map's entries of that scope, owner and topic |
| Memory.CreatedExact | crates/agm-cli/src/runtime/memory.rs:216-219 | an entry's creation time is the time of the write that began its unbroken lifetime |
| Memory.LatestWrite | crates/agm-cli/src/runtime/memory.rs:220-230 | everything else is that of the latest write |
| Memory.PresentExact | crates/agm-cli/src/runtime/memory.rs:350-421 | an entry is there after a history exactly if an event wrote it and none since took it away, and it says what that event wrote |
| Memory.BeginsExact | crates/agm-cli/src/runtime/memory.rs:216-219 | every entry that is there has a first write of its unbroken lifetime |
| Memory.AnswerAfter | crates/agm-cli/src/runtime/memory.rs:188-376 | after any history a read finds an entry exactly if it was written and not taken away since, with the latest write's contents and the creation time of its unbroken lifetime; a removal says whether there was one; a listing has those of one store and topic |
| Memory.ExpireExact | crates/agm-cli/src/runtime/memory.rs:553-606 | expiring removes exactly the expired entries, and a second time at once none |
| Memory.ExpiredStays | crates/agm-cli/src/runtime/memory.rs:553-630 | over any history without a write to it, an expired entry stays expired and the next expiry leaves none of it |
| Cassettes.PathIdentifies | crates/agm-cli/src/bench/cassette.rs:79-84 | a path determines provider and model, and the case id up to its slashes |
| Cassettes.SlashesExact | crates/agm-cli/src/bench/cassette.rs:79-84 | slashes of a case id become underscores and nothing else changes |
| Cassettes.PathOfCase | crates/agm-cli/src/bench/cassette.rs:75-84 | the documented path of one case, version directory and extension included |
| Cassettes.KeyIdentifiesPrompt | crates/agm-cli/src/bench/cassette.rs:65-73 | with provider and model known, the key determines the prompt |
| Cassettes.KeyAmbiguous | crates/agm-cli/src/bench/cassette.rs:63-73 | the key alone does not: a colon can move from the model to the prompt |
| Cassettes.KeyExact | crates/agm-cli/src/bench/cassette.rs:63-73 | a key is shared with no other request whose names have no colon exactly when its own provider and model have none |
| Cassettes.KeyUnique | crates/agm-cli/src/bench/cassette.rs:63-73 | it is shared with no other request at all exactly when the prompt has no colon either |
| Cassettes.HitIsAnswer | crates/agm-cli/src/bench/cassette.rs:97-111 | what a lookup finds is an answer of the provider to this very request, even if two cases share the file |
| Cassettes.CallExact | crates/agm-cli/src/bench/runner.rs:179-249 | mode by mode: who answers, with which error, and what becomes of the disk |
| Cassettes.PreviewExact | crates/agm-cli/src/bench/runner.rs:208 | the preview is the front of the prompt, at most 120 characters |
| Cassettes.Cache.Fetch | crates/agm-cli/src/bench/runner.rs:179-249 | the four modes, with their errors, as a step on the disk |
| Cassettes.Cache.Send | crates/agm-cli/src/bench/cassette.rs:171-242 | the wrapping provider: a broken cassette and a failed write are errors here |
| Cassettes.CallsKeepGenuine | crates/agm-cli/src/bench/runner.rs:203-247 | over any history of calls the disk holds only answers of the provider |
| Cassettes.ReplayAgrees | crates/agm-cli/src/bench/runner.rs:188-232 | after any history from an empty disk, a replayed response was given earlier for the same provider, model and prompt |
| Cassettes.RecordedIsReplayed | crates/agm-cli/src/bench/runner.rs:222-247 | what a call records is replayed later, unless the file was recorded over in between |

## Left out

- Saving, loading and flushing state and memory files: taken to succeed, with a loaded state as a parameter; their parsers and renderers are not part of this model.
- Timestamps, session ids, and agent names, durations and logs in the results of a report.
- The work of agents and verifiers: their outcome is fixed per node and run. `node_status` checks, which read scheduler state while a batch is being recorded, are outside that assumption.
- Memory actions, prompts and code blocks inside node execution; memory is modelled on its own.
- The body of petgraph's topological sort: its answer is a parameter. The edges of other relation kinds, which the scheduler does not follow.
- Orchestrated runs without a target group are modelled although the run command reaches `run_orchestrated` only with one (crates/agm-cli/src/commands/run.rs:51-73).
- `unwrap` on a missing group in crates/agm-cli/src/runtime/scheduler.rs:658 cannot fail, so it has no error case here.
- Machine overflow of retry counts, the id counter and duration arithmetic; counts in a duration are limited to 64 bits, their sum is not.
- The hash of a cassette key: SHA-256 is taken to be injective, so the key is the text that is hashed.
- Half-written cassette files, provider names with slashes, and the file system's own treatment of path characters.
- Per-case evaluation, retries of one case, token statistics, cost, percentiles and report formats; a case's result is fixed.
- The semaphore and the threads of the suite are steps on one state value, not a class; poisoned locks and panics are not modelled.
- The order of a listing from a hash map: `Memory` returns listings as maps. `list_topic` and `gc` are thin wrappers around what is modelled.
- HTTP providers, schema checks, the language server, the builders, ingestion and the command line.
- ExecuteNode: covers statuses and records; memory actions, the context, the order of verification and saving around them are not in its contract.
- DispatchParallel: likewise; the agents' threads are one fixed outcome per node.
- HistorySafety: covers single-node resets and group runs only when their guards hold, because both can break the invariant (ResetNodeBreaks, ParallelIgnoresDepends); an aborted run that leaves nodes InProgress in memory is therefore not part of a history. Partial resets are moments of a reset, where Completed nodes can be above Pending ones until it is finished.
- GetProgress: gives the percentage as an exact real, where the source rounds to a 64-bit float.
- PercentExact: likewise.
- NeverInvalidExact: quantifies over start states; for one given start state RunSoundExact gives the condition together with the one for dependencies.
- SuiteDeterministic: bounds steps and shows that a stopped suite is finished; that a scheduler eventually runs every enabled thread is not stated.
