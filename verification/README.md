# Propeller, modelled and verified in Dafny

Propeller runs WebAssembly tasks on a fleet of workers called proplets. A manager stores tasks,
orders them into workflows, starts them over a message broker and collects results. A proxy streams
container images to proplets. A small proplet for microcontrollers carries its own JSON library.

The project models the parts of this system in which something can go wrong that no single function
shows, and proves what holds there for every input, every run or every interleaving.

- **Graphs** (`Graph`, `Dag`): cycle detection by depth-first search, Kahn's sort and the ready list.
- **Stores** (`TextOrder`, `Storage`, `TaskStore`): the in-memory store, and the metadata index as a
  refinement of a linear scan.
- **Manager** (`Tasks`, `World`, `Creation`, `Safety`, `Coordinator`, `Completion`, `StuckRuns`, `Liveness`,
  `SkipChains`, `Starts`, `Outcomes`, `JobOutcomes`, `Upkeep`, `Manager`): the steps of the manager as
  functions on a value `World`; invariants over all runs; when the mutually recursive start and pass come
  back, when a result message does, and which runs get stuck; how many moves a workflow needs and that it
  finishes; what each step leaves, told by the stored tasks, pins and counts alone; and a class `Service`
  over the stores whose methods are proved to take exactly these steps.
- **Calls** (`Invoke`, `Broadcast`, `RoundRobin`): invocations as interleaved callers and handlers,
  broadcast invocation, and the scheduler.
- **Proxy** (`Chunking`, `Proxy`): chunking, and the interleaved dispatcher, workers and streamer.
- **Federated averaging** (`FedAvg`), over the reals.
- **JSON** (`JsonText`, `JsonParse`, `JsonReader`, `JsonWriter`, `JsonRoundTrip`, `JsonGrammar`,
  `JsonDocuments`, `JsonList`): printing and parsing as functions, reader and writer over byte buffers
  proved against them, the round trip, the texts of RFC 8259 and that each is read as it is meant, and the
  doubly linked list of children as a sequence.
- **Common** (`Options`, `MachineInts`): optional values and the 64-bit range.

Input from outside is a parameter: which proplet is selected, whether a message is published, fresh
identifiers, the answers of proplets, the order in which concurrent parts take their steps. Recursion
between starts and passes is indexed by a depth that counts nested passes. `Coordinator` and `Completion`
prove exactly when some depth is enough: for passes, for starts, and for result messages.

`dafny verify dfyconfig.toml` checks the project.

## Where code and expectation differ

- `ValidateDAG` marks ids outside the list in `recStack` and never unmarks them, so an absent id that is
  listed twice is reported as a cycle. `Dag.ValidateDAG` states the exact condition,
  `Dag.MissingReportedAsCycle` gives an input. Where dependencies are checked first it does not matter.
- The last error of `TopologicalSort` is reachable: lists that pass both validations and repeat an id end in
  it, and no others (`Dag.TopologicalSort`, `Dag.RepeatedIdReachesLastError`).
- A pending task with `run_if: failure` that has one failed and one interrupted dependency makes a pass
  call a start that calls a pass, without end. `Coordinator.PassTerminates`, `Coordinator.StartTerminates`
  and `Completion.ResultsTerminate` state that this is the only way for any of them not to come back. Only
  shutdown writes the state interrupted, and then nothing is started any more, so within one life of the
  manager a run gets there only if a caller creates a task that is already interrupted
  (`StuckRuns.StuckIsReached`, `StuckRuns.ReachableNeverStuck`). After a restart on a store that survives,
  recovery removes the state (`Coordinator.RecoveryUnsticks`).
- A result message starts one pass. When that pass only skips, the tasks behind the skipped ones wait for a
  pass that no result of an active task will start; a repeated or late result, or a start of an unsettled
  task, would. `SkipChains.SkipsWaitForAnotherPass` is the exact condition, `SkipChains.SkipChainIsLeft` an
  input. The bound of `n + 1` moves therefore counts passes as moves of their own.
- Neither append nor insert looks for the item among the children, and append keeps a stale next link;
  `JsonList.AddItemToArray` and `JsonList.InsertItemInArray` say exactly when the links still represent a
  list, `JsonList.AppendedTwice` is an input.
- `createChunks` does not check its size, and its sum can wrap; `Chunking.CreateChunks` says exactly when it
  panics and when it loses the data, `Chunking.ExtremeSizes` gives inputs.
- `List` allocates a page whose end may wrap around 2^64 and then panics; `Storage.MemoryStorage.List` says
  exactly when, `Storage.PageWraps` is an input.
- `buffer_skip_whitespace` steps back onto the last byte when everything is blank; the model follows it.
- Deleting a task leaves its pin, so the next task with its id is pinned to a proplet that it may not name.
  `Starts.StepPinsMatch` is the exact condition, `Starts.StalePin` a run.
- FedAvg takes the number of weights from the first update, so the order of updates matters as soon as
  their shapes differ. `FedAvg.AggregateInAnyOrder` is the exact statement, `FedAvg.OrderDecidesShape` an input.

## Model

| member | source | states |
|---|---|---|
| `Dag.ValidateDAG` | pkg/dag/validator.go:16-68 | The depth-first search with its two mark sets returns nil if and only if no task lists itself, the graph is acyclic and no id outside the list is listed twice; every error is a self-dependency or a cycle report; it terminates |
| `Dag.ValidatedIffAcyclic` | pkg/dag/validator.go:16-87 | For unique ids with all dependencies present, that condition is exactly acyclicity |
| `Dag.MissingReportedAsCycle` | pkg/dag/validator.go:34-51 | A task list without a cycle that is nevertheless reported as one, because an absent id is listed twice and stays in recStack |
| `Dag.DepthFirst.Visit` | pkg/dag/validator.go:33-56 | One call of the recursive closure keeps the search invariant (open visits form a walk, closed visits a topological order) or returns an error that witnesses a cycle or a repeated absent id |
| `Dag.SearchAll` | pkg/dag/validator.go:58-67 | Restarting the search from every task decides acyclicity of the whole graph |
| `Dag.LookAtMarked` | pkg/dag/validator.go:43-51 | A dependency still in recStack closes a cycle of the graph or is an absent id listed elsewhere too |
| `Dag.AllClosed` | pkg/dag/validator.go:58-67 | When every node is closed, the closing order is topological, so there is no cycle |
| `Dag.ValidateDependenciesExist` | pkg/dag/validator.go:70-87 | Nil if and only if every listed id belongs to a task of the list; an error names a task and a dependency that is really missing |
| `Dag.TopologicalSort` | pkg/dag/validator.go:89-145 | Succeeds if and only if all dependencies exist, the graph is acyclic and ids are unique; the result is a permutation with every dependency earlier; the last error is returned if and only if both validations pass and some id is repeated |
| `Dag.RepeatedIdReachesLastError` | pkg/dag/validator.go:140-142 | Two tasks with one id pass both validations, so the last error is reached |
| `Dag.BuildDependents` | pkg/dag/validator.go:98-109 | In-degrees and reverse lists count every listed dependency as often as it is listed |
| `Dag.Release` | pkg/dag/validator.go:132-137 | Releasing dependents subtracts exactly their multiplicity and enqueues exactly those that reach zero |
| `Dag.KahnDone` | pkg/dag/validator.go:140-142 | An empty queue over an acyclic graph with all dependencies present leaves no task unvisited |
| `Dag.Drain` | pkg/dag/validator.go:111-138 | The queue loop emits each visited task once, and every task with its dependencies before it when ids are unique |
| `Dag.GetReadyTasks` | pkg/dag/validator.go:147-172 | Exactly the tasks that are not terminal and whose dependencies are all in the completed map with a terminal state, in list order |
| `Dag.ReadyTasksMembers` | pkg/dag/validator.go:147-172 | Membership in the ready list, both directions |
| `Graph.AcyclicHasSource` | pkg/dag/validator.go:16-68 | Every non-empty set of nodes of an acyclic graph has a node none of whose dependencies is in the set |
| `Graph.TopoOrderAcyclic` | pkg/dag/validator.go:89-145 | A graph whose nodes can be listed with dependencies first has no cycle |
| `Storage.MemoryStorage.Create` | pkg/storage/memory.go:23-38 | Stores a new non-empty key, or fails and changes nothing |
| `Storage.MemoryStorage.Get` | pkg/storage/memory.go:40-53 | The stored value, or the error for an empty or an unknown key |
| `Storage.MemoryStorage.Update` | pkg/storage/memory.go:55-70 | Replaces an existing value, or fails and changes nothing |
| `Storage.MemoryStorage.List` | pkg/storage/memory.go:72-95 | The requested page of the values in ascending key order with the full total; it panics if and only if the offset lies inside the listing and offset plus limit wraps around 2^64 |
| `Storage.PageWraps` | pkg/storage/memory.go:82-90 | With two entries, offset one and the largest limit the listing panics |
| `Storage.PagesJoin` | pkg/storage/memory.go:82-95 | A page is no longer than its limit, consecutive pages make up the longer page, and the page of everything is the listing |
| `TextOrder.LeFirstDifference` | pkg/storage/memory.go:80-80 | The sort order: a prefix comes first, otherwise the string with the smaller character where the two first differ |
| `Storage.MemoryStorage.Delete` | pkg/storage/memory.go:97-108 | Removes the key if it is there; only an empty key is an error |
| `TaskStore.TaskRepo.IndexTask` | pkg/storage/memory_adapter.go:134-145 | Adds exactly the (key, text, id) triples of the task, without empty inner sets |
| `TaskStore.TaskRepo.DeindexTask` | pkg/storage/memory_adapter.go:147-162 | Removes exactly the triples of the task, without leaving empty inner sets |
| `TaskStore.TaskRepo.Create` | pkg/storage/memory_adapter.go:34-43 | Stores and indexes a new task, or fails and leaves store and index alone; the index stays exact |
| `TaskStore.TaskRepo.Get` | pkg/storage/memory_adapter.go:45-56 | The stored task or the error |
| `TaskStore.TaskRepo.Update` | pkg/storage/memory_adapter.go:58-72 | Replaces task and index entries together, or fails and leaves both alone; the index stays exact |
| `TaskStore.TaskRepo.Delete` | pkg/storage/memory_adapter.go:122-132 | Removes a task with its index entries; the index stays exact |
| `TaskStore.IndexUnique` | pkg/storage/memory_adapter.go:134-162 | The exact index is determined by the stored tasks, so equal stores have equal indexes |
| `TaskStore.TaskRepo.FilterIDsByMetadata` | pkg/storage/memory_adapter.go:192-225 | The intersected ids are exactly the stored tasks that match the whole filter; the early exit means that none does |
| `TaskStore.SortedListingIsScan` | pkg/storage/memory_adapter.go:227-255 | Sorting any duplicate-free listing of the matching tasks by id gives the linear scan |
| `TaskStore.TaskRepo.List` | pkg/storage/memory_adapter.go:74-80 | A filtered page equals the same page of the id-sorted scan of matching tasks, with the same total |
| `TaskStore.TaskRepo.ListByMetadata` | pkg/storage/memory_adapter.go:227-255 | The index path of List, with the same specification |
| `TaskStore.TaskRepo.ListByWorkflowID` | pkg/storage/memory_adapter.go:82-100 | One full listing, filtered by workflow id, in id order |
| `TaskStore.TaskRepo.ListByJobID` | pkg/storage/memory_adapter.go:102-120 | One full listing, filtered by job id, in id order |
| `TaskStore.OfWorkflowMembers` | pkg/storage/memory_adapter.go:82-100 | The workflow listing holds exactly the stored tasks of the workflow, in strictly ascending id order |
| `TaskStore.OfJobMembers` | pkg/storage/memory_adapter.go:102-120 | The job listing holds exactly the stored tasks of the job, in strictly ascending id order |
| `TaskStore.ListAfter` | pkg/storage/memory_adapter.go:34-255 | After any history of creates, updates and deletes, failing ones included, List returns the page of the scan of what the history leaves behind |
| `Creation.CreateTaskKeepsAcyclic` | manager/service.go:210-276 | Creating a task under an id that no stored task lists keeps the graph over all stored tasks acyclic |
| `Creation.StoreAllKeepsAcyclic` | manager/service.go:278-401 | Storing an accepted batch under new ids keeps the graph over all stored tasks acyclic, whatever workflow or job id it reuses |
| `Creation.AcceptedDepsStored` | manager/service.go:215-236 | An accepted task depends only on stored tasks |
| `Creation.WorkflowAllOrNothing` | manager/service.go:278-332 | CreateWorkflow stores the whole batch under one workflow id and nothing else changes, or leaves everything as it was |
| `Creation.JobAllOrNothing` | manager/service.go:334-401 | CreateJob stores the whole batch together with the job record, or leaves tasks and jobs as they were |
| `Creation.JobStoresRequest` | manager/service.go:334-401 | A job is accepted if and only if it has tasks, their ids (their own, or fresh ones) are new and distinct, its id (the first one given, or a fresh one) is new, every dependency is one of its tasks and they form no cycle; each task is then stored as it was sent in every field but id and job id, beside the old tasks and one new job record |
| `Creation.WorkflowStoresRequest` | manager/service.go:278-332 | The same for a workflow, which is accepted only if every run_if is empty, success or failure, and keeps every field but id and workflow id |
| `Creation.CreateTaskStores` | manager/service.go:210-276 | A created task is stored as it was sent in every field but its id; it is not a broadcast that names a proplet, and depends only on stored tasks of its workflow; without dependencies any other request under a new id is accepted |
| `Safety.RunKeepsInv` | manager/service.go:197-844 | Every state reachable by the manager operations, passes and messages, with any choice of proplets and any publish failures, satisfies the invariant |
| `Safety.ReachableAcyclic` | manager/service.go:210-694 | In every reachable state the dependency graph over all stored tasks is acyclic |
| `Safety.ReachableDispatchesSettled` | manager/service.go:696-797 | In every run, a task is dispatched only while each of its dependencies is stored and Completed, Failed or Skipped |
| `Safety.ReachableCounts` | manager/service.go:749-844 | In every reachable state each proplet counts exactly the tasks pinned to it, and every pin names an existing proplet |
| `Safety.ReachableNoDoubleStart` | manager/service.go:749-844 | In every run, two successful starts of the same task have a stop of it between them |
| `Safety.UnpinRemoves` | manager/service.go:2299-2304 | On a matching state, unpinning a task counts down from at least one, so the clamp at zero never acts |
| `Safety.UnusedHasNoPins` | manager/service.go:197-208 | A proplet whose count is zero, the only kind that may be deleted, has no task pinned to it |
| `Safety.DispatchKeeps` | manager/service.go:712-797 | The part of StartTask after the dependency check keeps the invariant, whether or not the start message goes out |
| `Safety.StopKeeps` | manager/service.go:799-844 | StopTask keeps the invariant |
| `Safety.StartKeeps` | manager/service.go:696-797 | StartTask keeps the invariant, with any nested passes |
| `Safety.StopActivePins` | manager/service.go:1357-1364 | Stopping the active tasks of a job takes away exactly the pins of those that are stored, not broadcast and whose stop message goes out |
| `Safety.PassKeeps` | manager/workflow.go:80-141 | A coordinator pass keeps the invariant |
| `Safety.ResultsKeeps` | manager/service.go:1474-1558 | A result message keeps the invariant, with the job and workflow steps it triggers |
| `Safety.PropletSeenKeeps` | manager/service.go:1390-1472 | Proplet discovery and liveness messages keep the invariant |
| `Safety.DeletePropletKeeps` | manager/service.go:197-208 | Deleting a proplet keeps the invariant |
| `Safety.CreateWorkflowKeeps` | manager/service.go:278-332 | CreateWorkflow keeps the invariant |
| `Safety.CreateJobKeeps` | manager/service.go:334-401 | CreateJob keeps the invariant |
| `Safety.UpdateTaskKeeps` | manager/service.go:628-684 | UpdateTask keeps the invariant |
| `Safety.DeleteTaskKeeps` | manager/service.go:686-694 | DeleteTask keeps the invariant |
| `Safety.ShutdownKeeps` | manager/service.go:1030-1064 | Raising the shutdown flag and, later, interrupting the active tasks both keep the invariant, and so does recovery; in between any other operation may run |
| `Upkeep.UpdateReplaces` | manager/service.go:628-684 | An update replaces the name and the metadata if the request carries them, and nothing else |
| `Upkeep.LivenessKeepsLast` | manager/service.go:1461-1469 | A sign of life of a known proplet appends its time and keeps the last ten, and changes nothing else |
| `Upkeep.PropletSeen` | manager/service.go:1390-1443 | An unknown proplet is created idle and without a history; a known one only gets new metadata |
| `Upkeep.Deletable` | manager/service.go:197-208 | A proplet can be deleted if and only if no task is pinned to it |
| `Upkeep.InterruptOutcome` | manager/service.go:2322-2347 | A shutdown interrupts exactly the running and scheduled tasks, with its error text |
| `Upkeep.RecoveryOutcome` | manager/service.go:1066-1128 | Recovery makes failures of exactly the interrupted tasks; after a shutdown, of whatever was active then |
| `Coordinator.PassTerminates` | manager/workflow.go:80-141 | A pass comes back if and only if no pending task with run_if failure has all dependencies finished, one of them failed and one interrupted; then it needs no nested pass |
| `Coordinator.StartTerminates` | manager/service.go:696-710 | A start comes back if and only if it does not hand over to a pass over such a workflow; one nested pass is then always enough |
| `Coordinator.StuckPassDiverges` | manager/service.go:1268-1286 | Over such a workflow the pass never comes back at any recursion depth |
| `Coordinator.NoInterruptedNotStuck` | manager/workflow.go:80-141 | A workflow without an interrupted task is never in that condition |
| `Coordinator.RecoveryUnsticks` | manager/service.go:1066-1128 | After the recovery of interrupted tasks every pass and every start comes back |
| `StuckRuns.StuckIsReached` | manager/service.go:278-332 | Creating one workflow whose tasks arrive as failed, interrupted and pending with run_if failure reaches a state in which a pass never comes back |
| `StuckRuns.ReachableNeverStuck` | manager/service.go:696-844 | In every run in which no caller sends a task that is already interrupted, no workflow is ever stuck, and every pass, every start and every result message comes back |
| `Completion.ResultsTerminate` | manager/service.go:1474-1558 | Handling a result comes back if and only if no dependent that it starts hands over to a pass over a stuck workflow and its own pass does not run over one; one nested pass is then enough |
| `Completion.PlainResultsSpin` | manager/service.go:1505-1531 | Outside jobs, and for a failure inside one, that condition is that finishing the task leaves its workflow stuck |
| `Completion.NoInterruptedResults` | manager/service.go:1533-1558 | Without an interrupted task in the store every result message comes back, in jobs too |
| `Completion.DependentsTerminate` | manager/service.go:1595-1612 | Starting the dependents of a job task comes back if and only if none of the starts spins |
| `Completion.StartRestates` | manager/service.go:696-797 | A start that comes back changes tasks only by starting, skipping or failing them, and keeps everything else about them |
| `Coordinator.PassEffect` | manager/workflow.go:80-141 | A pass changes only pending tasks whose dependencies were all terminal when it began; it skips exactly those whose run_if fails over them and starts only those whose run_if holds |
| `Coordinator.PassKeepsFinished` | manager/workflow.go:80-141 | A task that was terminal when the pass began is the same afterwards |
| `Outcomes.PassOutcome` | manager/workflow.go:40-141 | Over the stored states alone: a pass changes only pending tasks all of whose dependencies are completed, failed, skipped or interrupted; it runs one only without dependencies, or with run_if empty or success and every dependency completed, or with run_if failure and some dependency failed, and it skips exactly the others |
| `Outcomes.WillingOutcome` | manager/workflow.go:40-141 | If every start succeeds, such a pending task runs or is skipped exactly as its run_if says, and every other pending task stays pending |
| `Outcomes.ResultOutcome` | manager/service.go:1488-1558 | Whenever the handling of a result comes back, at any depth, its task is completed, or failed with exactly the reported error, and is otherwise as before, also after the job branch and the completion pass |
| `Outcomes.ResultBehind` | manager/service.go:1488-1526 | Without a job, and for a failure in one, a result changes another task only if that is pending in the workflow with all dependencies done; it runs only if its run_if holds with the result noted, and is skipped exactly if it does not |
| `Outcomes.FailureBlocks` | manager/service.go:1494-1526 | A result with an error makes no task run whose run_if is empty or success and that depends on the failed one |
| `JobOutcomes.JobSuccessStarts` | manager/service.go:1595-1612 | A success in a job without a failed task makes every task of the job run that waited for it, has all its dependencies settled and can be started, whatever its run_if, also after the completion pass |
| `JobOutcomes.JobSuccessOnly` | manager/service.go:1528-1558 | A success in a job changes another task only if that is pending and either in the same workflow or waiting for it in a job without a failed task |
| `JobOutcomes.JobFailureStops` | manager/service.go:1519-1526 | A failure in a job takes away exactly the pins of its other running or scheduled tasks whose stop message gets out, and the completion pass gives none of them back |
| `Starts.StartOutcome` | manager/service.go:696-797 | A task that is not broadcast starts if and only if its dependencies are settled, the dispatch is allowed and published, it has no pin, and the proplet it names is known and alive, or the scheduler picks a known one if it names none; it is then pinned to and runs on that proplet, whose count alone rises, by one |
| `Starts.FailedStart` | manager/service.go:740-767 | A start that fails with its dependencies settled changes nothing, unless only the message did not get out: then the task has failed and nothing is pinned or counted |
| `Starts.BroadcastOutcome` | manager/service.go:713-722 | A broadcast task starts if and only if its dependencies are settled and the message goes out; nothing is pinned or counted |
| `Starts.ReachablePinsOwn` | manager/service.go:732-756 | In every run, whoever a step pins is pinned to the proplet it names afterwards, and to no other than the one it named before |
| `Starts.StepPinsMatch` | manager/service.go:686-694 | A step keeps every stored pinned task on the proplet it names if and only if it creates no task under the pin that a deleted one left on another proplet |
| `Starts.ReachablePinsMatch` | manager/service.go:732-756 | In every run without such a creation, every stored task that is pinned is pinned to the proplet it names |
| `Starts.StalePin` | manager/service.go:686-694 | A run in which a deleted task leaves its pin to a new task with its id that names another proplet |
| `Liveness.SomeTaskReady` | pkg/dag/validator.go:147-172 | In an acyclic workflow closed under dependencies, with an unfinished task and none running or scheduled, some pending task is ready |
| `Liveness.MoveWorks` | manager/workflow.go:80-157 | A pass with nothing active, or the result of an active task, in a job or not, keeps the workflow runnable with the same tasks and lowers the number of unfinished tasks plus the one pass that is due when none of them is active |
| `Liveness.FinishesWithin` | manager/workflow.go:80-157 | Whatever moves are chosen, a workflow of n tasks takes at most n + 1 of them; if it has somewhere to run, after any of its moves there is no further one if and only if every task is terminal |
| `Liveness.NeverBlocked` | manager/workflow.go:80-157 | While some task is not terminal, one proplet to choose and existing proplets for tasks that name one are enough for a move to be possible, whatever the results, and they still are afterwards, with fewer moves left |
| `Liveness.Finishes` | manager/workflow.go:80-157 | For every choice of results there are at most n + 1 consecutive passes and results from a state with somewhere to run that leave every task terminal |
| `Liveness.BeforePassWorks` | manager/service.go:1499-1551 | Up to its completion pass the result of an active task finishes that task and at most starts pending ones or takes pins away; the workflow stays runnable with fewer unfinished tasks |
| `Liveness.PassActives` | manager/workflow.go:100-138 | After a willing pass exactly the tasks are active that were before or were ready with their run_if holding, and exactly the ready ones have left the pending tasks |
| `SkipChains.SkipsWaitForAnotherPass` | manager/service.go:1499-1511 | The result of an active task outside a job leaves nothing active if and only if it was the last active one and every ready task fails its run_if; exactly the ready tasks stop being pending |
| `SkipChains.ResultLeaves` | manager/service.go:1499-1557 | The same in general, job tasks included, in terms of the state in which the completion pass runs |
| `SkipChains.SkipChainIsLeft` | manager/service.go:1499-1511 | A workflow of three tasks that one result leaves with a pending task and nothing active |
| `SkipChains.AnyResultRunsPass` | manager/service.go:1488-1511 | A result is accepted in every state of its task: a repeated or late one runs the pass of its workflow again |
| `Manager.EvaluateConditionalExecution` | manager/workflow.go:40-78 | True exactly for a task without dependencies, for run_if success or empty with every dependency known as completed, and for run_if failure with some dependency known as failed |
| `Manager.ShouldRunOnParents` | manager/workflow.go:106-113 | Only the states of a task's own dependencies matter to run_if |
| `Manager.CompletedStates` | manager/workflow.go:90-96 | The map that a pass builds holds exactly the terminal tasks of its listing |
| `Manager.Service.StartTask` | manager/service.go:696-797 | The imperative start ends in the world of the step function, with the same verdict; on success a task that is not broadcast is pinned to the proplet it names, which is the one it named before if it did |
| `Manager.Service.DispatchTask` | manager/service.go:712-797 | Broadcast or pinned dispatch over the stores equals the dispatch step, rollback of the pin included |
| `Manager.Service.RollBackStart` | manager/service.go:759-767 | After a failed publish the pin is gone and the task is stored as failed, everything else as before |
| `Manager.Service.CommitStart` | manager/service.go:769-797 | After a publish the task is pinned, counted and stored as running |
| `Manager.Service.BumpPropletTaskCount` | manager/service.go:2299-2304 | Changes one proplet's count, clamped at zero |
| `Manager.Service.CheckTaskDependencies` | manager/service.go:1268-1286 | Met dependencies let the start go on; a missing one fails it; an unsettled one runs one pass over the workflow and fails it |
| `Manager.Service.CheckAndStartReadyTasks` | manager/workflow.go:80-141 | The imperative pass, from one snapshot of the workflow, ends in the world of the pass step |
| `Manager.Service.OnTaskCompletion` | manager/workflow.go:143-157 | Runs a pass over the workflow of the task, if it has one |
| `Manager.Service.StopTask` | manager/service.go:799-844 | The imperative stop ends in the world of the stop step, with the same verdict |
| `Manager.Service.StopJobTasks` | manager/service.go:1357-1364 | Stops exactly the active tasks of the list, ignoring errors |
| `Manager.Service.AllDependenciesComplete` | manager/service.go:1618-1630 | True if and only if every dependency is stored and terminal |
| `Manager.Service.StartJobDependentTasks` | manager/service.go:1595-1612 | Starts the pending tasks of the job that depend on the finished one and whose dependencies are all terminal, whenever none of the starts spins |
| `Manager.Service.JobStatus` | manager/service.go:1533-1543 | Whether all tasks of the job are completed or skipped, and whether one failed |
| `Manager.Service.UpdateResultsHandler` | manager/service.go:1474-1558 | The imperative result handler stores the task as completed, or as failed with the reported error, and ends in the world of the result step for every message that does not spin, which ResultsTerminate shows to be every message it comes back from |
| `Manager.Service.CreatePropletHandler` | manager/service.go:1390-1443 | Creates a proplet or refreshes only the metadata of a known one |
| `Manager.Service.UpdateLivenessHandler` | manager/service.go:1445-1472 | Appends the time to the bounded history of a known proplet, or creates an unknown one |
| `Manager.Service.DeleteProplet` | manager/service.go:197-208 | Deletes a proplet only when it is known and counts no tasks |
| `Manager.Service.CreateTask` | manager/service.go:210-276 | The imperative creation ends in the world of the creation step, for tasks without a schedule |
| `Manager.Service.UpdateTask` | manager/service.go:628-684 | The imperative update of name and metadata ends in the world of the update step |
| `Manager.Service.DeleteTask` | manager/service.go:686-694 | The imperative deletion ends in the world of the deletion step |
| `Manager.Service.RollBack` | manager/service.go:318-326 | Deleting the tasks created so far restores the task store exactly |
| `Manager.Service.CreateWorkflow` | manager/service.go:278-332 | The imperative creation with its rollback ends in the world of the step, which WorkflowAllOrNothing describes; on failure the metadata index is unchanged too |
| `Manager.Service.CreateJob` | manager/service.go:334-401 | The imperative creation with its rollback ends in the world of the step, which JobAllOrNothing describes; on failure the metadata index is unchanged too |
| `JsonRoundTrip.PrintThenParse` | embed-proplet/src/cJSON.c:1115-1272 | Printing a tree of null, booleans, 32-bit integers, strings without zero bytes, arrays and objects, nested within the limit, into the buffer and parsing the bytes gives back the tree, formatted or not |
| `JsonRoundTrip.PrintParse` | embed-proplet/src/cJSON.c:1336-1854 | The text of such a tree parses to the tree |
| `JsonRoundTrip.ValueRoundTrip` | embed-proplet/src/cJSON.c:1336-1462 | The text of a value, followed by anything that does not continue a number, parses to the value and leaves the rest |
| `JsonRoundTrip.ItemsRoundTrip` | embed-proplet/src/cJSON.c:1465-1622 | The same for the elements of an array, with any blanks in front |
| `JsonRoundTrip.MembersRoundTrip` | embed-proplet/src/cJSON.c:1625-1854 | The same for the members of an object |
| `JsonRoundTrip.QuotedRoundTrip` | embed-proplet/src/cJSON.c:792-1041 | The quoted, escaped form of a byte string parses to the string |
| `JsonRoundTrip.NumberRoundTrip` | embed-proplet/src/cJSON.c:307-381 | The decimal text of a 32-bit integer parses to it |
| `JsonRoundTrip.LiteralDecodes` | embed-proplet/src/cJSON.c:671-789 | Every code point that is no surrogate is decoded from its one or two hexadecimal escapes to its UTF-8 bytes |
| `JsonRoundTrip.Utf8RoundTrip` | embed-proplet/src/cJSON.c:734-783 | The UTF-8 bytes of a code point determine it, as section 3 of RFC 3629 demands |
| `JsonGrammar.StringParses` | embed-proplet/src/cJSON.c:792-919 | Every string of section 7 of RFC 8259 (unescaped bytes, the eight short escapes, four hexadecimal digits of either case, surrogate pairs) is read as the concatenation of what its units mean by the table of the standard, and the rest is left |
| `JsonGrammar.NumberParses` | embed-proplet/src/cJSON.c:307-381 | Every number of section 6 of RFC 8259 of at most 63 bytes is read as its digits scaled by the exponent and the place of the point, and the rest is left |
| `JsonDocuments.ValueParses` | embed-proplet/src/cJSON.c:1336-1388 | Every value of the grammar of RFC 8259, with blanks wherever it allows them and nested at most 1000 deep, is read as it is meant, and the rest is left |
| `JsonDocuments.DocumentParses` | embed-proplet/src/cJSON.c:1084-1161 | So is every text, with blanks around it, behind a byte order mark if at least two bytes follow that, and up to a terminating zero if the whole text is asked for |
| `JsonDocuments.ReadDocument` | embed-proplet/src/cJSON.c:1115-1161 | The parser over its buffer returns what the text of a document means |
| `JsonReader.DecodeBound` | embed-proplet/src/cJSON.c:838-893 | The second pass writes fewer bytes than the allocation, even when an ill-formed escape puts it out of step with the first |
| `JsonReader.StringFitsAllocation` | embed-proplet/src/cJSON.c:805-896 | The decoded string and its terminator fit the memory that the first pass computes, for every input |
| `JsonReader.ParseBuffer.FindEnd` | embed-proplet/src/cJSON.c:805-836 | The first pass finds the closing quote and counts the skipped backslashes, without reading past the end |
| `JsonReader.ParseBuffer.DecodeInto` | embed-proplet/src/cJSON.c:838-896 | The second pass over the real output array writes exactly the decoded bytes, inside the array |
| `JsonReader.ParseBuffer.ParseHex4` | embed-proplet/src/cJSON.c:634-667 | Four hexadecimal digits as a number, zero if one is none |
| `JsonReader.ParseBuffer.EncodeUtf8` | embed-proplet/src/cJSON.c:734-783 | Writing the bytes back to front gives the UTF-8 encoding |
| `JsonReader.ParseBuffer.Utf16LiteralToUtf8` | embed-proplet/src/cJSON.c:671-789 | Decodes one escape or surrogate pair; length zero if and only if it is ill-formed |
| `JsonReader.ParseBuffer.SkipWhitespace` | embed-proplet/src/cJSON.c:1058-1081 | Moves to the first byte that is not blank, but never past the last byte |
| `JsonReader.ParseBuffer.ParseString` | embed-proplet/src/cJSON.c:792-919 | Agrees with the string grammar of the model; memory accesses stay in bounds |
| `JsonReader.ParseBuffer.ParseNumber` | embed-proplet/src/cJSON.c:307-381 | Agrees with the number grammar over at most 63 bytes |
| `JsonReader.ParseBuffer.ParseValue` | embed-proplet/src/cJSON.c:1336-1388 | Agrees with the value grammar and keeps the nesting depth |
| `JsonReader.ParseBuffer.ParseArray` | embed-proplet/src/cJSON.c:1465-1560 | Agrees with the array grammar, nesting limit included |
| `JsonReader.ParseBuffer.ParseObject` | embed-proplet/src/cJSON.c:1625-1740 | Agrees with the object grammar, nesting limit included |
| `JsonReader.ParseBuffer.ParseDocument` | embed-proplet/src/cJSON.c:1115-1192 | Agrees with the document grammar: byte order mark, one value, and only blanks behind it when a terminator is required |
| `JsonWriter.PrintBuffer.Ensure` | embed-proplet/src/cJSON.c:458-541 | Succeeds if and only if the room is there already, or there is an allocator and the size stays within the largest int; a new buffer has twice the needed size, capped, and keeps the bytes written |
| `JsonWriter.PrintBuffer.UpdateOffset` | embed-proplet/src/cJSON.c:544-554 | Moves to the terminator of what was written |
| `JsonWriter.PrintBuffer.CountEscapes` | embed-proplet/src/cJSON.c:949-973 | The first pass computes the exact length of the escaped string |
| `JsonWriter.PrintBuffer.StoreAllEscaped` | embed-proplet/src/cJSON.c:992-1036 | The second pass writes exactly that many bytes, and they are the escaped string |
| `JsonWriter.PrintBuffer.PrintStringPtr` | embed-proplet/src/cJSON.c:922-1041 | Appends the quoted string, terminated |
| `JsonWriter.PrintBuffer.PrintNumber` | embed-proplet/src/cJSON.c:564-631 | Appends the decimal text of a 32-bit integer |
| `JsonWriter.PrintBuffer.PrintValue` | embed-proplet/src/cJSON.c:1391-1462 | Appends the text of the value |
| `JsonWriter.PrintBuffer.PrintArray` | embed-proplet/src/cJSON.c:1563-1622 | Appends the text of the array and restores the depth |
| `JsonWriter.PrintBuffer.PrintObject` | embed-proplet/src/cJSON.c:1743-1854 | Appends the text of the object and restores the depth |
| `JsonWriter.PrintBuffer.Print` | embed-proplet/src/cJSON.c:1207-1272 | The printed bytes are the text of the tree, with a terminator |
| `JsonList.Item.GetArrayItem` | embed-proplet/src/cJSON.c:1880-1897 | The child at the index, or null behind the end |
| `JsonList.AddItemToArray` | embed-proplet/src/cJSON.c:1985-2016 | Appends to the sequence of children through the tail shortcut; null arguments and the array itself are refused; the links represent some list afterwards if and only if the item was no child and, behind others, had no next item, and then it is the old list with the item appended |
| `JsonList.AppendBreaks` | embed-proplet/src/cJSON.c:2006-2013 | An appended item that is a child already, or that has a next item, leaves links that represent no list |
| `JsonList.AppendedTwice` | embed-proplet/src/cJSON.c:1985-2016 | Appending one new item twice is such a case |
| `JsonList.DetachItemViaPointer` | embed-proplet/src/cJSON.c:2216-2250 | Removes the child from the sequence and leaves it pointing nowhere; an unlinked item is refused |
| `JsonList.DetachItemFromArray` | embed-proplet/src/cJSON.c:2252-2260 | Removes the child at the index, if there is one |
| `JsonList.InsertItemInArray` | embed-proplet/src/cJSON.c:2292-2324 | Inserts before the child at the index, or appends behind the end; the links represent some list afterwards if and only if the item is neither the parent nor a child, or behind the end can be appended |
| `JsonList.InsertBreaks` | embed-proplet/src/cJSON.c:2310-2322 | The parent or a child put in front of a child leaves links that represent no list |
| `JsonList.ReplaceItemViaPointer` | embed-proplet/src/cJSON.c:2326-2373 | Puts another node in the place of a child in the sequence; replacing a child by itself changes nothing |
| `JsonList.DetachAndPutBack` | embed-proplet/src/cJSON.c:2252-2324 | Detaching any child and inserting it at its index restores the list |
| `JsonList.AddAndDetach` | embed-proplet/src/cJSON.c:1985-2250 | Appending an item and detaching it restores the list |
| `Invoke.RunKeepsInv` | manager/service.go:1162-1193 | Every interleaving of callers, result messages, timeouts and cancellations keeps the invariant |
| `Invoke.AnswersAreOwnAndFirst` | manager/service.go:1162-1193 | In every run, a call that returns results or a remote error returns the first reply sent to its channel, from a message with its own invocation id |
| `Invoke.AnswersAreMessages` | manager/service.go:1560-1593 | In every run, results that a call returns are those of a message that came in with its invocation id and reported no error; a remote error is the one that such a message reported |
| `Invoke.NoSharedAnswer` | manager/service.go:1560-1593 | No message is offered to two calls |
| `Invoke.HandlerNeverBlocks` | manager/service.go:1582-1592 | A handler that found a channel can finish in every reachable state without moving a caller: its reply fills a free slot, and only a reply that is not the first for its call is dropped |
| `Invoke.FirstReplyIsKept` | manager/service.go:1162-1193 | While a call waits, the first reply for it is held in its channel and never dropped |
| `Invoke.PendingIsInFlight` | manager/service.go:1162-1173 | With invocation ids that no call in flight uses, the pending map holds exactly the calls in flight |
| `Invoke.NoLeak` | manager/service.go:1162-1173 | Once every call has returned the pending map is empty, even if ids were repeated |
| `Broadcast.OrderedProplets` | manager/service.go:2143-2157 | The list read in a circle from the first proplet with the given id, a permutation; the list itself if there is none |
| `Broadcast.RotationAt` | manager/service.go:2143-2157 | The circle read from position k: place i holds the element at k + i, counted around the end |
| `Broadcast.ContainsSomewhere` | manager/service.go:2139-2141 | An answer counts as not precompiled if and only if the text stands somewhere in its error |
| `Broadcast.InvokeBroadcast` | manager/service.go:1130-1160 | Tries proplets in cyclic order from the scheduler's choice, each position at most once, until an answer is anything but "not precompiled"; redeploys to all if and only if all answered that |
| `RoundRobin.Scheduler.SelectProplet` | pkg/scheduler/roundrobin.go:21-47 | Moves to the next proplet alive from any cursor value, even one beyond the list; the final error is returned only when nobody is alive, which is checked before |
| `RoundRobin.RoundCovers` | pkg/scheduler/roundrobin.go:39-44 | A full round of cursor positions falls on every proplet alive exactly once |
| `RoundRobin.Scheduler.SelectRound` | pkg/scheduler/roundrobin.go:21-47 | Over an unchanged list, as many consecutive choices as there are proplets alive choose each of them exactly once; these are the consecutive choices from the old cursor to the new one |
| `RoundRobin.RoundOfSelections` | pkg/scheduler/roundrobin.go:21-47 | Whatever the cursor was, any consecutive choices of the next proplet alive that are as many as the proplets alive in an unchanged list fall on each of these exactly once |
| `Chunking.CreateChunks` | proxy/http.go:133-154 | In 64-bit arithmetic: chunks numbered 0 to total - 1 that concatenate to the data, only the last shorter, if and only if the size is positive and length + size - 1 does not wrap (or there is no data and the size is the smallest); it panics exactly for size zero, for a negative size with at most one byte or more than twice its amount, except for no data and the smallest size, and for a sum that wraps while length + 2 size - 1 is at most 2^64; otherwise it returns no chunks |
| `Chunking.ExtremeSizes` | proxy/http.go:135 | With the largest size four bytes are lost without an error and three bytes panic; with the smallest size no data is no panic |
| `Chunking.ChunksRebuild` | proxy/http.go:133-154 | Concatenating the chunks of any data gives the data; none is empty |
| `Proxy.RunKeepsInv` | proxy/service.go:53-146 | Every interleaving of dispatcher, workers and streamer keeps the invariant |
| `Proxy.FetchesBounded` | proxy/service.go:58-85 | In every run, activeFetches is the size of fetching and at most 50, and no container has two live workers |
| `Proxy.RunsAreComplete` | proxy/service.go:103-126 | In every run, the chunks taken of a container are a prefix of its workers' runs, and every worker's chunks concatenate to what it fetched; unless a run of it was cut off they are in order, and a finished worker has sent all its chunks |
| `Proxy.TornOnlyByCancel` | proxy/service.go:103-113 | No run is cut off before the context is cancelled |
| `Proxy.SentInOrder` | proxy/service.go:68-114 | Because a container is not fetched twice at once, its runs follow each other without mixing |
| `Proxy.NextExpected` | proxy/service.go:126-138 | The next chunk of an undisturbed container is the one that the count expects |
| `Proxy.OneReportPerRun` | proxy/service.go:119-146 | Without publish failures, completion is reported at the last chunk of each run and nowhere else, once for every completed non-empty run |
| `FedAvg.ValidateAndProcess` | pkg/fl/aggregator.go:21-38 | ErrOverflow exactly for a negative count or a sum above 2^63 - 1, otherwise the weight and the new sum |
| `FedAvg.AggregateWeights` | pkg/fl/aggregator.go:40-50 | Adds the weighted numbers of one update to the sums in place, skipping what is no number or beyond the first update's length |
| `FedAvg.AggregateBias` | pkg/fl/aggregator.go:52-56 | Adds the weighted bias if it is a number |
| `FedAvg.Normalize` | pkg/fl/aggregator.go:58-66 | Divides every sum by the number of samples, if there are any |
| `FedAvg.Aggregate` | pkg/fl/aggregator.go:68-112 | The sample-weighted mean in every coordinate, with the shape of the first update; ErrNoUpdates exactly for an empty list, ErrOverflow exactly when some update with a payload has a negative count or the counts add up above 2^63 - 1 |
| `FedAvg.MeanBetween` | pkg/fl/aggregator.go:68-112 | Every coordinate lies between any bounds on the values that have weight, so between the least and the greatest of them |
| `FedAvg.OrderIrrelevant` | pkg/fl/aggregator.go:80-97 | Sums and sample counts do not depend on the order of the updates |
| `FedAvg.AggregateInAnyOrder` | pkg/fl/aggregator.go:68-112 | Two orders of the same updates give the same result if and only if the counts do not fit or the first updates have the same shape |
| `FedAvg.OrderDecidesShape` | pkg/fl/aggregator.go:9-19 | Two updates of different shape whose order decides whether the model has weights |

## Left out

- HTTP API, command line, SDK, middleware, telemetry and start-up: plumbing.
- The message broker, TLS, the OCI registry, plugins and WebAssembly runtimes: a publish is a step that succeeds or fails, a fetch returns bytes or nothing.
- Postgres, SQLite and Badger stores, and faults of a store: the manager is modelled on the memory store, which fails only for empty, unknown or existing keys. The rollback when `markTaskRunning` fails cannot happen there.
- Concurrency inside the manager: its operations run one after the other. The proxy and invocations are interleaved step by step instead.
- Shutdown and recovery of interrupted tasks are steps on the value `World` (`Safety.ShutdownKeeps`), without the imperative loops around them; the stop messages that both send change nothing in the stores.
- `StartJob` with its three modes, cron schedules, federated-learning rounds, metrics and job summaries: they would add members, not harder properties.
- Proxy and Invoke are state machines on values and not classes; each step is one atomic action of a goroutine, so what is not captured is the memory model below the channel and lock operations.
- The parser's child lists and JsonList are modelled separately: the reader builds sequences, and JsonList shows that the linked list represents a sequence.
- Storage.MemoryStorage.List: the number of stored entries is taken to be below 2^64, and so it is in every member that lists or creates tasks.
- Safety.RunKeepsInv: task counts are unbounded integers, and CreateTask draws ids that no stored task lists as a dependency. The answers of the environment are given per attempted task for each start and each pass, so two attempts at one task within a message may differ.
- Liveness.MoveWorks: a workflow with tasks that belong to jobs is runnable only if no task in the store is interrupted, because a job may reach into other workflows.
- JobOutcomes.JobSuccessStarts: with no interrupted task in the store; a dependent that has one would run a nested pass instead.
- Starts.FailedStart: the error text is modelled without the cause that the source appends.
- Liveness.Finishes: every start succeeds in its moves; a start that fails leaves its task pending, or failed by the publish.
- Manager.Service.CreateTask: schedules, and the error for an invalid cron expression, are not modelled, nor are kind, priority and timestamps.
- Manager.Service.UpdateTask: inputs, file, priority and schedule are not fields of the modelled task.
- Manager.Service.UpdateLivenessHandler: the stored alive flag is not modelled; it is recomputed from history and clock whenever a proplet is read, which the choice of a start stands for.
- Proxy.RunKeepsInv: for a positive chunk size, and fetched data for which the sum behind the number of chunks does not wrap.
- Chunking.CreateChunks: allocation does not fail, however many chunks there are.
- Proxy.OneReportPerRun: says nothing about a container after a chunk of it could not be published or its run was cut off.
- JsonList.DetachItemViaPointer: an item that is linked in another list is not covered; detaching it would relink that list under this parent.
- JsonList.ReplaceItemViaPointer: the item must be a child and the replacement new to the list, or the item itself; the source checks neither.
- JsonWriter.PrintBuffer.Ensure: allocation does not fail.
- JsonRoundTrip.PrintThenParse: numbers are 32-bit integers; printing other doubles goes through sprintf and the locale, which are not modelled, nor are raw items, allocation failure and minification.
- FedAvg.Aggregate: over the reals, without floating-point rounding.
- JsonReader.ParseBuffer.ParseString: a decoded zero byte is a byte of the value like any other; the source stores a C string, which readers see end there.
- JsonReader.ParseBuffer.ParseNumber: strtod is exact real arithmetic; overflow to infinity and the locale's decimal point are not modelled.
- Metadata values are texts produced by the source's formatting; maps shared between callers and store are not modelled as aliases.
