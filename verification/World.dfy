/**
  * The manager as a state machine: what each service call and message handler does to the stored tasks, proplets
  * and pins. A call is one atomic step. What the environment decides (which proplet the scheduler picks, whether a
  * plugin allows the dispatch, whether a message gets published) is a parameter of the step.
  */
module World {
  import opened Options
  import opened Tasks
  import opened Dag
  import opened TaskStore

  datatype Proplet = Proplet(taskCount: nat, metadata: string, history: seq<int>)

  const ALIVE_HISTORY_LIMIT := 10

  /** What happened on the message bus, with the stored tasks at the moment of a dispatch. */
  datatype Event =
    | Dispatched(id: string, tasks: map<string, Task>)
    | Started(id: string)
    | Stopped(id: string)

  datatype World = World(
    tasks: map<string, Task>,
    proplets: map<string, Proplet>,
    pins: map<string, string>,
    jobs: map<string, string>,
    shuttingDown: bool,
    log: seq<Event>)

  /** How the environment answers one attempt to start a task. */
  datatype Choice = Choice(allowed: bool, pick: Option<string>, alive: bool, published: bool)

  /** The answers to the attempts inside one start or one pass, by task id; either attempts a task at most once. */
  type Oracle = string -> Choice

  /** The answers for a series of starts, by the task that each of them is called for. */
  type Oracles = string -> Oracle

  /**
    * The effect of a call: the state it left, whether it reported success, and whether it came back at all within
    * the number of nested coordinator passes it was given.
    */
  datatype Ran = Ran(w: World, ok: bool, returned: bool)

  // ---------- Starting and stopping ----------

  predicate ShouldRun(t: Task, parentStates: map<string, State>) {
    || t.dependsOn == []
    || (t.runIf in ["", RUN_IF_SUCCESS] &&
        forall d :: d in t.dependsOn ==> d in parentStates && parentStates[d] == Completed)
    || (t.runIf == RUN_IF_FAILURE &&
        exists d :: d in t.dependsOn && d in parentStates && parentStates[d] == Failed)
  }

  datatype DepCheck = Met | MissingDep | Unsettled

  /** The first dependency that is absent or not settled decides. */
  function CheckDeps(tasks: map<string, Task>, deps: seq<string>): DepCheck {
    if deps == [] then Met
    else if deps[0] !in tasks then MissingDep
    else if !tasks[deps[0]].state.IsSettled() then Unsettled
    else CheckDeps(tasks, deps[1..])
  }

  function SelectedProplet(w: World, t: Task, c: Choice): Option<string> {
    if t.propletId == "" then
      if c.pick.Some? && c.pick.value in w.proplets then c.pick else None
    else
      if t.propletId in w.proplets && c.alive then Some(t.propletId) else None
  }

  function PutTask(w: World, t: Task): World {
    w.(tasks := w.tasks[t.id := t])
  }

  function Bump(w: World, p: string, delta: int): World
    requires p in w.proplets
  {
    var count := w.proplets[p].taskCount + delta;
    w.(proplets := w.proplets[p := w.proplets[p].(taskCount := if count < 0 then 0 else count)])
  }

  const PUBLISH_FAILED := "failed to publish start message"

  /** The part of StartTask after the dependency check. */
  function Dispatch(w: World, t: Task, c: Choice): Ran {
    if t.broadcast then
      if !c.published then Ran(w, false, true)
      else Ran(PutTask(w, t.(state := Running)).(log := w.log + [Dispatched(t.id, w.tasks)]), true, true)
    else
      var p := SelectedProplet(w, t, c);
      if !c.allowed || p.None? || t.id == "" || t.id in w.pins then Ran(w, false, true)
      else
        var t' := t.(propletId := p.value);
        if !c.published then
          Ran(PutTask(w, t'.(state := Failed, error := PUBLISH_FAILED)), false, true)
        else
          var w' := Bump(w.(pins := w.pins[t.id := p.value]), p.value, 1);
          Ran(PutTask(w', t'.(state := Running)).(log := w.log + [Dispatched(t.id, w.tasks), Started(t.id)]),
              true, true)
  }

  /** StartTask, given how many coordinator passes may be nested in it. */
  ghost function StartTask(w: World, id: string, o: Oracle, depth: nat): Ran
    decreases depth, 0, 0
  {
    if w.shuttingDown || id !in w.tasks then Ran(w, false, true)
    else
      var t := w.tasks[id];
      match CheckDeps(w.tasks, t.dependsOn)
      case Met => Dispatch(w, t, o(id))
      case MissingDep => Ran(w, false, true)
      case Unsettled =>
        if t.workflowId == "" then Ran(w, false, true)
        else if depth == 0 then Ran(w, false, false)
        else Pass(w, t.workflowId, o, depth - 1).(ok := false)
  }

  function StopTask(w: World, id: string, published: bool): Ran {
    if id !in w.tasks then Ran(w, false, true)
    else if w.tasks[id].broadcast then Ran(w, published, true)
    else if id !in w.pins || w.pins[id] !in w.proplets || !published then Ran(w, false, true)
    else
      var p := w.pins[id];
      Ran(Bump(w.(pins := w.pins - {id}, log := w.log + [Stopped(id)]), p, -1), true, true)
  }

  // ---------- The coordinator ----------

  /** The finished tasks of a workflow with their states. */
  ghost function Finished(tasks: map<string, Task>, workflowId: string): map<string, State> {
    map id | id in tasks && tasks[id].workflowId == workflowId && tasks[id].state.IsTerminal() :: tasks[id].state
  }

  ghost function Ready(tasks: map<string, Task>, workflowId: string): seq<Task> {
    ReadyTasks(OfWorkflow(tasks, workflowId), Finished(tasks, workflowId))
  }

  /** One coordinator pass over a workflow, from one snapshot of its tasks. */
  ghost function Pass(w: World, workflowId: string, o: Oracle, depth: nat): Ran
    decreases depth, 3, 0
  {
    PassOver(w, Ready(w.tasks, workflowId), Finished(w.tasks, workflowId), o, depth)
  }

  ghost function PassOver(w: World, ready: seq<Task>, finished: map<string, State>, o: Oracle, depth: nat): Ran
    decreases depth, 2, |ready|
  {
    if ready == [] then Ran(w, true, true)
    else
      var r := PassStep(w, ready[0], finished, o, depth);
      if !r.returned then r else PassOver(r.w, ready[1..], finished, o, depth)
  }

  ghost function PassStep(w: World, t: Task, finished: map<string, State>, o: Oracle, depth: nat): Ran
    decreases depth, 1, 0
  {
    if t.state.IsActive() then Ran(w, true, true)
    else if !ShouldRun(t, finished) then
      Ran(if t.id in w.tasks then PutTask(w, t.(state := Skipped)) else w, true, true)
    else StartTask(w, t.id, o, depth)
  }

  ghost function OnTaskCompletion(w: World, id: string, o: Oracle, depth: nat): Ran {
    if id !in w.tasks then Ran(w, false, true)
    else if w.tasks[id].workflowId == "" then Ran(w, true, true)
    else Pass(w, w.tasks[id].workflowId, o, depth)
  }

  // ---------- Messages from proplets ----------

  /** Stops the tasks that a job listing shows as active. */
  ghost function StopActive(w: World, tasks: seq<Task>, published: string -> bool): World
    decreases |tasks|
  {
    if tasks == [] then w
    else
      var w' := if tasks[0].state.IsActive() then StopTask(w, tasks[0].id, published(tasks[0].id)).w else w;
      StopActive(w', tasks[1..], published)
  }

  predicate AllTerminal(tasks: map<string, Task>, deps: seq<string>) {
    forall d :: d in deps ==> d in tasks && tasks[d].state.IsTerminal()
  }

  /** Starts the pending tasks of a job listing that wait for `doneId` and for nothing else. */
  ghost function StartDependents(w: World, tasks: seq<Task>, doneId: string, o: Oracles, depth: nat): Ran
    decreases |tasks|
  {
    if tasks == [] then Ran(w, true, true)
    else
      var t := tasks[0];
      var r := if t.state.Pending? && doneId in t.dependsOn && AllTerminal(w.tasks, t.dependsOn)
               then StartTask(w, t.id, o(t.id), depth) else Ran(w, true, true);
      if !r.returned then r else StartDependents(r.w, tasks[1..], doneId, o, depth)
  }

  function Finish(w: World, id: string, error: string): World
    requires id in w.tasks
  {
    var t := w.tasks[id];
    w.(tasks := w.tasks[id := if error == "" then t.(state := Completed) else t.(state := Failed, error := error)])
  }

  /** A result message; `error` is empty for a success. */
  ghost function UpdateResults(w: World, id: string, error: string, published: string -> bool,
                               oJob: Oracles, o: Oracle, depth: nat): Ran {
    if id !in w.tasks then Ran(w, false, true)
    else
      var w1 := Finish(w, id, error);
      var jobId := w1.tasks[id].jobId;
      var jobTasks := OfJob(w1.tasks, jobId);
      if jobId == "" then OnTaskCompletion(w1, id, o, depth)
      else if error != "" then OnTaskCompletion(StopActive(w1, jobTasks, published), id, o, depth)
      else
        var allCompleted := forall t :: t in jobTasks ==> t.state.Completed? || t.state.Skipped?;
        var hasFailed := exists t :: t in jobTasks && t.state.Failed?;
        var r := if !allCompleted && !hasFailed then StartDependents(w1, jobTasks, id, oJob, depth)
                 else Ran(w1, true, true);
        if !r.returned then r else OnTaskCompletion(r.w, id, o, depth)
  }

  function CreateProplet(w: World, id: string, metadata: string): Ran {
    if id == "" then Ran(w, false, true)
    else if id in w.proplets then
      Ran(w.(proplets := w.proplets[id := w.proplets[id].(metadata := metadata)]), true, true)
    else Ran(w.(proplets := w.proplets[id := Proplet(0, metadata, [])]), true, true)
  }

  function UpdateLiveness(w: World, id: string, metadata: string, now: int): Ran {
    if id == "" then Ran(w, false, true)
    else if id !in w.proplets then CreateProplet(w, id, metadata)
    else
      var h := w.proplets[id].history + [now];
      var h' := if |h| > ALIVE_HISTORY_LIMIT then h[|h| - ALIVE_HISTORY_LIMIT..] else h;
      Ran(w.(proplets := w.proplets[id := w.proplets[id].(history := h')]), true, true)
  }

  function DeleteProplet(w: World, id: string): Ran {
    if id !in w.proplets || w.proplets[id].taskCount > 0 then Ran(w, false, true)
    else Ran(w.(proplets := w.proplets - {id}), true, true)
  }

  // ---------- Shutdown and recovery ----------

  const INTERRUPTED_ERROR := "interrupted by shutdown"

  function Interrupt(t: Task): Task {
    if t.state.IsActive() then t.(state := Interrupted, error := INTERRUPTED_ERROR) else t
  }

  function Recover(t: Task): Task {
    if t.state.Interrupted? then t.(state := Failed, error := INTERRUPTED_ERROR) else t
  }

  /** The first step of a shutdown raises the flag; messages are still handled afterwards. */
  function BeginShutdown(w: World): World {
    w.(shuttingDown := true)
  }

  /** The last step of a shutdown gives up on what is still active. */
  function InterruptActive(w: World): World {
    w.(tasks := map id | id in w.tasks :: Interrupt(w.tasks[id]))
  }

  function RecoverInterrupted(w: World): World {
    w.(tasks := map id | id in w.tasks :: Recover(w.tasks[id]))
  }
}
