/** Which runs of the manager reach a workflow whose passes never come back. */
module StuckRuns {
  import opened Tasks
  import opened Graph
  import opened TaskStore
  import opened Dag
  import opened World
  import opened Creation
  import opened Safety
  import opened Coordinator
  import opened Completion

  // ---------- A run that gets stuck ----------

  const FAILED := Task("a", "", Failed, [], "", "wf", "", "", false, "", map[])
  const INTERRUPTED := Task("b", "", Interrupted, [], "", "wf", "", "", false, "", map[])
  const HANDLER := Task("c", "", Pending, ["a", "b"], RUN_IF_FAILURE, "wf", "", "", false, "", map[])
  const BATCH := [FAILED, INTERRUPTED, HANDLER]
  const IDS := ["", "", ""]

  lemma BatchGraph()
    ensures GraphOf(BATCH) == map["a" := [], "b" := [], "c" := ["a", "b"]]
  {
    var two, one := BATCH[..2], BATCH[..1];
    assert two[..1] == one && one[..0] == [];
    assert GraphOf(one) == map["a" := []];
    assert GraphOf(two) == map["a" := [], "b" := []];
  }

  lemma BatchValidated()
    ensures Validated(BATCH)
  {
    BatchGraph();
    var g := GraphOf(BATCH);
    assert BATCH[0].id == "a" && BATCH[1].id == "b" && BATCH[2].id == "c";
    assert ["a", "b", "c"][..2] == ["a", "b"];
    TopoOrderAcyclic(g, ["a", "b", "c"]);
  }

  lemma BatchStored()
    ensures StoreAll(map[], BATCH) == map["a" := FAILED, "b" := INTERRUPTED, "c" := HANDLER]
  {
    var two, one := BATCH[..2], BATCH[..1];
    assert two[..1] == one && one[..0] == [];
    assert StoreAll(map[], one) == map["a" := FAILED];
    assert StoreAll(map[], two) == map["a" := FAILED, "b" := INTERRUPTED];
  }

  lemma BatchPrepared()
    ensures WorkflowBatch(BATCH, WorkflowIdOf(BATCH, "fresh"), IDS) == BATCH
  {
    var ids := seq(|BATCH|, i requires 0 <= i < |BATCH| => BATCH[i].workflowId);
    assert ids[0] == "wf";
    assert WorkflowIdOf(BATCH, "fresh") == "wf";
  }

  const STUCK := EMPTY.(tasks := map["a" := FAILED, "b" := INTERRUPTED, "c" := HANDLER])

  lemma CreatesStuck()
    ensures Apply(EMPTY, DoCreateWorkflow(BATCH, "fresh", IDS)) == STUCK
  {
    BatchPrepared();
    BatchValidated();
    BatchStored();
    hide Validated, GraphOf, StoreAll, WorkflowBatch, WorkflowIdOf;
    assert forall t :: t in BATCH ==> RunIfValid(t);
    assert Storable(map[], BATCH);
  }

  lemma HandlerStuck()
    ensures StuckOn(STUCK, "wf", "c") && WellKeyed(STUCK.tasks)
  {
    assert "a" in HANDLER.dependsOn && "b" in HANDLER.dependsOn;
  }

  /** One creation is enough: a handler behind a failed and an interrupted task, all as the caller sent them. */
  lemma StuckIsReached(o: Oracle)
    ensures var create := DoCreateWorkflow(BATCH, "fresh", IDS);
            && Legal(EMPTY, create)
            && IsRun([EMPTY, Apply(EMPTY, create)], [create])
            && StuckOn(Apply(EMPTY, create), "wf", "c")
            && forall depth: nat :: !Pass(Apply(EMPTY, create), "wf", o, depth).returned
  {
    CreatesStuck();
    HandlerStuck();
    hide StuckOn, Pass, Apply, WellKeyed;
    forall depth: nat ensures !Pass(STUCK, "wf", o, depth).returned {
      StuckPassDiverges(STUCK, "wf", "c", o, depth);
    }
  }

  // ---------- Only a task created as interrupted leads there ----------

  /** The operation stores a task that its caller sent as interrupted. */
  ghost predicate BringsInterrupted(op: Op) {
    match op
    case DoCreateTask(t, _) => t.state.Interrupted?
    case DoCreateWorkflow(batch, _, _) => exists i :: 0 <= i < |batch| && batch[i].state.Interrupted?
    case DoCreateJob(_, batch, _, _) => exists i :: 0 <= i < |batch| && batch[i].state.Interrupted?
    case _ => false
  }

  /** Interrupted tasks appear only when the manager shuts down, and then it starts nothing any more. */
  ghost predicate Calm(w: World) {
    NoInterrupted(w) || w.shuttingDown
  }

  lemma CalmNotStuck(w: World, workflowId: string)
    requires Calm(w)
    ensures !Stuck(w, workflowId)
  {
    if NoInterrupted(w) {
      NoInterruptedNotStuck(w, workflowId);
    }
  }

  lemma CalmKept(w: World, w': World)
    requires WellKeyed(w.tasks) && Calm(w) && OnlyRestates(w, w')
    ensures WellKeyed(w'.tasks) && Calm(w')
  {
    RestatesKeyed(w, w');
  }

  lemma CalmPass(w: World, workflowId: string, o: Oracle, depth: nat)
    requires WellKeyed(w.tasks) && Calm(w)
    ensures OnlyRestates(w, Pass(w, workflowId, o, depth).w)
  {
    var ready, finished := Ready(w.tasks, workflowId), Finished(w.tasks, workflowId);
    assert NoInterrupted(w) ==> Smooth(ready, finished);
    hide Ready, Finished, Snapshot, Smooth, OnlyRestates, NoInterrupted;
    PassSnapshot(w, workflowId);
    PassOverReturns(w, ready, finished, o, depth);
    PassRestates(w, workflowId, o);
  }

  lemma CalmStart(w: World, id: string, o: Oracle, depth: nat)
    requires WellKeyed(w.tasks) && Calm(w)
    ensures OnlyRestates(w, StartTask(w, id, o, depth).w)
  {
    hide Dispatch, Pass, OnlyRestates, NoInterrupted, WellKeyed;
    RestatesNothing(w);
    if id in w.tasks {
      DispatchRestates(w, id, o(id));
      if depth > 0 {
        CalmPass(w, w.tasks[id].workflowId, o, depth - 1);
      }
    }
  }

  lemma {:induction false} CalmDependents(w: World, tasks: seq<Task>, doneId: string, o: Oracles, depth: nat)
    requires WellKeyed(w.tasks) && Calm(w)
    ensures OnlyRestates(w, StartDependents(w, tasks, doneId, o, depth).w)
    decreases |tasks|
  {
    hide StartTask, OnlyRestates, Calm, WellKeyed, AllTerminal;
    RestatesNothing(w);
    if tasks != [] {
      var t := tasks[0];
      CalmStart(w, t.id, o(t.id), depth);
      var r := if t.state.Pending? && doneId in t.dependsOn && AllTerminal(w.tasks, t.dependsOn)
               then StartTask(w, t.id, o(t.id), depth) else Ran(w, true, true);
      if r.returned {
        CalmKept(w, r.w);
        CalmDependents(r.w, tasks[1..], doneId, o, depth);
        RestatesTransitive(w, r.w, StartDependents(r.w, tasks[1..], doneId, o, depth).w);
      }
    }
  }

  lemma CalmCompletion(w: World, id: string, o: Oracle, depth: nat)
    requires WellKeyed(w.tasks) && Calm(w)
    ensures Calm(OnTaskCompletion(w, id, o, depth).w)
  {
    if id in w.tasks {
      CalmPass(w, w.tasks[id].workflowId, o, depth);
      CalmKept(w, Pass(w, w.tasks[id].workflowId, o, depth).w);
    }
    hide Pass;
  }

  lemma CalmResults(w: World, id: string, error: string, published: string -> bool, oJob: Oracles, o: Oracle,
                    depth: nat)
    requires WellKeyed(w.tasks) && Calm(w)
    ensures Calm(UpdateResults(w, id, error, published, oJob, o, depth).w)
  {
    if id in w.tasks {
      FinishKeyed(w, id, error);
      var w1 := Finish(w, id, error);
      assert Calm(w1);
      hide WellKeyed, Calm, Finish, OfJob, OnTaskCompletion, StartDependents, UpdateResults, StopActive, JobGoesOn;
      var jobTasks := OfJob(w1.tasks, w1.tasks[id].jobId);
      ResultsAre(w, id, error, published, oJob, o, depth);
      CalmStop(w1, jobTasks, published);
      CalmDependents(w1, jobTasks, id, oJob, depth);
      var started := StartDependents(w1, jobTasks, id, oJob, depth).w;
      CalmKept(w1, started);
      CalmCompletion(w1, id, o, depth);
      CalmCompletion(started, id, o, depth);
      CalmCompletion(StopActive(w1, jobTasks, published), id, o, depth);
    }
  }

  lemma CalmNoSpin(w: World, id: string)
    requires Calm(w)
    ensures !Spins(w, id)
  {
    if id in w.tasks {
      CalmNotStuck(w, w.tasks[id].workflowId);
    }
  }

  lemma {:induction false} CalmDependentsReturn(w: World, tasks: seq<Task>, doneId: string, o: Oracles)
    requires WellKeyed(w.tasks) && Calm(w)
    ensures !DependentsSpin(w, tasks, doneId, o)
    decreases |tasks|
  {
    hide WellKeyed, Calm, Spins, StartTask, OnlyRestates, AllTerminal;
    if tasks != [] {
      var t := tasks[0];
      if Waits(w, t, doneId) {
        CalmNoSpin(w, t.id);
        CalmStart(w, t.id, o(t.id), 1);
        CalmKept(w, StartTask(w, t.id, o(t.id), 1).w);
        CalmDependentsReturn(StartTask(w, t.id, o(t.id), 1).w, tasks[1..], doneId, o);
      } else {
        CalmDependentsReturn(w, tasks[1..], doneId, o);
      }
    }
  }

  lemma CalmFinish(w: World, id: string, error: string)
    requires WellKeyed(w.tasks) && Calm(w) && id in w.tasks
    ensures WellKeyed(Finish(w, id, error).tasks) && Calm(Finish(w, id, error)) && id in Finish(w, id, error).tasks
  {
    FinishKeyed(w, id, error);
  }

  lemma CalmBeforePass(w: World, id: string, error: string, published: string -> bool, oJob: Oracles)
    requires WellKeyed(w.tasks) && Calm(w) && id in w.tasks
    ensures Calm(BeforePass(w, id, error, published, oJob))
  {
    hide WellKeyed, Calm, Finish, OfJob, StartDependents, StopActive, JobGoesOn, OnlyRestates;
    CalmFinish(w, id, error);
    var w1 := Finish(w, id, error);
    var jobTasks := OfJob(w1.tasks, w1.tasks[id].jobId);
    CalmStop(w1, jobTasks, published);
    CalmDependents(w1, jobTasks, id, oJob, 1);
    CalmKept(w1, StartDependents(w1, jobTasks, id, oJob, 1).w);
  }

  /** A calm manager comes back from every result message. */
  lemma CalmResultsReturn(w: World, id: string, error: string, published: string -> bool, oJob: Oracles)
    requires WellKeyed(w.tasks) && Calm(w)
    ensures !ResultsSpin(w, id, error, published, oJob)
  {
    hide WellKeyed, Calm, Finish, OfJob, JobGoesOn, BeforePass, DependentsSpin, Stuck;
    if id in w.tasks {
      CalmFinish(w, id, error);
      var w1 := Finish(w, id, error);
      CalmDependentsReturn(w1, OfJob(w1.tasks, w1.tasks[id].jobId), id, oJob);
      CalmBeforePass(w, id, error, published, oJob);
      CalmNotStuck(BeforePass(w, id, error, published, oJob), w.tasks[id].workflowId);
    }
  }

  lemma CalmStop(w: World, tasks: seq<Task>, published: string -> bool)
    requires WellKeyed(w.tasks) && Calm(w)
    ensures WellKeyed(StopActive(w, tasks, published).tasks) && Calm(StopActive(w, tasks, published))
  {
    StopActiveLeaves(w, tasks, published);
    hide StopActive;
  }

  lemma {:induction false} CalmStore(tasks: map<string, Task>, batch: seq<Task>)
    requires forall id :: id in tasks ==> !tasks[id].state.Interrupted?
    requires forall i :: 0 <= i < |batch| ==> !batch[i].state.Interrupted?
    ensures forall id :: id in StoreAll(tasks, batch) ==> !StoreAll(tasks, batch)[id].state.Interrupted?
  {
    if batch != [] {
      CalmStore(tasks, batch[..|batch| - 1]);
    }
  }

  lemma CalmCreate(w: World, op: Op)
    requires Calm(w) && Legal(w, op) && !BringsInterrupted(op)
    requires op.DoCreateTask? || op.DoCreateWorkflow? || op.DoCreateJob?
    ensures Calm(Apply(w, op))
  {
    hide Validated, TaskAccepted, Storable;
    match op
    case DoCreateTask(t, freshId) =>
    case DoCreateWorkflow(batch, f, fs) =>
      var prepared := WorkflowBatch(batch, WorkflowIdOf(batch, f), fs);
      assert forall i :: 0 <= i < |prepared| ==> prepared[i].state == batch[i].state;
      if NoInterrupted(w) {
        CalmStore(w.tasks, prepared);
      }
    case DoCreateJob(name, batch, f, fs) =>
      var prepared := JobBatch(batch, JobIdOf(batch, f), fs);
      assert forall i :: 0 <= i < |prepared| ==> prepared[i].state == batch[i].state;
      if NoInterrupted(w) {
        CalmStore(w.tasks, prepared);
      }
  }

  lemma CalmStep(w: World, op: Op)
    requires WellKeyed(w.tasks) && Calm(w) && Legal(w, op) && !BringsInterrupted(op)
    ensures Calm(Apply(w, op))
  {
    hide StartTask, Pass, UpdateResults, StopTask, WellKeyed;
    match op
    case DoCreateTask(_, _) => CalmCreate(w, op);
    case DoCreateWorkflow(_, _, _) => CalmCreate(w, op);
    case DoCreateJob(_, _, _, _) => CalmCreate(w, op);
    case DoStart(id, o, depth) =>
      CalmStart(w, id, o, depth);
      CalmKept(w, StartTask(w, id, o, depth).w);
    case DoStop(id, published) => StopLeaves(w, id, published);
    case DoPass(wf, o, depth) =>
      CalmPass(w, wf, o, depth);
      CalmKept(w, Pass(w, wf, o, depth).w);
    case DoResults(id, e, answers, oJob, o, depth) => CalmResults(w, id, e, answers, oJob, o, depth);
    case _ =>
  }

  lemma StopLeaves(w: World, id: string, published: bool)
    ensures StopTask(w, id, published).w.tasks == w.tasks && StopTask(w, id, published).w.shuttingDown == w.shuttingDown
  {
  }

  lemma {:induction false} RunStaysCalm(states: seq<World>, ops: seq<Op>, n: nat)
    requires IsRun(states, ops) && n < |states|
    requires forall i :: 0 <= i < n ==> !BringsInterrupted(ops[i])
    ensures Calm(states[n])
  {
    hide Inv, Legal, Apply, BringsInterrupted, Calm;
    if n == 0 {
      EmptyIsCalm();
    } else {
      RunStaysCalm(states, ops, n - 1);
      RunKeepsInv(states, ops, n - 1);
      InvKeyed(states[n - 1]);
      CalmStep(states[n - 1], ops[n - 1]);
    }
  }

  lemma EmptyIsCalm()
    ensures Calm(EMPTY)
  {
  }

  lemma InvKeyed(w: World)
    requires Inv(w)
    ensures WellKeyed(w.tasks)
  {
  }

  /**
    * Unless some caller sends a task that is already interrupted, no state of any run has a stuck workflow: every
    * pass, start and result message comes back.
    */
  lemma ReachableNeverStuck(states: seq<World>, ops: seq<Op>, n: nat, workflowId: string, id: string, o: Oracle,
                            error: string, published: string -> bool, oJob: Oracles)
    requires IsRun(states, ops) && n < |states|
    requires forall i :: 0 <= i < n ==> !BringsInterrupted(ops[i])
    ensures !Stuck(states[n], workflowId)
    ensures workflowId != "" ==> Pass(states[n], workflowId, o, 0).returned
    ensures StartTask(states[n], id, o, 1).returned
    ensures UpdateResults(states[n], id, error, published, oJob, o, 1).returned
  {
    hide Inv, Legal, Apply, BringsInterrupted, Calm, Stuck, StartTask, Pass, IsRun, UpdateResults, ResultsSpin;
    RunStaysCalm(states, ops, n);
    RunKeepsInv(states, ops, n);
    InvKeyed(states[n]);
    CalmNotStuck(states[n], workflowId);
    if workflowId != "" {
      PassTerminates(states[n], workflowId, o);
    }
    if id in states[n].tasks {
      CalmNotStuck(states[n], states[n].tasks[id].workflowId);
    }
    StartReturns(states[n], id, o);
    CalmResultsReturn(states[n], id, error, published, oJob);
    ResultsReturn(states[n], id, error, published, oJob, o);
  }
}
