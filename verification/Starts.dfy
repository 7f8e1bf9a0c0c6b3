/** What a start does to its task, and which proplet a task is pinned to in every run. */
module Starts {
  import opened Options
  import opened Tasks
  import opened Graph
  import opened TaskStore
  import opened Dag
  import opened World
  import opened Creation
  import opened Safety
  import opened Coordinator

  // ---------- One start ----------

  /** Every dependency is stored and completed, failed or skipped. */
  predicate DepsSettled(tasks: map<string, Task>, t: Task) {
    forall d :: d in t.dependsOn ==> d in tasks && tasks[d].state in {Completed, Failed, Skipped}
  }

  /** The proplet that `p` names can take the task: the one it names, if alive, else the one the scheduler picks. */
  predicate Offered(w: World, t: Task, c: Choice, p: string) {
    && p in w.proplets
    && if t.propletId != "" then p == t.propletId && c.alive else c.pick == Some(p)
  }

  /**
    * A task that is not broadcast starts if and only if its dependencies are settled, the dispatch is allowed, it has
    * no pin, its own proplet (or the picked one, if it names none) takes it and the message goes out. It is then
    * pinned to that proplet, runs there, and the proplet counts one more.
    */
  lemma StartOutcome(w: World, id: string, o: Oracle, depth: nat)
    requires WellKeyed(w.tasks) && id in w.tasks && !w.tasks[id].broadcast
    ensures var t, c, r := w.tasks[id], o(id), StartTask(w, id, o, depth);
            && (r.ok <==>
                  && !w.shuttingDown && DepsSettled(w.tasks, t) && c.allowed && c.published && id !in w.pins
                  && exists p :: Offered(w, t, c, p))
            && (r.ok ==>
                  var p := if t.propletId != "" then t.propletId else c.pick.value;
                  && Offered(w, t, c, p)
                  && r.w.tasks == w.tasks[id := t.(state := Running, propletId := p)]
                  && r.w.pins == w.pins[id := p]
                  && r.w.proplets == w.proplets[p := w.proplets[p].(taskCount := w.proplets[p].taskCount + 1)]
                  && r.w.jobs == w.jobs && r.w.shuttingDown == w.shuttingDown)
  {
    var t, c := w.tasks[id], o(id);
    CheckDepsMet(w.tasks, t.dependsOn);
    hide Pass, CheckDeps;
    forall p | Offered(w, t, c, p) ensures SelectedProplet(w, t, c) == Some(p) {
    }
    if SelectedProplet(w, t, c).Some? {
      assert Offered(w, t, c, SelectedProplet(w, t, c).value);
    }
  }

  /**
    * A start that fails with its dependencies settled changes nothing, except when only the message did not get out:
    * then the task has failed on its proplet, and nothing is pinned or counted.
    */
  lemma FailedStart(w: World, id: string, o: Oracle, depth: nat)
    requires WellKeyed(w.tasks) && id in w.tasks && DepsSettled(w.tasks, w.tasks[id])
    requires !StartTask(w, id, o, depth).ok
    ensures var t, c, r := w.tasks[id], o(id), StartTask(w, id, o, depth);
            && (t.propletId != "" && !t.broadcast && (t.propletId !in w.proplets || !c.alive) ==> r.w == w)
            && (r.w == w || (!t.broadcast && !c.published && exists p ::
                  && Offered(w, t, c, p)
                  && r.w == w.(tasks := w.tasks[id := t.(state := Failed, propletId := p,
                                                         error := "failed to publish start message")])))
  {
    var t, c, r := w.tasks[id], o(id), StartTask(w, id, o, depth);
    CheckDepsMet(w.tasks, t.dependsOn);
    hide Pass, CheckDeps;
    if r.w != w {
      assert Offered(w, t, c, SelectedProplet(w, t, c).value);
    }
  }

  /** A broadcast task starts if and only if its dependencies are settled and the message goes out; it gets no pin. */
  lemma BroadcastOutcome(w: World, id: string, o: Oracle, depth: nat)
    requires WellKeyed(w.tasks) && id in w.tasks && w.tasks[id].broadcast
    ensures var t, r := w.tasks[id], StartTask(w, id, o, depth);
            && (r.ok <==> !w.shuttingDown && DepsSettled(w.tasks, t) && o(id).published)
            && (r.ok ==> r.w == w.(tasks := w.tasks[id := t.(state := Running)], log := r.w.log))
  {
    CheckDepsMet(w.tasks, w.tasks[id].dependsOn);
    hide Pass, CheckDeps;
  }

  // ---------- Which proplet a task is pinned to ----------

  /** No proplet has the empty id. */
  predicate PropletsNamed(w: World) {
    "" !in w.proplets
  }

  /**
    * The tasks are the same ones, a task that names a proplet goes on naming it, and whoever was pinned meanwhile is
    * pinned to the proplet it names.
    */
  ghost predicate NamesKept(w: World, w': World) {
    && w'.tasks.Keys == w.tasks.Keys && w'.proplets.Keys == w.proplets.Keys
    && (forall id :: id in w.tasks ==> w.tasks[id].propletId in {"", w'.tasks[id].propletId})
    && (forall id :: id in w'.pins ==>
          || (id in w.pins && w'.pins[id] == w.pins[id])
          || (id in w.tasks && w'.pins[id] == w'.tasks[id].propletId != ""))
  }

  lemma NamesKeptNothing(w: World)
    ensures NamesKept(w, w)
  {
  }

  lemma NamesKeptTransitive(w: World, w1: World, w2: World)
    requires NamesKept(w, w1) && NamesKept(w1, w2)
    ensures NamesKept(w, w2)
  {
  }

  lemma DispatchNames(w: World, t: Task, c: Choice)
    requires PropletsNamed(w) && t.id in w.tasks && w.tasks[t.id] == t
    ensures NamesKept(w, Dispatch(w, t, c).w)
  {
  }

  lemma SkipNames(w: World, t: Task)
    requires t.id in w.tasks && w.tasks[t.id] == t
    ensures NamesKept(w, PutTask(w, t.(state := Skipped)))
  {
  }

  /** What a pass still has to do, with its snapshot taken from this workflow. */
  ghost predicate SnapshotOf(w: World, workflowId: string, ready: seq<Task>, finished: map<string, State>) {
    && Snapshot(w, ready, finished)
    && (forall i :: 0 <= i < |ready| ==> ready[i].workflowId == workflowId)
    && (forall x :: x in finished ==> x in w.tasks && w.tasks[x].workflowId == workflowId)
  }

  lemma PassSnapshotOf(w: World, workflowId: string)
    requires WellKeyed(w.tasks)
    ensures SnapshotOf(w, workflowId, Ready(w.tasks, workflowId), Finished(w.tasks, workflowId))
  {
    PassSnapshot(w, workflowId);
    var ready := Ready(w.tasks, workflowId);
    assert forall i :: 0 <= i < |ready| ==> ready[i] in ready;
  }

  /** A task that trips has a stuck workflow, also in the middle of a pass. */
  lemma TripIsStuckNow(w: World, workflowId: string, ready: seq<Task>, finished: map<string, State>)
    requires ready != [] && SnapshotOf(w, workflowId, ready, finished) && Trips(ready[0], finished)
    requires workflowId != "" && !w.shuttingDown
    ensures StuckOn(w, workflowId, ready[0].id)
  {
    var t := ready[0];
    assert t.workflowId == workflowId;
    hide Snapshot, WellKeyed;
    SnapshotHead(w, ready, finished);
  }

  lemma {:induction false} PassNames(w: World, workflowId: string, o: Oracle, depth: nat)
    requires WellKeyed(w.tasks) && PropletsNamed(w)
    ensures NamesKept(w, Pass(w, workflowId, o, depth).w)
    decreases depth, 1, 0
  {
    hide SnapshotOf, Ready, Finished, NamesKept;
    PassSnapshotOf(w, workflowId);
    PassOverNames(w, workflowId, Ready(w.tasks, workflowId), Finished(w.tasks, workflowId), o, depth);
  }

  lemma {:induction false} PassOverNames(w: World, workflowId: string, ready: seq<Task>, finished: map<string, State>,
                                         o: Oracle, depth: nat)
    requires SnapshotOf(w, workflowId, ready, finished) && PropletsNamed(w)
    ensures NamesKept(w, PassOver(w, ready, finished, o, depth).w)
    decreases depth, 0, |ready|
  {
    hide SnapshotOf, NamesKept, PassStep, Trips;
    if ready == [] {
      NamesKeptNothing(w);
    } else {
      var t, r := ready[0], PassStep(w, ready[0], finished, o, depth);
      if w.shuttingDown || workflowId == "" || !Trips(t, finished) {
        PlainStepNames(w, workflowId, ready, finished, o, depth);
        PassOverNames(r.w, workflowId, ready[1..], finished, o, depth);
        NamesKeptTransitive(w, r.w, PassOver(r.w, ready[1..], finished, o, depth).w);
      } else {
        if depth > 0 {
          HeadOf(w, workflowId, ready, finished);
          PassNames(w, workflowId, o, depth - 1);
        }
        TripStepNames(w, workflowId, ready, finished, o, depth);
      }
    }
  }

  lemma HeadOf(w: World, workflowId: string, ready: seq<Task>, finished: map<string, State>)
    requires ready != [] && SnapshotOf(w, workflowId, ready, finished)
    ensures WellKeyed(w.tasks)
    ensures var t := ready[0];
            t.id in w.tasks && w.tasks[t.id] == t && t.workflowId == workflowId && IsReady(t, finished)
    ensures forall x :: x in finished ==> x in w.tasks && w.tasks[x].state == finished[x]
  {
  }

  /** A step that starts no nested pass. */
  lemma PlainStepNames(w: World, workflowId: string, ready: seq<Task>, finished: map<string, State>, o: Oracle,
                       depth: nat)
    requires ready != [] && SnapshotOf(w, workflowId, ready, finished) && PropletsNamed(w)
    requires w.shuttingDown || workflowId == "" || !Trips(ready[0], finished)
    ensures var r := PassStep(w, ready[0], finished, o, depth);
            && r.returned && NamesKept(w, r.w) && PropletsNamed(r.w)
            && SnapshotOf(r.w, workflowId, ready[1..], finished)
  {
    var t := ready[0];
    SnapshotHead(w, ready, finished);
    if w.shuttingDown || !Trips(t, finished) {
      PassStepIs(w, t, finished, o, depth);
      PassStepReturns(w, ready, finished, o, depth);
      hide PassStep, Trips, ShouldRun, IsReady, Dispatch, PutTask, Snapshot, NamesKept;
      DispatchNames(w, t, o(t.id));
      SkipNames(w, t);
      NamesKeptNothing(w);
      StepNamed(w, PassStep(w, t, finished, o, depth).w, workflowId, ready, finished);
    } else {
      ReadyTripsUnsettled(w, t, finished);
      assert t.workflowId == "";
      assert PassStep(w, t, finished, o, depth) == StartTask(w, t.id, o, depth);
      hide PassStep, Trips, ShouldRun, IsReady, NamesKept, Snapshot;
      NamesKeptNothing(w);
      SnapshotTail(w, ready, finished);
    }
  }

  lemma SnapshotTail(w: World, ready: seq<Task>, finished: map<string, State>)
    requires ready != [] && Snapshot(w, ready, finished)
    ensures Snapshot(w, ready[1..], finished)
  {
  }

  lemma StepNamed(w: World, w': World, workflowId: string, ready: seq<Task>, finished: map<string, State>)
    requires ready != [] && SnapshotOf(w, workflowId, ready, finished) && PropletsNamed(w)
    requires Touches(w, w', ready[0].id) && Snapshot(w', ready[1..], finished)
    ensures PropletsNamed(w') && SnapshotOf(w', workflowId, ready[1..], finished)
  {
    forall x | x in finished ensures x in w'.tasks && w'.tasks[x].workflowId == workflowId {
      assert x != ready[0].id;
    }
  }

  /** A step that trips hands over to a pass that does not come back. */
  lemma TripStepNames(w: World, workflowId: string, ready: seq<Task>, finished: map<string, State>, o: Oracle,
                      depth: nat)
    requires ready != [] && SnapshotOf(w, workflowId, ready, finished)
    requires !w.shuttingDown && workflowId != "" && Trips(ready[0], finished)
    requires depth > 0 ==> NamesKept(w, Pass(w, workflowId, o, depth - 1).w)
    ensures !PassStep(w, ready[0], finished, o, depth).returned
    ensures NamesKept(w, PassStep(w, ready[0], finished, o, depth).w)
  {
    hide PassStep, Trips, NamesKept, SnapshotOf, StuckOn, Pass, IsReady, WellKeyed;
    HeadOf(w, workflowId, ready, finished);
    TripIsStuckNow(w, workflowId, ready, finished);
    NamesKeptNothing(w);
    TripStepIs(w, ready[0], finished, o, depth);
    if depth > 0 {
      StuckPassDiverges(w, workflowId, ready[0].id, o, depth - 1);
    }
  }

  lemma TripStepIs(w: World, t: Task, finished: map<string, State>, o: Oracle, depth: nat)
    requires t.id in w.tasks && w.tasks[t.id] == t && IsReady(t, finished) && Trips(t, finished)
    requires forall x :: x in finished ==> x in w.tasks && w.tasks[x].state == finished[x]
    requires !w.shuttingDown && t.workflowId != ""
    ensures PassStep(w, t, finished, o, depth) ==
            if depth == 0 then Ran(w, false, false) else Pass(w, t.workflowId, o, depth - 1).(ok := false)
  {
    ReadyTripsUnsettled(w, t, finished);
    hide Pass;
    assert PassStep(w, t, finished, o, depth) == StartTask(w, t.id, o, depth);
  }

  lemma StartNames(w: World, id: string, o: Oracle, depth: nat)
    requires WellKeyed(w.tasks) && PropletsNamed(w)
    ensures NamesKept(w, StartTask(w, id, o, depth).w)
  {
    hide NamesKept, Dispatch, Pass;
    NamesKeptNothing(w);
    if id in w.tasks {
      DispatchNames(w, w.tasks[id], o(id));
      if depth > 0 {
        PassNames(w, w.tasks[id].workflowId, o, depth - 1);
      }
    }
  }

  lemma StopNames(w: World, id: string, published: bool)
    ensures NamesKept(w, StopTask(w, id, published).w)
  {
  }

  lemma {:induction false} StopActiveNames(w: World, tasks: seq<Task>, published: string -> bool)
    ensures NamesKept(w, StopActive(w, tasks, published))
    decreases |tasks|
  {
    hide NamesKept, StopTask;
    NamesKeptNothing(w);
    if tasks != [] {
      var w1 := if tasks[0].state.IsActive() then StopTask(w, tasks[0].id, published(tasks[0].id)).w else w;
      StopNames(w, tasks[0].id, published(tasks[0].id));
      StopActiveNames(w1, tasks[1..], published);
      NamesKeptTransitive(w, w1, StopActive(w1, tasks[1..], published));
    }
  }

  lemma InvKeyed(w: World)
    requires Inv(w)
    ensures WellKeyed(w.tasks)
  {
  }

  lemma NamedStays(w: World, w': World)
    requires NamesKept(w, w') && PropletsNamed(w)
    ensures PropletsNamed(w')
  {
  }

  lemma {:induction false} DependentsNames(w: World, tasks: seq<Task>, doneId: string, o: Oracles, depth: nat)
    requires Inv(w) && PropletsNamed(w)
    ensures NamesKept(w, StartDependents(w, tasks, doneId, o, depth).w)
    decreases |tasks|
  {
    hide NamesKept, StartTask, Inv, WellKeyed, PropletsNamed, AllTerminal;
    NamesKeptNothing(w);
    if tasks != [] {
      var t := tasks[0];
      var r := if t.state.Pending? && doneId in t.dependsOn && AllTerminal(w.tasks, t.dependsOn)
               then StartTask(w, t.id, o(t.id), depth) else Ran(w, true, true);
      InvKeyed(w);
      StartNames(w, t.id, o(t.id), depth);
      StartKeeps(w, t.id, o(t.id), depth);
      NamedStays(w, r.w);
      if r.returned {
        DependentsNames(r.w, tasks[1..], doneId, o, depth);
        NamesKeptTransitive(w, r.w, StartDependents(r.w, tasks[1..], doneId, o, depth).w);
      }
    }
  }

  lemma CompletionNames(w: World, id: string, o: Oracle, depth: nat)
    requires Inv(w) && PropletsNamed(w)
    ensures NamesKept(w, OnTaskCompletion(w, id, o, depth).w)
  {
    hide NamesKept, Pass, Inv, WellKeyed;
    InvKeyed(w);
    NamesKeptNothing(w);
    if id in w.tasks {
      PassNames(w, w.tasks[id].workflowId, o, depth);
    }
  }

  lemma FinishNames(w: World, id: string, error: string)
    requires Inv(w) && PropletsNamed(w) && id in w.tasks
    ensures var w1 := Finish(w, id, error); NamesKept(w, w1) && Inv(w1) && PropletsNamed(w1)
  {
    PutKeeps(w, Finish(w, id, error).tasks[id]);
  }

  lemma ThenCompletionNames(w: World, w1: World, w2: World, id: string, o: Oracle, depth: nat)
    requires NamesKept(w, w1) && NamesKept(w1, w2) && Inv(w2) && PropletsNamed(w)
    ensures NamesKept(w, OnTaskCompletion(w2, id, o, depth).w)
  {
    hide NamesKept, OnTaskCompletion, Inv, PropletsNamed;
    NamesKeptTransitive(w, w1, w2);
    NamedStays(w, w2);
    CompletionNames(w2, id, o, depth);
    NamesKeptTransitive(w, w2, OnTaskCompletion(w2, id, o, depth).w);
  }

  lemma ResultsNames(w: World, id: string, error: string, published: string -> bool, oJob: Oracles, o: Oracle,
                     depth: nat)
    requires Inv(w) && PropletsNamed(w)
    ensures NamesKept(w, UpdateResults(w, id, error, published, oJob, o, depth).w)
  {
    hide NamesKept, OnTaskCompletion, Inv, PropletsNamed, StopActive, StartDependents, Finish, OfJob;
    NamesKeptNothing(w);
    if id in w.tasks {
      FinishNames(w, id, error);
      var w1 := Finish(w, id, error);
      var jobTasks := OfJob(w1.tasks, w1.tasks[id].jobId);
      var stopped, started := StopActive(w1, jobTasks, published), StartDependents(w1, jobTasks, id, oJob, depth).w;
      NamesKeptNothing(w1);
      StopActiveNames(w1, jobTasks, published);
      StopActiveKeeps(w1, jobTasks, published);
      DependentsNames(w1, jobTasks, id, oJob, depth);
      StartDependentsKeeps(w1, jobTasks, id, oJob, depth);
      ThenCompletionNames(w, w1, w1, id, o, depth);
      ThenCompletionNames(w, w1, stopped, id, o, depth);
      ThenCompletionNames(w, w1, started, id, o, depth);
      NamesKeptTransitive(w, w1, started);
    }
  }

  /** Whoever is pinned by a step is pinned to the proplet it names afterwards, and before if it named one. */
  ghost predicate PinsOwn(w: World, w': World) {
    forall id :: id in w'.pins && !(id in w.pins && w'.pins[id] == w.pins[id]) ==>
      && id in w.tasks && id in w'.tasks
      && w'.pins[id] == w'.tasks[id].propletId
      && (w.tasks[id].propletId != "" ==> w'.pins[id] == w.tasks[id].propletId)
  }

  lemma CreationPins(w: World, op: Op)
    requires Legal(w, op) && (op.DoCreateTask? || op.DoCreateWorkflow? || op.DoCreateJob?)
    ensures Apply(w, op).pins == w.pins && Apply(w, op).proplets == w.proplets
  {
    hide Validated, Storable, TaskAccepted, StoreAll, WorkflowBatch, JobBatch;
  }

  predicate Moves(op: Op) {
    op.DoStart? || op.DoStop? || op.DoPass? || op.DoResults?
  }

  lemma OtherPins(w: World, op: Op)
    requires Legal(w, op) && PropletsNamed(w) && !Moves(op)
    ensures Apply(w, op).pins == w.pins && PropletsNamed(Apply(w, op))
  {
    hide CreateTask, CreateWorkflow, CreateJob;
    match op
    case DoCreateTask(_, _) => CreationPins(w, op);
    case DoCreateWorkflow(_, _, _) => CreationPins(w, op);
    case DoCreateJob(_, _, _, _) => CreationPins(w, op);
    case _ =>
  }

  lemma MoveNames(w: World, op: Op)
    requires Inv(w) && PropletsNamed(w) && Legal(w, op) && Moves(op)
    ensures NamesKept(w, Apply(w, op))
  {
    hide NamesKept, StartTask, StopTask, Pass, UpdateResults, Inv, WellKeyed;
    InvKeyed(w);
    match op
    case DoStart(id, o, depth) => StartNames(w, id, o, depth);
    case DoStop(id, published) => StopNames(w, id, published);
    case DoPass(wf, o, depth) => PassNames(w, wf, o, depth);
    case DoResults(id, e, answers, oJob, o, depth) => ResultsNames(w, id, e, answers, oJob, o, depth);
  }

  lemma StepPinsOwn(w: World, op: Op)
    requires Inv(w) && PropletsNamed(w) && Legal(w, op)
    ensures PinsOwn(w, Apply(w, op)) && PropletsNamed(Apply(w, op))
  {
    hide Inv, Legal, Apply, NamesKept, PinsOwn;
    if Moves(op) {
      MoveNames(w, op);
      KeptOwn(w, Apply(w, op));
    } else {
      OtherPins(w, op);
      SamePinsOwn(w, Apply(w, op));
    }
  }

  lemma KeptOwn(w: World, w': World)
    requires NamesKept(w, w') && PropletsNamed(w)
    ensures PinsOwn(w, w') && PropletsNamed(w')
  {
  }

  lemma SamePinsOwn(w: World, w': World)
    requires w'.pins == w.pins
    ensures PinsOwn(w, w')
  {
  }

  lemma {:induction false} RunKeepsNames(states: seq<World>, ops: seq<Op>, n: nat)
    requires IsRun(states, ops) && n < |states|
    ensures PropletsNamed(states[n])
  {
    hide Inv, Legal, Apply;
    if n > 0 {
      RunKeepsNames(states, ops, n - 1);
      RunKeepsInv(states, ops, n - 1);
      StepPinsOwn(states[n - 1], ops[n - 1]);
    }
  }

  /**
    * In every run, a step that pins a task pins it to the proplet that the task names afterwards; a task that named one
    * before is pinned to no other.
    */
  lemma ReachablePinsOwn(states: seq<World>, ops: seq<Op>, n: nat, id: string)
    requires IsRun(states, ops) && n < |ops|
    requires id in states[n + 1].pins && (id in states[n].pins ==> states[n].pins[id] != states[n + 1].pins[id])
    ensures id in states[n].tasks && id in states[n + 1].tasks
    ensures states[n + 1].pins[id] == states[n + 1].tasks[id].propletId
    ensures states[n].tasks[id].propletId in {"", states[n + 1].pins[id]}
  {
    hide Inv, Legal, Apply;
    RunKeepsNames(states, ops, n);
    RunKeepsInv(states, ops, n);
    StepPinsOwn(states[n], ops[n]);
  }

  /** A stored task that is pinned is pinned to the proplet it names. */
  ghost predicate PinsMatch(w: World) {
    forall id :: id in w.pins && id in w.tasks ==> w.pins[id] == w.tasks[id].propletId
  }

  /** A deletion leaves the pin of its task behind; no new task takes such an id, or it names the same proplet. */
  ghost predicate NoStalePin(w: World, w': World) {
    forall id :: id in w'.tasks && id !in w.tasks && id in w.pins ==> w'.tasks[id].propletId == w.pins[id]
  }

  lemma CreationLeaves(w: World, op: Op, id: string)
    requires Legal(w, op) && (op.DoCreateTask? || op.DoCreateWorkflow? || op.DoCreateJob?) && id in w.tasks
    ensures id in Apply(w, op).tasks && Apply(w, op).tasks[id] == w.tasks[id]
  {
    hide Validated, Storable, TaskAccepted, StoreAll, WorkflowBatch, JobBatch;
    match op
    case DoCreateTask(t, freshId) =>
    case DoCreateWorkflow(batch, f, fs) =>
      if CreateWorkflow(w, batch, f, fs).ok {
        StoreAllStores(w.tasks, WorkflowBatch(batch, WorkflowIdOf(batch, f), fs));
      }
    case DoCreateJob(name, batch, f, fs) =>
      if CreateJob(w, name, batch, f, fs).ok {
        StoreAllStores(w.tasks, JobBatch(batch, JobIdOf(batch, f), fs));
      }
  }

  lemma OtherNames(w: World, op: Op, id: string)
    requires Legal(w, op) && !Moves(op) && id in w.tasks && id in Apply(w, op).tasks
    ensures Apply(w, op).tasks[id].propletId == w.tasks[id].propletId
  {
    hide CreateTask, CreateWorkflow, CreateJob;
    match op
    case DoCreateTask(_, _) => CreationLeaves(w, op, id);
    case DoCreateWorkflow(_, _, _) => CreationLeaves(w, op, id);
    case DoCreateJob(_, _, _, _) => CreationLeaves(w, op, id);
    case _ =>
  }

  lemma PinsReal(w: World)
    requires Inv(w) && PropletsNamed(w)
    ensures forall id :: id in w.pins ==> w.pins[id] != ""
  {
  }

  lemma KeptMatch(w: World, w': World)
    requires NamesKept(w, w') && PinsMatch(w) && forall id :: id in w.pins ==> w.pins[id] != ""
    ensures PinsMatch(w') && NoStalePin(w, w')
  {
  }

  /** A step keeps the pins right if and only if it creates no task under the pin of another proplet. */
  lemma StepPinsMatch(w: World, op: Op)
    requires Inv(w) && PropletsNamed(w) && PinsMatch(w) && Legal(w, op)
    ensures PinsMatch(Apply(w, op)) <==> NoStalePin(w, Apply(w, op))
  {
    hide Inv, Legal, Apply, NamesKept, PropletsNamed;
    var w' := Apply(w, op);
    if Moves(op) {
      MoveNames(w, op);
      PinsReal(w);
      KeptMatch(w, w');
    } else {
      OtherPins(w, op);
      forall id | id in w.tasks && id in w'.tasks ensures w'.tasks[id].propletId == w.tasks[id].propletId {
        OtherNames(w, op, id);
      }
    }
  }

  /** In every run that creates no task under a stale pin, every stored task that is pinned names its proplet. */
  lemma {:induction false} ReachablePinsMatch(states: seq<World>, ops: seq<Op>, n: nat)
    requires IsRun(states, ops) && n < |states|
    requires forall i :: 0 <= i < n ==> NoStalePin(states[i], states[i + 1])
    ensures PinsMatch(states[n])
  {
    hide Inv, Legal, Apply, NoStalePin;
    if n > 0 {
      ReachablePinsMatch(states, ops, n - 1);
      RunKeepsInv(states, ops, n - 1);
      RunKeepsNames(states, ops, n - 1);
      StepPinsMatch(states[n - 1], ops[n - 1]);
      assert NoStalePin(states[n - 1], states[n - 1 + 1]);
    }
  }

  // A deleted task leaves its pin: the next task with its id is pinned to a proplet that it does not name.

  const ON_P := Task("a", "", Pending, [], "", "wf", "", "p", false, "", map[])
  const ON_Q := ON_P.(propletId := "q")
  const WITH_P := EMPTY.(proplets := map["p" := Proplet(0, "", [])])
  const STORED := WITH_P.(tasks := map["a" := ON_P])
  const STARTED := World(map["a" := ON_P.(state := Running)], map["p" := Proplet(1, "", [])], map["a" := "p"], map[],
                         false, [Dispatched("a", map["a" := ON_P]), Started("a")])
  const DELETED := STARTED.(tasks := map[])

  function AllGood(id: string): Choice {
    Choice(true, None, true, true)
  }

  lemma LoneTask(w: World, t: Task)
    requires t.id != "" && t.id !in w.tasks && t.dependsOn == [] && t.workflowId != "" && t.runIf == ""
    ensures CreateWorkflow(w, [t], "", [""]) == Ran(w.(tasks := w.tasks[t.id := t]), true, true)
  {
    var batch := [t];
    var ids := seq(1, i requires 0 <= i < 1 => batch[i].workflowId);
    assert ids[0] == t.workflowId;
    assert WorkflowBatch(batch, WorkflowIdOf(batch, ""), [""]) == batch;
    assert batch[..0] == [] && GraphOf(batch) == map[t.id := []];
    assert [t.id][..0] == [];
    TopoOrderAcyclic(GraphOf(batch), [t.id]);
    hide WorkflowBatch, WorkflowIdOf, Acyclic;
    assert Validated(batch) && Storable(w.tasks, batch);
    assert StoreAll(w.tasks, batch) == StoreAll(w.tasks, [])[t.id := t];
  }

  lemma StartsOnP()
    ensures StartTask(STORED, "a", AllGood, 0).w == STARTED
  {
  }

  const STALE := DELETED.(tasks := map["a" := ON_Q])

  lemma StaleSteps()
    ensures Apply(EMPTY, DoCreateProplet("p", "")) == WITH_P
    ensures Legal(WITH_P, DoCreateWorkflow([ON_P], "", [""]))
    ensures Apply(WITH_P, DoCreateWorkflow([ON_P], "", [""])) == STORED
    ensures Apply(STARTED, DoDeleteTask("a")) == DELETED
    ensures Legal(DELETED, DoCreateWorkflow([ON_Q], "", [""]))
    ensures Apply(DELETED, DoCreateWorkflow([ON_Q], "", [""])) == STALE
  {
    LoneTask(WITH_P, ON_P);
    LoneTask(DELETED, ON_Q);
    hide CreateWorkflow;
  }

  lemma StaleEnd()
    ensures !PinsMatch(STALE)
  {
    assert "a" in STALE.pins && "a" in STALE.tasks;
  }

  lemma StalePin()
    ensures var ops := [DoCreateProplet("p", ""), DoCreateWorkflow([ON_P], "", [""]), DoStart("a", AllGood, 0),
                        DoDeleteTask("a"), DoCreateWorkflow([ON_Q], "", [""])];
            IsRun([EMPTY, WITH_P, STORED, STARTED, DELETED, STALE], ops) && !PinsMatch(STALE)
  {
    StaleSteps();
    StartsOnP();
    StaleEnd();
    assert Apply(STORED, DoStart("a", AllGood, 0)) == STARTED;
    hide Apply, PinsMatch;
  }
}
