/** What every run of the manager keeps. */
module Safety {
  import opened Options
  import opened Tasks
  import opened Graph
  import opened TaskStore
  import opened Dag
  import opened World
  import opened Creation

  // ---------- The invariants ----------

  ghost function PinnedTo(pins: map<string, string>, p: string): set<string> {
    set t | t in pins && pins[t] == p
  }

  /** Every pin names a proplet, and a proplet's counter is the number of tasks pinned to it. */
  ghost predicate CountsMatch(w: World) {
    && (forall t :: t in w.pins ==> w.pins[t] in w.proplets)
    && (forall p :: p in w.proplets ==> w.proplets[p].taskCount == |PinnedTo(w.pins, p)|)
  }

  /** A dispatch found every dependency of the task completed, failed or skipped. */
  ghost predicate DispatchSettled(e: Event) {
    e.Dispatched? ==>
      && e.id in e.tasks
      && forall d :: d in e.tasks[e.id].dependsOn ==> d in e.tasks && e.tasks[d].state.IsSettled()
  }

  ghost predicate LogSettled(log: seq<Event>) {
    forall i :: 0 <= i < |log| ==> DispatchSettled(log[i])
  }

  /** The last start of a task has not been stopped. */
  ghost predicate OpenIn(log: seq<Event>, id: string) {
    log != [] &&
    var last := log[|log| - 1];
    last == Started(id) || (last != Stopped(id) && OpenIn(log[..|log| - 1], id))
  }

  ghost predicate NoDoubleStart(log: seq<Event>) {
    log != [] ==>
      var init, last := log[..|log| - 1], log[|log| - 1];
      NoDoubleStart(init) && (last.Started? ==> !OpenIn(init, last.id))
  }

  ghost predicate PinsFollowLog(w: World) {
    NoDoubleStart(w.log) && forall id :: id in w.pins <==> OpenIn(w.log, id)
  }

  ghost predicate Inv(w: World) {
    && WellKeyed(w.tasks)
    && Acyclic(StoreGraph(w.tasks))
    && CountsMatch(w)
    && LogSettled(w.log)
    && PinsFollowLog(w)
  }

  /** Two starts of one task have a stop between them. */
  lemma {:induction false} StopBetweenStarts(log: seq<Event>, i: nat, j: nat, id: string)
    requires NoDoubleStart(log) && i < j < |log| && log[i] == Started(id) && log[j] == Started(id)
    ensures exists k :: i < k < j && log[k] == Stopped(id)
  {
    if j == |log| - 1 {
      StoppedSince(log[..j], i, id);
      var k :| i < k < j && log[..j][k] == Stopped(id);
      assert log[k] == Stopped(id);
    } else {
      var init := log[..|log| - 1];
      StopBetweenStarts(init, i, j, id);
      var k :| i < k < j && init[k] == Stopped(id);
      assert log[k] == Stopped(id);
    }
  }

  lemma {:induction false} StoppedSince(log: seq<Event>, i: nat, id: string)
    requires !OpenIn(log, id) && i < |log| && log[i] == Started(id)
    ensures exists k :: i < k < |log| && log[k] == Stopped(id)
  {
    if log[|log| - 1] != Stopped(id) {
      var init := log[..|log| - 1];
      StoppedSince(init, i, id);
      var k :| i < k < |init| && init[k] == Stopped(id);
      assert log[k] == Stopped(id);
    }
  }

  // ---------- Pins and counters ----------

  lemma PinAdds(w: World, id: string, p: string)
    requires CountsMatch(w) && id !in w.pins && p in w.proplets
    ensures CountsMatch(Bump(w.(pins := w.pins[id := p]), p, 1))
  {
    var w' := Bump(w.(pins := w.pins[id := p]), p, 1);
    forall q | q in w'.proplets ensures w'.proplets[q].taskCount == |PinnedTo(w'.pins, q)| {
      if q == p {
        assert PinnedTo(w'.pins, p) == PinnedTo(w.pins, p) + {id};
      } else {
        assert PinnedTo(w'.pins, q) == PinnedTo(w.pins, q);
      }
    }
  }

  /** Unpinning lowers a counter that is at least one, so the clamp at zero is never reached. */
  lemma UnpinRemoves(w: World, id: string)
    requires CountsMatch(w) && id in w.pins
    ensures w.pins[id] in w.proplets && w.proplets[w.pins[id]].taskCount >= 1
    ensures CountsMatch(Bump(w.(pins := w.pins - {id}), w.pins[id], -1))
  {
    var p := w.pins[id];
    assert id in PinnedTo(w.pins, p);
    var w' := Bump(w.(pins := w.pins - {id}), p, -1);
    forall q | q in w'.proplets ensures w'.proplets[q].taskCount == |PinnedTo(w'.pins, q)| {
      if q == p {
        assert PinnedTo(w'.pins, p) == PinnedTo(w.pins, p) - {id};
      } else {
        assert PinnedTo(w'.pins, q) == PinnedTo(w.pins, q);
      }
    }
  }

  lemma UnusedHasNoPins(w: World, p: string)
    requires CountsMatch(w) && p in w.proplets && w.proplets[p].taskCount == 0
    ensures forall t :: t in w.pins ==> w.pins[t] != p
  {
    assert PinnedTo(w.pins, p) == {};
    assert forall t :: t in w.pins && w.pins[t] == p ==> t in PinnedTo(w.pins, p);
  }

  // ---------- Single steps ----------

  /** Rewriting a stored task without touching its id or dependencies. */
  lemma PutKeeps(w: World, t: Task)
    requires Inv(w) && t.id in w.tasks && t.dependsOn == w.tasks[t.id].dependsOn
    ensures Inv(PutTask(w, t))
    ensures StoreGraph(PutTask(w, t).tasks) == StoreGraph(w.tasks)
  {
    assert StoreGraph(PutTask(w, t).tasks) == StoreGraph(w.tasks);
  }

  lemma {:induction false} CheckDepsMet(tasks: map<string, Task>, deps: seq<string>)
    ensures CheckDeps(tasks, deps).Met? <==> forall d :: d in deps ==> d in tasks && tasks[d].state.IsSettled()
  {
    if deps != [] {
      CheckDepsMet(tasks, deps[1..]);
      assert deps == [deps[0]] + deps[1..];
    }
  }

  lemma LogDispatched(w: World, id: string)
    requires Inv(w) && id in w.tasks && CheckDeps(w.tasks, w.tasks[id].dependsOn).Met?
    ensures Inv(w.(log := w.log + [Dispatched(id, w.tasks)]))
  {
    var e, log := Dispatched(id, w.tasks), w.log + [Dispatched(id, w.tasks)];
    CheckDepsMet(w.tasks, w.tasks[id].dependsOn);
    assert DispatchSettled(e);
    hide CountsMatch, Acyclic, WellKeyed, StoreGraph, NoDoubleStart, OpenIn, DispatchSettled, CheckDeps;
    DispatchedOpens(w.log, e);
    assert LogSettled(log);
  }

  lemma DispatchedOpens(log: seq<Event>, e: Event)
    requires NoDoubleStart(log) && e.Dispatched?
    ensures NoDoubleStart(log + [e])
    ensures forall x :: OpenIn(log + [e], x) <==> OpenIn(log, x)
  {
    var more := log + [e];
    assert more[..|more| - 1] == log;
  }

  lemma LogStarted(w: World, id: string, p: string)
    requires Inv(w) && id !in w.pins && p in w.proplets
    ensures Inv(Bump(w.(pins := w.pins[id := p], log := w.log + [Started(id)]), p, 1))
  {
    var log := w.log + [Started(id)];
    PinAdds(w, id, p);
    assert CountsMatch(Bump(w.(pins := w.pins[id := p], log := log), p, 1));
    hide CountsMatch, Acyclic, WellKeyed, StoreGraph, NoDoubleStart, OpenIn;
    StartedOpens(w.log, id);
    assert LogSettled(log);
  }

  lemma StartedOpens(log: seq<Event>, id: string)
    requires NoDoubleStart(log) && !OpenIn(log, id)
    ensures NoDoubleStart(log + [Started(id)])
    ensures forall x :: OpenIn(log + [Started(id)], x) <==> x == id || OpenIn(log, x)
  {
    var more := log + [Started(id)];
    assert more[..|more| - 1] == log;
  }

  lemma LogStopped(w: World, id: string)
    requires Inv(w) && id in w.pins
    ensures w.pins[id] in w.proplets
    ensures Inv(Bump(w.(pins := w.pins - {id}, log := w.log + [Stopped(id)]), w.pins[id], -1))
  {
    var log := w.log + [Stopped(id)];
    UnpinRemoves(w, id);
    assert CountsMatch(Bump(w.(pins := w.pins - {id}, log := log), w.pins[id], -1));
    hide CountsMatch, Acyclic, WellKeyed, StoreGraph, NoDoubleStart, OpenIn;
    StoppedCloses(w.log, id);
    assert LogSettled(log);
  }

  lemma StoppedCloses(log: seq<Event>, id: string)
    requires NoDoubleStart(log)
    ensures NoDoubleStart(log + [Stopped(id)])
    ensures forall x :: OpenIn(log + [Stopped(id)], x) <==> x != id && OpenIn(log, x)
  {
    var more := log + [Stopped(id)];
    assert more[..|more| - 1] == log;
  }

  lemma DispatchKeeps(w: World, id: string, c: Choice)
    requires Inv(w) && id in w.tasks && CheckDeps(w.tasks, w.tasks[id].dependsOn).Met?
    ensures Inv(Dispatch(w, w.tasks[id], c).w)
    ensures StoreGraph(Dispatch(w, w.tasks[id], c).w.tasks) == StoreGraph(w.tasks)
  {
    var t := w.tasks[id];
    assert t.id == id;
    var p := SelectedProplet(w, t, c);
    hide Inv, StoreGraph;
    if t.broadcast {
      if c.published {
        LogDispatched(w, id);
        PutKeeps(w.(log := w.log + [Dispatched(id, w.tasks)]), t.(state := Running));
      }
    } else if c.allowed && p.Some? && t.id != "" && t.id !in w.pins {
      if !c.published {
        PutKeeps(w, t.(propletId := p.value, state := Failed, error := PUBLISH_FAILED));
      } else {
        PinKeeps(w, id, p.value);
      }
    }
  }

  /** The world after a task was pinned, published and marked running. */
  function Pinned(w: World, id: string, p: string): World
    requires id in w.tasks && p in w.proplets
  {
    PutTask(Bump(w.(pins := w.pins[id := p]), p, 1), w.tasks[id].(propletId := p, state := Running))
      .(log := w.log + [Dispatched(id, w.tasks), Started(id)])
  }

  lemma PinKeeps(w: World, id: string, p: string)
    requires Inv(w) && id in w.tasks && w.tasks[id].id == id && CheckDeps(w.tasks, w.tasks[id].dependsOn).Met?
    requires id !in w.pins && p in w.proplets
    ensures Inv(Pinned(w, id, p)) && StoreGraph(Pinned(w, id, p).tasks) == StoreGraph(w.tasks)
  {
    hide Inv, StoreGraph, CheckDeps;
    LogDispatched(w, id);
    var w1 := w.(log := w.log + [Dispatched(id, w.tasks)]);
    LogStarted(w1, id, p);
    var w2 := Bump(w1.(pins := w.pins[id := p], log := w1.log + [Started(id)]), p, 1);
    PutKeeps(w2, w.tasks[id].(propletId := p, state := Running));
    assert w1.log + [Started(id)] == w.log + [Dispatched(id, w.tasks), Started(id)];
  }

  lemma StopKeeps(w: World, id: string, published: bool)
    requires Inv(w)
    ensures Inv(StopTask(w, id, published).w)
    ensures StopTask(w, id, published).w.tasks == w.tasks
  {
    if StopTask(w, id, published).ok && !w.tasks[id].broadcast {
      LogStopped(w, id);
    }
  }

  // ---------- Starts and passes ----------

  lemma {:induction false} StartKeeps(w: World, id: string, o: Oracle, depth: nat)
    requires Inv(w)
    ensures Inv(StartTask(w, id, o, depth).w)
    ensures StoreGraph(StartTask(w, id, o, depth).w.tasks) == StoreGraph(w.tasks)
    decreases depth, 0, 0
  {
    hide Inv, StoreGraph;
    if !w.shuttingDown && id in w.tasks {
      var t := w.tasks[id];
      match CheckDeps(w.tasks, t.dependsOn)
      case Met => DispatchKeeps(w, id, o(id));
      case MissingDep =>
      case Unsettled =>
        if t.workflowId != "" && depth > 0 {
          PassKeeps(w, t.workflowId, o, depth - 1);
        }
    }
  }

  /** The snapshot a pass works from lists the dependencies as they are stored. */
  ghost predicate Current(g: Graph, ready: seq<Task>) {
    forall i :: 0 <= i < |ready| && ready[i].id in g ==> g[ready[i].id] == ready[i].dependsOn
  }

  lemma {:induction false} PassKeeps(w: World, workflowId: string, o: Oracle, depth: nat)
    requires Inv(w)
    ensures Inv(Pass(w, workflowId, o, depth).w)
    ensures StoreGraph(Pass(w, workflowId, o, depth).w.tasks) == StoreGraph(w.tasks)
    decreases depth, 3, 0
  {
    ReadyCurrent(w, workflowId);
    PassOverKeeps(w, Ready(w.tasks, workflowId), Finished(w.tasks, workflowId), o, depth);
  }

  lemma ReadyCurrent(w: World, workflowId: string)
    requires Inv(w)
    ensures Current(StoreGraph(w.tasks), Ready(w.tasks, workflowId))
  {
    var tasks, finished := OfWorkflow(w.tasks, workflowId), Finished(w.tasks, workflowId);
    var ready := Ready(w.tasks, workflowId);
    OfWorkflowMembers(w.tasks, workflowId);
    forall i | 0 <= i < |ready| && ready[i].id in StoreGraph(w.tasks)
      ensures StoreGraph(w.tasks)[ready[i].id] == ready[i].dependsOn
    {
      ReadyTasksMembers(tasks, finished, ready[i]);
    }
  }

  lemma {:induction false} PassOverKeeps(w: World, ready: seq<Task>, finished: map<string, State>, o: Oracle,
                                         depth: nat)
    requires Inv(w) && Current(StoreGraph(w.tasks), ready)
    ensures Inv(PassOver(w, ready, finished, o, depth).w)
    ensures StoreGraph(PassOver(w, ready, finished, o, depth).w.tasks) == StoreGraph(w.tasks)
    decreases depth, 2, |ready|
  {
    hide Inv, StoreGraph;
    if ready != [] {
      var r := PassStep(w, ready[0], finished, o, depth);
      PassStepKeeps(w, ready[0], finished, o, depth);
      if r.returned {
        PassOverKeeps(r.w, ready[1..], finished, o, depth);
      }
    }
  }

  lemma {:induction false} PassStepKeeps(w: World, t: Task, finished: map<string, State>, o: Oracle, depth: nat)
    requires Inv(w) && (t.id in StoreGraph(w.tasks) ==> StoreGraph(w.tasks)[t.id] == t.dependsOn)
    ensures Inv(PassStep(w, t, finished, o, depth).w)
    ensures StoreGraph(PassStep(w, t, finished, o, depth).w.tasks) == StoreGraph(w.tasks)
    decreases depth, 1, 0
  {
    if !t.state.IsActive() {
      if ShouldRun(t, finished) {
        StartKeeps(w, t.id, o, depth);
      } else if t.id in w.tasks {
        PutKeeps(w, t.(state := Skipped));
      }
    }
  }

  // ---------- Messages and administration ----------

  /** The stop reaches this task: it is listed as active, pinned by name and the message goes out. */
  ghost predicate Reached(w: World, tasks: seq<Task>, published: string -> bool, id: string) {
    && id in w.tasks && !w.tasks[id].broadcast && published(id)
    && exists i :: 0 <= i < |tasks| && tasks[i].id == id && tasks[i].state.IsActive()
  }

  lemma StopUnpins(w: World, id: string, published: bool, x: string)
    requires Inv(w)
    ensures x in StopTask(w, id, published).w.pins <==>
            x in w.pins && !(x == id && id in w.tasks && !w.tasks[id].broadcast && published)
  {
  }

  lemma ReachedTail(w: World, tasks: seq<Task>, published: string -> bool, id: string)
    requires tasks != []
    ensures Reached(w, tasks, published, id) <==>
            || Reached(w, tasks[1..], published, id)
            || (tasks[0].id == id && tasks[0].state.IsActive()
                && id in w.tasks && !w.tasks[id].broadcast && published(id))
  {
    var rest := tasks[1..];
    if Reached(w, tasks, published, id) {
      var i :| 0 <= i < |tasks| && tasks[i].id == id && tasks[i].state.IsActive();
      assert i > 0 ==> rest[i - 1] == tasks[i];
    }
    if Reached(w, rest, published, id) {
      var i :| 0 <= i < |rest| && rest[i].id == id && rest[i].state.IsActive();
      assert tasks[i + 1] == rest[i];
    }
  }

  /** Stopping a job takes away exactly the pins of the tasks that it reaches. */
  lemma {:induction false} StopActivePins(w: World, tasks: seq<Task>, published: string -> bool, id: string)
    requires Inv(w)
    ensures id in StopActive(w, tasks, published).pins <==> id in w.pins && !Reached(w, tasks, published, id)
    decreases |tasks|
  {
    if tasks != [] {
      var t := tasks[0];
      var w' := if t.state.IsActive() then StopTask(w, t.id, published(t.id)).w else w;
      StopKeeps(w, t.id, published(t.id));
      StopUnpins(w, t.id, published(t.id), id);
      hide Inv, StopTask;
      StopActivePins(w', tasks[1..], published, id);
      ReachedTail(w, tasks, published, id);
      assert Reached(w', tasks[1..], published, id) <==> Reached(w, tasks[1..], published, id);
    }
  }

  lemma {:induction false} StopActiveKeeps(w: World, tasks: seq<Task>, published: string -> bool)
    requires Inv(w)
    ensures Inv(StopActive(w, tasks, published))
    ensures StopActive(w, tasks, published).tasks == w.tasks
    decreases |tasks|
  {
    hide Inv;
    if tasks != [] {
      var w' := if tasks[0].state.IsActive() then StopTask(w, tasks[0].id, published(tasks[0].id)).w else w;
      StopKeeps(w, tasks[0].id, published(tasks[0].id));
      StopActiveKeeps(w', tasks[1..], published);
    }
  }

  lemma {:induction false} StartDependentsKeeps(w: World, tasks: seq<Task>, doneId: string, o: Oracles, depth: nat)
    requires Inv(w)
    ensures Inv(StartDependents(w, tasks, doneId, o, depth).w)
    decreases |tasks|
  {
    hide Inv;
    if tasks != [] {
      var t := tasks[0];
      StartKeeps(w, t.id, o(t.id), depth);
      var r := if t.state.Pending? && doneId in t.dependsOn && AllTerminal(w.tasks, t.dependsOn)
               then StartTask(w, t.id, o(t.id), depth) else Ran(w, true, true);
      if r.returned {
        StartDependentsKeeps(r.w, tasks[1..], doneId, o, depth);
      }
    }
  }

  lemma OnCompletionKeeps(w: World, id: string, o: Oracle, depth: nat)
    requires Inv(w)
    ensures Inv(OnTaskCompletion(w, id, o, depth).w)
  {
    hide Inv;
    if id in w.tasks {
      PassKeeps(w, w.tasks[id].workflowId, o, depth);
    }
  }

  lemma ResultsKeeps(w: World, id: string, error: string, published: string -> bool, oJob: Oracles, o: Oracle,
                     depth: nat)
    requires Inv(w)
    ensures Inv(UpdateResults(w, id, error, published, oJob, o, depth).w)
  {
    if id in w.tasks {
      var w1 := Finish(w, id, error);
      PutKeeps(w, w1.tasks[id]);
      hide Inv;
      var jobTasks := OfJob(w1.tasks, w1.tasks[id].jobId);
      OnCompletionKeeps(w1, id, o, depth);
      StopActiveKeeps(w1, jobTasks, published);
      OnCompletionKeeps(StopActive(w1, jobTasks, published), id, o, depth);
      StartDependentsKeeps(w1, jobTasks, id, oJob, depth);
      OnCompletionKeeps(StartDependents(w1, jobTasks, id, oJob, depth).w, id, o, depth);
    }
  }

  lemma PropletUpdateKeeps(w: World, w': World)
    requires Inv(w) && w' == w.(proplets := w'.proplets)
    requires w.proplets.Keys <= w'.proplets.Keys
    requires forall p :: p in w'.proplets ==>
               w'.proplets[p].taskCount == if p in w.proplets then w.proplets[p].taskCount else 0
    ensures Inv(w')
  {
    forall p | p in w'.proplets && p !in w.proplets ensures |PinnedTo(w.pins, p)| == 0 {
      assert PinnedTo(w.pins, p) == {};
    }
  }

  lemma DeletePropletKeeps(w: World, id: string)
    requires Inv(w)
    ensures Inv(DeleteProplet(w, id).w)
  {
    if DeleteProplet(w, id).ok {
      UnusedHasNoPins(w, id);
    }
  }

  /** Rewriting states and error texts everywhere at once. */
  lemma RestateKeeps(w: World, w': World)
    requires Inv(w) && w' == w.(tasks := w'.tasks, shuttingDown := w'.shuttingDown)
    requires w'.tasks.Keys == w.tasks.Keys
    requires forall id :: id in w.tasks ==>
               w'.tasks[id].id == w.tasks[id].id && w'.tasks[id].dependsOn == w.tasks[id].dependsOn
    ensures Inv(w')
  {
    assert StoreGraph(w'.tasks) == StoreGraph(w.tasks);
  }

  lemma CreateTaskKeeps(w: World, t: Task, freshId: string)
    requires Inv(w) && forall id :: id in w.tasks ==> freshId !in w.tasks[id].dependsOn
    ensures Inv(CreateTask(w, t, freshId).w)
  {
    hide Acyclic, TaskAccepted;
    CreateTaskKeepsAcyclic(w, t, freshId);
  }

  lemma StoreAllKeeps(w: World, batch: seq<Task>, jobs: map<string, string>)
    requires Inv(w) && Validated(batch) && Storable(w.tasks, batch)
    ensures Inv(w.(tasks := StoreAll(w.tasks, batch), jobs := jobs))
  {
    hide Acyclic;
    StoreAllKeepsAcyclic(w.tasks, batch);
    StoreAllAdds(w.tasks, batch);
  }

  lemma DeleteTaskKeeps(w: World, id: string)
    requires Inv(w)
    ensures Inv(DeleteTask(w, id).w)
  {
    hide Acyclic;
    SubgraphAcyclic(StoreGraph(w.tasks), StoreGraph(w.tasks - {id}));
  }

  lemma CreateWorkflowKeeps(w: World, batch: seq<Task>, freshWorkflow: string, freshIds: seq<string>)
    requires Inv(w) && |freshIds| == |batch|
    ensures Inv(CreateWorkflow(w, batch, freshWorkflow, freshIds).w)
  {
    hide Inv, Validated, Storable;
    if CreateWorkflow(w, batch, freshWorkflow, freshIds).ok {
      StoreAllKeeps(w, WorkflowBatch(batch, WorkflowIdOf(batch, freshWorkflow), freshIds), w.jobs);
    }
  }

  lemma CreateJobKeeps(w: World, name: string, batch: seq<Task>, freshJob: string, freshIds: seq<string>)
    requires Inv(w) && |freshIds| == |batch|
    ensures Inv(CreateJob(w, name, batch, freshJob, freshIds).w)
  {
    hide Inv, Validated, Storable;
    if CreateJob(w, name, batch, freshJob, freshIds).ok {
      var jobId := JobIdOf(batch, freshJob);
      StoreAllKeeps(w, JobBatch(batch, jobId, freshIds), w.jobs[jobId := name]);
    }
  }

  lemma UpdateTaskKeeps(w: World, id: string, name: string, metadata: Option<Metadata>)
    requires Inv(w)
    ensures Inv(UpdateTask(w, id, name, metadata).w)
  {
    hide Inv;
    RestateKeeps(w, UpdateTask(w, id, name, metadata).w);
  }

  lemma PropletSeenKeeps(w: World, id: string, about: string, now: int)
    requires Inv(w)
    ensures Inv(CreateProplet(w, id, about).w)
    ensures Inv(UpdateLiveness(w, id, about, now).w)
  {
    hide Inv;
    PropletUpdateKeeps(w, CreateProplet(w, id, about).w);
    PropletUpdateKeeps(w, UpdateLiveness(w, id, about, now).w);
  }

  lemma ShutdownKeeps(w: World)
    requires Inv(w)
    ensures Inv(BeginShutdown(w)) && Inv(InterruptActive(w)) && Inv(RecoverInterrupted(w))
  {
    hide Inv;
    RestateKeeps(w, BeginShutdown(w));
    RestateKeeps(w, InterruptActive(w));
    RestateKeeps(w, RecoverInterrupted(w));
  }

  // ---------- Runs ----------

  datatype Op =
    | DoCreateTask(t: Task, freshId: string)
    | DoCreateWorkflow(batch: seq<Task>, freshWorkflow: string, freshIds: seq<string>)
    | DoCreateJob(name: string, batch: seq<Task>, freshJob: string, freshIds: seq<string>)
    | DoUpdateTask(id: string, name: string, metadata: Option<Metadata>)
    | DoDeleteTask(id: string)
    | DoStart(id: string, o: Oracle, depth: nat)
    | DoStop(id: string, published: bool)
    | DoPass(workflowId: string, o: Oracle, depth: nat)
    | DoResults(id: string, error: string, answers: string -> bool, oJob: Oracles, o: Oracle, depth: nat)
    | DoCreateProplet(id: string, about: string)
    | DoLiveness(id: string, about: string, now: int)
    | DoDeleteProplet(id: string)
    | DoShutdown
    | DoInterrupt
    | DoRecover

  /** A fresh task id is one that no stored task lists as a dependency; tasks are interrupted only in a shutdown. */
  ghost predicate Legal(w: World, op: Op) {
    match op
    case DoCreateTask(t, freshId) => forall id :: id in w.tasks ==> freshId !in w.tasks[id].dependsOn
    case DoCreateWorkflow(batch, _, freshIds) => |freshIds| == |batch|
    case DoCreateJob(_, batch, _, freshIds) => |freshIds| == |batch|
    case DoInterrupt => w.shuttingDown
    case _ => true
  }

  ghost function Apply(w: World, op: Op): World
    requires Legal(w, op)
  {
    match op
    case DoCreateTask(t, freshId) => CreateTask(w, t, freshId).w
    case DoCreateWorkflow(batch, f, fs) => CreateWorkflow(w, batch, f, fs).w
    case DoCreateJob(name, batch, f, fs) => CreateJob(w, name, batch, f, fs).w
    case DoUpdateTask(id, name, md) => UpdateTask(w, id, name, md).w
    case DoDeleteTask(id) => DeleteTask(w, id).w
    case DoStart(id, o, depth) => StartTask(w, id, o, depth).w
    case DoStop(id, published) => StopTask(w, id, published).w
    case DoPass(wf, o, depth) => Pass(w, wf, o, depth).w
    case DoResults(id, e, answers, oJob, o, depth) => UpdateResults(w, id, e, answers, oJob, o, depth).w
    case DoCreateProplet(id, about) => CreateProplet(w, id, about).w
    case DoLiveness(id, about, now) => UpdateLiveness(w, id, about, now).w
    case DoDeleteProplet(id) => DeleteProplet(w, id).w
    case DoShutdown => BeginShutdown(w)
    case DoInterrupt => InterruptActive(w)
    case DoRecover => RecoverInterrupted(w)
  }

  lemma ApplyKeeps(w: World, op: Op)
    requires Inv(w) && Legal(w, op)
    ensures Inv(Apply(w, op))
  {
    hide Inv, CreateTask, CreateWorkflow, CreateJob, UpdateTask, DeleteTask, StartTask, StopTask, Pass, UpdateResults;
    hide CreateProplet, UpdateLiveness, DeleteProplet, BeginShutdown, InterruptActive, RecoverInterrupted;
    match op
    case DoCreateTask(t, freshId) => CreateTaskKeeps(w, t, freshId);
    case DoCreateWorkflow(batch, f, fs) => CreateWorkflowKeeps(w, batch, f, fs);
    case DoCreateJob(name, batch, f, fs) => CreateJobKeeps(w, name, batch, f, fs);
    case DoUpdateTask(id, name, md) => UpdateTaskKeeps(w, id, name, md);
    case DoDeleteTask(id) => DeleteTaskKeeps(w, id);
    case DoStart(id, o, depth) => StartKeeps(w, id, o, depth);
    case DoStop(id, published) => StopKeeps(w, id, published);
    case DoPass(wf, o, depth) => PassKeeps(w, wf, o, depth);
    case DoResults(id, e, answers, oJob, o, depth) => ResultsKeeps(w, id, e, answers, oJob, o, depth);
    case DoCreateProplet(id, about) => PropletSeenKeeps(w, id, about, 0);
    case DoLiveness(id, about, now) => PropletSeenKeeps(w, id, about, now);
    case DoDeleteProplet(id) => DeletePropletKeeps(w, id);
    case DoShutdown => ShutdownKeeps(w);
    case DoInterrupt => ShutdownKeeps(w);
    case DoRecover => ShutdownKeeps(w);
  }

  const EMPTY := World(map[], map[], map[], map[], false, [])

  /** The states of a run from the empty store, one after each step. */
  ghost predicate IsRun(states: seq<World>, ops: seq<Op>) {
    && |states| == |ops| + 1
    && states[0] == EMPTY
    && forall i :: 0 <= i < |ops| ==> Legal(states[i], ops[i]) && states[i + 1] == Apply(states[i], ops[i])
  }

  lemma {:induction false} RunKeepsInv(states: seq<World>, ops: seq<Op>, n: nat)
    requires IsRun(states, ops) && n < |states|
    ensures Inv(states[n])
  {
    if n == 0 {
      assert IsTopoOrder(StoreGraph(EMPTY.tasks), []);
      TopoOrderAcyclic(StoreGraph(EMPTY.tasks), []);
    } else {
      RunKeepsInv(states, ops, n - 1);
      ApplyKeeps(states[n - 1], ops[n - 1]);
    }
  }

  /** In every reachable state the stored dependencies are acyclic. */
  lemma ReachableAcyclic(states: seq<World>, ops: seq<Op>, n: nat)
    requires IsRun(states, ops) && n < |states|
    ensures Acyclic(StoreGraph(states[n].tasks))
  {
    RunKeepsInv(states, ops, n);
  }

  /** In every run, whatever was dispatched had all its dependencies completed, failed or skipped at that moment. */
  lemma ReachableDispatchesSettled(states: seq<World>, ops: seq<Op>, n: nat, i: nat)
    requires IsRun(states, ops) && n < |states| && i < |states[n].log| && states[n].log[i].Dispatched?
    ensures var e := states[n].log[i];
            && e.id in e.tasks
            && forall d :: d in e.tasks[e.id].dependsOn ==>
                 d in e.tasks && e.tasks[d].state in {Completed, Failed, Skipped}
  {
    RunKeepsInv(states, ops, n);
    assert DispatchSettled(states[n].log[i]);
  }

  /** In every reachable state each counter is the number of pinned tasks, and each pinned task's proplet exists. */
  lemma ReachableCounts(states: seq<World>, ops: seq<Op>, n: nat)
    requires IsRun(states, ops) && n < |states|
    ensures var w := states[n];
            && (forall p :: p in w.proplets ==> w.proplets[p].taskCount == |set t | t in w.pins && w.pins[t] == p|)
            && (forall t :: t in w.pins ==> w.pins[t] in w.proplets && w.proplets[w.pins[t]].taskCount >= 1)
  {
    RunKeepsInv(states, ops, n);
    var w := states[n];
    forall t | t in w.pins ensures w.proplets[w.pins[t]].taskCount >= 1 {
      UnpinRemoves(w, t);
    }
    forall p | p in w.proplets ensures w.proplets[p].taskCount == |set t | t in w.pins && w.pins[t] == p| {
      assert PinnedTo(w.pins, p) == set t | t in w.pins && w.pins[t] == p;
    }
  }

  /** In every run a task pinned by a start is stopped before it is started that way again. */
  lemma ReachableNoDoubleStart(states: seq<World>, ops: seq<Op>, n: nat, i: nat, j: nat, id: string)
    requires IsRun(states, ops) && n < |states|
    requires i < j < |states[n].log| && states[n].log[i] == Started(id) && states[n].log[j] == Started(id)
    ensures exists k :: i < k < j && states[n].log[k] == Stopped(id)
  {
    RunKeepsInv(states, ops, n);
    StopBetweenStarts(states[n].log, i, j, id);
  }
}
