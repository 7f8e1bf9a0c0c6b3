/** The manager service over the in-memory repositories: each method is tied to its step of the state machine. */
module Manager {
  import opened MachineInts
  import opened Options
  import opened Tasks
  import opened Graph
  import opened Dag
  import opened Storage
  import opened TaskStore
  import opened World
  import Steps = World
  import opened Creation
  import opened Safety
  import opened Coordinator
  import opened Completion
  import Outcomes
  import Starts

  /** ShouldRun depends on the dependencies' states only. */
  lemma ShouldRunOnParents(t: Task, completed: map<string, State>, parents: map<string, State>)
    requires forall d :: d in t.dependsOn ==>
               (d in parents <==> d in completed) && (d in completed ==> parents[d] == completed[d])
    ensures ShouldRun(t, parents) == ShouldRun(t, completed)
  {
  }

  method EvaluateConditionalExecution(t: Task, parentStates: map<string, State>) returns (run: bool)
    ensures t.dependsOn == [] ==> run
    ensures t.dependsOn != [] && t.runIf in {"", "success"} ==>
              (run <==> forall d :: d in t.dependsOn ==> d in parentStates && parentStates[d] == Completed)
    ensures t.dependsOn != [] && t.runIf == "failure" ==>
              (run <==> exists d :: d in t.dependsOn && d in parentStates && parentStates[d] == Failed)
    ensures t.dependsOn != [] && t.runIf !in {"", "success", "failure"} ==> !run
    ensures run == ShouldRun(t, parentStates)
  {
    if |t.dependsOn| == 0 {
      return true;
    }
    var runIf := t.runIf;
    if runIf == "" {
      runIf := RUN_IF_SUCCESS;
    }
    if runIf == RUN_IF_SUCCESS {
      for i := 0 to |t.dependsOn|
        invariant forall d :: d in t.dependsOn[..i] ==> d in parentStates && parentStates[d] == Completed
      {
        var d := t.dependsOn[i];
        if d !in parentStates || parentStates[d] != Completed {
          assert d in t.dependsOn;
          return false;
        }
      }
      return true;
    } else if runIf == RUN_IF_FAILURE {
      for i := 0 to |t.dependsOn|
        invariant forall d :: d in t.dependsOn[..i] ==> !(d in parentStates && parentStates[d] == Failed)
      {
        var d := t.dependsOn[i];
        if d in parentStates && parentStates[d] == Failed {
          assert d in t.dependsOn;
          return true;
        }
      }
      return false;
    } else {
      return false;
    }
  }

  method ParentStates(t: Task, completed: map<string, State>) returns (parents: map<string, State>)
    ensures ShouldRun(t, parents) == ShouldRun(t, completed)
  {
    parents := map[];
    for i := 0 to |t.dependsOn|
      invariant forall d :: d in parents ==> d in completed && parents[d] == completed[d]
      invariant forall d :: d in t.dependsOn[..i] && d in completed ==> d in parents
    {
      var d := t.dependsOn[i];
      if d in completed {
        parents := parents[d := completed[d]];
      }
    }
    ShouldRunOnParents(t, completed, parents);
  }

  method CompletedStates(tasks: seq<Task>, ghost data: map<string, Task>, ghost workflowId: string)
    returns (completed: map<string, State>)
    requires WellKeyed(data) && tasks == OfWorkflow(data, workflowId)
    ensures completed == Finished(data, workflowId)
  {
    completed := map[];
    for i := 0 to |tasks|
      invariant forall x :: x in completed <==>
                  exists j :: 0 <= j < i && tasks[j].id == x && tasks[j].state.IsTerminal()
      invariant forall j :: 0 <= j < i && tasks[j].state.IsTerminal() ==> tasks[j].id in completed
      invariant forall x :: x in completed ==>
                  exists j :: 0 <= j < i && tasks[j].id == x && tasks[j].state == completed[x]
    {
      if tasks[i].state.IsTerminal() {
        completed := completed[tasks[i].id := tasks[i].state];
      }
    }
    CompletedIsFinished(tasks, data, workflowId, completed);
  }

  lemma CompletedIsFinished(tasks: seq<Task>, data: map<string, Task>, workflowId: string,
                            completed: map<string, State>)
    requires WellKeyed(data) && tasks == OfWorkflow(data, workflowId)
    requires forall x :: x in completed <==>
               exists j :: 0 <= j < |tasks| && tasks[j].id == x && tasks[j].state.IsTerminal()
    requires forall x :: x in completed ==>
               exists j :: 0 <= j < |tasks| && tasks[j].id == x && tasks[j].state == completed[x]
    ensures completed == Finished(data, workflowId)
  {
    OfWorkflowMembers(data, workflowId);
    hide OfWorkflow, ById;
    forall x | x in completed ensures x in Finished(data, workflowId) && completed[x] == data[x].state {
      var j :| 0 <= j < |tasks| && tasks[j].id == x && tasks[j].state.IsTerminal();
      assert tasks[j] in tasks;
      var k :| 0 <= k < |tasks| && tasks[k].id == x && tasks[k].state == completed[x];
      assert tasks[k] in tasks;
    }
    forall x | x in Finished(data, workflowId) ensures x in completed {
      assert data[x] in tasks;
    }
  }

  lemma {:induction false} StoreAllKeys(tasks: map<string, Task>, batch: seq<Task>)
    ensures StoreAll(tasks, batch).Keys == tasks.Keys + BatchIds(batch)
    ensures forall id :: id in tasks && id !in BatchIds(batch) ==> StoreAll(tasks, batch)[id] == tasks[id]
  {
    if batch != [] {
      var init := batch[..|batch| - 1];
      StoreAllKeys(tasks, init);
      assert BatchIds(batch) == BatchIds(init) + {batch[|batch| - 1].id};
    }
  }

  lemma NothingStored(tasks: map<string, Task>, batch: seq<Task>)
    ensures Storable(tasks, batch[..0]) && StoreAll(tasks, batch[..0]) == tasks
  {
  }

  lemma StorableId(tasks: map<string, Task>, batch: seq<Task>, j: nat)
    requires Storable(tasks, batch) && j < |batch|
    ensures batch[j].id != ""
  {
  }

  lemma UnstoreStart(all: map<string, Task>, batch: seq<Task>)
    ensures all - BatchIds(batch[..0]) == all
  {
  }

  lemma UnstoreNext(all: map<string, Task>, batch: seq<Task>, j: nat)
    requires j < |batch|
    ensures all - BatchIds(batch[..j + 1]) == (all - BatchIds(batch[..j])) - {batch[j].id}
  {
    assert BatchIds(batch[..j + 1]) == BatchIds(batch[..j]) + {batch[j].id};
  }

  lemma UnstoreAll(tasks: map<string, Task>, batch: seq<Task>)
    requires Storable(tasks, batch)
    ensures StoreAll(tasks, batch) - BatchIds(batch) == tasks
  {
    StoreAllKeys(tasks, batch);
  }

  lemma NotStorable(tasks: map<string, Task>, batch: seq<Task>, i: nat)
    requires i < |batch| && (batch[i].id == "" || batch[i].id in StoreAll(tasks, batch[..i]))
    ensures !Storable(tasks, batch)
  {
    StoreAllKeys(tasks, batch[..i]);
    if batch[i].id in BatchIds(batch[..i]) {
      var j :| 0 <= j < i && batch[j].id == batch[i].id;
    }
  }

  lemma StorableNext(tasks: map<string, Task>, batch: seq<Task>, i: nat)
    requires i < |batch| && Storable(tasks, batch[..i])
    requires batch[i].id != "" && batch[i].id !in StoreAll(tasks, batch[..i])
    ensures Storable(tasks, batch[..i + 1])
  {
    StoreAllKeys(tasks, batch[..i]);
    forall j | 0 <= j < i ensures batch[j].id != batch[i].id {
      assert batch[..i][j].id in BatchIds(batch[..i]);
    }
  }

  lemma PutTwice<V>(m: map<string, V>, k: string, v: V, v': V)
    ensures m[k := v][k := v'] == m[k := v']
  {
  }

  lemma PutAndRemove<V>(m: map<string, V>, k: string, v: V)
    requires k !in m
    ensures m[k := v] - {k} == m
  {
  }

  class Service {
    const repo: TaskRepo
    const proplets: MemoryStorage<Proplet>
    const pins: MemoryStorage<string>
    const jobs: MemoryStorage<string>
    var shuttingDown: bool
    ghost var log: seq<Event>

    ghost predicate Valid()
      reads this, repo, repo.storage, proplets, pins, jobs
    {
      && pins != jobs
      && repo.Valid()
      && |repo.storage.data| < TWO_64
      && "" !in proplets.data && "" !in pins.data && "" !in jobs.data
    }

    ghost function View(): World
      reads this, repo, repo.storage, proplets, pins, jobs
    {
      World(repo.storage.data, proplets.data, pins.data, jobs.data, shuttingDown, log)
    }

    constructor ()
      ensures Valid() && View() == EMPTY
      ensures fresh(repo) && fresh(repo.storage) && fresh(proplets) && fresh(pins) && fresh(jobs)
    {
      repo := new TaskRepo();
      proplets := new MemoryStorage();
      pins := new MemoryStorage();
      jobs := new MemoryStorage();
      shuttingDown := false;
      log := [];
    }

    method BumpPropletTaskCount(id: string, delta: int)
      requires Valid() && id in proplets.data
      modifies proplets
      ensures Valid() && View() == Bump(old(View()), id, delta)
    {
      var p := proplets.Get(id);
      var newCount := p.value.taskCount + delta;
      if newCount < 0 {
        newCount := 0;
      }
      var r := proplets.Update(id, p.value.(taskCount := newCount));
    }

    method PutStored(t: Task)
      requires Valid() && t.id in repo.storage.data
      modifies repo, repo.storage
      ensures Valid() && View() == PutTask(old(View()), t)
    {
      assert repo.storage.data[t.id := t].Keys == repo.storage.data.Keys;
      var r := repo.Update(t);
    }

    method DispatchBroadcast(t: Task, published: bool) returns (ok: bool)
      requires Valid() && t.id in repo.storage.data && repo.storage.data[t.id] == t
      modifies this, repo, repo.storage
      ensures Valid() && ok == published
      ensures View() == if !ok then old(View())
                        else PutTask(old(View()), t.(state := Running))
                             .(log := old(log) + [Dispatched(t.id, old(View()).tasks)])
    {
      hide IndexExact, WellKeyed;
      ghost var w := View();
      PutStored(t);
      assert repo.storage.data == w.tasks;
      if !published {
        return false;
      }
      log := log + [Dispatched(t.id, w.tasks)];
      PutStored(t.(state := Running));
      return true;
    }

    method SelectProplet(t: Task, c: Choice) returns (chosen: Option<string>)
      requires Valid()
      ensures chosen == SelectedProplet(View(), t, c)
    {
      var id := t.propletId;
      if id == "" {
        if c.pick.None? {
          return None;
        }
        id := c.pick.value;
      }
      var p := proplets.Get(id);
      if p.Err? || (t.propletId != "" && !c.alive) {
        return None;
      }
      return Some(id);
    }

    /** Undoes a pin whose start message could not be sent. */
    method RollBackStart(t: Task, ghost before: World)
      requires Valid() && t.id in before.tasks && t.id !in before.pins && t.id != ""
      requires View() == PutTask(before.(pins := before.pins[t.id := t.propletId]), t)
      modifies repo, repo.storage, pins
      ensures Valid() && View() == PutTask(before, t.(state := Failed, error := PUBLISH_FAILED))
    {
      hide IndexExact, WellKeyed;
      var failed := t.(state := Failed, error := PUBLISH_FAILED);
      PutAndRemove(before.pins, t.id, t.propletId);
      PutTwice(before.tasks, t.id, t, failed);
      var gone := pins.Delete(t.id);
      PutStored(failed);
    }

    /** Counts and marks a task whose start message went out. */
    method CommitStart(t: Task, ghost before: World)
      requires Valid() && t.id in before.tasks && t.propletId in before.proplets
      requires View() == PutTask(before.(pins := before.pins[t.id := t.propletId]), t)
      modifies this, repo, repo.storage, proplets
      ensures Valid()
      ensures View() == PutTask(Bump(before.(pins := before.pins[t.id := t.propletId]), t.propletId, 1),
                                t.(state := Running))
                        .(log := before.log + [Dispatched(t.id, before.tasks), Started(t.id)])
    {
      hide IndexExact, WellKeyed;
      PutTwice(before.tasks, t.id, t, t.(state := Running));
      log := log + [Dispatched(t.id, before.tasks), Started(t.id)];
      BumpPropletTaskCount(t.propletId, 1);
      PutStored(t.(state := Running));
    }

    /** The part of StartTask that follows the dependency check. */
    method DispatchTask(t: Task, c: Choice) returns (ok: bool)
      requires Valid() && t.id in repo.storage.data && repo.storage.data[t.id] == t
      modifies this, repo, repo.storage, proplets, pins
      ensures Valid()
      ensures Ran(View(), ok, true) == Dispatch(old(View()), t, c)
    {
      hide IndexExact, WellKeyed, SelectedProplet;
      ghost var w := View();
      if t.broadcast {
        ok := DispatchBroadcast(t, c.published);
        return;
      }
      if !c.allowed {
        return false;
      }
      var chosen := SelectProplet(t, c);
      if chosen.None? {
        return false;
      }
      SelectedExists(w, t, c);
      ok := PinAndPublish(t, chosen.value, c.published);
    }

    lemma SelectedExists(w: World, t: Task, c: Choice)
      ensures SelectedProplet(w, t, c).Some? ==> SelectedProplet(w, t, c).value in w.proplets
    {
    }

    method PinAndPublish(t: Task, chosen: string, published: bool) returns (ok: bool)
      requires Valid() && t.id in repo.storage.data && repo.storage.data[t.id] == t && chosen in proplets.data
      modifies this, repo, repo.storage, proplets, pins
      ensures Valid()
      ensures ok <==> t.id != "" && t.id !in old(pins.data) && published
      ensures var w, t' := old(View()), t.(propletId := chosen);
              View() == if t.id == "" || t.id in w.pins then w
                        else if !published then PutTask(w, t'.(state := Failed, error := PUBLISH_FAILED))
                        else PutTask(Bump(w.(pins := w.pins[t.id := chosen]), chosen, 1), t'.(state := Running))
                             .(log := w.log + [Dispatched(t.id, w.tasks), Started(t.id)])
    {
      hide IndexExact, WellKeyed;
      ghost var w := View();
      var pinned := pins.Create(t.id, chosen);
      if pinned.Err? {
        return false;
      }
      var t' := t.(propletId := chosen);
      PutStored(t');
      if !published {
        RollBackStart(t', w);
        return false;
      }
      CommitStart(t', w);
      return true;
    }

    /** Starts a task. `depth` bounds the passes nested in the call, which the source leaves to the call stack. */
    method StartTask(id: string, o: Oracle, ghost depth: nat) returns (ok: bool)
      requires Valid() && Steps.StartTask(View(), id, o, depth).returned
      modifies this, repo, repo.storage, proplets, pins
      ensures Valid()
      ensures Ran(View(), ok, true) == Steps.StartTask(old(View()), id, o, depth)
      ensures ok ==> id in old(View()).tasks
      ensures ok && !old(View()).tasks[id].broadcast ==>
                && id in View().pins && id in View().tasks && View().pins[id] == View().tasks[id].propletId
                && old(View()).tasks[id].propletId in {"", View().pins[id]}
      decreases depth, 1, 0
    {
      hide IndexExact, WellKeyed, Dispatch, Pass;
      if id in View().tasks && !View().tasks[id].broadcast {
        Starts.StartOutcome(View(), id, o, depth);
      }
      if shuttingDown {
        return false;
      }
      var g := repo.Get(id);
      if g.Err? {
        KeysNotEmpty(repo.storage.data);
        return false;
      }
      var t := g.value;
      KeyedById(repo.storage.data, id);
      if |t.dependsOn| > 0 {
        var met := CheckTaskDependencies(t, o, depth);
        if !met {
          return false;
        }
      }
      ok := DispatchTask(t, o(id));
    }

    lemma KeysNotEmpty(data: map<string, Task>)
      requires WellKeyed(data)
      ensures "" !in data
    {
    }

    lemma KeyedById(data: map<string, Task>, id: string)
      requires WellKeyed(data) && id in data
      ensures data[id].id == id
    {
    }

    /** Looks the dependencies up in order; an unsettled one of a workflow task triggers a coordinator pass. */
    method CheckTaskDependencies(t: Task, o: Oracle, ghost depth: nat) returns (ok: bool)
      requires Valid()
      requires CheckDeps(View().tasks, t.dependsOn).Unsettled? && t.workflowId != "" ==>
                 depth > 0 && Pass(View(), t.workflowId, o, depth - 1).returned
      modifies this, repo, repo.storage, proplets, pins
      ensures Valid()
      ensures ok <==> CheckDeps(old(View()).tasks, t.dependsOn).Met?
      ensures View() == if CheckDeps(old(View()).tasks, t.dependsOn).Unsettled? && t.workflowId != ""
                        then Pass(old(View()), t.workflowId, o, depth - 1).w else old(View())
      decreases depth, 0, 0
    {
      hide IndexExact, WellKeyed, Pass;
      for k := 0 to |t.dependsOn|
        invariant Valid() && View() == old(View())
        invariant CheckDeps(View().tasks, t.dependsOn) == CheckDeps(View().tasks, t.dependsOn[k..])
      {
        var dep := repo.Get(t.dependsOn[k]);
        KeysNotEmpty(repo.storage.data);
        if dep.Err? {
          return false;
        }
        if !dep.value.state.IsSettled() {
          if t.workflowId != "" {
            CheckAndStartReadyTasks(t.workflowId, o, depth - 1);
          }
          return false;
        }
      }
      return true;
    }

    /** One coordinator pass over the workflow. */
    method CheckAndStartReadyTasks(workflowId: string, o: Oracle, ghost depth: nat)
      requires Valid() && Pass(View(), workflowId, o, depth).returned
      modifies this, repo, repo.storage, proplets, pins
      ensures Valid() && View() == Pass(old(View()), workflowId, o, depth).w
      decreases depth, 3, 0
    {
      hide IndexExact, WellKeyed, OfWorkflow, PassOver, ReadyTasks;
      var tasks := repo.ListByWorkflowID(workflowId);
      if |tasks| == 0 {
        NothingReady(View(), tasks, Finished(repo.storage.data, workflowId), o, depth);
        return;
      }
      var completed := CompletedStates(tasks, repo.storage.data, workflowId);
      var ready := GetReadyTasks(tasks, completed);
      StartOrSkipReady(ready, completed, o, depth);
    }

    lemma NothingReady(w: World, tasks: seq<Task>, completed: map<string, State>, o: Oracle, depth: nat)
      requires tasks == []
      ensures PassOver(w, ReadyTasks(tasks, completed), completed, o, depth).w == w
    {
    }

    method StartOrSkipReady(ready: seq<Task>, completed: map<string, State>, o: Oracle, ghost depth: nat)
      requires Valid() && PassOver(View(), ready, completed, o, depth).returned
      modifies this, repo, repo.storage, proplets, pins
      ensures Valid() && View() == PassOver(old(View()), ready, completed, o, depth).w
      decreases depth, 2, 0
    {
      hide IndexExact, WellKeyed, ShouldRun, Steps.StartTask;
      ghost var goal := PassOver(View(), ready, completed, o, depth);
      for i := 0 to |ready|
        invariant Valid() && PassOver(View(), ready[i..], completed, o, depth) == goal
      {
        var t := ready[i];
        ghost var rest := ready[i..];
        assert rest[0] == t && rest[1..] == ready[i + 1..];
        assert PassStep(View(), t, completed, o, depth).returned;
        if t.state.IsActive() {
          continue;
        }
        var parentStates := ParentStates(t, completed);
        var shouldRun := EvaluateConditionalExecution(t, parentStates);
        if !shouldRun {
          MarkSkipped(t);
          continue;
        }
        var started := StartTask(t.id, o, depth);
      }
    }

    method MarkSkipped(t: Task)
      requires Valid()
      modifies repo, repo.storage
      ensures Valid()
      ensures View() == if t.id in old(repo.storage.data) then PutTask(old(View()), t.(state := Skipped))
                        else old(View())
    {
      var e := repo.Update(t.(state := Skipped));
      if e.Ok? {
        assert old(repo.storage.data)[t.id := t.(state := Skipped)].Keys == old(repo.storage.data).Keys;
      }
    }

    method StopTask(id: string, published: bool) returns (ok: bool)
      requires Valid()
      modifies this, proplets, pins
      ensures Valid()
      ensures Ran(View(), ok, true) == Steps.StopTask(old(View()), id, published)
    {
      hide IndexExact, WellKeyed;
      KeysNotEmpty(repo.storage.data);
      var g := repo.Get(id);
      if g.Err? {
        return false;
      }
      if g.value.broadcast {
        return published;
      }
      var pinned := pins.Get(id);
      if pinned.Err? {
        return false;
      }
      var p := proplets.Get(pinned.value);
      if p.Err? || !published {
        return false;
      }
      var gone := pins.Delete(id);
      log := log + [Stopped(id)];
      BumpPropletTaskCount(pinned.value, -1);
      return true;
    }

    // ---------- Messages from proplets ----------

    method OnTaskCompletion(id: string, o: Oracle, ghost depth: nat) returns (ok: bool)
      requires Valid() && Steps.OnTaskCompletion(View(), id, o, depth).returned
      modifies this, repo, repo.storage, proplets, pins
      ensures Valid() && View() == Steps.OnTaskCompletion(old(View()), id, o, depth).w
    {
      hide IndexExact, WellKeyed, Pass;
      KeysNotEmpty(repo.storage.data);
      var g := repo.Get(id);
      if g.Err? {
        return false;
      }
      if g.value.workflowId == "" {
        return true;
      }
      CheckAndStartReadyTasks(g.value.workflowId, o, depth);
      return true;
    }

    method StopJobTasks(tasks: seq<Task>, published: string -> bool)
      requires Valid()
      modifies this, proplets, pins
      ensures Valid() && View() == StopActive(old(View()), tasks, published)
    {
      hide IndexExact, WellKeyed, Steps.StopTask;
      for i := 0 to |tasks|
        invariant Valid() && StopActive(View(), tasks[i..], published) == StopActive(old(View()), tasks, published)
      {
        assert tasks[i..][1..] == tasks[i + 1..];
        if tasks[i].state.IsActive() {
          var stopped := StopTask(tasks[i].id, published(tasks[i].id));
        }
      }
    }

    method AllDependenciesComplete(t: Task) returns (all: bool)
      requires Valid()
      ensures all == AllTerminal(View().tasks, t.dependsOn)
    {
      hide IndexExact;
      for k := 0 to |t.dependsOn|
        invariant forall d :: d in t.dependsOn[..k] ==>
                    d in repo.storage.data && repo.storage.data[d].state.IsTerminal()
      {
        var dep := repo.Get(t.dependsOn[k]);
        if dep.Err? || !dep.value.state.IsTerminal() {
          assert t.dependsOn[k] in t.dependsOn;
          return false;
        }
      }
      return true;
    }

    method StartJobDependentTasks(tasks: seq<Task>, doneId: string, o: Oracles)
      requires Valid() && !DependentsSpin(View(), tasks, doneId, o)
      modifies this, repo, repo.storage, proplets, pins
      ensures Valid() && View() == StartDependents(old(View()), tasks, doneId, o, 1).w
    {
      hide IndexExact, WellKeyed, Steps.StartTask, AllTerminal, Spins;
      ghost var goal := StartDependents(View(), tasks, doneId, o, 1);
      for i := 0 to |tasks|
        invariant Valid() && !DependentsSpin(View(), tasks[i..], doneId, o)
        invariant StartDependents(View(), tasks[i..], doneId, o, 1) == goal
      {
        var t := tasks[i];
        assert tasks[i..][0] == t && tasks[i..][1..] == tasks[i + 1..];
        if !t.state.Pending? {
          continue;
        }
        if doneId !in t.dependsOn {
          continue;
        }
        var complete := AllDependenciesComplete(t);
        if complete {
          assert Waits(View(), t, doneId);
          StartReturns(View(), t.id, o(t.id));
          var started := StartTask(t.id, o(t.id), 1);
        }
      }
    }

    method JobStatus(tasks: seq<Task>) returns (allCompleted: bool, hasFailed: bool)
      ensures allCompleted <==> forall t :: t in tasks ==> t.state.Completed? || t.state.Skipped?
      ensures hasFailed <==> exists t :: t in tasks && t.state.Failed?
    {
      allCompleted, hasFailed := true, false;
      for i := 0 to |tasks|
        invariant allCompleted <==> forall t :: t in tasks[..i] ==> t.state.Completed? || t.state.Skipped?
        invariant hasFailed <==> exists t :: t in tasks[..i] && t.state.Failed?
      {
        assert tasks[..i + 1] == tasks[..i] + [tasks[i]];
        if !tasks[i].state.Completed? && !tasks[i].state.Skipped? {
          allCompleted := false;
        }
        if tasks[i].state.Failed? {
          hasFailed := true;
        }
      }
      assert tasks[..|tasks|] == tasks;
    }

    method FinishTask(id: string, error: string) returns (t: Task)
      requires Valid() && id in repo.storage.data
      modifies repo, repo.storage
      ensures Valid() && View() == Finish(old(View()), id, error)
      ensures t == View().tasks[id]
    {
      var g := repo.Get(id);
      t := g.value.(state := Completed);
      if error != "" {
        t := t.(error := error, state := Failed);
      }
      PutStored(t);
    }

    method UpdateResultsHandler(id: string, error: string, published: string -> bool, oJob: Oracles, o: Oracle)
      returns (ok: bool)
      requires Valid() && !ResultsSpin(View(), id, error, published, oJob)
      modifies this, repo, repo.storage, proplets, pins
      ensures Valid() && View() == UpdateResults(old(View()), id, error, published, oJob, o, 1).w
      ensures ok <==> id in old(View()).tasks
      ensures ok ==> id in View().tasks
      ensures ok ==> View().tasks[id] == if error == "" then old(View()).tasks[id].(state := Completed)
                                         else old(View()).tasks[id].(state := Failed, error := error)
    {
      hide IndexExact, WellKeyed, Steps.OnTaskCompletion, StartDependents, StopActive, Finish, OfJob, DependentsSpin,
           Stuck;
      KeysNotEmpty(repo.storage.data);
      ResultsReturn(View(), id, error, published, oJob, o);
      var g := repo.Get(id);
      if g.Err? {
        return false;
      }
      Outcomes.ResultOutcome(View(), id, error, published, oJob, o, 1);
      var t := FinishTask(id, error);
      if t.jobId == "" {
        var done := OnTaskCompletion(id, o, 1);
        return true;
      }
      var jobTasks := repo.ListByJobID(t.jobId);
      if error != "" {
        StopJobTasks(jobTasks, published);
        var done := OnTaskCompletion(id, o, 1);
        return true;
      }
      var allCompleted, hasFailed := JobStatus(jobTasks);
      if !allCompleted && !hasFailed {
        StartJobDependentTasks(jobTasks, id, oJob);
      }
      var done := OnTaskCompletion(id, o, 1);
      return true;
    }

    method CreatePropletHandler(id: string, metadata: string) returns (ok: bool)
      requires Valid()
      modifies proplets
      ensures Valid() && Ran(View(), ok, true) == CreateProplet(old(View()), id, metadata)
    {
      if id == "" {
        return false;
      }
      var existing := proplets.Get(id);
      if existing.Ok? {
        var e := proplets.Update(id, existing.value.(metadata := metadata));
        return true;
      }
      var e := proplets.Create(id, Proplet(0, metadata, []));
      return true;
    }

    method UpdateLivenessHandler(id: string, metadata: string, now: int) returns (ok: bool)
      requires Valid()
      modifies proplets
      ensures Valid() && Ran(View(), ok, true) == UpdateLiveness(old(View()), id, metadata, now)
    {
      if id == "" {
        return false;
      }
      var p := proplets.Get(id);
      if p.Err? {
        ok := CreatePropletHandler(id, metadata);
        return;
      }
      var history := p.value.history + [now];
      if |history| > ALIVE_HISTORY_LIMIT {
        history := history[|history| - ALIVE_HISTORY_LIMIT..];
      }
      var e := proplets.Update(id, p.value.(history := history));
      return true;
    }

    method DeleteProplet(id: string) returns (ok: bool)
      requires Valid()
      modifies proplets
      ensures Valid() && Ran(View(), ok, true) == Steps.DeleteProplet(old(View()), id)
    {
      var p := proplets.Get(id);
      if p.Err? || p.value.taskCount > 0 {
        return false;
      }
      var e := proplets.Delete(id);
      return true;
    }

    // ---------- Creation ----------

    method DagValid(tasks: seq<Task>) returns (ok: bool)
      ensures ok <==> Validated(tasks)
    {
      hide Acyclic, MissingListedTwice, NoneListsItself, DependenciesExist;
      var e := ValidateDependenciesExist(tasks);
      if e.Some? {
        return false;
      }
      e := ValidateDAG(tasks);
      return e.None?;
    }

    method CreateTask(t: Task, freshId: string) returns (ok: bool)
      requires Valid() && |repo.storage.data| + 1 < TWO_64
      modifies repo, repo.storage
      ensures Valid() && Ran(View(), ok, true) == Creation.CreateTask(old(View()), t, freshId)
    {
      hide IndexExact, WellKeyed, Validated, OfWorkflow;
      if t.broadcast && t.propletId != "" {
        return false;
      }
      if |t.dependsOn| > 0 && t.workflowId == "" {
        return false;
      }
      if |t.dependsOn| > 0 {
        var stored := repo.ListByWorkflowID(t.workflowId);
        var accepted := DagValid(stored + [t]);
        if !accepted {
          return false;
        }
      }
      var r := repo.Create(t.(id := freshId));
      return r.Ok?;
    }

    method UpdateTask(id: string, name: string, metadata: Option<Metadata>) returns (ok: bool)
      requires Valid()
      modifies repo, repo.storage
      ensures Valid() && Ran(View(), ok, true) == Creation.UpdateTask(old(View()), id, name, metadata)
    {
      var g := repo.Get(id);
      if g.Err? {
        return false;
      }
      var t := g.value;
      if name != "" {
        t := t.(name := name);
      }
      if metadata.Some? {
        t := t.(metadata := metadata.value);
      }
      PutStored(t);
      return true;
    }

    method DeleteTask(id: string) returns (ok: bool)
      requires Valid()
      modifies repo, repo.storage
      ensures Valid() && Ran(View(), ok, true) == Creation.DeleteTask(old(View()), id)
    {
      CardinalityBound((repo.storage.data - {id}).Keys, repo.storage.data.Keys);
      var r := repo.Delete(id);
      return r.Ok?;
    }

    /**
      * Creates the tasks one after the other. If one cannot be created, the ones before it are deleted again, and the
      * store and its index are exactly what they were.
      */
    method CreateAll(batch: seq<Task>) returns (ok: bool)
      requires Valid() && |repo.storage.data| + |batch| < TWO_64
      modifies repo, repo.storage
      ensures Valid()
      ensures ok <==> Storable(old(repo.storage.data), batch)
      ensures ok ==> repo.storage.data == StoreAll(old(repo.storage.data), batch)
      ensures !ok ==> repo.storage.data == old(repo.storage.data) && repo.metaIdx == old(repo.metaIdx)
    {
      hide IndexExact, WellKeyed, Storable;
      ghost var before, index := repo.storage.data, repo.metaIdx;
      NothingStored(before, batch);
      for i := 0 to |batch|
        invariant Valid() && |repo.storage.data| + |batch| - i < TWO_64
        invariant Storable(before, batch[..i]) && repo.storage.data == StoreAll(before, batch[..i])
      {
        assert batch[..i + 1][..i] == batch[..i];
        var created := repo.Create(batch[i]);
        if created.Err? {
          NotStorable(before, batch, i);
          RollBack(batch[..i], before);
          IndexUnique(before, repo.metaIdx, index);
          return false;
        }
        StorableNext(before, batch, i);
      }
      assert batch[..|batch|] == batch;
      return true;
    }

    /** Deletes the tasks created so far. */
    method RollBack(created: seq<Task>, ghost before: map<string, Task>)
      requires Valid() && Storable(before, created) && repo.storage.data == StoreAll(before, created)
      requires |before| < TWO_64
      modifies repo, repo.storage
      ensures Valid() && repo.storage.data == before
    {
      hide IndexExact, WellKeyed, Storable, BatchIds, StoreAll;
      ghost var all := repo.storage.data;
      UnstoreStart(all, created);
      for j := 0 to |created|
        invariant Valid() && repo.storage.data == all - BatchIds(created[..j])
      {
        UnstoreNext(all, created, j);
        CardinalityBound((repo.storage.data - {created[j].id}).Keys, repo.storage.data.Keys);
        StorableId(before, created, j);
        var gone := repo.Delete(created[j].id);
      }
      assert created[..|created|] == created;
      UnstoreAll(before, created);
    }

    method PrepareWorkflow(batch: seq<Task>, freshWorkflow: string, freshIds: seq<string>) returns (prepared: seq<Task>)
      requires |freshIds| == |batch|
      ensures prepared == WorkflowBatch(batch, WorkflowIdOf(batch, freshWorkflow), freshIds)
    {
      var workflowId := freshWorkflow;
      ghost var ids := seq(|batch|, i requires 0 <= i < |batch| => batch[i].workflowId);
      for i := 0 to |batch|
        invariant workflowId == freshWorkflow
        invariant FirstId(ids, freshWorkflow) == FirstId(ids[i..], freshWorkflow)
      {
        if batch[i].workflowId != "" {
          workflowId := batch[i].workflowId;
          break;
        }
      }
      assert workflowId == WorkflowIdOf(batch, freshWorkflow);
      prepared := [];
      for i := 0 to |batch|
        invariant prepared == WorkflowBatch(batch, workflowId, freshIds)[..i]
      {
        prepared := prepared + [FillId(batch[i].(workflowId := workflowId), freshIds[i])];
      }
    }

    method PrepareJob(batch: seq<Task>, freshJob: string, freshIds: seq<string>)
      returns (jobId: string, prepared: seq<Task>)
      requires |freshIds| == |batch|
      ensures jobId == JobIdOf(batch, freshJob) && prepared == JobBatch(batch, jobId, freshIds)
    {
      jobId := freshJob;
      ghost var ids := seq(|batch|, i requires 0 <= i < |batch| => batch[i].jobId);
      for i := 0 to |batch|
        invariant jobId == freshJob
        invariant FirstId(ids, freshJob) == FirstId(ids[i..], freshJob)
      {
        if batch[i].jobId != "" {
          jobId := batch[i].jobId;
          break;
        }
      }
      assert jobId == JobIdOf(batch, freshJob);
      prepared := [];
      for i := 0 to |batch|
        invariant prepared == JobBatch(batch, jobId, freshIds)[..i]
      {
        prepared := prepared + [FillId(batch[i].(jobId := jobId), freshIds[i])];
      }
    }

    method RunIfsValid(tasks: seq<Task>) returns (ok: bool)
      ensures ok <==> forall t :: t in tasks ==> RunIfValid(t)
    {
      for i := 0 to |tasks|
        invariant forall t :: t in tasks[..i] ==> RunIfValid(t)
      {
        if tasks[i].runIf != "" && tasks[i].runIf != RUN_IF_SUCCESS && tasks[i].runIf != RUN_IF_FAILURE {
          assert tasks[i] in tasks;
          return false;
        }
      }
      return true;
    }

    /** All or nothing: either every task is stored, or neither the store nor its index has changed. */
    method CreateWorkflow(batch: seq<Task>, freshWorkflow: string, freshIds: seq<string>) returns (ok: bool)
      requires Valid() && |freshIds| == |batch| && |repo.storage.data| + |batch| < TWO_64
      modifies repo, repo.storage
      ensures Valid() && Ran(View(), ok, true) == Creation.CreateWorkflow(old(View()), batch, freshWorkflow, freshIds)
      ensures !ok ==> repo.metaIdx == old(repo.metaIdx)
    {
      hide IndexExact, WellKeyed, Validated, Storable, RunIfValid;
      if |batch| == 0 {
        return false;
      }
      var tasks := PrepareWorkflow(batch, freshWorkflow, freshIds);
      ok := DagValid(tasks);
      if !ok {
        return;
      }
      ok := RunIfsValid(tasks);
      if !ok {
        return;
      }
      ok := CreateAll(tasks);
    }

    method CreateJob(name: string, batch: seq<Task>, freshJob: string, freshIds: seq<string>) returns (ok: bool)
      requires Valid() && |freshIds| == |batch| && |repo.storage.data| + |batch| < TWO_64
      modifies repo, repo.storage, jobs
      ensures Valid() && Ran(View(), ok, true) == Creation.CreateJob(old(View()), name, batch, freshJob, freshIds)
      ensures !ok ==> repo.metaIdx == old(repo.metaIdx)
    {
      hide IndexExact, WellKeyed, Validated, Storable;
      if |batch| == 0 {
        return false;
      }
      var jobId, tasks := PrepareJob(batch, freshJob, freshIds);
      ok := DagValid(tasks);
      if !ok {
        return;
      }
      var stored := jobs.Create(jobId, name);
      if stored.Err? {
        return false;
      }
      ok := CreateAll(tasks);
      if !ok {
        var gone := jobs.Delete(jobId);
        assert jobs.data == old(jobs.data);
      }
    }
  }
}
