/** What one coordinator pass does, and when the recursion between passes and starts comes back. */
module Coordinator {
  import opened Tasks
  import opened TaskStore
  import opened Dag
  import opened World
  import opened Safety

  // ---------- Snapshots ----------

  /** What a pass still has to do, seen from the state it has reached. */
  ghost predicate Snapshot(w: World, ready: seq<Task>, finished: map<string, State>) {
    && WellKeyed(w.tasks)
    && UniqueIds(ready)
    && (forall i :: 0 <= i < |ready| ==>
          && ready[i].id in w.tasks
          && w.tasks[ready[i].id] == ready[i]
          && IsReady(ready[i], finished))
    && (forall x :: x in finished ==> x in w.tasks && w.tasks[x].state == finished[x] && finished[x].IsTerminal())
  }

  lemma PassSnapshot(w: World, workflowId: string)
    requires WellKeyed(w.tasks)
    ensures Snapshot(w, Ready(w.tasks, workflowId), Finished(w.tasks, workflowId))
    ensures forall t :: t in Ready(w.tasks, workflowId) <==>
              && t.id in w.tasks && w.tasks[t.id] == t && t.workflowId == workflowId
              && IsReady(t, Finished(w.tasks, workflowId))
  {
    var tasks, finished := OfWorkflow(w.tasks, workflowId), Finished(w.tasks, workflowId);
    var ready := Ready(w.tasks, workflowId);
    OfWorkflowMembers(w.tasks, workflowId);
    ReadyTasksDistinct(tasks, finished);
    forall t ensures t in ready <==> t in tasks && IsReady(t, finished) {
      ReadyTasksMembers(tasks, finished, t);
    }
    forall i | 0 <= i < |ready|
      ensures ready[i].id in w.tasks && w.tasks[ready[i].id] == ready[i] && IsReady(ready[i], finished)
    {
      assert ready[i] in ready;
    }
  }

  lemma {:induction false} ReadyTasksDistinct(tasks: seq<Task>, finished: map<string, State>)
    requires ById(tasks)
    ensures UniqueIds(ReadyTasks(tasks, finished))
  {
    if tasks != [] {
      var init, last := tasks[..|tasks| - 1], tasks[|tasks| - 1];
      ReadyTasksDistinct(init, finished);
      var f := ReadyTasks(init, finished);
      forall i | 0 <= i < |f| ensures f[i].id != last.id {
        ReadyTasksMembers(init, finished, f[i]);
      }
    }
  }

  /** A step rewrites one task at most, and nothing of it but state, proplet and error text. */
  ghost predicate Touches(w: World, w': World, id: string) {
    && w'.shuttingDown == w.shuttingDown
    && w'.proplets.Keys == w.proplets.Keys
    && w'.tasks.Keys == w.tasks.Keys
    && (forall x :: x in w.tasks && x != id ==> w'.tasks[x] == w.tasks[x])
    && (forall x :: x in w.pins && x != id <==> x in w'.pins && x != id)
  }

  lemma DispatchTouches(w: World, t: Task, c: Choice)
    requires t.id in w.tasks
    ensures Touches(w, Dispatch(w, t, c).w, t.id)
  {
  }

  lemma SnapshotAdvances(w: World, w': World, ready: seq<Task>, finished: map<string, State>)
    requires ready != [] && Snapshot(w, ready, finished) && Touches(w, w', ready[0].id)
    requires w'.tasks[ready[0].id].id == ready[0].id
    ensures Snapshot(w', ready[1..], finished)
  {
  }

  // ---------- When a pass comes back ----------

  /** The pass will try to start this task although one of its dependencies was interrupted. */
  predicate Trips(t: Task, finished: map<string, State>) {
    && !t.state.IsActive()
    && ShouldRun(t, finished)
    && exists d :: d in t.dependsOn && d in finished && finished[d] == Interrupted
  }

  lemma ReadyDepsMet(w: World, t: Task, finished: map<string, State>)
    requires IsReady(t, finished) && !(exists d :: d in t.dependsOn && d in finished && finished[d] == Interrupted)
    requires forall x :: x in finished ==> x in w.tasks && w.tasks[x].state == finished[x]
    ensures CheckDeps(w.tasks, t.dependsOn).Met?
  {
    CheckDepsMet(w.tasks, t.dependsOn);
  }

  /** A step on a task that does not trip comes back without a nested pass. */
  lemma PassStepReturns(w: World, ready: seq<Task>, finished: map<string, State>, o: Oracle, depth: nat)
    requires ready != [] && Snapshot(w, ready, finished) && (w.shuttingDown || !Trips(ready[0], finished))
    ensures var r := PassStep(w, ready[0], finished, o, depth);
            && r.returned
            && r == PassStep(w, ready[0], finished, o, 0)
            && Touches(w, r.w, ready[0].id)
            && Snapshot(r.w, ready[1..], finished)
  {
    hide Snapshot, Dispatch, Touches, IsReady;
    var t := ready[0];
    SnapshotHead(w, ready, finished);
    PassStepIs(w, t, finished, o, depth);
    PassStepTouches(w, t, finished, o);
    SnapshotAdvances(w, PassStep(w, t, finished, o, 0).w, ready, finished);
  }

  /** What such a step amounts to: nothing, a skip, or a dispatch. */
  lemma PassStepIs(w: World, t: Task, finished: map<string, State>, o: Oracle, depth: nat)
    requires t.id in w.tasks && w.tasks[t.id] == t && IsReady(t, finished)
    requires forall x :: x in finished ==> x in w.tasks && w.tasks[x].state == finished[x]
    requires w.shuttingDown || !Trips(t, finished)
    ensures PassStep(w, t, finished, o, depth) ==
            if t.state.IsActive() then Ran(w, true, true)
            else if !ShouldRun(t, finished) then Ran(PutTask(w, t.(state := Skipped)), true, true)
            else if w.shuttingDown then Ran(w, false, true)
            else Dispatch(w, t, o(t.id))
  {
    hide Dispatch, PutTask, ShouldRun;
    if !t.state.IsActive() && ShouldRun(t, finished) {
      assert PassStep(w, t, finished, o, depth) == StartTask(w, t.id, o, depth);
      if !w.shuttingDown {
        ReadyDepsMet(w, t, finished);
      }
    }
  }

  lemma DispatchReturns(w: World, t: Task, c: Choice)
    ensures Dispatch(w, t, c).returned
  {
  }

  lemma PassStepTouches(w: World, t: Task, finished: map<string, State>, o: Oracle)
    requires t.id in w.tasks && w.tasks[t.id] == t && WellKeyed(w.tasks) && IsReady(t, finished)
    requires forall x :: x in finished ==> x in w.tasks && w.tasks[x].state == finished[x]
    requires w.shuttingDown || !Trips(t, finished)
    ensures var r := PassStep(w, t, finished, o, 0);
            r.returned && Touches(w, r.w, t.id) && r.w.tasks[t.id].id == t.id
  {
    PassStepIs(w, t, finished, o, 0);
    hide PassStep, Dispatch, ShouldRun, IsReady, Trips, Touches, WellKeyed, PutTask;
    DispatchReturns(w, t, o(t.id));
    DispatchTouches(w, t, o(t.id));
    DispatchKeepsId(w, t, o(t.id));
    PutTouches(w, t, Skipped);
  }

  lemma PutTouches(w: World, t: Task, state: State)
    requires t.id in w.tasks
    ensures Touches(w, w, t.id)
    ensures var w' := PutTask(w, t.(state := state)); Touches(w, w', t.id) && w'.tasks[t.id].id == t.id
  {
  }

  lemma DispatchKeepsId(w: World, t: Task, c: Choice)
    requires t.id in w.tasks && w.tasks[t.id] == t
    ensures t.id in Dispatch(w, t, c).w.tasks && Dispatch(w, t, c).w.tasks[t.id].id == t.id
  {
  }

  ghost predicate Smooth(ready: seq<Task>, finished: map<string, State>) {
    forall i :: 0 <= i < |ready| ==> !Trips(ready[i], finished)
  }

  lemma {:induction false} PassOverReturns(w: World, ready: seq<Task>, finished: map<string, State>, o: Oracle,
                                           depth: nat)
    requires Snapshot(w, ready, finished) && (w.shuttingDown || Smooth(ready, finished))
    ensures PassOver(w, ready, finished, o, depth).returned
    ensures PassOver(w, ready, finished, o, depth) == PassOver(w, ready, finished, o, 0)
    decreases |ready|
  {
    hide Snapshot, Trips;
    if ready != [] {
      PassStepReturns(w, ready, finished, o, depth);
      PassOverReturns(PassStep(w, ready[0], finished, o, depth).w, ready[1..], finished, o, depth);
    }
  }

  /**
    * A workflow on which a pass never comes back: a pending run-on-failure task whose dependencies are all finished,
    * one of them failed and one of them interrupted.
    */
  ghost predicate StuckOn(w: World, workflowId: string, id: string) {
    && !w.shuttingDown
    && workflowId != ""
    && id in w.tasks
    && var t := w.tasks[id];
       && t.workflowId == workflowId
       && t.state.Pending?
       && t.runIf == RUN_IF_FAILURE
       && (forall d :: d in t.dependsOn ==>
             d in w.tasks && w.tasks[d].workflowId == workflowId && w.tasks[d].state.IsTerminal())
       && (exists d :: d in t.dependsOn && w.tasks[d].state.Failed?)
       && (exists d :: d in t.dependsOn && w.tasks[d].state.Interrupted?)
  }

  ghost predicate Stuck(w: World, workflowId: string) {
    exists id :: StuckOn(w, workflowId, id)
  }

  lemma StuckIsReady(w: World, workflowId: string, id: string)
    requires WellKeyed(w.tasks) && StuckOn(w, workflowId, id)
    ensures w.tasks[id] in Ready(w.tasks, workflowId) && Trips(w.tasks[id], Finished(w.tasks, workflowId))
  {
    PassSnapshot(w, workflowId);
  }

  lemma TripIsStuck(w: World, workflowId: string, t: Task)
    requires WellKeyed(w.tasks) && workflowId != "" && !w.shuttingDown
    requires t in Ready(w.tasks, workflowId) && Trips(t, Finished(w.tasks, workflowId))
    ensures StuckOn(w, workflowId, t.id)
  {
    PassSnapshot(w, workflowId);
  }

  lemma StuckStays(w: World, w': World, workflowId: string, id: string, touched: string)
    requires StuckOn(w, workflowId, id) && Touches(w, w', touched) && touched != id
    requires touched in w.tasks && !w.tasks[touched].state.IsTerminal()
    ensures StuckOn(w', workflowId, id)
  {
    var t := w.tasks[id];
    assert forall d :: d in t.dependsOn ==> w'.tasks[d] == w.tasks[d];
  }

  lemma {:induction false} CheckDepsPresent(tasks: map<string, Task>, deps: seq<string>)
    requires forall d :: d in deps ==> d in tasks
    ensures !CheckDeps(tasks, deps).MissingDep?
  {
    if deps != [] {
      CheckDepsPresent(tasks, deps[1..]);
    }
  }

  lemma SnapshotHead(w: World, ready: seq<Task>, finished: map<string, State>)
    requires ready != [] && Snapshot(w, ready, finished)
    ensures WellKeyed(w.tasks)
    ensures ready[0].id in w.tasks && w.tasks[ready[0].id] == ready[0] && IsReady(ready[0], finished)
    ensures forall x :: x in finished ==> x in w.tasks && w.tasks[x].state == finished[x]
  {
  }

  /** A pass over a stuck workflow never comes back, however deep the recursion may go. */
  lemma {:induction false} StuckPassDiverges(w: World, workflowId: string, id: string, o: Oracle, depth: nat)
    requires WellKeyed(w.tasks) && StuckOn(w, workflowId, id)
    ensures !Pass(w, workflowId, o, depth).returned
    decreases depth, 1, 0
  {
    PassSnapshot(w, workflowId);
    StuckIsReady(w, workflowId, id);
    var ready := Ready(w.tasks, workflowId);
    assert forall i :: 0 <= i < |ready| ==> ready[i] in ready;
    StuckOverDiverges(w, ready, Finished(w.tasks, workflowId), workflowId, id, o, depth);
  }

  lemma {:induction false} StuckOverDiverges(w: World, ready: seq<Task>, finished: map<string, State>,
                                             workflowId: string, id: string, o: Oracle, depth: nat)
    requires Snapshot(w, ready, finished) && StuckOn(w, workflowId, id)
    requires w.tasks[id] in ready && Trips(w.tasks[id], finished)
    requires forall i :: 0 <= i < |ready| ==> ready[i].workflowId == workflowId
    ensures !PassOver(w, ready, finished, o, depth).returned
    decreases depth, 0, |ready|
  {
    hide Snapshot, StuckOn, Trips, PassStep, UniqueIds, IsReady;
    SnapshotHead(w, ready, finished);
    StuckFacts(w, workflowId, id);
    var t := ready[0];
    if Trips(t, finished) {
      if depth > 0 {
        StuckPassDiverges(w, workflowId, id, o, depth - 1);
      }
      TripDiverges(w, t, finished, o, depth);
    } else {
      var r := PassStep(w, t, finished, o, depth);
      PassStepReturns(w, ready, finished, o, depth);
      NotTerminal(t, finished);
      StuckStays(w, r.w, workflowId, id, t.id);
      assert w.tasks[id] in ready[1..];
      StuckOverDiverges(r.w, ready[1..], finished, workflowId, id, o, depth);
    }
  }

  lemma NotTerminal(t: Task, finished: map<string, State>)
    requires IsReady(t, finished)
    ensures !t.state.IsTerminal()
  {
  }

  lemma StuckFacts(w: World, workflowId: string, id: string)
    requires StuckOn(w, workflowId, id)
    ensures !w.shuttingDown && workflowId != "" && id in w.tasks
  {
  }

  /** A task that trips hands over to a nested pass, which has to come back first. */
  lemma TripDiverges(w: World, t: Task, finished: map<string, State>, o: Oracle, depth: nat)
    requires t.id in w.tasks && w.tasks[t.id] == t && IsReady(t, finished) && Trips(t, finished)
    requires forall x :: x in finished ==> x in w.tasks && w.tasks[x].state == finished[x]
    requires !w.shuttingDown && t.workflowId != ""
    requires depth > 0 ==> !Pass(w, t.workflowId, o, depth - 1).returned
    ensures !PassStep(w, t, finished, o, depth).returned
  {
    ReadyTripsUnsettled(w, t, finished);
    assert PassStep(w, t, finished, o, depth) == StartTask(w, t.id, o, depth);
  }

  lemma ReadyTripsUnsettled(w: World, t: Task, finished: map<string, State>)
    requires IsReady(t, finished) && Trips(t, finished)
    requires forall x :: x in finished ==> x in w.tasks && w.tasks[x].state == finished[x]
    ensures CheckDeps(w.tasks, t.dependsOn).Unsettled?
  {
    CheckDepsPresent(w.tasks, t.dependsOn);
    CheckDepsMet(w.tasks, t.dependsOn);
  }

  /** In a workflow that is not stuck no ready task trips, or nothing is started any more. */
  lemma FreeIsSmooth(w: World, workflowId: string)
    requires WellKeyed(w.tasks) && workflowId != "" && !Stuck(w, workflowId)
    ensures w.shuttingDown || Smooth(Ready(w.tasks, workflowId), Finished(w.tasks, workflowId))
  {
    hide StuckOn, Trips, Ready, Finished;
    var ready, finished := Ready(w.tasks, workflowId), Finished(w.tasks, workflowId);
    if !w.shuttingDown {
      forall i | 0 <= i < |ready| ensures !Trips(ready[i], finished) {
        if Trips(ready[i], finished) {
          TripIsStuck(w, workflowId, ready[i]);
        }
      }
    }
  }

  lemma FreePassReturns(w: World, workflowId: string, o: Oracle, depth: nat)
    requires WellKeyed(w.tasks) && workflowId != "" && !Stuck(w, workflowId)
    ensures Pass(w, workflowId, o, depth).returned
    ensures Pass(w, workflowId, o, depth) == Pass(w, workflowId, o, 0)
  {
    hide Stuck, Snapshot, Smooth, Ready, Finished;
    PassSnapshot(w, workflowId);
    FreeIsSmooth(w, workflowId);
    PassOverReturns(w, Ready(w.tasks, workflowId), Finished(w.tasks, workflowId), o, depth);
  }

  /** A pass comes back if and only if its workflow is not stuck, and then without any nested pass. */
  lemma PassTerminates(w: World, workflowId: string, o: Oracle)
    requires WellKeyed(w.tasks) && workflowId != ""
    ensures (exists depth: nat :: Pass(w, workflowId, o, depth).returned) <==> !Stuck(w, workflowId)
    ensures !Stuck(w, workflowId) ==> Pass(w, workflowId, o, 0).returned
  {
    hide StuckOn, Pass;
    if id :| StuckOn(w, workflowId, id) {
      forall depth: nat ensures !Pass(w, workflowId, o, depth).returned {
        StuckPassDiverges(w, workflowId, id, o, depth);
      }
    } else {
      FreePassReturns(w, workflowId, o, 0);
    }
  }

  /** The start hands over to a pass over a stuck workflow. */
  ghost predicate Spins(w: World, id: string) {
    && !w.shuttingDown && id in w.tasks
    && CheckDeps(w.tasks, w.tasks[id].dependsOn).Unsettled?
    && Stuck(w, w.tasks[id].workflowId)
  }

  /** A start comes back unless it runs a pass over a stuck workflow; one nested pass is always enough. */
  lemma StartTerminates(w: World, id: string, o: Oracle)
    requires WellKeyed(w.tasks)
    ensures (exists depth: nat :: StartTask(w, id, o, depth).returned) <==> !Spins(w, id)
    ensures !Spins(w, id) ==> StartTask(w, id, o, 1).returned
  {
    hide StartTask, Spins;
    if Spins(w, id) {
      forall depth: nat ensures !StartTask(w, id, o, depth).returned {
        SpinDiverges(w, id, o, depth);
      }
    } else {
      StartReturns(w, id, o);
    }
  }

  lemma SpinDiverges(w: World, id: string, o: Oracle, depth: nat)
    requires WellKeyed(w.tasks) && Spins(w, id)
    ensures !StartTask(w, id, o, depth).returned
  {
    hide Stuck, Pass;
    var workflowId := w.tasks[id].workflowId;
    NotStuckWithoutWorkflow(w);
    PassTerminates(w, workflowId, o);
    if depth > 0 {
      assert StartTask(w, id, o, depth).returned == Pass(w, workflowId, o, depth - 1).returned;
    }
  }

  lemma StartReturns(w: World, id: string, o: Oracle)
    requires WellKeyed(w.tasks) && !Spins(w, id)
    ensures StartTask(w, id, o, 1).returned
  {
    hide Stuck, Pass, Dispatch;
    if id in w.tasks {
      DispatchReturns(w, w.tasks[id], o(id));
      if w.tasks[id].workflowId != "" {
        PassTerminates(w, w.tasks[id].workflowId, o);
      }
    }
  }

  lemma NotStuckWithoutWorkflow(w: World)
    ensures !Stuck(w, "")
  {
  }

  /** In particular a workflow without an interrupted task is never stuck. */
  lemma NoInterruptedNotStuck(w: World, workflowId: string)
    requires forall id :: id in w.tasks && w.tasks[id].workflowId == workflowId ==> !w.tasks[id].state.Interrupted?
    ensures !Stuck(w, workflowId)
  {
  }

  lemma RecoveredTasks(w: World)
    requires WellKeyed(w.tasks)
    ensures var w' := RecoverInterrupted(w);
            && WellKeyed(w'.tasks) && w'.tasks.Keys == w.tasks.Keys
            && forall id :: id in w'.tasks ==> !w'.tasks[id].state.Interrupted?
  {
  }

  /** After recovery no pass and no start can fail to come back, whatever state the shutdown left. */
  lemma RecoveryUnsticks(w: World, workflowId: string, id: string, o: Oracle)
    requires WellKeyed(w.tasks) && workflowId != ""
    ensures Pass(RecoverInterrupted(w), workflowId, o, 0).returned
    ensures StartTask(RecoverInterrupted(w), id, o, 1).returned
  {
    hide Pass, StartTask, RecoverInterrupted, Stuck;
    var w' := RecoverInterrupted(w);
    RecoveredTasks(w);
    NoInterruptedNotStuck(w', workflowId);
    PassTerminates(w', workflowId, o);
    if id in w'.tasks {
      NoInterruptedNotStuck(w', w'.tasks[id].workflowId);
    }
    StartTerminates(w', id, o);
  }

  // ---------- What a pass does ----------

  /** The fate of one ready task in a pass. */
  ghost predicate Fate(t: Task, t': Task, finished: map<string, State>) {
    if t.state.IsActive() then t' == t
    else if !ShouldRun(t, finished) then t' == t.(state := Skipped)
    else
      || t' == t
      || (t'.state in {Running, Failed} && t' == t.(state := t'.state, propletId := t'.propletId, error := t'.error))
  }

  /** A pass over `ready` has met each of them with its fate and left everything else alone. */
  ghost predicate PassDone(w: World, w': World, ready: seq<Task>, finished: map<string, State>) {
    && w'.shuttingDown == w.shuttingDown
    && w'.tasks.Keys == w.tasks.Keys
    && (forall i :: 0 <= i < |ready| ==> ready[i].id in w'.tasks && Fate(ready[i], w'.tasks[ready[i].id], finished))
    && (forall x :: x in w.tasks && (forall i :: 0 <= i < |ready| ==> ready[i].id != x) ==> w'.tasks[x] == w.tasks[x])
  }

  lemma {:induction false} PassOverEffect(w: World, ready: seq<Task>, finished: map<string, State>, o: Oracle)
    requires Snapshot(w, ready, finished) && (w.shuttingDown || Smooth(ready, finished))
    ensures PassDone(w, PassOver(w, ready, finished, o, 0).w, ready, finished)
    decreases |ready|
  {
    if ready != [] {
      hide Snapshot, Trips, PassDone, Fate, PassStep, ShouldRun;
      var w1 := PassStep(w, ready[0], finished, o, 0).w;
      PassStepReturns(w, ready, finished, o, 0);
      PassStepFate(w, ready, finished, o);
      PassOverEffect(w1, ready[1..], finished, o);
      PassDoneCons(w, w1, PassOver(w1, ready[1..], finished, o, 0).w, ready, finished);
    }
  }

  lemma PassDoneCons(w: World, w1: World, w': World, ready: seq<Task>, finished: map<string, State>)
    requires ready != [] && Snapshot(w, ready, finished) && Touches(w, w1, ready[0].id)
    requires ready[0].id in w1.tasks && Fate(ready[0], w1.tasks[ready[0].id], finished)
    requires PassDone(w1, w', ready[1..], finished)
    ensures PassDone(w, w', ready, finished)
  {
    var t, rest := ready[0], ready[1..];
    assert forall i :: 0 <= i < |rest| ==> rest[i].id != t.id;
    hide Fate, Snapshot;
    assert w'.tasks[t.id] == w1.tasks[t.id];
    forall x | x in w.tasks && (forall i :: 0 <= i < |ready| ==> ready[i].id != x) ensures w'.tasks[x] == w.tasks[x] {
      assert ready[0].id != x;
      assert forall i :: 0 <= i < |rest| ==> rest[i].id == ready[i + 1].id;
    }
    forall i | 0 <= i < |ready| ensures ready[i].id in w'.tasks && Fate(ready[i], w'.tasks[ready[i].id], finished) {
      assert i > 0 ==> ready[i] == rest[i - 1];
    }
  }

  lemma PassEffectAll(w: World, workflowId: string, o: Oracle)
    requires WellKeyed(w.tasks) && workflowId != "" && !Stuck(w, workflowId)
    ensures PassDone(w, Pass(w, workflowId, o, 0).w, Ready(w.tasks, workflowId), Finished(w.tasks, workflowId))
  {
    hide Stuck, PassDone, Snapshot, Smooth, Ready, Finished;
    PassSnapshot(w, workflowId);
    FreeIsSmooth(w, workflowId);
    PassOverEffect(w, Ready(w.tasks, workflowId), Finished(w.tasks, workflowId), o);
  }

  lemma PassStepFate(w: World, ready: seq<Task>, finished: map<string, State>, o: Oracle)
    requires ready != [] && Snapshot(w, ready, finished) && (w.shuttingDown || !Trips(ready[0], finished))
    ensures var w' := PassStep(w, ready[0], finished, o, 0).w;
            ready[0].id in w'.tasks && Fate(ready[0], w'.tasks[ready[0].id], finished)
  {
    var t := ready[0];
    SnapshotHead(w, ready, finished);
    PassStepIs(w, t, finished, o, 0);
    hide PassStep, Dispatch, Snapshot, IsReady, ShouldRun, Trips;
    DispatchFate(w, t, o(t.id));
  }

  lemma DispatchFate(w: World, t: Task, c: Choice)
    requires t.id in w.tasks && w.tasks[t.id] == t
    ensures t.id in Dispatch(w, t, c).w.tasks
    ensures var t' := Dispatch(w, t, c).w.tasks[t.id];
            || t' == t
            || (t'.state in {Running, Failed}
                && t' == t.(state := t'.state, propletId := t'.propletId, error := t'.error))
  {
  }

  /**
    * A pass changes only pending tasks whose dependencies were all finished when it began. Of those it skips exactly
    * the ones whose run condition fails over the finished dependencies, and starts only ones whose condition holds.
    */
  lemma PassEffect(w: World, workflowId: string, o: Oracle, id: string)
    requires WellKeyed(w.tasks) && workflowId != "" && !Stuck(w, workflowId) && id in w.tasks
    ensures var t, w', finished := w.tasks[id], Pass(w, workflowId, o, 0).w, Finished(w.tasks, workflowId);
            && id in w'.tasks
            && (w'.tasks[id] != t ==>
                  && t.workflowId == workflowId && t.state.Pending?
                  && (forall d :: d in t.dependsOn ==>
                        d in w.tasks && w.tasks[d].workflowId == workflowId && w.tasks[d].state.IsTerminal())
                  && (w'.tasks[id].state.Skipped? <==> !ShouldRun(t, finished))
                  && (w'.tasks[id].state in {Running, Failed} <==> ShouldRun(t, finished)))
            && (&& t.workflowId == workflowId && t.state.Pending?
                && AllFinished(w, workflowId, t) && !ShouldRun(t, finished) ==>
                  w'.tasks[id] == t.(state := Skipped))
  {
    hide Stuck, Pass, ShouldRun, Snapshot, PassDone, Ready, Finished, IsReady, Fate;
    var ready, finished := Ready(w.tasks, workflowId), Finished(w.tasks, workflowId);
    var t, w' := w.tasks[id], Pass(w, workflowId, o, 0).w;
    PassSnapshot(w, workflowId);
    PassEffectAll(w, workflowId, o);
    ReadyMeans(w, workflowId, t);
    if t in ready {
      PassMet(w, w', ready, finished, t);
      FateMeans(t, w'.tasks[id], finished);
    } else {
      PassLeft(w, w', ready, finished, id);
    }
  }

  lemma ReadyMeans(w: World, workflowId: string, t: Task)
    ensures IsReady(t, Finished(w.tasks, workflowId)) ==> !t.state.IsTerminal() && AllFinished(w, workflowId, t)
    ensures t.state.Pending? && AllFinished(w, workflowId, t) ==> IsReady(t, Finished(w.tasks, workflowId))
  {
  }

  lemma PassMet(w: World, w': World, ready: seq<Task>, finished: map<string, State>, t: Task)
    requires PassDone(w, w', ready, finished) && t in ready
    ensures t.id in w'.tasks && Fate(t, w'.tasks[t.id], finished)
  {
    hide Fate;
    var i :| 0 <= i < |ready| && ready[i] == t;
  }

  lemma PassLeft(w: World, w': World, ready: seq<Task>, finished: map<string, State>, id: string)
    requires PassDone(w, w', ready, finished) && id in w.tasks && w.tasks[id] !in ready
    requires forall t :: t in ready ==> t.id in w.tasks && w.tasks[t.id] == t
    ensures id in w'.tasks && w'.tasks[id] == w.tasks[id]
  {
    hide Fate;
    forall i | 0 <= i < |ready| ensures ready[i].id != id {
      assert ready[i] in ready;
    }
  }

  lemma FateMeans(t: Task, t': Task, finished: map<string, State>)
    requires Fate(t, t', finished) && !t.state.IsTerminal()
    ensures t' != t ==>
              && t.state.Pending?
              && (t'.state.Skipped? <==> !ShouldRun(t, finished))
              && (t'.state in {Running, Failed} <==> ShouldRun(t, finished))
    ensures t.state.Pending? && !ShouldRun(t, finished) ==> t' == t.(state := Skipped)
  {
    hide ShouldRun;
  }

  ghost predicate AllFinished(w: World, workflowId: string, t: Task) {
    forall d :: d in t.dependsOn ==>
      d in w.tasks && w.tasks[d].workflowId == workflowId && w.tasks[d].state.IsTerminal()
  }

  /** A task that was finished when the pass began is the same afterwards. */
  lemma PassKeepsFinished(w: World, workflowId: string, o: Oracle, id: string)
    requires WellKeyed(w.tasks) && workflowId != "" && !Stuck(w, workflowId)
    requires id in w.tasks && w.tasks[id].state.IsTerminal()
    ensures var w' := Pass(w, workflowId, o, 0).w; id in w'.tasks && w'.tasks[id] == w.tasks[id]
  {
    hide Stuck, Pass;
    PassEffect(w, workflowId, o, id);
  }
}
