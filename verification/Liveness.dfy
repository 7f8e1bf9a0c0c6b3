/** Workflows finish: progress of passes and results, and a bound on their number. */
module Liveness {
  import opened Options
  import opened Tasks
  import opened Graph
  import opened TaskStore
  import opened Dag
  import opened World
  import opened Creation
  import opened Safety
  import opened Coordinator
  import opened Completion

  ghost function Members(w: World, wf: string): set<string> {
    set id | id in w.tasks && w.tasks[id].workflowId == wf
  }

  ghost function PendingIn(w: World, wf: string): set<string> {
    set id | id in w.tasks && w.tasks[id].workflowId == wf && w.tasks[id].state.Pending?
  }

  ghost function ActiveIn(w: World, wf: string): set<string> {
    set id | id in w.tasks && w.tasks[id].workflowId == wf && w.tasks[id].state.IsActive()
  }

  ghost predicate AllDone(w: World, wf: string) {
    forall id :: id in Members(w, wf) ==> w.tasks[id].state.IsTerminal()
  }

  ghost function Unfinished(w: World, wf: string): nat {
    |PendingIn(w, wf)| + |ActiveIn(w, wf)|
  }

  /** Every unfinished task counts once, and the pass that is due when none of them is active counts too. */
  ghost function Moves(w: World, wf: string): nat {
    Unfinished(w, wf) + if ActiveIn(w, wf) == {} && !AllDone(w, wf) then 1 else 0
  }

  /**
    * A stored workflow that depends on itself only, has no interrupted task and no pin on a pending one. Tasks may
    * belong to jobs, whose tasks may be anywhere; then nothing in the store may be interrupted.
    */
  ghost predicate Runnable(w: World, wf: string) {
    && wf != "" && !w.shuttingDown
    && WellKeyed(w.tasks)
    && Acyclic(StoreGraph(w.tasks))
    && (forall id :: id in Members(w, wf) ==>
          var t := w.tasks[id];
          && !t.state.Interrupted?
          && (t.jobId != "" ==> NoInterrupted(w))
          && (t.state.Pending? ==> id !in w.pins)
          && (forall d :: d in t.dependsOn ==> d in Members(w, wf)))
  }

  // ---------- Some task is always ready ----------

  /** If a task is unfinished and none is running or scheduled, some pending task is ready. */
  lemma SomeTaskReady(w: World, wf: string) returns (t: Task)
    requires WellKeyed(w.tasks) && Acyclic(StoreGraph(w.tasks))
    requires forall id, d :: id in Members(w, wf) && d in w.tasks[id].dependsOn ==> d in Members(w, wf)
    requires ActiveIn(w, wf) == {} && !AllDone(w, wf)
    ensures t in Ready(w.tasks, wf) && t.state.Pending?
  {
    var g, pending := StoreGraph(w.tasks), PendingIn(w, wf);
    var id :| id in Members(w, wf) && !w.tasks[id].state.IsTerminal();
    assert w.tasks[id].state.IsActive() ==> id in ActiveIn(w, wf);
    assert id in pending;
    var x := AcyclicHasSource(g, pending);
    t := w.tasks[x];
    forall d | d in t.dependsOn ensures d in Finished(w.tasks, wf) {
      assert d in Members(w, wf) && Edge(g, x, d);
      assert d in pending ==> HasDepIn(g, pending, x);
      assert w.tasks[d].state.IsActive() ==> d in ActiveIn(w, wf);
    }
    PassSnapshot(w, wf);
  }

  // ---------- Passes in which every start succeeds ----------

  /** The environment lets every pending task of the workflow start. */
  ghost predicate Willing(w: World, wf: string, o: Oracle) {
    forall id :: id in PendingIn(w, wf) ==> Dispatch(w, w.tasks[id], o(id)).ok
  }

  ghost predicate WillingOn(w: World, ready: seq<Task>, o: Oracle) {
    forall i :: 0 <= i < |ready| && !ready[i].state.IsActive() ==> Dispatch(w, ready[i], o(ready[i].id)).ok
  }

  lemma WillingStays(w: World, w1: World, ready: seq<Task>, o: Oracle)
    requires ready != [] && WillingOn(w, ready, o) && Touches(w, w1, ready[0].id) && UniqueIds(ready)
    ensures WillingOn(w1, ready[1..], o)
  {
    forall i | 0 <= i < |ready[1..]| && !ready[1..][i].state.IsActive()
      ensures Dispatch(w1, ready[1..][i], o(ready[1..][i].id)).ok
    {
      var t := ready[i + 1];
      assert Dispatch(w, t, o(t.id)).ok && t.id != ready[0].id;
      assert t.id in w.pins <==> t.id in w1.pins;
    }
  }

  /** A ready task that was pending has been started or skipped. */
  ghost predicate MovedOne(t: Task, w': World) {
    && t.id in w'.tasks
    && SameButState(t, w'.tasks[t.id])
    && (w'.tasks[t.id].propletId == t.propletId || w'.tasks[t.id].propletId in w'.proplets)
    && if t.state.IsActive() then w'.tasks[t.id] == t else w'.tasks[t.id].state in {Running, Skipped}
  }

  ghost predicate Off(x: string, ready: seq<Task>) {
    forall i :: 0 <= i < |ready| ==> ready[i].id != x
  }

  /** Every ready pending task was started or skipped, and nothing else changed. */
  ghost predicate AllMoved(w: World, w': World, ready: seq<Task>) {
    && w'.shuttingDown == w.shuttingDown
    && w'.tasks.Keys == w.tasks.Keys
    && w'.proplets.Keys == w.proplets.Keys
    && (forall i :: 0 <= i < |ready| ==> MovedOne(ready[i], w'))
    && (forall x :: x in w.tasks && Off(x, ready) ==> w'.tasks[x] == w.tasks[x])
    && (forall x :: Off(x, ready) ==> (x in w'.pins <==> x in w.pins))
  }

  lemma WillingStep(w: World, ready: seq<Task>, finished: map<string, State>, o: Oracle)
    requires ready != [] && Snapshot(w, ready, finished) && !w.shuttingDown && !Trips(ready[0], finished)
    requires WillingOn(w, ready, o)
    ensures MovedOne(ready[0], PassStep(w, ready[0], finished, o, 0).w)
  {
    var t := ready[0];
    SnapshotHead(w, ready, finished);
    if !t.state.IsActive() && ShouldRun(t, finished) {
      ReadyDepsMet(w, t, finished);
      assert PassStep(w, t, finished, o, 0) == StartTask(w, t.id, o, 0);
      assert Dispatch(w, t, o(t.id)).ok;
    }
  }

  lemma {:induction false} WillingPassOver(w: World, ready: seq<Task>, finished: map<string, State>, o: Oracle)
    requires Snapshot(w, ready, finished) && !w.shuttingDown && Smooth(ready, finished) && WillingOn(w, ready, o)
    ensures AllMoved(w, PassOver(w, ready, finished, o, 0).w, ready)
    decreases |ready|
  {
    if ready != [] {
      hide Trips, PassStep, Dispatch, AllMoved, IsReady, ShouldRun;
      var w1 := PassStep(w, ready[0], finished, o, 0).w;
      PassStepReturns(w, ready, finished, o, 0);
      WillingStep(w, ready, finished, o);
      WillingStays(w, w1, ready, o);
      WillingPassOver(w1, ready[1..], finished, o);
      AllMovedCons(w, w1, PassOver(w1, ready[1..], finished, o, 0).w, ready, finished);
    }
  }

  lemma MovedStays(t: Task, w1: World, w': World)
    requires MovedOne(t, w1) && t.id in w'.tasks && w'.tasks[t.id] == w1.tasks[t.id]
    requires w'.proplets.Keys == w1.proplets.Keys
    ensures MovedOne(t, w')
  {
  }

  lemma HeadOff(ready: seq<Task>)
    requires ready != [] && UniqueIds(ready)
    ensures Off(ready[0].id, ready[1..])
    ensures forall x :: Off(x, ready) ==> x != ready[0].id && Off(x, ready[1..])
  {
  }

  lemma AllMovedCons(w: World, w1: World, w': World, ready: seq<Task>, finished: map<string, State>)
    requires ready != [] && Snapshot(w, ready, finished) && Touches(w, w1, ready[0].id) && MovedOne(ready[0], w1)
    requires AllMoved(w1, w', ready[1..])
    ensures AllMoved(w, w', ready)
  {
    var t, rest := ready[0], ready[1..];
    HeadOff(ready);
    assert t.id in w1.tasks;
    hide Snapshot, MovedOne, Off;
    assert w'.tasks[t.id] == w1.tasks[t.id];
    MovedStays(t, w1, w');
    forall i | 0 <= i < |ready|
      ensures MovedOne(ready[i], w')
    {
      if i > 0 {
        assert ready[i] == rest[i - 1];
      }
    }
  }

  lemma WillingPass(w: World, wf: string, o: Oracle)
    requires Runnable(w, wf) && Willing(w, wf, o)
    ensures AllMoved(w, Pass(w, wf, o, 0).w, Ready(w.tasks, wf))
  {
    var ready, finished := Ready(w.tasks, wf), Finished(w.tasks, wf);
    PassSnapshot(w, wf);
    assert Smooth(ready, finished) by {
      forall i | 0 <= i < |ready| ensures !Trips(ready[i], finished) {
        assert forall d :: d in finished ==> d in Members(w, wf);
      }
    }
    assert WillingOn(w, ready, o) by {
      forall i | 0 <= i < |ready| && !ready[i].state.IsActive() ensures Dispatch(w, ready[i], o(ready[i].id)).ok {
        assert ready[i] in ready;
        assert ready[i].id in PendingIn(w, wf);
      }
    }
    WillingPassOver(w, ready, finished, o);
  }

  // ---------- What a pass moves ----------

  ghost function ReadyIds(w: World, wf: string): set<string> {
    set t | t in Ready(w.tasks, wf) :: t.id
  }

  /** What a willing pass makes of one task. */
  lemma MovedTask(w: World, w': World, wf: string, id: string)
    requires WellKeyed(w.tasks) && AllMoved(w, w', Ready(w.tasks, wf)) && id in w.tasks
    ensures id in w'.tasks && SameButState(w.tasks[id], w'.tasks[id])
    ensures w'.tasks[id].propletId == w.tasks[id].propletId || w'.tasks[id].propletId in w'.proplets
    ensures id in ReadyIds(w, wf) ==> w.tasks[id].workflowId == wf && !w.tasks[id].state.IsTerminal()
    ensures id in ReadyIds(w, wf) && w.tasks[id].state.Pending? ==> w'.tasks[id].state in {Running, Skipped}
    ensures id in ReadyIds(w, wf) && !w.tasks[id].state.Pending? ==> w'.tasks[id] == w.tasks[id]
    ensures id !in ReadyIds(w, wf) ==> w'.tasks[id] == w.tasks[id] && (id in w'.pins <==> id in w.pins)
  {
    hide AllMoved, IsReady, Ready, SameButState;
    var ready := Ready(w.tasks, wf);
    PassSnapshot(w, wf);
    if i :| 0 <= i < |ready| && ready[i].id == id {
      assert ready[i] in ready;
      NotTerminal(ready[i], Finished(w.tasks, wf));
      MovedReady(w, w', ready, i);
    } else {
      forall t | t in ready ensures t.id != id {
        var i :| 0 <= i < |ready| && ready[i] == t;
      }
      MovedNot(w, w', ready, id);
    }
  }

  lemma MovedReady(w: World, w': World, ready: seq<Task>, i: nat)
    requires AllMoved(w, w', ready) && i < |ready|
    ensures MovedOne(ready[i], w')
  {
  }

  lemma MovedNot(w: World, w': World, ready: seq<Task>, id: string)
    requires AllMoved(w, w', ready) && id in w.tasks && forall i :: 0 <= i < |ready| ==> ready[i].id != id
    ensures id in w'.tasks && w'.tasks[id] == w.tasks[id] && SameButState(w.tasks[id], w'.tasks[id])
    ensures id in w'.pins <==> id in w.pins
  {
    assert Off(id, ready);
  }

  lemma MovedMembership(w: World, w': World, wf: string, id: string)
    requires WellKeyed(w.tasks) && AllMoved(w, w', Ready(w.tasks, wf)) && id in w.tasks
    ensures id in Members(w', wf) <==> id in Members(w, wf)
    ensures id in PendingIn(w', wf) <==> id in PendingIn(w, wf) && id !in ReadyIds(w, wf)
    ensures id in ActiveIn(w', wf) ==> id in ActiveIn(w, wf) || (id in PendingIn(w, wf) && id in ReadyIds(w, wf))
  {
    hide AllMoved, ReadyIds, WellKeyed;
    MovedTask(w, w', wf, id);
  }

  lemma MovedSets(w: World, w': World, wf: string)
    requires WellKeyed(w.tasks) && AllMoved(w, w', Ready(w.tasks, wf))
    ensures Members(w', wf) == Members(w, wf)
    ensures PendingIn(w', wf) == PendingIn(w, wf) - ReadyIds(w, wf)
    ensures ActiveIn(w', wf) <= ActiveIn(w, wf) + (PendingIn(w, wf) * ReadyIds(w, wf))
  {
    assert w'.tasks.Keys == w.tasks.Keys;
    SetsWithin(w, wf);
    SetsWithin(w', wf);
    hide AllMoved, ReadyIds, WellKeyed, Members, PendingIn, ActiveIn;
    forall id | id in w.tasks
      ensures id in Members(w', wf) <==> id in Members(w, wf)
      ensures id in PendingIn(w', wf) <==> id in PendingIn(w, wf) && id !in ReadyIds(w, wf)
      ensures id in ActiveIn(w', wf) ==> id in ActiveIn(w, wf) || (id in PendingIn(w, wf) && id in ReadyIds(w, wf))
    {
      MovedMembership(w, w', wf, id);
    }
    FromMembership(w.tasks.Keys, Members(w, wf), Members(w', wf), PendingIn(w, wf), PendingIn(w', wf),
                   ActiveIn(w, wf), ActiveIn(w', wf), ReadyIds(w, wf));
  }

  lemma FromMembership(keys: set<string>, m: set<string>, m': set<string>, p: set<string>, p': set<string>,
                       a: set<string>, a': set<string>, r: set<string>)
    requires m <= keys && m' <= keys && p <= keys && p' <= keys && a' <= keys
    requires forall x :: x in keys ==> (x in m' <==> x in m) && (x in p' <==> x in p && x !in r)
    requires forall x :: x in keys && x in a' ==> x in a || (x in p && x in r)
    ensures m' == m && p' == p - r && a' <= a + (p * r)
  {
  }

  lemma SetsWithin(w: World, wf: string)
    ensures Members(w, wf) <= w.tasks.Keys && PendingIn(w, wf) <= w.tasks.Keys && ActiveIn(w, wf) <= w.tasks.Keys
  {
  }

  /** Tasks that only change their state keep the dependency graph. */
  lemma SameGraph(w: World, w': World)
    requires WellKeyed(w.tasks) && w'.tasks.Keys == w.tasks.Keys
    requires forall id :: id in w.tasks ==> SameButState(w.tasks[id], w'.tasks[id])
    ensures WellKeyed(w'.tasks) && StoreGraph(w'.tasks) == StoreGraph(w.tasks)
  {
  }

  lemma PassKeepsGraph(w: World, w': World, wf: string)
    requires WellKeyed(w.tasks) && AllMoved(w, w', Ready(w.tasks, wf))
    ensures w'.tasks.Keys == w.tasks.Keys && w'.shuttingDown == w.shuttingDown
    ensures WellKeyed(w'.tasks) && StoreGraph(w'.tasks) == StoreGraph(w.tasks)
    ensures forall id :: id in w.tasks ==> SameButState(w.tasks[id], w'.tasks[id])
  {
    assert w'.tasks.Keys == w.tasks.Keys && w'.shuttingDown == w.shuttingDown;
    hide AllMoved, ReadyIds, StoreGraph, SameButState;
    forall id | id in w.tasks ensures SameButState(w.tasks[id], w'.tasks[id]) {
      MovedTask(w, w', wf, id);
    }
    SameGraph(w, w');
  }

  lemma PassKeepsCalm(w: World, w': World, wf: string)
    requires WellKeyed(w.tasks) && AllMoved(w, w', Ready(w.tasks, wf)) && NoInterrupted(w)
    ensures NoInterrupted(w')
  {
    assert w'.tasks.Keys == w.tasks.Keys;
    hide AllMoved, ReadyIds, WellKeyed;
    forall id | id in w'.tasks ensures !w'.tasks[id].state.Interrupted? {
      MovedTask(w, w', wf, id);
    }
  }

  lemma PassKeepsRunnable(w: World, w': World, wf: string)
    requires Runnable(w, wf) && AllMoved(w, w', Ready(w.tasks, wf))
    ensures Runnable(w', wf) && Members(w', wf) == Members(w, wf)
  {
    hide AllMoved, ReadyIds, Acyclic, StoreGraph, WellKeyed, NoInterrupted;
    PassKeepsGraph(w, w', wf);
    MovedSets(w, w', wf);
    if NoInterrupted(w) {
      PassKeepsCalm(w, w', wf);
    }
    forall id | id in Members(w, wf)
      ensures !w'.tasks[id].state.Interrupted? && (w'.tasks[id].state.Pending? ==> id !in w'.pins)
    {
      MovedTask(w, w', wf, id);
    }
  }

  // ---------- What precedes the pass of a result ----------

  /** The same task, or a pending one that was started or failed at its publish. */
  predicate EasedTask(t: Task, t': Task, proplets: set<string>) {
    || t' == t
    || (t.state.Pending? && t'.state in {Running, Failed} && SameButState(t, t')
        && (t'.propletId == t.propletId || t'.propletId in proplets))
  }

  /** Some pending tasks were started, some pins were taken away from others. */
  ghost predicate Eased(w: World, w': World) {
    && w'.shuttingDown == w.shuttingDown
    && w'.tasks.Keys == w.tasks.Keys
    && w'.proplets.Keys == w.proplets.Keys
    && (forall x :: x in w.tasks ==> EasedTask(w.tasks[x], w'.tasks[x], w.proplets.Keys))
    && (forall x :: x in w'.tasks && w'.tasks[x].state.Pending? && x in w'.pins ==> x in w.pins)
  }

  lemma EasedNothing(w: World)
    ensures Eased(w, w)
  {
  }

  lemma EasedTransitive(w: World, w1: World, w2: World)
    requires Eased(w, w1) && Eased(w1, w2)
    ensures Eased(w, w2)
  {
    forall x | x in w.tasks
      ensures EasedTask(w.tasks[x], w2.tasks[x], w.proplets.Keys)
      ensures w2.tasks[x].state.Pending? ==> w1.tasks[x].state.Pending?
    {
      assert EasedTask(w.tasks[x], w1.tasks[x], w.proplets.Keys);
      assert EasedTask(w1.tasks[x], w2.tasks[x], w1.proplets.Keys);
    }
    hide EasedTask;
  }

  lemma DispatchOne(w: World, t: Task, c: Choice)
    requires t.id in w.tasks && w.tasks[t.id] == t && t.state.Pending?
    ensures var w' := Dispatch(w, t, c).w;
            && t.id in w'.tasks && EasedTask(t, w'.tasks[t.id], w.proplets.Keys)
            && (w'.tasks[t.id].state.Pending? && t.id in w'.pins ==> t.id in w.pins)
  {
  }

  lemma DispatchEases(w: World, t: Task, c: Choice)
    requires t.id in w.tasks && w.tasks[t.id] == t && t.state.Pending?
    ensures Eased(w, Dispatch(w, t, c).w)
  {
    var w' := Dispatch(w, t, c).w;
    DispatchTouches(w, t, c);
    DispatchOne(w, t, c);
    hide Dispatch;
    forall x | x in w.tasks ensures EasedTask(w.tasks[x], w'.tasks[x], w.proplets.Keys) {
      assert x != t.id ==> w'.tasks[x] == w.tasks[x];
    }
  }

  /** Without interrupted tasks, finished dependencies are settled, so such a start is a plain dispatch. */
  lemma WaitingStart(w: World, t: Task, doneId: string, o: Oracle)
    requires NoInterrupted(w) && t.id in w.tasks && w.tasks[t.id] == t && Waits(w, t, doneId)
    ensures StartTask(w, t.id, o, 1) == if w.shuttingDown then Ran(w, false, true) else Dispatch(w, t, o(t.id))
  {
    hide Dispatch;
    CheckDepsMet(w.tasks, t.dependsOn);
  }

  ghost predicate UpToDate(w: World, tasks: seq<Task>) {
    UniqueIds(tasks) && forall i :: 0 <= i < |tasks| ==> tasks[i].id in w.tasks && w.tasks[tasks[i].id] == tasks[i]
  }

  lemma UpToDateTail(w: World, w': World, tasks: seq<Task>)
    requires tasks != [] && UpToDate(w, tasks) && w'.tasks.Keys == w.tasks.Keys
    requires forall x :: x in w.tasks && x != tasks[0].id ==> w'.tasks[x] == w.tasks[x]
    ensures UpToDate(w', tasks[1..])
  {
  }

  lemma EasedCalm(w: World, w': World)
    requires WellKeyed(w.tasks) && Eased(w, w')
    ensures WellKeyed(w'.tasks) && (NoInterrupted(w) ==> NoInterrupted(w'))
  {
    forall x | x in w.tasks
      ensures w'.tasks[x].id == x && (w'.tasks[x].state.Interrupted? ==> w.tasks[x].state.Interrupted?)
    {
      assert EasedTask(w.tasks[x], w'.tasks[x], w.proplets.Keys);
    }
  }

  lemma {:induction false} DependentsEase(w: World, tasks: seq<Task>, doneId: string, o: Oracles)
    requires WellKeyed(w.tasks) && NoInterrupted(w) && UpToDate(w, tasks)
    ensures Eased(w, StartDependents(w, tasks, doneId, o, 1).w)
    decreases |tasks|
  {
    hide StartTask, Dispatch, AllTerminal, Eased, NoInterrupted, WellKeyed;
    EasedNothing(w);
    if tasks != [] {
      var t := tasks[0];
      var w1 := if Waits(w, t, doneId) then StartTask(w, t.id, o(t.id), 1).w else w;
      if Waits(w, t, doneId) {
        WaitingStart(w, t, doneId, o(t.id));
        DispatchEases(w, t, o(t.id)(t.id));
        DispatchTouches(w, t, o(t.id)(t.id));
        DispatchReturns(w, t, o(t.id)(t.id));
      }
      EasedCalm(w, w1);
      UpToDateTail(w, w1, tasks);
      DependentsEase(w1, tasks[1..], doneId, o);
      EasedTransitive(w, w1, StartDependents(w1, tasks[1..], doneId, o, 1).w);
    }
  }

  lemma StopEases(w: World, tasks: seq<Task>, published: string -> bool)
    ensures Eased(w, StopActive(w, tasks, published))
  {
    StopActiveLeaves(w, tasks, published);
    hide StopActive;
  }

  lemma JobUpToDate(w: World, jobId: string)
    requires WellKeyed(w.tasks)
    ensures UpToDate(w, OfJob(w.tasks, jobId))
  {
    OfJobMembers(w.tasks, jobId);
    hide OfJob;
    var tasks := OfJob(w.tasks, jobId);
    forall i | 0 <= i < |tasks| ensures tasks[i].id in w.tasks && w.tasks[tasks[i].id] == tasks[i] {
      assert tasks[i] in tasks;
    }
  }

  /** What happens between the update of the task and the completion pass only eases the world. */
  lemma BeforePassEases(w: World, id: string, error: string, published: string -> bool, oJob: Oracles)
    requires WellKeyed(w.tasks) && id in w.tasks && (w.tasks[id].jobId != "" ==> NoInterrupted(w))
    ensures Eased(Finish(w, id, error), BeforePass(w, id, error, published, oJob))
    ensures w.tasks[id].jobId != "" ==> !ResultsSpin(w, id, error, published, oJob)
  {
    FinishKeyed(w, id, error);
    if w.tasks[id].jobId != "" {
      NoInterruptedResults(w, id, error, published, oJob);
    }
    hide Finish, OfJob, StopActive, StartDependents, JobGoesOn, Eased, WellKeyed, NoInterrupted, ResultsSpin;
    var w1 := Finish(w, id, error);
    var jobTasks := OfJob(w1.tasks, w1.tasks[id].jobId);
    EasedNothing(w1);
    StopEases(w1, jobTasks, published);
    JobUpToDate(w1, w1.tasks[id].jobId);
    if w.tasks[id].jobId != "" {
      DependentsEase(w1, jobTasks, id, oJob);
    }
    OutsideJob(w1, id, error);
  }

  lemma OutsideJob(w: World, id: string, error: string)
    requires id in w.tasks
    ensures w.tasks[id].jobId == "" ==> !JobGoesOn(w, id, error)
  {
  }

  lemma EasedMembership(w: World, w': World, wf: string, x: string)
    requires Eased(w, w') && x in w.tasks
    ensures x in Members(w', wf) <==> x in Members(w, wf)
    ensures x in PendingIn(w', wf) ==> x in PendingIn(w, wf)
    ensures x in ActiveIn(w', wf) ==> x in ActiveIn(w, wf) || (x in PendingIn(w, wf) && x !in PendingIn(w', wf))
  {
    assert EasedTask(w.tasks[x], w'.tasks[x], w.proplets.Keys);
  }

  lemma EasedSets(w: World, w': World, wf: string)
    requires Eased(w, w')
    ensures Members(w', wf) == Members(w, wf) && PendingIn(w', wf) <= PendingIn(w, wf)
    ensures ActiveIn(w', wf) <= ActiveIn(w, wf) + (PendingIn(w, wf) - PendingIn(w', wf))
  {
    assert w'.tasks.Keys == w.tasks.Keys;
    SetsWithin(w, wf);
    SetsWithin(w', wf);
    hide Eased, Members, PendingIn, ActiveIn;
    forall x | x in w.tasks
      ensures x in Members(w', wf) <==> x in Members(w, wf)
      ensures x in PendingIn(w', wf) ==> x in PendingIn(w, wf)
      ensures x in ActiveIn(w', wf) ==> x in ActiveIn(w, wf) || (x in PendingIn(w, wf) && x !in PendingIn(w', wf))
    {
      EasedMembership(w, w', wf, x);
    }
  }

  lemma CountEased(p: set<string>, a: set<string>, p': set<string>, a': set<string>)
    requires p' <= p && a' <= a + (p - p')
    ensures |p'| + |a'| <= |p| + |a|
  {
    var gone := p - p';
    assert p == p' + gone && |p' + gone| == |p'| + |gone|;
    CardinalityBound(a', a + gone);
    CardinalityBound(gone - a, gone);
    assert a + gone == a + (gone - a);
    assert |a + (gone - a)| == |a| + |gone - a|;
  }

  lemma EasedCounts(w: World, w': World, wf: string)
    requires Eased(w, w')
    ensures Unfinished(w', wf) <= Unfinished(w, wf)
  {
    EasedSets(w, w', wf);
    hide Eased, PendingIn, ActiveIn;
    CountEased(PendingIn(w, wf), ActiveIn(w, wf), PendingIn(w', wf), ActiveIn(w', wf));
  }

  lemma EasedGraph(w: World, w': World)
    requires WellKeyed(w.tasks) && Eased(w, w')
    ensures WellKeyed(w'.tasks) && StoreGraph(w'.tasks) == StoreGraph(w.tasks)
  {
    forall x | x in w.tasks ensures SameButState(w.tasks[x], w'.tasks[x]) {
      assert EasedTask(w.tasks[x], w'.tasks[x], w.proplets.Keys);
    }
    SameGraph(w, w');
  }

  lemma EasedRunnable(w: World, w': World, wf: string)
    requires Runnable(w, wf) && Eased(w, w')
    ensures Runnable(w', wf)
  {
    EasedGraph(w, w');
    EasedCalm(w, w');
    EasedSets(w, w', wf);
    hide Acyclic, StoreGraph, WellKeyed, NoInterrupted;
    forall id | id in Members(w, wf)
      ensures w'.tasks[id].dependsOn == w.tasks[id].dependsOn && w'.tasks[id].jobId == w.tasks[id].jobId
      ensures !w'.tasks[id].state.Interrupted? && (w'.tasks[id].state.Pending? ==> id !in w'.pins)
    {
      assert EasedTask(w.tasks[id], w'.tasks[id], w.proplets.Keys);
    }
  }

  // ---------- Moves ----------

  /** What the coordinator or a proplet does next. */
  datatype Move =
    | Coordinate(o: Oracle)
    | Deliver(id: string, error: string, published: string -> bool, oJob: Oracles, o: Oracle)

  /** A pass when nothing is running, otherwise the result of some running task. */
  ghost predicate Enabled(w: World, wf: string, m: Move) {
    match m
    case Coordinate(o) => ActiveIn(w, wf) == {} && Willing(w, wf, o)
    case Deliver(id, error, published, oJob, o) =>
      id in ActiveIn(w, wf) && Willing(BeforePass(w, id, error, published, oJob), wf, o)
  }

  /** The moves there are: none once every task is terminal. */
  ghost predicate Possible(w: World, wf: string, m: Move) {
    !AllDone(w, wf) && Enabled(w, wf, m)
  }

  ghost function After(w: World, wf: string, m: Move): World {
    match m
    case Coordinate(o) => Pass(w, wf, o, 0).w
    case Deliver(id, error, published, oJob, o) => UpdateResults(w, id, error, published, oJob, o, 1).w
  }

  lemma FinishSets(w: World, wf: string, id: string, error: string)
    requires id in ActiveIn(w, wf)
    ensures var w1 := Finish(w, id, error);
            && Members(w1, wf) == Members(w, wf)
            && PendingIn(w1, wf) == PendingIn(w, wf) && ActiveIn(w1, wf) == ActiveIn(w, wf) - {id}
  {
  }

  lemma FinishRunnable(w: World, wf: string, id: string, error: string)
    requires Runnable(w, wf) && id in ActiveIn(w, wf)
    ensures Runnable(Finish(w, id, error), wf)
  {
    var w1 := Finish(w, id, error);
    assert SameButState(w.tasks[id], w1.tasks[id]);
    SameGraph(w, w1);
    FinishKeyed(w, id, error);
    FinishSets(w, wf, id, error);
    hide Acyclic, StoreGraph, WellKeyed, PendingIn, ActiveIn, NoInterrupted;
  }

  lemma FinishWorks(w: World, wf: string, id: string, error: string)
    requires Runnable(w, wf) && id in ActiveIn(w, wf)
    ensures id in w.tasks
    ensures var w1 := Finish(w, id, error);
            && Runnable(w1, wf) && Members(w1, wf) == Members(w, wf)
            && Unfinished(w1, wf) + 1 == Unfinished(w, wf)
  {
    assert id in w.tasks;
    hide Runnable, Finish, Members, PendingIn, ActiveIn;
    FinishRunnable(w, wf, id, error);
    FinishSets(w, wf, id, error);
  }

  lemma RunnableFacts(w: World, wf: string)
    requires Runnable(w, wf)
    ensures WellKeyed(w.tasks) && wf != "" && !Stuck(w, wf)
    ensures forall id :: id in Members(w, wf) && w.tasks[id].jobId != "" ==> NoInterrupted(w)
  {
    assert forall x :: x in w.tasks && w.tasks[x].workflowId == wf ==> x in Members(w, wf);
    NoInterruptedNotStuck(w, wf);
  }

  lemma ActiveIsMember(w: World, wf: string, id: string)
    requires id in ActiveIn(w, wf)
    ensures id in w.tasks && w.tasks[id].workflowId == wf && id in Members(w, wf)
  {
  }

  /** Before the completion pass one task is finished and the rest is at most further on. */
  lemma BeforePassWorks(w: World, wf: string, id: string, error: string, published: string -> bool, oJob: Oracles)
    requires Runnable(w, wf) && id in ActiveIn(w, wf)
    ensures id in w.tasks
    ensures var w2 := BeforePass(w, id, error, published, oJob);
            && Eased(Finish(w, id, error), w2)
            && Runnable(w2, wf) && Members(w2, wf) == Members(w, wf) && Unfinished(w2, wf) < Unfinished(w, wf)
  {
    hide Runnable, Finish, Members, ActiveIn, Unfinished, BeforePass, Eased, WellKeyed, Stuck, NoInterrupted;
    FinishWorks(w, wf, id, error);
    RunnableFacts(w, wf);
    ActiveIsMember(w, wf, id);
    BeforePassEases(w, id, error, published, oJob);
    var w1, w2 := Finish(w, id, error), BeforePass(w, id, error, published, oJob);
    EasedRunnable(w1, w2, wf);
    EasedSets(w1, w2, wf);
    EasedCounts(w1, w2, wf);
  }

  /** A result of an active task is its effect up to the pass, then the pass. */
  lemma DeliverIsPass(w: World, wf: string, id: string, error: string, published: string -> bool, oJob: Oracles,
                      o: Oracle)
    requires Runnable(w, wf) && id in ActiveIn(w, wf)
    ensures id in w.tasks
    ensures UpdateResults(w, id, error, published, oJob, o, 1).returned
    ensures UpdateResults(w, id, error, published, oJob, o, 1).w
         == Pass(BeforePass(w, id, error, published, oJob), wf, o, 0).w
  {
    hide Runnable, Finish, Members, ActiveIn, BeforePass, Eased, WellKeyed, Stuck, UpdateResults, ResultsSpin, Pass,
         NoInterrupted;
    RunnableFacts(w, wf);
    ActiveIsMember(w, wf, id);
    BeforePassEases(w, id, error, published, oJob);
    BeforePassWorks(w, wf, id, error, published, oJob);
    var w2 := BeforePass(w, id, error, published, oJob);
    RunnableFacts(w2, wf);
    if w.tasks[id].jobId == "" {
      OutsideJobSpin(w, wf, id, error, published, oJob);
    }
    ResultsReturn(w, id, error, published, oJob, o);
    StillMember(w, w2, wf, id);
  }

  lemma OutsideJobSpin(w: World, wf: string, id: string, error: string, published: string -> bool, oJob: Oracles)
    requires id in w.tasks && w.tasks[id].jobId == "" && w.tasks[id].workflowId == wf
    requires !Stuck(BeforePass(w, id, error, published, oJob), wf)
    ensures !ResultsSpin(w, id, error, published, oJob)
  {
    hide Stuck, BeforePass, OfJob, DependentsSpin;
  }

  lemma StillMember(w: World, w': World, wf: string, id: string)
    requires id in w.tasks && w.tasks[id].workflowId == wf && Members(w', wf) == Members(w, wf)
    ensures id in w'.tasks && w'.tasks[id].workflowId == wf
  {
    assert id in Members(w, wf);
    assert id in Members(w', wf);
  }

  // ---------- What a pass leaves to do ----------

  /** What a willing pass has active afterwards: what was active, and the ready tasks whose run condition holds. */
  ghost function Starting(w: World, wf: string): set<string> {
    set id | id in PendingIn(w, wf) && id in ReadyIds(w, wf) && ShouldRun(w.tasks[id], Finished(w.tasks, wf))
  }

  lemma ActiveFate(t: Task, t': Task, ready: bool, run: bool)
    requires ready && t.state.Pending? ==> t'.state in {Running, Skipped}
    requires !(ready && t.state.Pending?) ==> t' == t
    requires t' != t ==> (t'.state.Skipped? <==> !run)
    ensures t'.state.IsActive() <==> t.state.IsActive() || (t.state.Pending? && ready && run)
  {
  }

  lemma ActiveAfterPass(w: World, wf: string, o: Oracle, x: string)
    requires Runnable(w, wf) && Willing(w, wf, o) && x in w.tasks
    ensures var w' := Pass(w, wf, o, 0).w;
            x in ActiveIn(w', wf) <==> x in ActiveIn(w, wf) || x in Starting(w, wf)
  {
    var w' := Pass(w, wf, o, 0).w;
    RunnableFacts(w, wf);
    hide Runnable, Pass, AllMoved, Willing, Ready, ReadyIds, ShouldRun, Finished, Stuck, WellKeyed, NoInterrupted,
         Members;
    WillingPass(w, wf, o);
    MovedTask(w, w', wf, x);
    PassEffect(w, wf, o, x);
    hide AllFinished;
    var t, t' := w.tasks[x], w'.tasks[x];
    assert t'.workflowId == t.workflowId;
    hide SameButState;
    ActiveFate(t, t', x in ReadyIds(w, wf), ShouldRun(t, Finished(w.tasks, wf)));
  }

  lemma PassActives(w: World, wf: string, o: Oracle)
    requires Runnable(w, wf) && Willing(w, wf, o)
    ensures var w' := Pass(w, wf, o, 0).w;
            && ActiveIn(w', wf) == ActiveIn(w, wf) + Starting(w, wf)
            && PendingIn(w', wf) == PendingIn(w, wf) - ReadyIds(w, wf)
  {
    var w' := Pass(w, wf, o, 0).w;
    RunnableFacts(w, wf);
    WillingPass(w, wf, o);
    MovedSets(w, w', wf);
    assert w'.tasks.Keys == w.tasks.Keys;
    SetsWithin(w, wf);
    SetsWithin(w', wf);
    StartingWithin(w, wf);
    hide Runnable, Pass, AllMoved, Willing, Ready, ReadyIds, Starting, ActiveIn, PendingIn, Members, WellKeyed,
         NoInterrupted;
    forall x | x in w.tasks ensures x in ActiveIn(w', wf) <==> x in ActiveIn(w, wf) || x in Starting(w, wf) {
      ActiveAfterPass(w, wf, o, x);
    }
  }

  lemma StartingWithin(w: World, wf: string)
    ensures Starting(w, wf) <= w.tasks.Keys
  {
    hide ReadyIds, ShouldRun, Finished;
  }

  lemma MovesBound(w: World, wf: string)
    ensures Moves(w, wf) <= |Members(w, wf)| + 1
  {
    var p, a := PendingIn(w, wf), ActiveIn(w, wf);
    assert p !! a;
    assert |p + a| == |p| + |a|;
    CardinalityBound(p + a, Members(w, wf));
  }

  lemma StartingReady(w: World, wf: string)
    ensures Starting(w, wf) <= PendingIn(w, wf) * ReadyIds(w, wf)
  {
    hide ReadyIds, ShouldRun, Finished;
  }

  /** Every ready task leaves the pending ones, and at most these become active. */
  lemma PassCounts(w: World, wf: string, o: Oracle)
    requires Runnable(w, wf) && Willing(w, wf, o)
    ensures var w', r := Pass(w, wf, o, 0).w, PendingIn(w, wf) * ReadyIds(w, wf);
            && |PendingIn(w', wf)| == |PendingIn(w, wf)| - |r|
            && |ActiveIn(w', wf)| <= |ActiveIn(w, wf)| + |r|
            && (ActiveIn(w', wf) == {} ==> ActiveIn(w, wf) == {})
  {
    PassActives(w, wf, o);
    StartingReady(w, wf);
    var p, a, ready, s := PendingIn(w, wf), ActiveIn(w, wf), ReadyIds(w, wf), Starting(w, wf);
    hide Runnable, Willing, Pass, PendingIn, ActiveIn, ReadyIds, Starting;
    CountPass(p, a, ready, s);
  }

  lemma CountPass(p: set<string>, a: set<string>, ready: set<string>, s: set<string>)
    requires s <= p * ready
    ensures |p - ready| == |p| - |p * ready| && |a + s| <= |a| + |p * ready|
  {
    assert p == (p - ready) + (p * ready);
    assert |p| == |p - ready| + |p * ready|;
    CardinalityBound(s, p * ready);
    CardinalityBound(s - a, s);
    assert a + s == a + (s - a);
    assert |a + (s - a)| == |a| + |s - a|;
  }

  lemma PendingNotDone(w: World, wf: string)
    ensures PendingIn(w, wf) != {} ==> !AllDone(w, wf)
    ensures PendingIn(w, wf) == {} && ActiveIn(w, wf) == {} ==> AllDone(w, wf)
  {
    forall id | id in PendingIn(w, wf) ensures id in Members(w, wf) && !w.tasks[id].state.IsTerminal() {
    }
    forall id | id in Members(w, wf) && !w.tasks[id].state.IsTerminal()
      ensures id in PendingIn(w, wf) || id in ActiveIn(w, wf)
    {
    }
  }

  /** With nothing running, a pass has a ready pending task to move. */
  lemma ReadyPending(w: World, wf: string)
    requires Runnable(w, wf) && ActiveIn(w, wf) == {} && !AllDone(w, wf)
    ensures |PendingIn(w, wf) * ReadyIds(w, wf)| > 0
  {
    var t := SomeTaskReady(w, wf);
    PassSnapshot(w, wf);
    hide Ready, IsReady;
    assert t.id in PendingIn(w, wf) * ReadyIds(w, wf);
  }

  /** After a pass there are at most as many moves left as there were unfinished tasks. */
  lemma PassMoves(w: World, wf: string, o: Oracle)
    requires Runnable(w, wf) && Willing(w, wf, o)
    ensures Moves(Pass(w, wf, o, 0).w, wf) <= Unfinished(w, wf)
  {
    var w' := Pass(w, wf, o, 0).w;
    PassCounts(w, wf, o);
    PendingNotDone(w, wf);
    PendingNotDone(w', wf);
    if ActiveIn(w', wf) == {} && !AllDone(w', wf) {
      assert |PendingIn(w', wf)| > 0 && PendingIn(w, wf) != {};
      ReadyPending(w, wf);
    }
    hide Runnable, Willing, Pass, PendingIn, ActiveIn, ReadyIds, AllDone;
  }

  // ---------- Every move counts ----------

  lemma PassWorks(w: World, wf: string, o: Oracle)
    requires Runnable(w, wf) && Willing(w, wf, o)
    ensures var w' := Pass(w, wf, o, 0).w;
            && Runnable(w', wf) && Members(w', wf) == Members(w, wf)
            && Moves(w', wf) <= Unfinished(w, wf)
  {
    hide AllMoved, Ready, Pass, Moves, Unfinished, Willing, Acyclic, StoreGraph, WellKeyed, Members, NoInterrupted;
    WillingPass(w, wf, o);
    PassKeepsRunnable(w, Pass(w, wf, o, 0).w, wf);
    PassMoves(w, wf, o);
  }

  /** Every move keeps the workflow runnable and uses up one of the moves that are left. */
  lemma MoveWorks(w: World, wf: string, m: Move)
    requires Runnable(w, wf) && Possible(w, wf, m)
    ensures var w' := After(w, wf, m);
            Runnable(w', wf) && Members(w', wf) == Members(w, wf) && Moves(w', wf) < Moves(w, wf)
  {
    hide Runnable, Pass, Willing, ActiveIn, UpdateResults, BeforePass, Unfinished, Members, AllDone, Eased, Finish;
    match m
    case Coordinate(o) =>
      PassWorks(w, wf, o);
    case Deliver(id, error, published, oJob, o) =>
      DeliverIsPass(w, wf, id, error, published, oJob, o);
      BeforePassWorks(w, wf, id, error, published, oJob);
      PassWorks(BeforePass(w, id, error, published, oJob), wf, o);
  }

  ghost predicate IsMoves(states: seq<World>, wf: string, moves: seq<Move>) {
    && |states| == |moves| + 1
    && forall i :: 0 <= i < |moves| ==>
         && Possible(states[i], wf, moves[i])
         && states[i + 1] == After(states[i], wf, moves[i])
  }

  lemma {:induction false} MovesWork(states: seq<World>, wf: string, moves: seq<Move>, n: nat)
    requires IsMoves(states, wf, moves) && Runnable(states[0], wf) && n <= |moves|
    ensures Runnable(states[n], wf) && Members(states[n], wf) == Members(states[0], wf)
    ensures Moves(states[n], wf) + n <= Moves(states[0], wf)
  {
    hide Runnable, Moves, Members, Possible, After;
    if n > 0 {
      MovesWork(states, wf, moves, n - 1);
      MoveWorks(states[n - 1], wf, moves[n - 1]);
    }
  }

  // ---------- Somewhere to run is enough ----------

  /** There is a proplet to choose, and the proplets that tasks name exist. */
  ghost predicate Servable(w: World, wf: string, p: string) {
    && p in w.proplets
    && forall id :: id in Members(w, wf) ==>
         w.tasks[id].broadcast || w.tasks[id].propletId == "" || w.tasks[id].propletId in w.proplets
  }

  /** An environment that chooses `p` for whoever names nobody, and lets every start through. */
  function Serving(p: string): Oracle {
    (id: string) => Choice(true, Some(p), true, true)
  }

  lemma ServingIsWilling(w: World, wf: string, p: string)
    requires Runnable(w, wf) && Servable(w, wf, p)
    ensures Willing(w, wf, Serving(p))
  {
    forall id | id in PendingIn(w, wf) ensures Dispatch(w, w.tasks[id], Serving(p)(id)).ok {
      assert id in Members(w, wf) && w.tasks[id].id == id;
    }
  }

  lemma PassServable(w: World, wf: string, p: string, o: Oracle)
    requires Runnable(w, wf) && Willing(w, wf, o) && Servable(w, wf, p)
    ensures Servable(Pass(w, wf, o, 0).w, wf, p)
  {
    var w' := Pass(w, wf, o, 0).w;
    WillingPass(w, wf, o);
    assert w'.proplets.Keys == w.proplets.Keys && w'.tasks.Keys == w.tasks.Keys;
    hide Pass, AllMoved, Willing, Ready, ReadyIds, Acyclic, StoreGraph, NoInterrupted;
    forall id | id in Members(w', wf)
      ensures w'.tasks[id].broadcast || w'.tasks[id].propletId == "" || w'.tasks[id].propletId in w'.proplets
    {
      MovedTask(w, w', wf, id);
      assert id in Members(w, wf);
    }
  }

  lemma EasedServable(w: World, w': World, wf: string, p: string)
    requires Eased(w, w') && Servable(w, wf, p)
    ensures Servable(w', wf, p)
  {
    forall id | id in Members(w', wf)
      ensures w'.tasks[id].broadcast || w'.tasks[id].propletId == "" || w'.tasks[id].propletId in w'.proplets
    {
      assert EasedTask(w.tasks[id], w'.tasks[id], w.proplets.Keys);
      assert id in Members(w, wf);
    }
  }

  lemma FinishServable(w: World, wf: string, p: string, id: string, error: string)
    requires id in w.tasks && Servable(w, wf, p)
    ensures Servable(Finish(w, id, error), wf, p)
  {
    var w1 := Finish(w, id, error);
    forall x | x in Members(w1, wf) ensures x in Members(w, wf) {
    }
  }

  /** What the environment may answer is up to it: which results are failures, which stop messages get through. */
  function MoveOf(p: string, id: string, error: string, published: string -> bool): Move {
    Deliver(id, error, published, (t: string) => Serving(p), Serving(p))
  }

  lemma DeliverEnabled(w: World, wf: string, p: string, id: string, error: string, published: string -> bool)
    requires Runnable(w, wf) && Servable(w, wf, p) && id in ActiveIn(w, wf)
    ensures Enabled(w, wf, MoveOf(p, id, error, published))
    ensures Servable(After(w, wf, MoveOf(p, id, error, published)), wf, p)
  {
    var oJob, o := (t: string) => Serving(p), Serving(p);
    hide Runnable, Servable, ActiveIn, BeforePass, Willing, Pass, UpdateResults, Finish, Eased, Serving, Members,
         Unfinished;
    BeforePassWorks(w, wf, id, error, published, oJob);
    var w1, w2 := Finish(w, id, error), BeforePass(w, id, error, published, oJob);
    FinishServable(w, wf, p, id, error);
    EasedServable(w1, w2, wf, p);
    ServingIsWilling(w2, wf, p);
    DeliverIsPass(w, wf, id, error, published, oJob, o);
    PassServable(w2, wf, p, o);
  }

  lemma CoordinateEnabled(w: World, wf: string, p: string)
    requires Runnable(w, wf) && Servable(w, wf, p) && ActiveIn(w, wf) == {}
    ensures Enabled(w, wf, Coordinate(Serving(p)))
    ensures Servable(After(w, wf, Coordinate(Serving(p))), wf, p)
  {
    hide Runnable, Servable, ActiveIn, Willing, Pass, Serving;
    ServingIsWilling(w, wf, p);
    PassServable(w, wf, p, Serving(p));
  }

  /** Until every task is terminal some move is possible, whatever results the tasks have, and afterwards again. */
  lemma NeverBlocked(w: World, wf: string, p: string, error: string -> string, published: string -> bool)
    returns (m: Move)
    requires Runnable(w, wf) && Servable(w, wf, p) && !AllDone(w, wf)
    ensures Possible(w, wf, m) && (m.Deliver? ==> m.error == error(m.id))
    ensures Runnable(After(w, wf, m), wf) && Servable(After(w, wf, m), wf, p)
    ensures Members(After(w, wf, m), wf) == Members(w, wf) && Moves(After(w, wf, m), wf) < Moves(w, wf)
  {
    hide Runnable, Servable, AllDone, Enabled, After, Moves, Members;
    if ActiveIn(w, wf) == {} {
      m := Coordinate(Serving(p));
      CoordinateEnabled(w, wf, p);
    } else {
      var id :| id in ActiveIn(w, wf);
      m := MoveOf(p, id, error(id), published);
      DeliverEnabled(w, wf, p, id, error(id), published);
    }
    MoveWorks(w, wf, m);
  }

  lemma MoveServable(w: World, wf: string, p: string, m: Move)
    requires Runnable(w, wf) && Servable(w, wf, p) && Enabled(w, wf, m)
    ensures Servable(After(w, wf, m), wf, p)
  {
    hide Runnable, Servable, Willing, Pass, UpdateResults, BeforePass, Eased, Members, Unfinished;
    match m
    case Coordinate(o) => PassServable(w, wf, p, o);
    case Deliver(id, error, published, oJob, o) =>
      DeliverIsPass(w, wf, id, error, published, oJob, o);
      BeforePassWorks(w, wf, id, error, published, oJob);
      hide ActiveIn;
      FinishServable(w, wf, p, id, error);
      hide Finish;
      EasedServable(Finish(w, id, error), BeforePass(w, id, error, published, oJob), wf, p);
      PassServable(BeforePass(w, id, error, published, oJob), wf, p, o);
  }

  lemma {:induction false} MovesServable(states: seq<World>, wf: string, moves: seq<Move>, p: string, n: nat)
    requires IsMoves(states, wf, moves) && Runnable(states[0], wf) && Servable(states[0], wf, p) && n <= |moves|
    ensures Servable(states[n], wf, p)
  {
    hide Runnable, Servable, AllDone, Members, Enabled, After, Moves;
    if n > 0 {
      MovesServable(states, wf, moves, p, n - 1);
      MovesWork(states, wf, moves, n - 1);
      MoveServable(states[n - 1], wf, p, moves[n - 1]);
    }
  }

  /**
    * However the moves are chosen, a workflow of n tasks takes at most n + 1 of them. If it has somewhere to run, there
    * is no further move exactly when every task is terminal.
    */
  lemma FinishesWithin(states: seq<World>, wf: string, moves: seq<Move>)
    requires IsMoves(states, wf, moves) && Runnable(states[0], wf)
    ensures |moves| <= |Members(states[0], wf)| + 1
    ensures (exists p :: Servable(states[0], wf, p)) ==>
              ((forall m :: !Possible(states[|moves|], wf, m)) <==> AllDone(states[|moves|], wf))
  {
    hide Runnable, Members, AllDone, Moves, Enabled, After, Servable;
    var last := states[|moves|];
    MovesWork(states, wf, moves, |moves|);
    MovesBound(states[0], wf);
    if p :| Servable(states[0], wf, p) && !AllDone(last, wf) {
      MovesServable(states, wf, moves, p, |moves|);
      var m := NeverBlocked(last, wf, p, (id: string) => "", (id: string) => true);
    }
  }

  /**
    * A workflow that has somewhere to run finishes: for every choice of results there are at most n + 1 passes and
    * results that follow each other from here and leave every task terminal.
    */
  lemma Finishes(w: World, wf: string, p: string, error: string -> string, published: string -> bool)
    returns (states: seq<World>, moves: seq<Move>)
    requires Runnable(w, wf) && Servable(w, wf, p)
    ensures IsMoves(states, wf, moves) && states[0] == w && AllDone(states[|moves|], wf)
    ensures |moves| <= |Members(w, wf)| + 1
    ensures forall i :: 0 <= i < |moves| && moves[i].Deliver? ==> moves[i].error == error(moves[i].id)
  {
    states, moves := FinishingMoves(w, wf, p, error, published);
    hide IsMoves, Runnable, Servable, AllDone, Members;
    FinishesWithin(states, wf, moves);
  }

  lemma {:induction false} FinishingMoves(w: World, wf: string, p: string, error: string -> string,
                                          published: string -> bool)
    returns (states: seq<World>, moves: seq<Move>)
    requires Runnable(w, wf) && Servable(w, wf, p)
    ensures IsMoves(states, wf, moves) && states[0] == w && AllDone(states[|moves|], wf)
    ensures forall i :: 0 <= i < |moves| && moves[i].Deliver? ==> moves[i].error == error(moves[i].id)
    decreases Moves(w, wf)
  {
    hide Runnable, Servable, AllDone, Possible, After, Moves, Members;
    if AllDone(w, wf) {
      states, moves := [w], [];
    } else {
      var m := NeverBlocked(w, wf, p, error, published);
      var w' := After(w, wf, m);
      var states', moves' := FinishingMoves(w', wf, p, error, published);
      states, moves := [w] + states', [m] + moves';
      forall i | 0 <= i < |moves|
        ensures Possible(states[i], wf, moves[i]) && states[i + 1] == After(states[i], wf, moves[i])
        ensures moves[i].Deliver? ==> moves[i].error == error(moves[i].id)
      {
        if i > 0 {
          assert states[i] == states'[i - 1] && moves[i] == moves'[i - 1] && states[i + 1] == states'[i];
        }
      }
    }
  }
}
