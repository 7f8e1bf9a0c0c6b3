/** Creating, updating and deleting tasks, and why the stored dependencies never form a cycle. */
module Creation {
  import opened Options
  import opened Tasks
  import opened Graph
  import opened TaskStore
  import opened Dag
  import opened World

  /** The dependency graph over all stored tasks. */
  function StoreGraph(tasks: map<string, Task>): Graph {
    map id | id in tasks :: tasks[id].dependsOn
  }

  predicate RunIfValid(t: Task) {
    t.runIf in ["", RUN_IF_SUCCESS, RUN_IF_FAILURE]
  }

  /** The tasks can be created one after the other: ids present, new and distinct. */
  predicate Storable(tasks: map<string, Task>, batch: seq<Task>) {
    && UniqueIds(batch)
    && forall i :: 0 <= i < |batch| ==> batch[i].id != "" && batch[i].id !in tasks
  }

  function StoreAll(tasks: map<string, Task>, batch: seq<Task>): map<string, Task> {
    if batch == [] then tasks
    else
      var last := batch[|batch| - 1];
      StoreAll(tasks, batch[..|batch| - 1])[last.id := last]
  }

  /** The first non-empty id among those given, else the fresh one. */
  function FirstId(ids: seq<string>, freshId: string): string {
    if ids == [] then freshId else if ids[0] != "" then ids[0] else FirstId(ids[1..], freshId)
  }

  function FillId(t: Task, freshId: string): Task {
    if t.id == "" then t.(id := freshId) else t
  }

  function WorkflowIdOf(batch: seq<Task>, freshId: string): string {
    FirstId(seq(|batch|, i requires 0 <= i < |batch| => batch[i].workflowId), freshId)
  }

  function JobIdOf(batch: seq<Task>, freshId: string): string {
    FirstId(seq(|batch|, i requires 0 <= i < |batch| => batch[i].jobId), freshId)
  }

  /** The batch as it is validated: one workflow id, and a fresh id for each task without one. */
  function WorkflowBatch(batch: seq<Task>, workflowId: string, freshIds: seq<string>): seq<Task>
    requires |freshIds| == |batch|
  {
    seq(|batch|, i requires 0 <= i < |batch| => FillId(batch[i].(workflowId := workflowId), freshIds[i]))
  }

  function JobBatch(batch: seq<Task>, jobId: string, freshIds: seq<string>): seq<Task>
    requires |freshIds| == |batch|
  {
    seq(|batch|, i requires 0 <= i < |batch| => FillId(batch[i].(jobId := jobId), freshIds[i]))
  }

  ghost predicate TaskAccepted(w: World, t: Task) {
    && !(t.broadcast && t.propletId != "")
    && (t.dependsOn != [] ==> t.workflowId != "" && Validated(OfWorkflow(w.tasks, t.workflowId) + [t]))
  }

  ghost function CreateTask(w: World, t: Task, freshId: string): Ran {
    if !TaskAccepted(w, t) || freshId == "" || freshId in w.tasks then Ran(w, false, true)
    else Ran(PutTask(w, t.(id := freshId)), true, true)
  }

  ghost function CreateWorkflow(w: World, batch: seq<Task>, freshWorkflow: string, freshIds: seq<string>): Ran
    requires |freshIds| == |batch|
  {
    var prepared := WorkflowBatch(batch, WorkflowIdOf(batch, freshWorkflow), freshIds);
    if batch != [] && Validated(prepared) && (forall t :: t in prepared ==> RunIfValid(t))
      && Storable(w.tasks, prepared)
    then Ran(w.(tasks := StoreAll(w.tasks, prepared)), true, true)
    else Ran(w, false, true)
  }

  ghost function CreateJob(w: World, name: string, batch: seq<Task>, freshJob: string, freshIds: seq<string>): Ran
    requires |freshIds| == |batch|
  {
    var jobId := JobIdOf(batch, freshJob);
    var prepared := JobBatch(batch, jobId, freshIds);
    if batch != [] && Validated(prepared) && jobId != "" && jobId !in w.jobs && Storable(w.tasks, prepared)
    then Ran(w.(tasks := StoreAll(w.tasks, prepared), jobs := w.jobs[jobId := name]), true, true)
    else Ran(w, false, true)
  }

  /** An update replaces only what the request carries, never the dependencies. */
  function UpdateTask(w: World, id: string, name: string, metadata: Option<Metadata>): Ran {
    if id !in w.tasks then Ran(w, false, true)
    else
      var t := w.tasks[id];
      var t1 := if name != "" then t.(name := name) else t;
      Ran(w.(tasks := w.tasks[id := if metadata.Some? then t1.(metadata := metadata.value) else t1]), true, true)
  }

  function DeleteTask(w: World, id: string): Ran {
    if id == "" then Ran(w, false, true) else Ran(w.(tasks := w.tasks - {id}), true, true)
  }

  // ---------- Acyclicity ----------

  /** A node that no other node lists, and that does not list itself, closes no cycle. */
  lemma FreshNodeAcyclic(g: Graph, x: string, deps: seq<string>)
    requires Acyclic(g) && x !in deps && forall a :: a in g ==> x !in g[a]
    ensures Acyclic(g[x := deps])
  {
    var h := g[x := deps];
    forall p ensures !IsCycle(h, p) {
      if IsCycle(h, p) {
        FreshNodeOffCycle(h, x, p);
        CycleLifts(g, h, p);
      }
    }
  }

  lemma FreshNodeOffCycle(h: Graph, x: string, p: seq<string>)
    requires IsCycle(h, p) && forall a :: a in h ==> x !in h[a]
    ensures x !in p
  {
    forall i | 0 <= i < |p| ensures p[i] != x {
      var j := if i == 0 then |p| - 2 else i - 1;
      assert Edge(h, p[j], p[j + 1]);
    }
  }

  lemma StoreGraphPut(tasks: map<string, Task>, id: string, t: Task)
    ensures StoreGraph(tasks[id := t]) == StoreGraph(tasks)[id := t.dependsOn]
  {
  }

  /** An accepted task depends on stored tasks only. */
  lemma AcceptedDepsStored(w: World, t: Task)
    requires WellKeyed(w.tasks) && TaskAccepted(w, t)
    ensures forall d :: d in t.dependsOn ==> d in w.tasks
  {
    if t.dependsOn != [] {
      var stored := OfWorkflow(w.tasks, t.workflowId);
      var all := stored + [t];
      OfWorkflowMembers(w.tasks, t.workflowId);
      forall d | d in t.dependsOn ensures d in w.tasks {
        assert all[|stored|] == t;
        var j :| 0 <= j < |all| && all[j].id == d;
        assert all[|stored|].id !in all[|stored|].dependsOn;
        assert all[j] in stored;
      }
    }
  }

  lemma CreateTaskKeepsAcyclic(w: World, t: Task, freshId: string)
    requires WellKeyed(w.tasks) && Acyclic(StoreGraph(w.tasks))
    requires forall id :: id in w.tasks ==> freshId !in w.tasks[id].dependsOn
    ensures Acyclic(StoreGraph(CreateTask(w, t, freshId).w.tasks))
  {
    hide Acyclic, TaskAccepted;
    if CreateTask(w, t, freshId).ok {
      AcceptedDepsStored(w, t);
      FreshNodeAcyclic(StoreGraph(w.tasks), freshId, t.dependsOn);
      StoreGraphPut(w.tasks, freshId, t.(id := freshId));
    }
  }

  lemma {:induction false} StoreAllAdds(tasks: map<string, Task>, batch: seq<Task>)
    ensures StoreGraph(StoreAll(tasks, batch)) == StoreGraph(tasks) + GraphOf(batch)
    ensures WellKeyed(tasks) && (forall i :: 0 <= i < |batch| ==> batch[i].id != "") ==>
              WellKeyed(StoreAll(tasks, batch))
  {
    hide StoreGraph;
    if batch == [] {
      assert StoreGraph(tasks) + map[] == StoreGraph(tasks);
    } else {
      var init, last := batch[..|batch| - 1], batch[|batch| - 1];
      StoreAllAdds(tasks, init);
      StoreGraphPut(StoreAll(tasks, init), last.id, last);
      assert (StoreGraph(tasks) + GraphOf(init))[last.id := last.dependsOn] ==
             StoreGraph(tasks) + GraphOf(init)[last.id := last.dependsOn];
    }
  }

  /** A batch that only depends on itself joins the store without a cycle, even where stored tasks list its ids. */
  lemma StoreAllKeepsAcyclic(tasks: map<string, Task>, batch: seq<Task>)
    requires Acyclic(StoreGraph(tasks)) && Validated(batch) && Storable(tasks, batch)
    ensures Acyclic(StoreGraph(StoreAll(tasks, batch)))
  {
    var g, h := StoreGraph(tasks), GraphOf(batch);
    StoreAllAdds(tasks, batch);
    forall x | x in h ensures x !in g {
      var i := GraphOfTask(batch, x);
    }
    forall a, b | a in h.Keys && Edge(h, a, b) ensures b in h.Keys {
      var i := GraphOfTask(batch, a);
      var j :| 0 <= j < |batch| && batch[j].id == b;
      GraphOfHasTask(batch, j);
    }
    JoinAcyclic(g, h);
  }

  // ---------- All or nothing ----------

  ghost function BatchIds(batch: seq<Task>): set<string> {
    set i | 0 <= i < |batch| :: batch[i].id
  }

  /** What is stored afterwards: everything from before, unchanged, and the whole batch. */
  ghost predicate Stored(tasks: map<string, Task>, tasks': map<string, Task>, batch: seq<Task>) {
    && (forall id :: id in tasks ==> id in tasks' && tasks'[id] == tasks[id])
    && (forall i :: 0 <= i < |batch| ==> batch[i].id in tasks' && tasks'[batch[i].id] == batch[i])
    && tasks'.Keys == tasks.Keys + BatchIds(batch)
  }

  lemma StoredMore(tasks: map<string, Task>, m: map<string, Task>, batch: seq<Task>, last: Task)
    requires Stored(tasks, m, batch) && last.id !in m
    ensures Stored(tasks, m[last.id := last], batch + [last])
  {
    var m', batch' := m[last.id := last], batch + [last];
    assert batch'[..|batch|] == batch;
    assert m'.Keys == m.Keys + {last.id};
    assert forall i :: 0 <= i < |batch| ==> batch'[i] == batch[i];
    assert batch'[|batch|] == last;
    assert BatchIds(batch') == BatchIds(batch) + {last.id};
  }

  lemma NewIdUnstored(tasks: map<string, Task>, m: map<string, Task>, batch: seq<Task>, n: nat)
    requires Storable(tasks, batch) && n < |batch| && Stored(tasks, m, batch[..n])
    ensures batch[n].id !in m
  {
  }

  lemma {:induction false} StoreAllStores(tasks: map<string, Task>, batch: seq<Task>)
    requires Storable(tasks, batch)
    ensures Stored(tasks, StoreAll(tasks, batch), batch)
  {
    if batch != [] {
      var n := |batch| - 1;
      assert Storable(tasks, batch[..n]);
      hide Stored, Storable;
      StoreAllStores(tasks, batch[..n]);
      NewIdUnstored(tasks, StoreAll(tasks, batch[..n]), batch, n);
      StoredMore(tasks, StoreAll(tasks, batch[..n]), batch[..n], batch[n]);
      assert batch == batch[..n] + [batch[n]];
    }
  }

  /** A workflow is stored completely, all its tasks under one workflow id, or not at all. */
  lemma WorkflowAllOrNothing(w: World, batch: seq<Task>, freshWorkflow: string, freshIds: seq<string>)
    requires |freshIds| == |batch|
    ensures var r := CreateWorkflow(w, batch, freshWorkflow, freshIds);
            var prepared := WorkflowBatch(batch, WorkflowIdOf(batch, freshWorkflow), freshIds);
            && (!r.ok ==> r.w == w)
            && (r.ok ==> Stored(w.tasks, r.w.tasks, prepared) && r.w == w.(tasks := r.w.tasks))
            && (forall t :: t in prepared ==> t.workflowId == WorkflowIdOf(batch, freshWorkflow))
  {
    var prepared := WorkflowBatch(batch, WorkflowIdOf(batch, freshWorkflow), freshIds);
    if CreateWorkflow(w, batch, freshWorkflow, freshIds).ok {
      StoreAllStores(w.tasks, prepared);
    }
  }

  /** A job is stored completely together with its record, or not at all. */
  lemma JobAllOrNothing(w: World, name: string, batch: seq<Task>, freshJob: string, freshIds: seq<string>)
    requires |freshIds| == |batch|
    ensures var r := CreateJob(w, name, batch, freshJob, freshIds);
            var jobId := JobIdOf(batch, freshJob);
            && (!r.ok ==> r.w == w)
            && (r.ok ==>
                  && Stored(w.tasks, r.w.tasks, JobBatch(batch, jobId, freshIds))
                  && jobId !in w.jobs && r.w == w.(tasks := r.w.tasks, jobs := w.jobs[jobId := name]))
            && (forall t :: t in JobBatch(batch, jobId, freshIds) ==> t.jobId == jobId)
  {
    if CreateJob(w, name, batch, freshJob, freshIds).ok {
      StoreAllStores(w.tasks, JobBatch(batch, JobIdOf(batch, freshJob), freshIds));
    }
  }

  // ---------- What is stored of a request ----------

  /** The first id that is given, or the fresh one if none is. */
  ghost predicate FirstGiven(ids: seq<string>, freshId: string, id: string) {
    || (id == freshId && forall k :: 0 <= k < |ids| ==> ids[k] == "")
    || (exists k :: 0 <= k < |ids| && ids[k] == id != "" && forall m :: 0 <= m < k ==> ids[m] == "")
  }

  lemma {:induction false} FirstIdGiven(ids: seq<string>, freshId: string)
    ensures FirstGiven(ids, freshId, FirstId(ids, freshId))
  {
    if ids != [] && ids[0] == "" {
      FirstIdGiven(ids[1..], freshId);
      var id := FirstId(ids, freshId);
      if k :| 0 <= k < |ids[1..]| && ids[1..][k] == id != "" && forall m :: 0 <= m < k ==> ids[1..][m] == "" {
        assert ids[k + 1] == id;
        assert forall m :: 0 < m < k + 1 ==> ids[m] == ids[1..][m - 1];
      } else {
        assert forall m :: 0 < m < |ids| ==> ids[m] == ids[1..][m - 1];
      }
    }
  }

  /** The ids under which the tasks of a request are stored: their own, or a fresh one for a task without. */
  ghost predicate IdsOf(batch: seq<Task>, freshIds: seq<string>, ids: seq<string>) {
    && |freshIds| == |ids| == |batch|
    && forall i :: 0 <= i < |batch| ==> ids[i] == if batch[i].id == "" then freshIds[i] else batch[i].id
  }

  /** The tasks of a request under these ids. */
  function Under(batch: seq<Task>, ids: seq<string>): seq<Task>
    requires |ids| == |batch|
  {
    seq(|batch|, i requires 0 <= i < |batch| => batch[i].(id := ids[i]))
  }

  /** The ids are usable: none is empty, stored already or used twice. */
  ghost predicate NewIds(tasks: map<string, Task>, ids: seq<string>) {
    Distinct(ids) && forall i :: 0 <= i < |ids| ==> ids[i] != "" && ids[i] !in tasks
  }

  ghost predicate Closed(batch: seq<Task>, ids: seq<string>) {
    forall i, d :: 0 <= i < |batch| && d in batch[i].dependsOn ==> d in ids
  }

  /** Every dependency of the request is one of its tasks, and they form no cycle. */
  ghost predicate ClosedAndAcyclic(batch: seq<Task>, ids: seq<string>)
    requires |ids| == |batch|
  {
    && Closed(batch, ids)
    && Acyclic(GraphOf(Under(batch, ids)))
  }

  lemma {:induction false} SameGraphOf(a: seq<Task>, b: seq<Task>)
    requires |a| == |b| && forall i :: 0 <= i < |a| ==> a[i].id == b[i].id && a[i].dependsOn == b[i].dependsOn
    ensures GraphOf(a) == GraphOf(b)
  {
    if a != [] {
      SameGraphOf(a[..|a| - 1], b[..|b| - 1]);
    }
  }

  lemma ClosedExist(batch: seq<Task>, ids: seq<string>, prepared: seq<Task>)
    requires |ids| == |batch| == |prepared|
    requires forall i :: 0 <= i < |batch| ==> prepared[i].id == ids[i] && prepared[i].dependsOn == batch[i].dependsOn
    ensures DependenciesExist(prepared) <==> Closed(batch, ids)
  {
    if DependenciesExist(prepared) {
      forall i, d | 0 <= i < |batch| && d in batch[i].dependsOn ensures d in ids {
        assert d in prepared[i].dependsOn;
        var j :| 0 <= j < |prepared| && prepared[j].id == d;
        assert ids[j] == d;
      }
    }
    if Closed(batch, ids) {
      forall i, d | 0 <= i < |prepared| && d in prepared[i].dependsOn
        ensures exists j :: 0 <= j < |prepared| && prepared[j].id == d
      {
        assert d in batch[i].dependsOn;
        assert d in ids;
        var j :| 0 <= j < |ids| && ids[j] == d;
        assert prepared[j].id == d;
      }
    }
  }

  /** Validating prepared tasks with usable ids is a question about the request. */
  lemma PreparedValid(tasks: map<string, Task>, batch: seq<Task>, ids: seq<string>, prepared: seq<Task>)
    requires |ids| == |batch| == |prepared|
    requires forall i :: 0 <= i < |batch| ==> prepared[i].id == ids[i] && prepared[i].dependsOn == batch[i].dependsOn
    ensures Storable(tasks, prepared) <==> NewIds(tasks, ids)
    ensures NewIds(tasks, ids) ==> (Validated(prepared) <==> ClosedAndAcyclic(batch, ids))
  {
    SameGraphOf(prepared, Under(batch, ids));
    assert UniqueIds(prepared) <==> Distinct(ids);
    ClosedExist(batch, ids, prepared);
    hide Acyclic, GraphOf, MissingListedTwice, NoneListsItself, DependenciesExist, Closed, Under;
    if UniqueIds(prepared) && DependenciesExist(prepared) {
      ValidatedIffAcyclic(prepared);
    }
  }

  lemma JobPrepared(batch: seq<Task>, jobId: string, freshIds: seq<string>, ids: seq<string>)
    requires IdsOf(batch, freshIds, ids)
    ensures var prepared := JobBatch(batch, jobId, freshIds);
            |prepared| == |batch|
            && forall i :: 0 <= i < |batch| ==> prepared[i] == batch[i].(id := ids[i], jobId := jobId)
  {
  }

  lemma WorkflowPrepared(batch: seq<Task>, workflowId: string, freshIds: seq<string>, ids: seq<string>)
    requires IdsOf(batch, freshIds, ids)
    ensures var prepared := WorkflowBatch(batch, workflowId, freshIds);
            |prepared| == |batch|
            && forall i :: 0 <= i < |batch| ==> prepared[i] == batch[i].(id := ids[i], workflowId := workflowId)
  {
  }

  lemma RequestStored(tasks: map<string, Task>, prepared: seq<Task>, ids: seq<string>)
    requires Storable(tasks, prepared) && |ids| == |prepared| && forall i :: 0 <= i < |ids| ==> prepared[i].id == ids[i]
    ensures var m := StoreAll(tasks, prepared);
            && (forall i :: 0 <= i < |ids| ==> ids[i] in m && m[ids[i]] == prepared[i])
            && (forall id :: id in tasks ==> id in m && m[id] == tasks[id])
            && m.Keys == tasks.Keys + (set id | id in ids)
  {
    StoreAllStores(tasks, prepared);
    hide StoreAll;
    assert BatchIds(prepared) == set id | id in ids;
  }

  /**
    * A job is accepted if and only if it has tasks, their ids are usable, its own id is new, and its dependencies stay
    * inside it without a cycle. Each task is then stored as it was sent, but for its id and the one job id.
    */
  lemma JobStoresRequest(w: World, name: string, batch: seq<Task>, freshJob: string, freshIds: seq<string>,
                         ids: seq<string>, jobId: string)
    requires IdsOf(batch, freshIds, ids)
    requires FirstGiven(seq(|batch|, i requires 0 <= i < |batch| => batch[i].jobId), freshJob, jobId)
    ensures var r := CreateJob(w, name, batch, freshJob, freshIds);
            && (r.ok <==>
                  && batch != [] && NewIds(w.tasks, ids) && jobId != "" && jobId !in w.jobs
                  && ClosedAndAcyclic(batch, ids))
            && (r.ok ==>
                  && (forall i :: 0 <= i < |batch| ==>
                        ids[i] in r.w.tasks && r.w.tasks[ids[i]] == batch[i].(id := ids[i], jobId := jobId))
                  && (forall id :: id in w.tasks ==> id in r.w.tasks && r.w.tasks[id] == w.tasks[id])
                  && r.w.tasks.Keys == w.tasks.Keys + (set id | id in ids)
                  && r.w == w.(tasks := r.w.tasks, jobs := w.jobs[jobId := name]))
  {
    assert |ids| == |freshIds| == |batch|;
    hide JobBatch, JobIdOf, FirstGiven, IdsOf, Validated, Storable, ClosedAndAcyclic, NewIds, StoreAll;
    JobIdIs(batch, freshJob, jobId);
    var prepared := JobBatch(batch, jobId, freshIds);
    JobPrepared(batch, jobId, freshIds, ids);
    PreparedValid(w.tasks, batch, ids, prepared);
    if CreateJob(w, name, batch, freshJob, freshIds).ok {
      RequestStored(w.tasks, prepared, ids);
    }
  }

  lemma JobIdIs(batch: seq<Task>, freshJob: string, jobId: string)
    requires FirstGiven(seq(|batch|, i requires 0 <= i < |batch| => batch[i].jobId), freshJob, jobId)
    ensures JobIdOf(batch, freshJob) == jobId
  {
    var given := seq(|batch|, i requires 0 <= i < |batch| => batch[i].jobId);
    hide FirstGiven, FirstId;
    FirstIdGiven(given, freshJob);
    FirstGivenUnique(given, freshJob, jobId, JobIdOf(batch, freshJob));
  }

  lemma WorkflowIdIs(batch: seq<Task>, freshWorkflow: string, workflowId: string)
    requires FirstGiven(seq(|batch|, i requires 0 <= i < |batch| => batch[i].workflowId), freshWorkflow, workflowId)
    ensures WorkflowIdOf(batch, freshWorkflow) == workflowId
  {
    var given := seq(|batch|, i requires 0 <= i < |batch| => batch[i].workflowId);
    hide FirstGiven, FirstId;
    FirstIdGiven(given, freshWorkflow);
    FirstGivenUnique(given, freshWorkflow, workflowId, WorkflowIdOf(batch, freshWorkflow));
  }

  lemma FirstGivenUnique(ids: seq<string>, freshId: string, a: string, b: string)
    requires FirstGiven(ids, freshId, a) && FirstGiven(ids, freshId, b)
    ensures a == b
  {
  }

  /** The same for a workflow, whose run_if values are checked as well. */
  lemma WorkflowStoresRequest(w: World, batch: seq<Task>, freshWorkflow: string, freshIds: seq<string>,
                              ids: seq<string>, workflowId: string)
    requires IdsOf(batch, freshIds, ids)
    requires FirstGiven(seq(|batch|, i requires 0 <= i < |batch| => batch[i].workflowId), freshWorkflow, workflowId)
    ensures var r := CreateWorkflow(w, batch, freshWorkflow, freshIds);
            && (r.ok <==>
                  && batch != [] && NewIds(w.tasks, ids) && ClosedAndAcyclic(batch, ids)
                  && forall i :: 0 <= i < |batch| ==> batch[i].runIf in {"", "success", "failure"})
            && (r.ok ==>
                  && (forall i :: 0 <= i < |batch| ==>
                        ids[i] in r.w.tasks && r.w.tasks[ids[i]] == batch[i].(id := ids[i], workflowId := workflowId))
                  && (forall id :: id in w.tasks ==> id in r.w.tasks && r.w.tasks[id] == w.tasks[id])
                  && r.w.tasks.Keys == w.tasks.Keys + (set id | id in ids)
                  && r.w == w.(tasks := r.w.tasks))
  {
    assert |ids| == |freshIds| == |batch|;
    hide WorkflowBatch, WorkflowIdOf, FirstGiven, IdsOf, Validated, Storable, ClosedAndAcyclic, NewIds, StoreAll,
         RunIfValid;
    WorkflowIdIs(batch, freshWorkflow, workflowId);
    var prepared := WorkflowBatch(batch, workflowId, freshIds);
    WorkflowPrepared(batch, workflowId, freshIds, ids);
    PreparedValid(w.tasks, batch, ids, prepared);
    RunIfsPrepared(batch, prepared);
    if CreateWorkflow(w, batch, freshWorkflow, freshIds).ok {
      RequestStored(w.tasks, prepared, ids);
    }
  }

  lemma RunIfsPrepared(batch: seq<Task>, prepared: seq<Task>)
    requires |prepared| == |batch| && forall i :: 0 <= i < |batch| ==> prepared[i].runIf == batch[i].runIf
    ensures (forall t :: t in prepared ==> RunIfValid(t)) <==>
              forall i :: 0 <= i < |batch| ==> batch[i].runIf in {"", "success", "failure"}
  {
    if forall t :: t in prepared ==> RunIfValid(t) {
      forall i | 0 <= i < |batch| ensures batch[i].runIf in {"", "success", "failure"} {
        assert RunIfValid(prepared[i]);
      }
    }
    if forall i :: 0 <= i < |batch| ==> batch[i].runIf in {"", "success", "failure"} {
      forall t | t in prepared ensures RunIfValid(t) {
        var i :| 0 <= i < |prepared| && prepared[i] == t;
        assert batch[i].runIf in {"", "success", "failure"};
      }
    }
  }

  /**
    * A created task is stored as it was sent, but for its id. It does not name a proplet and go to all of them, and
    * whatever it depends on is stored in its workflow. Without dependencies nothing else is asked of it.
    */
  lemma CreateTaskStores(w: World, t: Task, freshId: string)
    requires WellKeyed(w.tasks)
    ensures var r := CreateTask(w, t, freshId);
            && (r.ok ==>
                  && freshId != "" && freshId !in w.tasks
                  && r.w == w.(tasks := w.tasks[freshId := t.(id := freshId)])
                  && (t.broadcast ==> t.propletId == "")
                  && (t.dependsOn != [] ==> t.workflowId != "" && t.id !in t.dependsOn)
                  && (forall d :: d in t.dependsOn ==> d in w.tasks && w.tasks[d].workflowId == t.workflowId))
            && (!r.ok ==> r.w == w)
            && (t.dependsOn == [] && freshId != "" && freshId !in w.tasks && (t.broadcast ==> t.propletId == "") ==>
                  r.ok)
  {
    if CreateTask(w, t, freshId).ok && t.dependsOn != [] {
      var stored := OfWorkflow(w.tasks, t.workflowId);
      var all := stored + [t];
      OfWorkflowMembers(w.tasks, t.workflowId);
      hide OfWorkflow, Acyclic, GraphOf, MissingListedTwice;
      assert all[|stored|] == t;
      forall d | d in t.dependsOn ensures d in w.tasks && w.tasks[d].workflowId == t.workflowId {
        assert all[|stored|].id !in all[|stored|].dependsOn;
        var j :| 0 <= j < |all| && all[j].id == d;
        assert all[j] in stored;
      }
    }
  }
}
