/** What the result of an active task leaves active and pending, and the workflow that it leaves behind. */
module SkipChains {
  import opened Tasks
  import opened Graph
  import opened TaskStore
  import opened Dag
  import opened World
  import opened Creation
  import opened Coordinator
  import opened Completion
  import opened Liveness

  // ---------- Results of active tasks alone are not enough ----------

  /** Nothing starts exactly when every ready task that is not active fails its run condition. */
  lemma NothingStarts(w: World, wf: string)
    requires WellKeyed(w.tasks)
    ensures Starting(w, wf) == {} <==>
            forall t :: t in Ready(w.tasks, wf) && !t.state.IsActive() ==> !ShouldRun(t, Finished(w.tasks, wf))
  {
    PassSnapshot(w, wf);
    hide ShouldRun, Finished, Ready, Snapshot;
    forall t | t in Ready(w.tasks, wf) && !t.state.IsActive()
      ensures t.id in PendingIn(w, wf) && t.id in ReadyIds(w, wf)
    {
      NotTerminal(t, Finished(w.tasks, wf));
    }
    hide IsReady;
    if Starting(w, wf) != {} {
      var id :| id in Starting(w, wf);
      var t :| t in Ready(w.tasks, wf) && t.id == id;
      assert w.tasks[id] == t && !t.state.IsActive() && ShouldRun(t, Finished(w.tasks, wf));
    }
    if t :| t in Ready(w.tasks, wf) && !t.state.IsActive() && ShouldRun(t, Finished(w.tasks, wf)) {
      assert t.id in Starting(w, wf);
    }
  }

  /** What the result of an active task leaves, in a job or not, in terms of the world in which its pass runs. */
  lemma ResultLeaves(w: World, wf: string, id: string, error: string, published: string -> bool, oJob: Oracles,
                     o: Oracle)
    requires Runnable(w, wf) && id in ActiveIn(w, wf) && id in w.tasks
    requires Willing(BeforePass(w, id, error, published, oJob), wf, o)
    ensures var w2, w' := BeforePass(w, id, error, published, oJob),
              UpdateResults(w, id, error, published, oJob, o, 1).w;
            && ActiveIn(w', wf) == ActiveIn(w2, wf) + Starting(w2, wf)
            && PendingIn(w', wf) == PendingIn(w2, wf) - ReadyIds(w2, wf)
  {
    hide Runnable, Pass, UpdateResults, BeforePass, Willing, ActiveIn, PendingIn, ReadyIds, Starting, Members,
         Unfinished, Eased;
    DeliverIsPass(w, wf, id, error, published, oJob, o);
    BeforePassWorks(w, wf, id, error, published, oJob);
    PassActives(BeforePass(w, id, error, published, oJob), wf, o);
  }

  /**
    * The result of an active task outside a job leaves nothing active if and only if the task was the last active one
    * and every ready task fails its run condition. The ready tasks are then skipped, and whatever waits behind them
    * is still pending: no result of an active task will start the pass that it needs.
    */
  lemma SkipsWaitForAnotherPass(w: World, wf: string, id: string, error: string,
                                published: string -> bool, oJob: Oracles, o: Oracle)
    requires Runnable(w, wf) && id in ActiveIn(w, wf) && id in w.tasks && w.tasks[id].jobId == ""
    requires Willing(Finish(w, id, error), wf, o)
    ensures var w1, w' := Finish(w, id, error), UpdateResults(w, id, error, published, oJob, o, 1).w;
            && (ActiveIn(w', wf) == {} <==>
                  && ActiveIn(w, wf) == {id}
                  && forall t :: t in Ready(w1.tasks, wf) && !t.state.IsActive() ==>
                       !ShouldRun(t, Finished(w1.tasks, wf)))
            && PendingIn(w', wf) == PendingIn(w, wf) - ReadyIds(w1, wf)
  {
    OutsideJobPlain(w, id, error, published, oJob);
    ResultLeaves(w, wf, id, error, published, oJob, o);
    FinishWorks(w, wf, id, error);
    FinishSets(w, wf, id, error);
    RunnableFacts(Finish(w, id, error), wf);
    NothingStarts(Finish(w, id, error), wf);
    hide Runnable, UpdateResults, BeforePass, Willing, ActiveIn, PendingIn, ReadyIds, Starting, Members, Unfinished,
         Finish, Ready, ShouldRun, Finished, WellKeyed, Stuck;
  }

  lemma OutsideJobPlain(w: World, id: string, error: string, published: string -> bool, oJob: Oracles)
    requires id in w.tasks && w.tasks[id].jobId == ""
    ensures BeforePass(w, id, error, published, oJob) == Finish(w, id, error)
  {
    hide StopActive, OfJob, StartDependents;
  }

  /** A result is accepted from a finished task too: repeated or late, it runs the pass of its workflow again. */
  lemma AnyResultRunsPass(w: World, id: string, error: string, published: string -> bool, oJob: Oracles, o: Oracle,
                          depth: nat)
    requires id in w.tasks && w.tasks[id].jobId == "" && w.tasks[id].workflowId != ""
    ensures UpdateResults(w, id, error, published, oJob, o, depth)
         == Pass(Finish(w, id, error), w.tasks[id].workflowId, o, depth)
  {
    hide Pass, OfJob, StartDependents, StopActive;
  }

  // A workflow that is left behind: a runs, b handles its failure, c follows b.

  const RUNNING := Task("a", "", Running, [], "", "wf", "", "p", false, "", map[])
  const ON_FAILURE := Task("b", "", Pending, ["a"], RUN_IF_FAILURE, "wf", "", "", false, "", map[])
  const BEHIND := Task("c", "", Pending, ["b"], "", "wf", "", "", false, "", map[])
  const SKIP_CHAIN := World(map["a" := RUNNING, "b" := ON_FAILURE, "c" := BEHIND], map["p" := Proplet(1, "", [])],
                            map["a" := "p"], map[], false, [])

  lemma ChainGraph()
    ensures StoreGraph(SKIP_CHAIN.tasks) == map["a" := [], "b" := ["a"], "c" := ["b"]]
  {
  }

  lemma ChainAcyclic()
    ensures Acyclic(StoreGraph(SKIP_CHAIN.tasks))
  {
    ChainGraph();
    hide StoreGraph;
    var g, order := map["a" := [], "b" := ["a"], "c" := ["b"]], ["a", "b", "c"];
    assert order[..1] == ["a"] && order[..2] == ["a", "b"];
    TopoOrderAcyclic(g, order);
  }

  lemma ChainSets()
    ensures Members(SKIP_CHAIN, "wf") == {"a", "b", "c"}
    ensures ActiveIn(SKIP_CHAIN, "wf") == {"a"} && PendingIn(SKIP_CHAIN, "wf") == {"b", "c"}
  {
  }

  lemma ChainRunnable()
    ensures Runnable(SKIP_CHAIN, "wf") && Servable(SKIP_CHAIN, "wf", "p")
    ensures ActiveIn(SKIP_CHAIN, "wf") == {"a"} && PendingIn(SKIP_CHAIN, "wf") == {"b", "c"}
  {
    ChainAcyclic();
    ChainSets();
    hide Acyclic, StoreGraph, Members, ActiveIn, PendingIn;
  }

  const FINISHED := Finish(SKIP_CHAIN, "a", "")

  lemma ChainFinished()
    ensures FINISHED.tasks == map["a" := RUNNING.(state := Completed), "b" := ON_FAILURE, "c" := BEHIND]
    ensures Finished(FINISHED.tasks, "wf") == map["a" := Completed]
  {
  }

  lemma ChainKeyed()
    ensures WellKeyed(FINISHED.tasks)
  {
  }

  lemma ChainStates()
    ensures IsReady(ON_FAILURE, map["a" := Completed]) && !ShouldRun(ON_FAILURE, map["a" := Completed])
    ensures !IsReady(RUNNING.(state := Completed), map["a" := Completed])
    ensures !IsReady(BEHIND, map["a" := Completed])
  {
    assert "b" in BEHIND.dependsOn;
  }

  lemma ChainReady(t: Task)
    ensures t in Ready(FINISHED.tasks, "wf") <==> t == ON_FAILURE
    ensures !ShouldRun(ON_FAILURE, Finished(FINISHED.tasks, "wf"))
  {
    ChainKeyed();
    PassSnapshot(FINISHED, "wf");
    ChainFinished();
    ChainStates();
    hide Ready, Snapshot, Finished, IsReady, ShouldRun, WellKeyed;
  }

  lemma ChainReadyIds()
    ensures ReadyIds(FINISHED, "wf") == {"b"}
  {
    ChainReady(ON_FAILURE);
    assert ON_FAILURE in Ready(FINISHED.tasks, "wf");
    hide Ready;
    forall x | x in ReadyIds(FINISHED, "wf") ensures x == "b" {
      var t :| t in Ready(FINISHED.tasks, "wf") && t.id == x;
      ChainReady(t);
    }
  }

  /** When a succeeds, b is skipped and c is left pending with nothing active. */
  lemma SkipChainIsLeft(published: string -> bool, oJob: Oracles)
    ensures var w' := UpdateResults(SKIP_CHAIN, "a", "", published, oJob, Serving("p"), 1).w;
            ActiveIn(w', "wf") == {} && PendingIn(w', "wf") == {"c"}
  {
    ChainRunnable();
    hide UpdateResults, Runnable, Servable, Serving, Willing, ReadyIds, Ready, ActiveIn, PendingIn, Members,
         Unfinished, ShouldRun, Finished;
    FinishRunnable(SKIP_CHAIN, "wf", "a", "");
    FinishServable(SKIP_CHAIN, "wf", "p", "a", "");
    ServingIsWilling(FINISHED, "wf", "p");
    forall t | t in Ready(FINISHED.tasks, "wf") ensures !ShouldRun(t, Finished(FINISHED.tasks, "wf")) {
      ChainReady(t);
    }
    ChainReadyIds();
    SkipsWaitForAnotherPass(SKIP_CHAIN, "wf", "a", "", published, oJob, Serving("p"));
  }
}
