/**
  * What passes and result messages make of the tasks, told by the stored states alone: which tasks a pass starts and
  * skips, and what a result leaves of its task, of the tasks behind it and of the rest of its job.
  */
module Outcomes {
  import opened Tasks
  import opened TaskStore
  import opened Dag
  import opened World
  import opened Coordinator
  import opened Completion
  import opened Liveness

  // ---------- Passes ----------

  /** Every dependency is stored in the workflow and will not run any more. */
  predicate DepsDone(tasks: map<string, Task>, workflowId: string, t: Task) {
    forall d :: d in t.dependsOn ==>
      d in tasks && tasks[d].workflowId == workflowId && tasks[d].state in {Completed, Failed, Skipped, Interrupted}
  }

  /** run_if: by default every dependency has to be completed; for a failure handler some one has to be failed. */
  predicate Wanted(tasks: map<string, Task>, t: Task) {
    || t.dependsOn == []
    || (t.runIf in {"", "success"} && forall d :: d in t.dependsOn ==> d in tasks && tasks[d].state == Completed)
    || (t.runIf == "failure" && exists d :: d in t.dependsOn && d in tasks && tasks[d].state == Failed)
  }

  lemma DoneIsFinished(w: World, workflowId: string, t: Task)
    ensures DepsDone(w.tasks, workflowId, t) <==> AllFinished(w, workflowId, t)
  {
  }

  lemma WantedRuns(w: World, workflowId: string, t: Task)
    requires DepsDone(w.tasks, workflowId, t)
    ensures ShouldRun(t, Finished(w.tasks, workflowId)) <==> Wanted(w.tasks, t)
  {
    var finished := Finished(w.tasks, workflowId);
    assert forall d :: d in t.dependsOn ==> d in finished && finished[d] == w.tasks[d].state;
    hide Finished;
  }

  /**
    * A pass changes a task only if it is pending with all its dependencies done. It makes it run only if its run_if
    * holds over the stored states, and skips it exactly if it does not.
    */
  lemma PassOutcome(w: World, workflowId: string, o: Oracle, depth: nat, id: string)
    requires WellKeyed(w.tasks) && workflowId != "" && !Stuck(w, workflowId) && id in w.tasks
    ensures id in Pass(w, workflowId, o, depth).w.tasks
    ensures var t, t' := w.tasks[id], Pass(w, workflowId, o, depth).w.tasks[id];
            && (t' != t ==>
                  && t.workflowId == workflowId && t.state == Pending && DepsDone(w.tasks, workflowId, t)
                  && t'.state in {Running, Failed, Skipped}
                  && t' == t.(state := t'.state, propletId := t'.propletId, error := t'.error))
            && (t' != t && t'.state in {Running, Failed} ==> Wanted(w.tasks, t))
            && (t.workflowId == workflowId && t.state == Pending ==>
                  && (t'.state == Skipped <==> DepsDone(w.tasks, workflowId, t) && !Wanted(w.tasks, t))
                  && (t'.state == Skipped ==> t' == t.(state := Skipped)))
  {
    hide Stuck, Pass, ShouldRun, Finished, Ready, Smooth, DepsDone, Wanted, AllFinished;
    var t := w.tasks[id];
    FreePassReturns(w, workflowId, o, depth);
    PassEffect(w, workflowId, o, id);
    FreeIsSmooth(w, workflowId);
    PassRestates(w, workflowId, o);
    assert Restated(t, Pass(w, workflowId, o, 0).w.tasks[id]);
    DoneIsFinished(w, workflowId, t);
    AllFinishedMeans(w, workflowId, t);
    if DepsDone(w.tasks, workflowId, t) {
      WantedRuns(w, workflowId, t);
    }
  }

  lemma AllFinishedMeans(w: World, workflowId: string, t: Task)
    ensures AllFinished(w, workflowId, t) <==> forall d :: d in t.dependsOn ==>
              d in w.tasks && w.tasks[d].workflowId == workflowId && w.tasks[d].state.IsTerminal()
  {
  }

  lemma ReadyIsDone(w: World, wf: string, id: string)
    requires WellKeyed(w.tasks) && id in w.tasks && w.tasks[id].workflowId == wf && w.tasks[id].state.Pending?
    ensures id in ReadyIds(w, wf) <==> DepsDone(w.tasks, wf, w.tasks[id])
  {
    var t, finished := w.tasks[id], Finished(w.tasks, wf);
    PassSnapshot(w, wf);
    ReadyMeans(w, wf, t);
    DoneIsFinished(w, wf, t);
    hide Ready, Finished, IsReady, AllFinished, DepsDone, Snapshot;
    if IsReady(t, finished) {
      assert t in Ready(w.tasks, wf);
    }
    if id in ReadyIds(w, wf) {
      var t' :| t' in Ready(w.tasks, wf) && t'.id == id;
      assert t' == t;
    }
  }

  /** If every start succeeds, the pending tasks with all dependencies done run or are skipped, as their run_if says. */
  lemma WillingOutcome(w: World, wf: string, o: Oracle, id: string)
    requires Runnable(w, wf) && Willing(w, wf, o)
    requires id in w.tasks && w.tasks[id].workflowId == wf && w.tasks[id].state == Pending
    ensures id in Pass(w, wf, o, 0).w.tasks
    ensures Pass(w, wf, o, 0).w.tasks[id].state ==
            if !DepsDone(w.tasks, wf, w.tasks[id]) then Pending
            else if Wanted(w.tasks, w.tasks[id]) then Running
            else Skipped
  {
    hide Willing, Pass, DepsDone, Wanted, AllMoved, Ready, ReadyIds, Stuck, Runnable, WellKeyed;
    RunnableFacts(w, wf);
    RunnableNamed(w, wf);
    WillingPass(w, wf, o);
    MovedTask(w, Pass(w, wf, o, 0).w, wf, id);
    PassOutcome(w, wf, o, 0, id);
    ReadyIsDone(w, wf, id);
  }

  lemma RunnableNamed(w: World, wf: string)
    requires Runnable(w, wf)
    ensures wf != ""
  {
  }

  // ---------- The task of a result ----------

  /** A start leaves a finished task alone, unless it is the one that is started. */
  lemma StartLeaves(w: World, x: string, o: Oracle, id: string)
    requires WellKeyed(w.tasks) && !Spins(w, x) && x != id && id in w.tasks && w.tasks[id].state.IsTerminal()
    ensures var w' := StartTask(w, x, o, 1).w; id in w'.tasks && w'.tasks[id] == w.tasks[id]
  {
    hide Dispatch, Pass, Stuck;
    if x in w.tasks {
      DispatchTouches(w, w.tasks[x], o(x));
      if w.tasks[x].workflowId != "" && !Stuck(w, w.tasks[x].workflowId) {
        PassKeepsFinished(w, w.tasks[x].workflowId, o, id);
      }
    }
  }

  lemma {:induction false} DependentsLeave(w: World, tasks: seq<Task>, doneId: string, o: Oracles, id: string)
    requires WellKeyed(w.tasks) && !DependentsSpin(w, tasks, doneId, o)
    requires id in w.tasks && w.tasks[id].state.IsTerminal()
    requires forall i :: 0 <= i < |tasks| && tasks[i].state.Pending? ==> tasks[i].id != id
    ensures var w' := StartDependents(w, tasks, doneId, o, 1).w; id in w'.tasks && w'.tasks[id] == w.tasks[id]
    decreases |tasks|
  {
    hide WellKeyed, StartTask, Spins, AllTerminal;
    if tasks != [] {
      var t := tasks[0];
      if Waits(w, t, doneId) {
        var w1 := StartTask(w, t.id, o(t.id), 1).w;
        StartReturns(w, t.id, o(t.id));
        StartLeaves(w, t.id, o(t.id), id);
        StartRestates(w, t.id, o(t.id));
        RestatesKeyed(w, w1);
        DependentsLeave(w1, tasks[1..], doneId, o, id);
      } else {
        DependentsLeave(w, tasks[1..], doneId, o, id);
      }
    }
  }

  /** Handling a result that comes back is its part before the pass and the pass, at any depth. */
  lemma ResultsSame(w: World, id: string, error: string, published: string -> bool, oJob: Oracles, o: Oracle,
                    depth: nat)
    requires WellKeyed(w.tasks) && UpdateResults(w, id, error, published, oJob, o, depth).returned && id in w.tasks
    ensures !ResultsSpin(w, id, error, published, oJob)
    ensures UpdateResults(w, id, error, published, oJob, o, depth)
         == OnTaskCompletion(BeforePass(w, id, error, published, oJob), id, o, 0)
  {
    hide UpdateResults, WellKeyed, OnTaskCompletion, StartDependents, DependentsSpin, Stuck, OfJob, JobGoesOn;
    ResultsStable(w, id, error, published, oJob, o, depth);
    var w1, w2 := Finish(w, id, error), BeforePass(w, id, error, published, oJob);
    FinishKeyed(w, id, error);
    hide Finish;
    ResultsAre(w, id, error, published, oJob, o, depth);
    if JobGoesOn(w1, id, error) {
      DependentsStable(w1, OfJob(w1.tasks, w1.tasks[id].jobId), id, oJob, depth);
      BeforePassIs(w, id, error, published, oJob);
    }
    hide BeforePass;
    BeforePassKeyed(w, id, error, published, oJob);
    CompletionTerminates(w2, id, o, depth);
  }

  lemma BeforePassLeaves(w: World, id: string, error: string, published: string -> bool, oJob: Oracles)
    requires WellKeyed(w.tasks) && id in w.tasks && !ResultsSpin(w, id, error, published, oJob)
    ensures var w2 := BeforePass(w, id, error, published, oJob);
            id in w2.tasks && w2.tasks[id] == Finish(w, id, error).tasks[id]
  {
    var w1 := Finish(w, id, error);
    FinishKeyed(w, id, error);
    assert w1.tasks[id].state.IsTerminal();
    var jobTasks := OfJob(w1.tasks, w1.tasks[id].jobId);
    OfJobMembers(w1.tasks, w1.tasks[id].jobId);
    hide Finish, OfJob, StopActive, StartDependents, DependentsSpin, JobGoesOn, Stuck, WellKeyed;
    StopActiveLeaves(w1, jobTasks, published);
    if JobGoesOn(w1, id, error) {
      forall i | 0 <= i < |jobTasks| && jobTasks[i].state.Pending? ensures jobTasks[i].id != id {
        assert jobTasks[i] in jobTasks;
      }
      DependentsLeave(w1, jobTasks, id, oJob, id);
    }
  }

  /**
    * Whenever the handling of a result comes back, its task is completed, or failed with exactly the error that was
    * reported, and otherwise as it was: neither the rest of its job nor the completion pass has touched it.
    */
  lemma ResultOutcome(w: World, id: string, error: string, published: string -> bool, oJob: Oracles, o: Oracle,
                      depth: nat)
    requires WellKeyed(w.tasks) && id in w.tasks && UpdateResults(w, id, error, published, oJob, o, depth).returned
    ensures var w' := UpdateResults(w, id, error, published, oJob, o, depth).w;
            && id in w'.tasks
            && w'.tasks[id] == if error == "" then w.tasks[id].(state := Completed)
                               else w.tasks[id].(state := Failed, error := error)
  {
    var w2 := BeforePass(w, id, error, published, oJob);
    ResultsSame(w, id, error, published, oJob, o, depth);
    BeforePassLeaves(w, id, error, published, oJob);
    BeforePassOf(w, id, error, published, oJob);
    hide UpdateResults, BeforePass, Pass, Stuck, WellKeyed;
    if w2.tasks[id].workflowId != "" {
      PassKeepsFinished(w2, w2.tasks[id].workflowId, o, id);
    }
  }

  /** The world in which the completion pass runs is sound, and its workflow is not stuck. */
  lemma BeforePassOf(w: World, id: string, error: string, published: string -> bool, oJob: Oracles)
    requires WellKeyed(w.tasks) && id in w.tasks && !ResultsSpin(w, id, error, published, oJob)
    ensures var w2 := BeforePass(w, id, error, published, oJob);
            && WellKeyed(w2.tasks) && id in w2.tasks && w2.tasks[id].workflowId == w.tasks[id].workflowId
            && !Stuck(w2, w.tasks[id].workflowId)
  {
    BeforePassKeyed(w, id, error, published, oJob);
    hide BeforePass, Finish, DependentsSpin, Stuck, WellKeyed, OfJob, JobGoesOn, NoInterrupted;
  }

  // ---------- The tasks behind a result ----------

  /** The stored tasks once the result is noted. */
  function Noted(tasks: map<string, Task>, id: string, error: string): map<string, Task>
    requires id in tasks
  {
    tasks[id := if error == "" then tasks[id].(state := Completed) else tasks[id].(state := Failed, error := error)]
  }

  lemma FinishNotes(w: World, id: string, error: string)
    requires id in w.tasks
    ensures Finish(w, id, error) == w.(tasks := Noted(w.tasks, id, error))
  {
  }

  /** Without a job, and for a failure in one, only the result is noted before the pass. */
  lemma PlainBeforePass(w: World, id: string, error: string, published: string -> bool, oJob: Oracles)
    requires id in w.tasks && (w.tasks[id].jobId == "" || error != "")
    ensures BeforePass(w, id, error, published, oJob).tasks == Noted(w.tasks, id, error)
  {
    FinishNotes(w, id, error);
    var w1 := Finish(w, id, error);
    StopActiveLeaves(w1, OfJob(w1.tasks, w1.tasks[id].jobId), published);
    hide StopActive, OfJob, StartDependents;
  }

  /**
    * Without a job, and for a failure in one, a result changes another task only if that is pending in the workflow
    * with all its dependencies done. It makes it run only if its run_if holds with the result noted, and skips it
    * exactly if it does not.
    */
  lemma ResultBehind(w: World, id: string, error: string, published: string -> bool, oJob: Oracles, o: Oracle,
                     depth: nat, x: string)
    requires WellKeyed(w.tasks) && id in w.tasks && UpdateResults(w, id, error, published, oJob, o, depth).returned
    requires (w.tasks[id].jobId == "" || error != "") && x in w.tasks && x != id
    ensures x in UpdateResults(w, id, error, published, oJob, o, depth).w.tasks
    ensures var wf, tasks, t := w.tasks[id].workflowId, Noted(w.tasks, id, error), w.tasks[x];
            var t' := UpdateResults(w, id, error, published, oJob, o, depth).w.tasks[x];
            && (t' != t ==>
                  && t.workflowId == wf != "" && t.state == Pending && DepsDone(tasks, wf, t)
                  && t'.state in {Running, Failed, Skipped})
            && (t' != t && t'.state in {Running, Failed} ==> Wanted(tasks, t))
            && (t.workflowId == wf != "" && t.state == Pending ==>
                  && (t'.state == Skipped <==> DepsDone(tasks, wf, t) && !Wanted(tasks, t))
                  && (t'.state == Skipped ==> t' == t.(state := Skipped)))
  {
    var w2, wf := BeforePass(w, id, error, published, oJob), w.tasks[id].workflowId;
    ResultsSame(w, id, error, published, oJob, o, depth);
    BeforePassOf(w, id, error, published, oJob);
    PlainBeforePass(w, id, error, published, oJob);
    hide UpdateResults, BeforePass, Pass, Stuck, WellKeyed, DepsDone, Wanted;
    if wf != "" {
      PassOutcome(w2, wf, o, 0, x);
    }
  }

  /** A failure makes no task run that waits for the failed one to succeed. */
  lemma FailureBlocks(w: World, id: string, error: string, published: string -> bool, oJob: Oracles, o: Oracle,
                      depth: nat, x: string)
    requires WellKeyed(w.tasks) && id in w.tasks && UpdateResults(w, id, error, published, oJob, o, depth).returned
    requires error != "" && x in w.tasks && id in w.tasks[x].dependsOn && w.tasks[x].runIf in {"", "success"}
    requires w.tasks[x].state !in {Running, Scheduled}
    ensures var w' := UpdateResults(w, id, error, published, oJob, o, depth).w;
            x in w'.tasks && w'.tasks[x].state !in {Running, Scheduled}
  {
    hide UpdateResults, WellKeyed, Wanted, DepsDone, Noted;
    ResultOutcome(w, id, error, published, oJob, o, depth);
    if x != id {
      ResultBehind(w, id, error, published, oJob, o, depth, x);
      FailureUnwanted(w.tasks, id, error, w.tasks[x]);
    }
  }

  lemma FailureUnwanted(tasks: map<string, Task>, id: string, error: string, t: Task)
    requires id in tasks && error != "" && id in t.dependsOn && t.runIf in {"", "success"}
    ensures !Wanted(Noted(tasks, id, error), t)
  {
  }
}
