/** Result messages: what they do beyond the task itself, and when handling one comes back. */
module Completion {
  import opened Tasks
  import opened TaskStore
  import opened Dag
  import opened World
  import opened Coordinator

  predicate SameButState(t: Task, t': Task) {
    t' == t.(state := t'.state, propletId := t'.propletId, error := t'.error)
  }

  ghost predicate NoInterrupted(w: World) {
    forall id :: id in w.tasks ==> !w.tasks[id].state.Interrupted?
  }

  // ---------- What one start leaves behind ----------

  /** The same task, or one that was started, skipped or failed at its publish. */
  predicate Restated(t: Task, t': Task) {
    t' == t || (t'.state in {Running, Failed, Skipped} && SameButState(t, t'))
  }

  ghost predicate OnlyRestates(w: World, w': World) {
    && w'.shuttingDown == w.shuttingDown
    && w'.tasks.Keys == w.tasks.Keys
    && forall x :: x in w.tasks ==> Restated(w.tasks[x], w'.tasks[x])
  }

  lemma DispatchRestates(w: World, id: string, c: Choice)
    requires WellKeyed(w.tasks) && id in w.tasks
    ensures OnlyRestates(w, Dispatch(w, w.tasks[id], c).w)
  {
    var t, w' := w.tasks[id], Dispatch(w, w.tasks[id], c).w;
    DispatchTouches(w, t, c);
    DispatchFate(w, t, c);
    hide Dispatch;
    forall x | x in w.tasks ensures Restated(w.tasks[x], w'.tasks[x]) {
      assert x != id ==> w'.tasks[x] == w.tasks[x];
    }
  }

  lemma FateRestates(t: Task, t': Task, finished: map<string, State>)
    requires Fate(t, t', finished)
    ensures Restated(t, t')
  {
    hide ShouldRun;
  }

  lemma PassRestates(w: World, workflowId: string, o: Oracle)
    requires WellKeyed(w.tasks) && (w.shuttingDown || Smooth(Ready(w.tasks, workflowId), Finished(w.tasks, workflowId)))
    ensures OnlyRestates(w, Pass(w, workflowId, o, 0).w)
  {
    var ready, finished := Ready(w.tasks, workflowId), Finished(w.tasks, workflowId);
    var w' := Pass(w, workflowId, o, 0).w;
    hide Ready, Finished, IsReady, Stuck, Snapshot, Fate, Restated, Smooth;
    PassSnapshot(w, workflowId);
    PassOverEffect(w, ready, finished, o);
    assert PassDone(w, w', ready, finished);
    assert w'.tasks.Keys == w.tasks.Keys && w'.shuttingDown == w.shuttingDown;
    hide PassDone, Pass;
    forall x | x in w.tasks ensures Restated(w.tasks[x], w'.tasks[x]) {
      var t := w.tasks[x];
      if t in ready {
        PassMet(w, w', ready, finished, t);
        FateRestates(t, w'.tasks[x], finished);
      } else {
        PassLeft(w, w', ready, finished, x);
        SameRestates(t);
      }
    }
  }

  lemma SameRestates(t: Task)
    ensures Restated(t, t)
  {
  }

  /** A start that comes back only restates tasks, at any depth in the same way. */
  lemma StartRestates(w: World, id: string, o: Oracle)
    requires WellKeyed(w.tasks) && !Spins(w, id)
    ensures OnlyRestates(w, StartTask(w, id, o, 1).w)
  {
    hide Dispatch, Pass, Stuck, Restated;
    forall x | x in w.tasks ensures Restated(w.tasks[x], w.tasks[x]) {
      SameRestates(w.tasks[x]);
    }
    if id in w.tasks {
      DispatchRestates(w, id, o(id));
      if w.tasks[id].workflowId != "" && !Stuck(w, w.tasks[id].workflowId) {
        FreeIsSmooth(w, w.tasks[id].workflowId);
        PassRestates(w, w.tasks[id].workflowId, o);
      }
    }
  }

  lemma StartStable(w: World, id: string, o: Oracle, depth: nat)
    requires WellKeyed(w.tasks) && StartTask(w, id, o, depth).returned
    ensures !Spins(w, id) && StartTask(w, id, o, depth) == StartTask(w, id, o, 1)
  {
    if Spins(w, id) {
      SpinDiverges(w, id, o, depth);
    }
    hide Dispatch, Pass, Stuck;
    if id in w.tasks && w.tasks[id].workflowId != "" && !Stuck(w, w.tasks[id].workflowId) && depth > 0 {
      FreePassReturns(w, w.tasks[id].workflowId, o, depth - 1);
    }
  }

  lemma RestatesKeyed(w: World, w': World)
    requires WellKeyed(w.tasks) && OnlyRestates(w, w')
    ensures WellKeyed(w'.tasks)
    ensures NoInterrupted(w) ==> NoInterrupted(w')
    ensures forall x :: x in w.tasks ==> w'.tasks[x].workflowId == w.tasks[x].workflowId
  {
    forall x | x in w.tasks
      ensures w'.tasks[x].id == x && x != "" && w'.tasks[x].workflowId == w.tasks[x].workflowId
    {
      assert Restated(w.tasks[x], w'.tasks[x]);
    }
  }

  lemma RestatesTransitive(w: World, w1: World, w2: World)
    requires OnlyRestates(w, w1) && OnlyRestates(w1, w2)
    ensures OnlyRestates(w, w2)
  {
    forall x | x in w.tasks ensures Restated(w.tasks[x], w2.tasks[x]) {
      assert Restated(w.tasks[x], w1.tasks[x]) && Restated(w1.tasks[x], w2.tasks[x]);
    }
  }

  lemma RestatesNothing(w: World)
    ensures OnlyRestates(w, w)
  {
  }

  // ---------- The dependents of a job task ----------

  predicate Waits(w: World, t: Task, doneId: string) {
    t.state.Pending? && doneId in t.dependsOn && AllTerminal(w.tasks, t.dependsOn)
  }

  /** Some start of the series hands over to a pass over a stuck workflow. */
  ghost predicate DependentsSpin(w: World, tasks: seq<Task>, doneId: string, o: Oracles)
    decreases |tasks|
  {
    tasks != [] &&
    var t := tasks[0];
    if Waits(w, t, doneId)
    then Spins(w, t.id) || DependentsSpin(StartTask(w, t.id, o(t.id), 1).w, tasks[1..], doneId, o)
    else DependentsSpin(w, tasks[1..], doneId, o)
  }

  lemma {:induction false} DependentsStable(w: World, tasks: seq<Task>, doneId: string, o: Oracles, depth: nat)
    requires WellKeyed(w.tasks) && StartDependents(w, tasks, doneId, o, depth).returned
    ensures !DependentsSpin(w, tasks, doneId, o)
    ensures StartDependents(w, tasks, doneId, o, depth) == StartDependents(w, tasks, doneId, o, 1)
    decreases |tasks|
  {
    hide WellKeyed, StartTask, Spins, AllTerminal;
    if tasks != [] {
      var t := tasks[0];
      if Waits(w, t, doneId) {
        StartStable(w, t.id, o(t.id), depth);
        StartRestates(w, t.id, o(t.id));
        RestatesKeyed(w, StartTask(w, t.id, o(t.id), 1).w);
        DependentsStable(StartTask(w, t.id, o(t.id), 1).w, tasks[1..], doneId, o, depth);
      } else {
        DependentsStable(w, tasks[1..], doneId, o, depth);
      }
    }
  }

  lemma {:induction false} DependentsReturn(w: World, tasks: seq<Task>, doneId: string, o: Oracles)
    requires WellKeyed(w.tasks) && !DependentsSpin(w, tasks, doneId, o)
    ensures StartDependents(w, tasks, doneId, o, 1).returned
    ensures OnlyRestates(w, StartDependents(w, tasks, doneId, o, 1).w)
    decreases |tasks|
  {
    hide WellKeyed, StartTask, Spins, AllTerminal, OnlyRestates;
    if tasks == [] {
      RestatesNothing(w);
    } else {
      var t := tasks[0];
      if Waits(w, t, doneId) {
        var w1 := StartTask(w, t.id, o(t.id), 1).w;
        StartReturns(w, t.id, o(t.id));
        StartRestates(w, t.id, o(t.id));
        RestatesKeyed(w, w1);
        DependentsReturn(w1, tasks[1..], doneId, o);
        RestatesTransitive(w, w1, StartDependents(w1, tasks[1..], doneId, o, 1).w);
      } else {
        DependentsReturn(w, tasks[1..], doneId, o);
      }
    }
  }

  /** Starting the dependents comes back if and only if none of the starts spins. */
  lemma DependentsTerminate(w: World, tasks: seq<Task>, doneId: string, o: Oracles)
    requires WellKeyed(w.tasks)
    ensures (exists depth: nat :: StartDependents(w, tasks, doneId, o, depth).returned) <==>
              !DependentsSpin(w, tasks, doneId, o)
    ensures !DependentsSpin(w, tasks, doneId, o) ==> StartDependents(w, tasks, doneId, o, 1).returned
  {
    hide StartDependents, DependentsSpin;
    if depth: nat :| StartDependents(w, tasks, doneId, o, depth).returned {
      DependentsStable(w, tasks, doneId, o, depth);
    }
    if !DependentsSpin(w, tasks, doneId, o) {
      DependentsReturn(w, tasks, doneId, o);
    }
  }

  // ---------- A whole result message ----------

  /** The result of a job task starts dependents: it succeeded, the job goes on and nothing in it failed. */
  ghost predicate JobGoesOn(w1: World, id: string, error: string)
    requires id in w1.tasks
  {
    var jobId := w1.tasks[id].jobId;
    && jobId != "" && error == ""
    && !(forall t :: t in OfJob(w1.tasks, jobId) ==> t.state.Completed? || t.state.Skipped?)
    && !(exists t :: t in OfJob(w1.tasks, jobId) && t.state.Failed?)
  }

  /** The world in which the completion pass runs. */
  ghost function BeforePass(w: World, id: string, error: string, published: string -> bool, oJob: Oracles): World
    requires id in w.tasks
  {
    var w1 := Finish(w, id, error);
    var jobId := w1.tasks[id].jobId;
    if jobId != "" && error != "" then StopActive(w1, OfJob(w1.tasks, jobId), published)
    else if JobGoesOn(w1, id, error) then StartDependents(w1, OfJob(w1.tasks, jobId), id, oJob, 1).w
    else w1
  }

  /** The message starts a dependent that spins, or runs its pass over a stuck workflow. */
  ghost predicate ResultsSpin(w: World, id: string, error: string, published: string -> bool, oJob: Oracles) {
    id in w.tasks &&
    var w1 := Finish(w, id, error);
    || (JobGoesOn(w1, id, error) && DependentsSpin(w1, OfJob(w1.tasks, w1.tasks[id].jobId), id, oJob))
    || Stuck(BeforePass(w, id, error, published, oJob), w.tasks[id].workflowId)
  }

  lemma {:induction false} StopActiveLeaves(w: World, tasks: seq<Task>, published: string -> bool)
    ensures var w' := StopActive(w, tasks, published);
            && w'.tasks == w.tasks && w'.shuttingDown == w.shuttingDown && w'.proplets.Keys == w.proplets.Keys
            && w'.pins.Keys <= w.pins.Keys
    decreases |tasks|
  {
    if tasks != [] {
      var w1 := if tasks[0].state.IsActive() then StopTask(w, tasks[0].id, published(tasks[0].id)).w else w;
      StopActiveLeaves(w1, tasks[1..], published);
    }
  }

  lemma FinishKeyed(w: World, id: string, error: string)
    requires WellKeyed(w.tasks) && id in w.tasks
    ensures var w1 := Finish(w, id, error);
            && WellKeyed(w1.tasks) && w1.tasks.Keys == w.tasks.Keys && w1.tasks[id].workflowId == w.tasks[id].workflowId
            && w1.tasks[id].jobId == w.tasks[id].jobId
            && (NoInterrupted(w) ==> NoInterrupted(w1))
  {
  }

  /** The task is still there and in its workflow, and nothing was interrupted. */
  ghost predicate Continues(w: World, w': World, id: string) {
    && WellKeyed(w'.tasks)
    && id in w.tasks && id in w'.tasks && w'.tasks[id].workflowId == w.tasks[id].workflowId
    && (NoInterrupted(w) ==> NoInterrupted(w'))
  }

  lemma StopContinues(w: World, w1: World, tasks: seq<Task>, published: string -> bool, id: string)
    requires Continues(w, w1, id)
    ensures Continues(w, StopActive(w1, tasks, published), id)
  {
    StopActiveLeaves(w1, tasks, published);
    hide StopActive;
  }

  lemma DependentsContinue(w: World, w1: World, tasks: seq<Task>, doneId: string, o: Oracles, id: string)
    requires Continues(w, w1, id) && !DependentsSpin(w1, tasks, doneId, o)
    ensures Continues(w, StartDependents(w1, tasks, doneId, o, 1).w, id)
  {
    DependentsReturn(w1, tasks, doneId, o);
    RestatesKeyed(w1, StartDependents(w1, tasks, doneId, o, 1).w);
    hide StartDependents, DependentsSpin, WellKeyed, NoInterrupted, Restated;
  }

  /** Whatever precedes the pass, the task is still there and in its workflow. */
  lemma BeforePassKeyed(w: World, id: string, error: string, published: string -> bool, oJob: Oracles)
    requires WellKeyed(w.tasks) && id in w.tasks
    requires var w1 := Finish(w, id, error);
             JobGoesOn(w1, id, error) ==> !DependentsSpin(w1, OfJob(w1.tasks, w1.tasks[id].jobId), id, oJob)
    ensures Continues(w, BeforePass(w, id, error, published, oJob), id)
  {
    FinishKeyed(w, id, error);
    assert Continues(w, Finish(w, id, error), id);
    hide Continues, Finish, OfJob, StopActive, StartDependents, DependentsSpin, JobGoesOn;
    var w1 := Finish(w, id, error);
    var jobTasks := OfJob(w1.tasks, w1.tasks[id].jobId);
    StopContinues(w, w1, jobTasks, published, id);
    if JobGoesOn(w1, id, error) {
      DependentsContinue(w, w1, jobTasks, id, oJob, id);
    }
  }

  lemma BeforePassIs(w: World, id: string, error: string, published: string -> bool, oJob: Oracles)
    requires id in w.tasks && JobGoesOn(Finish(w, id, error), id, error)
    ensures var w1 := Finish(w, id, error);
            BeforePass(w, id, error, published, oJob)
              == StartDependents(w1, OfJob(w1.tasks, w1.tasks[id].jobId), id, oJob, 1).w
  {
    hide Finish, StopActive, StartDependents, OfJob;
  }

  /** The message as its parts: the dependents, if the job goes on, and the completion pass. */
  lemma ResultsAre(w: World, id: string, error: string, published: string -> bool, oJob: Oracles, o: Oracle, depth: nat)
    requires id in w.tasks
    ensures var w1, r := Finish(w, id, error), UpdateResults(w, id, error, published, oJob, o, depth);
            if JobGoesOn(w1, id, error) then
              var started := StartDependents(w1, OfJob(w1.tasks, w1.tasks[id].jobId), id, oJob, depth);
              r == if !started.returned then started else OnTaskCompletion(started.w, id, o, depth)
            else r == OnTaskCompletion(BeforePass(w, id, error, published, oJob), id, o, depth)
  {
    hide OnTaskCompletion, StartDependents, StopActive, OfJob, Finish;
  }

  lemma CompletionTerminates(w: World, id: string, o: Oracle, depth: nat)
    requires WellKeyed(w.tasks) && id in w.tasks
    ensures OnTaskCompletion(w, id, o, depth).returned <==> !Stuck(w, w.tasks[id].workflowId)
    ensures OnTaskCompletion(w, id, o, depth).returned ==>
              OnTaskCompletion(w, id, o, depth) == OnTaskCompletion(w, id, o, 0)
  {
    hide Pass, Stuck, WellKeyed;
    NotStuckWithoutWorkflow(w);
    var workflowId := w.tasks[id].workflowId;
    if workflowId != "" {
      PassTerminates(w, workflowId, o);
      assert OnTaskCompletion(w, id, o, depth) == Pass(w, workflowId, o, depth);
      assert Pass(w, workflowId, o, depth).returned ==> !Stuck(w, workflowId);
      if !Stuck(w, workflowId) {
        FreePassReturns(w, workflowId, o, depth);
      }
    }
  }

  lemma ResultsStable(w: World, id: string, error: string, published: string -> bool, oJob: Oracles, o: Oracle,
                      depth: nat)
    requires WellKeyed(w.tasks) && UpdateResults(w, id, error, published, oJob, o, depth).returned
    ensures !ResultsSpin(w, id, error, published, oJob)
  {
    hide UpdateResults, WellKeyed, OnTaskCompletion, StartDependents, DependentsSpin, Stuck, OfJob, JobGoesOn;
    if id in w.tasks {
      var w1, w2 := Finish(w, id, error), BeforePass(w, id, error, published, oJob);
      FinishKeyed(w, id, error);
      hide Finish;
      ResultsAre(w, id, error, published, oJob, o, depth);
      if JobGoesOn(w1, id, error) {
        DependentsStable(w1, OfJob(w1.tasks, w1.tasks[id].jobId), id, oJob, depth);
        BeforePassIs(w, id, error, published, oJob);
      }
      hide BeforePass;
      BeforePassKeyed(w, id, error, published, oJob);
      CompletionTerminates(w2, id, o, depth);
    }
  }

  lemma ResultsReturn(w: World, id: string, error: string, published: string -> bool, oJob: Oracles, o: Oracle)
    requires WellKeyed(w.tasks) && !ResultsSpin(w, id, error, published, oJob)
    ensures UpdateResults(w, id, error, published, oJob, o, 1).returned
    ensures id in w.tasks ==>
              UpdateResults(w, id, error, published, oJob, o, 1)
                == OnTaskCompletion(BeforePass(w, id, error, published, oJob), id, o, 0)
  {
    hide WellKeyed, OnTaskCompletion, StartDependents, DependentsSpin, Stuck, OfJob, JobGoesOn;
    if id in w.tasks {
      hide UpdateResults;
      var w1, w2 := Finish(w, id, error), BeforePass(w, id, error, published, oJob);
      FinishKeyed(w, id, error);
      hide Finish;
      ResultsAre(w, id, error, published, oJob, o, 1);
      BeforePassKeyed(w, id, error, published, oJob);
      if JobGoesOn(w1, id, error) {
        DependentsReturn(w1, OfJob(w1.tasks, w1.tasks[id].jobId), id, oJob);
        BeforePassIs(w, id, error, published, oJob);
      }
      hide BeforePass;
      CompletionTerminates(w2, id, o, 1);
    }
  }

  /** Handling a result comes back if and only if it does not spin, and then one nested pass is enough. */
  lemma ResultsTerminate(w: World, id: string, error: string, published: string -> bool, oJob: Oracles, o: Oracle)
    requires WellKeyed(w.tasks)
    ensures (exists depth: nat :: UpdateResults(w, id, error, published, oJob, o, depth).returned)
       <==> !ResultsSpin(w, id, error, published, oJob)
    ensures !ResultsSpin(w, id, error, published, oJob) ==> UpdateResults(w, id, error, published, oJob, o, 1).returned
  {
    hide UpdateResults, ResultsSpin, WellKeyed;
    if depth: nat :| UpdateResults(w, id, error, published, oJob, o, depth).returned {
      ResultsStable(w, id, error, published, oJob, o, depth);
    }
    if !ResultsSpin(w, id, error, published, oJob) {
      ResultsReturn(w, id, error, published, oJob, o);
    }
  }

  /** Outside jobs, and for a failure inside one, the condition is that the finished task leaves its workflow stuck. */
  lemma PlainResultsSpin(w: World, id: string, error: string, published: string -> bool, oJob: Oracles)
    requires id in w.tasks && (w.tasks[id].jobId == "" || error != "")
    ensures ResultsSpin(w, id, error, published, oJob) <==> Stuck(Finish(w, id, error), w.tasks[id].workflowId)
  {
    var w1 := Finish(w, id, error);
    StopActiveLeaves(w1, OfJob(w1.tasks, w1.tasks[id].jobId), published);
    StuckSame(w1, StopActive(w1, OfJob(w1.tasks, w1.tasks[id].jobId), published), w.tasks[id].workflowId);
    hide StopActive, OfJob, Stuck;
  }

  lemma StuckSame(w: World, w': World, workflowId: string)
    requires w'.tasks == w.tasks && w'.shuttingDown == w.shuttingDown
    ensures Stuck(w, workflowId) <==> Stuck(w', workflowId)
  {
    forall id ensures StuckOn(w, workflowId, id) <==> StuckOn(w', workflowId, id) {
    }
    hide StuckOn;
  }

  lemma NoInterruptedNoSpin(w: World, id: string)
    requires NoInterrupted(w)
    ensures !Spins(w, id)
  {
    if id in w.tasks {
      NoInterruptedNotStuck(w, w.tasks[id].workflowId);
    }
  }

  lemma {:induction false} NoInterruptedDependents(w: World, tasks: seq<Task>, doneId: string, o: Oracles)
    requires WellKeyed(w.tasks) && NoInterrupted(w)
    ensures !DependentsSpin(w, tasks, doneId, o)
    decreases |tasks|
  {
    hide WellKeyed, NoInterrupted, Spins, StartTask, OnlyRestates, AllTerminal;
    if tasks != [] {
      var t := tasks[0];
      if Waits(w, t, doneId) {
        NoInterruptedNoSpin(w, t.id);
        StartRestates(w, t.id, o(t.id));
        RestatesKeyed(w, StartTask(w, t.id, o(t.id), 1).w);
        NoInterruptedDependents(StartTask(w, t.id, o(t.id), 1).w, tasks[1..], doneId, o);
      } else {
        NoInterruptedDependents(w, tasks[1..], doneId, o);
      }
    }
  }

  /** Without an interrupted task every result is handled, in a job or not. */
  lemma NoInterruptedResults(w: World, id: string, error: string, published: string -> bool, oJob: Oracles)
    requires WellKeyed(w.tasks) && NoInterrupted(w)
    ensures !ResultsSpin(w, id, error, published, oJob)
  {
    if id in w.tasks {
      FinishKeyed(w, id, error);
      hide WellKeyed, Finish, DependentsSpin, BeforePass, OfJob;
      var w1 := Finish(w, id, error);
      NoInterruptedDependents(w1, OfJob(w1.tasks, w1.tasks[id].jobId), id, oJob);
      BeforePassKeyed(w, id, error, published, oJob);
      NoInterruptedNotStuck(BeforePass(w, id, error, published, oJob), w.tasks[id].workflowId);
    }
  }
}
