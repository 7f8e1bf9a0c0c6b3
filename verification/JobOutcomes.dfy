/** What a result does to the rest of its job: a success starts what waited for it, a failure stops what runs. */
module JobOutcomes {
  import opened Tasks
  import opened TaskStore
  import opened Dag
  import opened World
  import opened Safety
  import opened Coordinator
  import opened Completion
  import opened Liveness
  import opened Outcomes

  // ---------- The series of starts ----------

  lemma HeadStart(w: World, tasks: seq<Task>, doneId: string, o: Oracles)
    requires WellKeyed(w.tasks) && NoInterrupted(w) && tasks != [] && UpToDate(w, tasks) && Waits(w, tasks[0], doneId)
    ensures var t := tasks[0]; var r := StartTask(w, t.id, o(t.id), 1);
            && r.returned && Touches(w, r.w, t.id) && WellKeyed(r.w.tasks) && NoInterrupted(r.w)
            && UpToDate(r.w, tasks[1..]) && t.state.Pending?
            && t.id in r.w.tasks && (r.ok ==> r.w.tasks[t.id].state == Running)
            && (w.shuttingDown ==> r.w == w)
  {
    var t := tasks[0];
    var c := o(t.id)(t.id);
    assert t.id in w.tasks && w.tasks[t.id] == t;
    WaitingStart(w, t, doneId, o(t.id));
    hide StartTask, WellKeyed, NoInterrupted, AllTerminal, UpToDate, OnlyRestates;
    DispatchTouches(w, t, c);
    DispatchReturns(w, t, c);
    DispatchRestates(w, t.id, c);
    DispatchRuns(w, t, c);
    hide Dispatch;
    TouchesNothing(w, t.id);
    RestatesNothing(w);
    var w1 := StartTask(w, t.id, o(t.id), 1).w;
    RestatesKeyed(w, w1);
    UpToDateTail(w, w1, tasks);
  }

  lemma TouchesNothing(w: World, id: string)
    ensures Touches(w, w, id)
  {
  }

  lemma DispatchRuns(w: World, t: Task, c: Choice)
    requires t.id in w.tasks
    ensures var r := Dispatch(w, t, c); r.ok ==> t.id in r.w.tasks && r.w.tasks[t.id].state == Running
  {
  }

  /** The series starts nothing but listed pending tasks that wait for the finished one. */
  lemma {:induction false} DependentsTouch(w: World, tasks: seq<Task>, doneId: string, o: Oracles, x: string)
    requires WellKeyed(w.tasks) && NoInterrupted(w) && UpToDate(w, tasks) && x in w.tasks
    ensures var w' := StartDependents(w, tasks, doneId, o, 1).w;
            && x in w'.tasks
            && (w'.tasks[x] != w.tasks[x] ==> exists i ::
                  0 <= i < |tasks| && tasks[i].id == x && tasks[i].state == Pending && doneId in tasks[i].dependsOn)
    decreases |tasks|
  {
    hide WellKeyed, NoInterrupted, UpToDate, StartTask, AllTerminal;
    if tasks != [] {
      var t, rest := tasks[0], tasks[1..];
      var w1 := if Waits(w, t, doneId) then StartTask(w, t.id, o(t.id), 1).w else w;
      if Waits(w, t, doneId) {
        HeadStart(w, tasks, doneId, o);
      } else {
        UpToDateTail(w, w, tasks);
      }
      DependentsTouch(w1, rest, doneId, o, x);
      var w' := StartDependents(w1, rest, doneId, o, 1).w;
      if w'.tasks[x] != w.tasks[x] {
        if w1.tasks[x] != w.tasks[x] {
          assert tasks[0].id == x;
        } else {
          var i :| 0 <= i < |rest| && rest[i].id == x && rest[i].state == Pending && doneId in rest[i].dependsOn;
          assert tasks[i + 1] == rest[i];
        }
      }
    }
  }

  /** A start of a task is not in the way of another one. */
  lemma StartStaysOk(w: World, w1: World, t: Task, doneId: string, o: Oracle, head: Task)
    requires NoInterrupted(w) && NoInterrupted(w1) && Touches(w, w1, head.id) && head.id != t.id
    requires head.id in w.tasks && w.tasks[head.id].state.Pending?
    requires t.id in w.tasks && w.tasks[t.id] == t && Waits(w, t, doneId) && StartTask(w, t.id, o, 1).ok
    ensures Waits(w1, t, doneId) && StartTask(w1, t.id, o, 1).ok
  {
    assert forall d :: d in t.dependsOn ==> d in w1.tasks && w1.tasks[d] == w.tasks[d];
    WaitingStart(w, t, doneId, o);
    WaitingStart(w1, t, doneId, o);
    hide StartTask, NoInterrupted, Waits;
    DispatchStaysOk(w, w1, t, o(t.id), head.id);
  }

  lemma DispatchStaysOk(w: World, w1: World, t: Task, c: Choice, x: string)
    requires Touches(w, w1, x) && x != t.id && Dispatch(w, t, c).ok
    ensures Dispatch(w1, t, c).ok
  {
    assert t.id in w.pins <==> t.id in w1.pins;
  }

  /** The series starts every listed task that waits for the finished one only and can be started. */
  lemma {:induction false} DependentsStart(w: World, tasks: seq<Task>, doneId: string, o: Oracles, k: nat)
    requires WellKeyed(w.tasks) && NoInterrupted(w) && UpToDate(w, tasks) && k < |tasks|
    requires Waits(w, tasks[k], doneId) && StartTask(w, tasks[k].id, o(tasks[k].id), 1).ok
    ensures var w' := StartDependents(w, tasks, doneId, o, 1).w;
            tasks[k].id in w'.tasks && w'.tasks[tasks[k].id].state == Running
    decreases |tasks|
  {
    hide WellKeyed, NoInterrupted, UpToDate, StartTask, StartDependents, Waits, Touches;
    var t, rest := tasks[0], tasks[1..];
    Listed(w, tasks, k);
    assert k > 0 ==> rest[k - 1] == tasks[k];
    if Waits(w, t, doneId) {
      var w1 := StartTask(w, t.id, o(t.id), 1).w;
      HeadStart(w, tasks, doneId, o);
      DependentsStep(w, tasks, doneId, o);
      if k == 0 {
        NotAgain(w1, tasks, doneId, o);
      } else {
        StartStaysOk(w, w1, tasks[k], doneId, o(tasks[k].id), t);
        DependentsStart(w1, rest, doneId, o, k - 1);
      }
    } else {
      DependentsStep(w, tasks, doneId, o);
      UpToDateTail(w, w, tasks);
      DependentsStart(w, rest, doneId, o, k - 1);
    }
  }

  lemma Listed(w: World, tasks: seq<Task>, k: nat)
    requires UpToDate(w, tasks) && k < |tasks|
    ensures tasks[k].id in w.tasks && w.tasks[tasks[k].id] == tasks[k]
    ensures tasks[0].id in w.tasks && w.tasks[tasks[0].id] == tasks[0]
    ensures UniqueIds(tasks) && (k > 0 ==> tasks[0].id != tasks[k].id)
  {
  }

  lemma DependentsStep(w: World, tasks: seq<Task>, doneId: string, o: Oracles)
    requires tasks != [] && (Waits(w, tasks[0], doneId) ==> StartTask(w, tasks[0].id, o(tasks[0].id), 1).returned)
    ensures var w1 := if Waits(w, tasks[0], doneId) then StartTask(w, tasks[0].id, o(tasks[0].id), 1).w else w;
            StartDependents(w, tasks, doneId, o, 1) == StartDependents(w1, tasks[1..], doneId, o, 1)
  {
    hide StartTask, AllTerminal;
  }

  /** A listed task is started once. */
  lemma NotAgain(w1: World, tasks: seq<Task>, doneId: string, o: Oracles)
    requires WellKeyed(w1.tasks) && NoInterrupted(w1) && tasks != [] && UniqueIds(tasks) && UpToDate(w1, tasks[1..])
    requires tasks[0].id in w1.tasks
    ensures var w' := StartDependents(w1, tasks[1..], doneId, o, 1).w;
            tasks[0].id in w'.tasks && w'.tasks[tasks[0].id] == w1.tasks[tasks[0].id]
  {
    var rest := tasks[1..];
    assert forall i :: 0 <= i < |rest| ==> rest[i].id != tasks[0].id;
    hide WellKeyed, NoInterrupted, UpToDate, StartDependents;
    DependentsTouch(w1, rest, doneId, o, tasks[0].id);
  }

  // ---------- Success in a job ----------

  /** No other task of the job has failed. */
  predicate NoneFailed(tasks: map<string, Task>, id: string)
    requires id in tasks
  {
    forall y :: y in tasks && y != id && tasks[y].jobId == tasks[id].jobId ==> tasks[y].state != Failed
  }

  /** `x` is pending in the job of `id`, waits for it, and everything it waits for is done once `id` is completed. */
  predicate WaitsInJob(tasks: map<string, Task>, id: string, x: string)
    requires id in tasks
  {
    && x in tasks && x != id && tasks[x].jobId == tasks[id].jobId != ""
    && tasks[x].state == Pending && id in tasks[x].dependsOn
    && forall d :: d in tasks[x].dependsOn ==> d == id || (d in tasks && tasks[d].state in {Completed, Failed, Skipped})
  }

  lemma GoesOn(w1: World, id: string)
    requires WellKeyed(w1.tasks) && id in w1.tasks && w1.tasks[id].jobId != "" && w1.tasks[id].state == Completed
    ensures JobGoesOn(w1, id, "") ==> NoneFailed(w1.tasks, id)
    ensures NoneFailed(w1.tasks, id) && (exists x :: WaitsInJob(w1.tasks, id, x)) ==> JobGoesOn(w1, id, "")
  {
    var job := OfJob(w1.tasks, w1.tasks[id].jobId);
    OfJobMembers(w1.tasks, w1.tasks[id].jobId);
    hide OfJob, ById;
    forall y | y in w1.tasks && w1.tasks[y].jobId == w1.tasks[id].jobId ensures w1.tasks[y] in job {
    }
    if x :| WaitsInJob(w1.tasks, id, x) {
      assert w1.tasks[x] in job;
    }
  }

  lemma WaitsListed(w1: World, id: string, x: string) returns (k: nat)
    requires WellKeyed(w1.tasks) && id in w1.tasks && w1.tasks[id].state == Completed && WaitsInJob(w1.tasks, id, x)
    ensures var job := OfJob(w1.tasks, w1.tasks[id].jobId);
            k < |job| && job[k] == w1.tasks[x] && job[k].id == x && Waits(w1, job[k], id)
  {
    var job := OfJob(w1.tasks, w1.tasks[id].jobId);
    OfJobMembers(w1.tasks, w1.tasks[id].jobId);
    hide OfJob, ById;
    assert w1.tasks[x] in job;
    k :| 0 <= k < |job| && job[k] == w1.tasks[x];
  }

  lemma WaitsNoted(tasks: map<string, Task>, id: string, x: string)
    requires id in tasks && WaitsInJob(tasks, id, x) && NoneFailed(tasks, id)
    ensures WaitsInJob(Noted(tasks, id, ""), id, x) && NoneFailed(Noted(tasks, id, ""), id)
  {
  }

  /**
    * A success in a job in which nothing has failed makes every task of the job run that waited for it and for nothing
    * else, and that can be started: whatever its run_if, and whether or not it belongs to a workflow.
    */
  lemma JobSuccessStarts(w: World, id: string, published: string -> bool, oJob: Oracles, o: Oracle, x: string)
    requires WellKeyed(w.tasks) && NoInterrupted(w) && id in w.tasks
    requires WaitsInJob(w.tasks, id, x) && NoneFailed(w.tasks, id)
    requires StartTask(w.(tasks := Noted(w.tasks, id, "")), x, oJob(x), 1).ok
    ensures var r := UpdateResults(w, id, "", published, oJob, o, 1);
            r.returned && x in r.w.tasks && r.w.tasks[x].state == Running
  {
    var w1, w2 := w.(tasks := Noted(w.tasks, id, "")), BeforePass(w, id, "", published, oJob);
    FinishNotes(w, id, "");
    FinishKeyed(w, id, "");
    WaitsNoted(w.tasks, id, x);
    NoInterruptedResults(w, id, "", published, oJob);
    assert w1.tasks[id].state == Completed;
    hide Finish, NoneFailed, WaitsInJob, NoInterrupted, WellKeyed, Waits, OfJob, StartTask, StartDependents, JobGoesOn,
         ResultsSpin, UpdateResults, OnTaskCompletion, UpToDate;
    GoesOn(w1, id);
    BeforePassIs(w, id, "", published, oJob);
    hide BeforePass;
    var k := WaitsListed(w1, id, x);
    JobUpToDate(w1, w1.tasks[id].jobId);
    DependentsStart(w1, OfJob(w1.tasks, w1.tasks[id].jobId), id, oJob, k);
    ResultsReturn(w, id, "", published, oJob, o);
    BeforePassOf(w, id, "", published, oJob);
    CompletionLeaves(w2, id, o, x);
  }

  /** The completion pass leaves alone whatever is not pending. */
  lemma CompletionLeaves(w2: World, id: string, o: Oracle, x: string)
    requires WellKeyed(w2.tasks) && id in w2.tasks && !Stuck(w2, w2.tasks[id].workflowId)
    requires x in w2.tasks
    ensures var w' := OnTaskCompletion(w2, id, o, 0).w;
            && x in w'.tasks
            && (w'.tasks[x] != w2.tasks[x] ==>
                  w2.tasks[x].state == Pending && w2.tasks[x].workflowId == w2.tasks[id].workflowId != "")
  {
    hide Pass, Stuck, WellKeyed, DepsDone, Wanted;
    if w2.tasks[id].workflowId != "" {
      PassOutcome(w2, w2.tasks[id].workflowId, o, 0, x);
    }
  }

  /**
    * A success in a job changes another task only if that is pending and either in the same workflow, where the
    * completion pass decides, or waiting for it in a job in which nothing has failed.
    */
  lemma JobSuccessOnly(w: World, id: string, published: string -> bool, oJob: Oracles, o: Oracle, x: string)
    requires WellKeyed(w.tasks) && NoInterrupted(w) && id in w.tasks && w.tasks[id].jobId != ""
    requires x in w.tasks && x != id
    ensures var r := UpdateResults(w, id, "", published, oJob, o, 1);
            && r.returned && x in r.w.tasks
            && (r.w.tasks[x] != w.tasks[x] ==>
                  && w.tasks[x].state == Pending
                  && (|| w.tasks[x].workflowId == w.tasks[id].workflowId != ""
                      || (&& w.tasks[x].jobId == w.tasks[id].jobId && id in w.tasks[x].dependsOn
                          && NoneFailed(w.tasks, id))))
  {
    var w1, w2 := w.(tasks := Noted(w.tasks, id, "")), BeforePass(w, id, "", published, oJob);
    FinishNotes(w, id, "");
    FinishKeyed(w, id, "");
    NoInterruptedResults(w, id, "", published, oJob);
    assert NoneFailed(w1.tasks, id) ==> NoneFailed(w.tasks, id);
    hide Finish, NoneFailed, NoInterrupted, WellKeyed, OfJob, StartDependents, JobGoesOn, ResultsSpin, UpdateResults,
         OnTaskCompletion, StopActive;
    BeforePassTouches(w1, w2, id, x, oJob);
    ResultsReturn(w, id, "", published, oJob, o);
    BeforePassOf(w, id, "", published, oJob);
    hide BeforePass;
    CompletionLeaves(w2, id, o, x);
  }

  /** What the starts of a success change, in the world with the result noted. */
  lemma BeforePassTouches(w1: World, w2: World, id: string, x: string, oJob: Oracles)
    requires WellKeyed(w1.tasks) && NoInterrupted(w1) && id in w1.tasks && x in w1.tasks
    requires w1.tasks[id].jobId != "" && w1.tasks[id].state == Completed
    requires w2 == if JobGoesOn(w1, id, "") then StartDependents(w1, OfJob(w1.tasks, w1.tasks[id].jobId), id, oJob, 1).w
                   else w1
    ensures x in w2.tasks && w2.tasks[x].workflowId == w1.tasks[x].workflowId
    ensures w2.tasks[x] == w1.tasks[x] ||
            (w1.tasks[x].state == Pending && w1.tasks[x].jobId == w1.tasks[id].jobId && id in w1.tasks[x].dependsOn
             && NoneFailed(w1.tasks, id))
  {
    var job := OfJob(w1.tasks, w1.tasks[id].jobId);
    OfJobMembers(w1.tasks, w1.tasks[id].jobId);
    GoesOn(w1, id);
    JobUpToDate(w1, w1.tasks[id].jobId);
    NoInterruptedDependents(w1, job, id, oJob);
    hide NoneFailed, NoInterrupted, WellKeyed, OfJob, ById, StartDependents, JobGoesOn, UpToDate, DependentsSpin;
    if JobGoesOn(w1, id, "") {
      DependentsTouch(w1, job, id, oJob, x);
      DependentsReturn(w1, job, id, oJob);
      RestatesKeyed(w1, w2);
      if w2.tasks[x] != w1.tasks[x] {
        var i :| 0 <= i < |job| && job[i].id == x && job[i].state == Pending && id in job[i].dependsOn;
        assert job[i] in job;
      }
    }
  }

  // ---------- Failure in a job ----------

  lemma DispatchPins(w: World, t: Task, c: Choice, x: string)
    ensures x in w.pins ==> x in Dispatch(w, t, c).w.pins
    ensures x != t.id ==> (x in Dispatch(w, t, c).w.pins <==> x in w.pins)
  {
  }

  lemma StepPins(w: World, ready: seq<Task>, finished: map<string, State>, o: Oracle, x: string)
    requires ready != [] && Snapshot(w, ready, finished) && (w.shuttingDown || !Trips(ready[0], finished))
    ensures var w1 := PassStep(w, ready[0], finished, o, 0).w;
            && (x in w.pins ==> x in w1.pins)
            && (x in w.tasks && w.tasks[x].state != Pending ==>
                  && x in w1.tasks && w1.tasks[x].state != Pending && (x in w1.pins ==> x in w.pins))
  {
    var t := ready[0];
    SnapshotHead(w, ready, finished);
    NotTerminal(t, finished);
    PassStepIs(w, t, finished, o, 0);
    PassStepReturns(w, ready, finished, o, 0);
    hide PassStep, Dispatch, Snapshot, IsReady, ShouldRun, Trips;
    DispatchPins(w, t, o(t.id), x);
  }

  /** A pass takes no pin away, and gives one only to a pending task. */
  lemma {:induction false} PassOverPins(w: World, ready: seq<Task>, finished: map<string, State>, o: Oracle, x: string)
    requires Snapshot(w, ready, finished) && (w.shuttingDown || Smooth(ready, finished))
    ensures var w' := PassOver(w, ready, finished, o, 0).w;
            && (x in w.pins ==> x in w'.pins)
            && (x in w.tasks && w.tasks[x].state != Pending ==> (x in w'.pins ==> x in w.pins))
    decreases |ready|
  {
    hide Snapshot, Trips, PassStep;
    if ready != [] {
      PassStepReturns(w, ready, finished, o, 0);
      StepPins(w, ready, finished, o, x);
      PassOverPins(PassStep(w, ready[0], finished, o, 0).w, ready[1..], finished, o, x);
    }
  }

  lemma CompletionPins(w2: World, id: string, o: Oracle, x: string)
    requires WellKeyed(w2.tasks) && id in w2.tasks && !Stuck(w2, w2.tasks[id].workflowId)
    ensures var w' := OnTaskCompletion(w2, id, o, 0).w;
            && (x in w2.pins ==> x in w'.pins)
            && (x in w2.tasks && w2.tasks[x].state != Pending ==> (x in w'.pins ==> x in w2.pins))
  {
    var wf := w2.tasks[id].workflowId;
    hide Stuck, Snapshot, Smooth, Ready, Finished, PassOver;
    if wf != "" {
      PassSnapshot(w2, wf);
      FreeIsSmooth(w2, wf);
      PassOverPins(w2, Ready(w2.tasks, wf), Finished(w2.tasks, wf), o, x);
    }
  }

  /** `x` runs or is scheduled in the job of `id`, on its own proplet. */
  predicate RunsInJob(tasks: map<string, Task>, id: string, x: string)
    requires id in tasks
  {
    && x in tasks && x != id && tasks[x].jobId == tasks[id].jobId != ""
    && tasks[x].state in {Running, Scheduled} && !tasks[x].broadcast
  }

  lemma ReachedInJob(w: World, id: string, error: string, published: string -> bool, x: string)
    requires WellKeyed(w.tasks) && id in w.tasks && w.tasks[id].jobId != ""
    ensures var w1 := Finish(w, id, error);
            Reached(w1, OfJob(w1.tasks, w1.tasks[id].jobId), published, x) <==>
              RunsInJob(w.tasks, id, x) && published(x)
  {
    var w1 := Finish(w, id, error);
    FinishKeyed(w, id, error);
    var job := OfJob(w1.tasks, w1.tasks[id].jobId);
    OfJobMembers(w1.tasks, w1.tasks[id].jobId);
    hide OfJob, ById;
    if RunsInJob(w.tasks, id, x) {
      assert w1.tasks[x] in job;
      var i :| 0 <= i < |job| && job[i] == w1.tasks[x];
      assert job[i].id == x;
    }
    if Reached(w1, job, published, x) {
      var i :| 0 <= i < |job| && job[i].id == x && job[i].state.IsActive();
      assert job[i] in job;
    }
  }

  lemma StoppedBefore(w: World, id: string, error: string, published: string -> bool, oJob: Oracles, x: string)
    requires Inv(w) && id in w.tasks && w.tasks[id].jobId != "" && error != ""
    ensures x in BeforePass(w, id, error, published, oJob).pins <==>
              x in w.pins && !(RunsInJob(w.tasks, id, x) && published(x))
  {
    var w1 := Finish(w, id, error);
    PutKeeps(w, w1.tasks[id]);
    ReachedInJob(w, id, error, published, x);
    hide Inv, OfJob, StopActive, RunsInJob, Reached;
    StopActivePins(w1, OfJob(w1.tasks, w1.tasks[id].jobId), published, x);
  }

  /**
    * A failure in a job takes away the pins of exactly the tasks of the job that are running or scheduled on a proplet
    * and whose stop message gets out; the completion pass gives none of them back.
    */
  lemma JobFailureStops(w: World, id: string, error: string, published: string -> bool, oJob: Oracles, o: Oracle,
                        depth: nat, x: string)
    requires Inv(w) && id in w.tasks && w.tasks[id].jobId != "" && error != ""
    requires UpdateResults(w, id, error, published, oJob, o, depth).returned
    requires x in w.tasks && w.tasks[x].state != Pending
    ensures x in UpdateResults(w, id, error, published, oJob, o, depth).w.pins <==>
              x in w.pins && !(RunsInJob(w.tasks, id, x) && published(x))
  {
    var w2 := BeforePass(w, id, error, published, oJob);
    assert WellKeyed(w.tasks);
    PlainBeforePass(w, id, error, published, oJob);
    hide Inv, UpdateResults, OnTaskCompletion, BeforePass, WellKeyed, RunsInJob, Stuck;
    StoppedBefore(w, id, error, published, oJob, x);
    ResultsSame(w, id, error, published, oJob, o, depth);
    BeforePassOf(w, id, error, published, oJob);
    CompletionPins(w2, id, o, x);
  }
}
