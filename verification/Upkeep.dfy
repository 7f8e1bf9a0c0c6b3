/** Updates of tasks and proplets, and what a shutdown and the recovery after it leave of the tasks. */
module Upkeep {
  import opened Options
  import opened Tasks
  import opened World
  import opened Creation
  import opened Safety

  /** An update changes the name, if it carries one, and the metadata, if it carries some, of its task only. */
  lemma UpdateReplaces(w: World, id: string, name: string, metadata: Option<Metadata>)
    ensures var r := UpdateTask(w, id, name, metadata);
            && (r.ok <==> id in w.tasks)
            && (!r.ok ==> r.w == w)
            && (r.ok ==>
                  var t' := r.w.tasks[id];
                  && r.w == w.(tasks := w.tasks[id := t'])
                  && t' == w.tasks[id].(name := t'.name, metadata := t'.metadata)
                  && (t'.name == name || (name == "" && t'.name == w.tasks[id].name))
                  && (metadata == Some(t'.metadata) || (metadata == None && t'.metadata == w.tasks[id].metadata)))
  {
  }

  /** A sign of life of a known proplet adds its time and keeps the last ten, and changes nothing else. */
  lemma LivenessKeepsLast(w: World, id: string, about: string, now: int)
    requires id != "" && id in w.proplets
    ensures var r := UpdateLiveness(w, id, about, now);
            && r.ok && id in r.w.proplets
            && var p, p' := w.proplets[id], r.w.proplets[id];
               && r.w == w.(proplets := w.proplets[id := p']) && p' == p.(history := p'.history)
               && |p'.history| == (if |p.history| < 10 then |p.history| + 1 else 10)
               && exists gone :: gone + p'.history == p.history + [now]
  {
    var h, h' := w.proplets[id].history + [now], UpdateLiveness(w, id, about, now).w.proplets[id].history;
    assert h[..|h| - |h'|] + h' == h;
  }

  /** Another proplet is created idle and without a history; a known one only gets new metadata. */
  lemma PropletSeen(w: World, id: string, about: string, now: int)
    requires id != ""
    ensures id !in w.proplets ==>
              && UpdateLiveness(w, id, about, now) == CreateProplet(w, id, about)
              && CreateProplet(w, id, about).w == w.(proplets := w.proplets[id := Proplet(0, about, [])])
    ensures id in w.proplets ==>
              CreateProplet(w, id, about).w == w.(proplets := w.proplets[id := w.proplets[id].(metadata := about)])
  {
  }

  /** A proplet can be deleted if and only if no task is pinned to it. */
  lemma Deletable(w: World, id: string)
    requires Inv(w)
    ensures var r := DeleteProplet(w, id);
            && (r.ok <==> id in w.proplets && forall t :: t in w.pins ==> w.pins[t] != id)
            && r.w == (if r.ok then w.(proplets := w.proplets - {id}) else w)
  {
    if id in w.proplets {
      if forall t :: t in w.pins ==> w.pins[t] != id {
        assert PinnedTo(w.pins, id) == {};
      }
      if w.proplets[id].taskCount == 0 {
        UnusedHasNoPins(w, id);
      }
    }
  }

  /** A shutdown interrupts exactly the tasks that are running or scheduled. */
  lemma InterruptOutcome(w: World, id: string)
    requires id in w.tasks
    ensures var w' := InterruptActive(w);
            && w' == w.(tasks := w'.tasks) && w'.tasks.Keys == w.tasks.Keys
            && w'.tasks[id] == if w.tasks[id].state in {Running, Scheduled}
                               then w.tasks[id].(state := Interrupted, error := "interrupted by shutdown")
                               else w.tasks[id]
  {
  }

  /** The recovery makes failures of exactly the interrupted tasks; after a shutdown, of whatever was active then. */
  lemma RecoveryOutcome(w: World, id: string)
    requires id in w.tasks
    ensures var w' := RecoverInterrupted(w);
            && w' == w.(tasks := w'.tasks) && w'.tasks.Keys == w.tasks.Keys
            && w'.tasks[id] == if w.tasks[id].state == Interrupted
                               then w.tasks[id].(state := Failed, error := "interrupted by shutdown")
                               else w.tasks[id]
    ensures RecoverInterrupted(InterruptActive(w)).tasks[id]
            == if w.tasks[id].state in {Running, Scheduled, Interrupted}
               then w.tasks[id].(state := Failed, error := "interrupted by shutdown")
               else w.tasks[id]
  {
    InterruptOutcome(w, id);
  }
}
