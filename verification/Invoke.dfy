/**
 * Invocations of latent tasks: callers that wait on a one-slot channel each, and handlers that
 * bring results in from the message broker, all interleaved.
 */
module Invoke {
  import opened Options
  import opened Graph

  /** A field of a decoded message. */
  datatype Field = Missing | Nil | Text(text: string) | Other

  datatype Message = Message(invocationId: Field, results: Field, error: Field)

  datatype Reply = Reply(results: string, error: string)

  datatype Reading = Ignored | Malformed | Deliver(id: string, reply: Reply)

  /** What the handler makes of a message before it looks anything up. */
  function Read(msg: Message): Reading {
    if !msg.invocationId.Text? || msg.invocationId.text == "" then Ignored
    else if msg.results.Nil? || msg.results.Other? then Malformed
    else if msg.error.Other? then Malformed
    else Deliver(msg.invocationId.text,
                 Reply(if msg.results.Text? then msg.results.text else "",
                       if msg.error.Text? then msg.error.text else ""))
  }

  datatype Outcome =
    | Results(text: string)
    | RemoteError(error: string)
    | TimedOut
    | Cancelled
    | PublishFailed

  /** An empty error text means success. */
  function OutcomeOf(reply: Reply): Outcome {
    if reply.error != "" then RemoteError(reply.error) else Results(reply.results)
  }

  datatype Phase = Publishing | Waiting | Leaving(outcome: Outcome) | Gone(outcome: Outcome)

  /** A call in progress or finished; `offers` remembers the messages that were sent to its channel, in order. */
  datatype Caller = Caller(id: string, phase: Phase, slot: Option<Reply>, offers: seq<nat>)

  /** A delivered message and the caller whose channel the handler found for it. */
  datatype Arrival = Arrival(id: string, reply: Reply, target: Option<nat>)

  /** A handler between its lookup and its send. */
  datatype Handler = Handler(message: nat, caller: nat)

  datatype System = System(
    callers: seq<Caller>,
    pending: map<string, nat>,
    handlers: set<Handler>,
    arrivals: seq<Arrival>)

  const IDLE := System([], map[], {}, [])

  datatype Step =
    | Register(id: string)
    | Publish(caller: nat, ok: bool)
    | Arrive(msg: Message)
    | Send(handler: Handler)
    | Receive(caller: nat)
    | Expire(caller: nat)
    | Cancel(caller: nat)
    | Unregister(caller: nat)

  predicate Enabled(s: System, step: Step) {
    match step
    case Register(_) => true
    case Publish(c, _) => c < |s.callers| && s.callers[c].phase.Publishing?
    case Arrive(_) => true
    case Send(h) => h in s.handlers && h.caller < |s.callers| && h.message < |s.arrivals|
    case Receive(c) => c < |s.callers| && s.callers[c].phase.Waiting? && s.callers[c].slot.Some?
    case Expire(c) => c < |s.callers| && s.callers[c].phase.Waiting?
    case Cancel(c) => c < |s.callers| && s.callers[c].phase.Waiting?
    case Unregister(c) => c < |s.callers| && s.callers[c].phase.Leaving?
  }

  function Move(s: System, c: nat, phase: Phase): System
    requires c < |s.callers|
  {
    s.(callers := s.callers[c := s.callers[c].(phase := phase)])
  }

  function Apply(s: System, step: Step): System
    requires Enabled(s, step)
  {
    match step
    case Register(id) =>
      s.(callers := s.callers + [Caller(id, Publishing, None, [])], pending := s.pending[id := |s.callers|])
    case Publish(c, ok) => Move(s, c, if ok then Waiting else Leaving(PublishFailed))
    case Arrive(msg) => LookUp(s, Read(msg))
    case Send(h) => Offer(s, h)
    case Receive(c) =>
      var caller := s.callers[c];
      s.(callers := s.callers[c := caller.(phase := Leaving(OutcomeOf(caller.slot.value)), slot := None)])
    case Expire(c) => Move(s, c, Leaving(TimedOut))
    case Cancel(c) => Move(s, c, Leaving(Cancelled))
    case Unregister(c) =>
      var caller := s.callers[c];
      Move(s, c, Gone(caller.phase.outcome)).(pending := s.pending - {caller.id})
  }

  /** The lookup under the lock: a handler with a channel in hand stays behind. */
  function LookUp(s: System, reading: Reading): System {
    if !reading.Deliver? then s
    else if reading.id !in s.pending then
      s.(arrivals := s.arrivals + [Arrival(reading.id, reading.reply, None)])
    else
      var c := s.pending[reading.id];
      s.(arrivals := s.arrivals + [Arrival(reading.id, reading.reply, Some(c))],
         handlers := s.handlers + {Handler(|s.arrivals|, c)})
  }

  /** The send that gives up when the slot is taken. */
  function Offer(s: System, h: Handler): System
    requires h.caller < |s.callers| && h.message < |s.arrivals|
  {
    var caller := s.callers[h.caller];
    var slot := if caller.slot.None? then Some(s.arrivals[h.message].reply) else caller.slot;
    s.(callers := s.callers[h.caller := caller.(slot := slot, offers := caller.offers + [h.message])],
       handlers := s.handlers - {h})
  }

  predicate InFlight(caller: Caller) {
    !caller.phase.Gone?
  }

  // What holds in every reachable state.

  ghost predicate Known(s: System, c: nat, m: nat) {
    m < |s.arrivals| && c < |s.callers| && s.arrivals[m].target == Some(c) && s.arrivals[m].id == s.callers[c].id
  }

  ghost predicate PendingInFlight(s: System) {
    forall id :: id in s.pending ==>
      s.pending[id] < |s.callers| && s.callers[s.pending[id]].id == id && InFlight(s.callers[s.pending[id]])
  }

  ghost predicate HandlersKnown(s: System) {
    forall h :: h in s.handlers ==> Known(s, h.caller, h.message)
  }

  ghost predicate OffersKnown(s: System) {
    forall c, k :: 0 <= c < |s.callers| && 0 <= k < |s.callers[c].offers| ==> Known(s, c, s.callers[c].offers[k])
  }

  /** A message is offered once: neither again by a handler nor a second time to the same caller. */
  ghost predicate OffersOnce(s: System) {
    && (forall c :: 0 <= c < |s.callers| ==> Distinct(s.callers[c].offers))
    && (forall h :: h in s.handlers && h.caller < |s.callers| ==> h.message !in s.callers[h.caller].offers)
  }

  /** Until a caller has received, its slot holds exactly the first offer; what it received was that offer. */
  ghost predicate FirstOffer(s: System, c: nat)
    requires c < |s.callers|
    requires forall k :: 0 <= k < |s.callers[c].offers| ==> s.callers[c].offers[k] < |s.arrivals|
  {
    var caller := s.callers[c];
    && (caller.slot.Some? ==> caller.offers != [])
    && match caller.phase
       case Publishing => SlotIsFirst(s, caller)
       case Waiting => SlotIsFirst(s, caller)
       case Leaving(o) => OutcomeIsFirst(s, caller, o)
       case Gone(o) => OutcomeIsFirst(s, caller, o)
  }

  ghost predicate SlotIsFirst(s: System, caller: Caller)
    requires forall k :: 0 <= k < |caller.offers| ==> caller.offers[k] < |s.arrivals|
  {
    caller.slot == if caller.offers == [] then None else Some(s.arrivals[caller.offers[0]].reply)
  }

  ghost predicate OutcomeIsFirst(s: System, caller: Caller, o: Outcome)
    requires forall k :: 0 <= k < |caller.offers| ==> caller.offers[k] < |s.arrivals|
  {
    o.Results? || o.RemoteError? ==> caller.offers != [] && o == OutcomeOf(s.arrivals[caller.offers[0]].reply)
  }

  ghost predicate OffersInRange(s: System) {
    forall c, k :: 0 <= c < |s.callers| && 0 <= k < |s.callers[c].offers| ==> s.callers[c].offers[k] < |s.arrivals|
  }

  ghost predicate FirstOffers(s: System) {
    OffersInRange(s) && forall c :: 0 <= c < |s.callers| ==> FirstOffer(s, c)
  }

  ghost predicate Inv(s: System) {
    PendingInFlight(s) && HandlersKnown(s) && OffersKnown(s) && OffersOnce(s) && FirstOffers(s)
  }

  lemma RegisterKeeps(s: System, id: string)
    requires Inv(s)
    ensures Inv(Apply(s, Register(id)))
  {
    var t := Apply(s, Register(id));
    assert forall c :: 0 <= c < |s.callers| ==> t.callers[c] == s.callers[c];
    forall d | 0 <= d < |t.callers|
      ensures FirstOffer(t, d)
    {
      assert d < |s.callers| ==> FirstOffer(s, d);
    }
  }

  lemma MoveKeeps(s: System, c: nat, phase: Phase)
    requires Inv(s) && c < |s.callers| && InFlight(s.callers[c]) && !s.callers[c].phase.Leaving?
    requires phase == Waiting || (phase.Leaving? && phase.outcome in {TimedOut, Cancelled, PublishFailed})
    ensures Inv(Move(s, c, phase))
  {
    var t := Move(s, c, phase);
    forall d | 0 <= d < |t.callers|
      ensures FirstOffer(t, d)
    {
      assert FirstOffer(s, d);
    }
  }

  lemma LookUpKeeps(s: System, reading: Reading)
    requires Inv(s)
    ensures Inv(LookUp(s, reading))
  {
    var t := LookUp(s, reading);
    if reading.Deliver? {
      assert forall m :: 0 <= m < |s.arrivals| ==> t.arrivals[m] == s.arrivals[m];
      assert forall c: nat, m: nat :: Known(s, c, m) ==> Known(t, c, m);
      forall c | 0 <= c < |t.callers|
        ensures FirstOffer(t, c)
      {
        assert FirstOffer(s, c);
      }
    }
  }

  lemma OfferKeeps(s: System, h: Handler)
    requires Inv(s) && h in s.handlers
    ensures Inv(Offer(s, h))
  {
    var t := Offer(s, h);
    assert Known(s, h.caller, h.message);
    assert forall c: nat, m: nat :: Known(s, c, m) ==> Known(t, c, m);
    forall h' | h' in t.handlers && h'.caller < |t.callers|
      ensures h'.message !in t.callers[h'.caller].offers
    {
      assert Known(s, h'.caller, h'.message);
    }
    forall c | 0 <= c < |t.callers|
      ensures FirstOffer(t, c)
    {
      assert FirstOffer(s, c);
    }
  }

  lemma ReceiveKeeps(s: System, c: nat)
    requires Inv(s) && Enabled(s, Receive(c))
    ensures Inv(Apply(s, Receive(c)))
  {
    var t := Apply(s, Receive(c));
    forall d | 0 <= d < |t.callers|
      ensures FirstOffer(t, d)
    {
      assert FirstOffer(s, d);
    }
  }

  lemma UnregisterKeeps(s: System, c: nat)
    requires Inv(s) && Enabled(s, Unregister(c))
    ensures Inv(Apply(s, Unregister(c)))
  {
    var t := Apply(s, Unregister(c));
    forall d | 0 <= d < |t.callers|
      ensures FirstOffer(t, d)
    {
      assert FirstOffer(s, d);
    }
  }

  lemma StepKeeps(s: System, step: Step)
    requires Inv(s) && Enabled(s, step)
    ensures Inv(Apply(s, step))
  {
    hide Inv, Move, LookUp, Offer;
    match step
    case Register(id) => RegisterKeeps(s, id);
    case Publish(c, ok) => MoveKeeps(s, c, if ok then Waiting else Leaving(PublishFailed));
    case Arrive(msg) => LookUpKeeps(s, Read(msg));
    case Send(h) => OfferKeeps(s, h);
    case Receive(c) => ReceiveKeeps(s, c);
    case Expire(c) => MoveKeeps(s, c, Leaving(TimedOut));
    case Cancel(c) => MoveKeeps(s, c, Leaving(Cancelled));
    case Unregister(c) => UnregisterKeeps(s, c);
  }

  /** A run from a manager without calls; identifiers may even repeat. */
  ghost predicate IsRun(run: seq<System>, steps: seq<Step>) {
    && |run| == |steps| + 1
    && run[0] == IDLE
    && forall i :: 0 <= i < |steps| ==> Enabled(run[i], steps[i]) && run[i + 1] == Apply(run[i], steps[i])
  }

  lemma {:induction false} RunKeepsInv(run: seq<System>, steps: seq<Step>, i: nat)
    requires IsRun(run, steps) && i < |run|
    ensures Inv(run[i])
  {
    if i > 0 {
      RunKeepsInv(run, steps, i - 1);
      StepKeeps(run[i - 1], steps[i - 1]);
    }
  }

  /**
   * In every run, a call that comes back with results or a remote error comes back with the first
   * reply that was sent to its channel, and the message carried the call's own identifier.
   */
  lemma AnswersAreOwnAndFirst(run: seq<System>, steps: seq<Step>, i: nat, c: nat)
    requires IsRun(run, steps) && i < |run| && c < |run[i].callers|
    requires run[i].callers[c].phase.Gone?
    requires run[i].callers[c].phase.outcome.Results? || run[i].callers[c].phase.outcome.RemoteError?
    ensures var s := run[i]; var caller := s.callers[c];
            && caller.offers != [] && caller.offers[0] < |s.arrivals|
            && s.arrivals[caller.offers[0]].id == caller.id
            && caller.phase.outcome == OutcomeOf(s.arrivals[caller.offers[0]].reply)
  {
    RunKeepsInv(run, steps, i);
    var s := run[i];
    assert FirstOffer(s, c);
    assert Known(s, c, s.callers[c].offers[0]);
  }

  /** The message is one that carries this identifier and this reply; texts that are left out are empty. */
  predicate Carries(msg: Message, id: string, reply: Reply) {
    && id != "" && msg.invocationId == Text(id)
    && (msg.results == Text(reply.results) || (msg.results == Missing && reply.results == ""))
    && (msg.error == Text(reply.error) || (msg.error in {Missing, Nil} && reply.error == ""))
  }

  /** Every delivered message came in. */
  lemma {:induction false} ArrivalsCameIn(run: seq<System>, steps: seq<Step>, i: nat, m: nat) returns (k: nat)
    requires IsRun(run, steps) && i < |run| && m < |run[i].arrivals|
    ensures k < i && steps[k].Arrive? && Carries(steps[k].msg, run[i].arrivals[m].id, run[i].arrivals[m].reply)
  {
    assert run[i] == Apply(run[i - 1], steps[i - 1]);
    if m < |run[i - 1].arrivals| {
      ArrivalKept(run[i - 1], steps[i - 1], m);
      k := ArrivalsCameIn(run, steps, i - 1, m);
    } else {
      k := i - 1;
      NewArrival(run[k], steps[k], m);
    }
  }

  lemma ArrivalKept(s: System, step: Step, m: nat)
    requires Enabled(s, step) && m < |s.arrivals|
    ensures m < |Apply(s, step).arrivals| && Apply(s, step).arrivals[m] == s.arrivals[m]
  {
  }

  lemma NewArrival(s: System, step: Step, m: nat)
    requires Enabled(s, step) && |s.arrivals| <= m < |Apply(s, step).arrivals|
    ensures step.Arrive? && Carries(step.msg, Apply(s, step).arrivals[m].id, Apply(s, step).arrivals[m].reply)
  {
  }

  /**
   * In every run, results that a call comes back with are those of a message that came in for it and reported no
   * error; a remote error is the one that a message for it reported.
   */
  lemma AnswersAreMessages(run: seq<System>, steps: seq<Step>, i: nat, c: nat) returns (k: nat)
    requires IsRun(run, steps) && i < |run| && c < |run[i].callers|
    requires run[i].callers[c].phase.Gone?
    requires run[i].callers[c].phase.outcome.Results? || run[i].callers[c].phase.outcome.RemoteError?
    ensures k < i && steps[k].Arrive?
    ensures var caller, msg := run[i].callers[c], steps[k].msg;
            && msg.invocationId == Text(caller.id)
            && (caller.phase.outcome.Results? ==>
                  && msg.error in {Missing, Nil, Text("")}
                  && (|| msg.results == Text(caller.phase.outcome.text)
                      || (msg.results == Missing && caller.phase.outcome.text == "")))
            && (caller.phase.outcome.RemoteError? ==>
                  msg.error == Text(caller.phase.outcome.error) && caller.phase.outcome.error != "")
  {
    AnswersAreOwnAndFirst(run, steps, i, c);
    hide Apply, Enabled;
    k := ArrivalsCameIn(run, steps, i, run[i].callers[c].offers[0]);
  }

  /** No message answers two calls. */
  lemma NoSharedAnswer(run: seq<System>, steps: seq<Step>, i: nat, c: nat, d: nat, m: nat)
    requires IsRun(run, steps) && i < |run| && c < |run[i].callers| && d < |run[i].callers|
    requires m in run[i].callers[c].offers && m in run[i].callers[d].offers
    ensures c == d
  {
    RunKeepsInv(run, steps, i);
    var s := run[i];
    var j :| 0 <= j < |s.callers[c].offers| && s.callers[c].offers[j] == m;
    var k :| 0 <= k < |s.callers[d].offers| && s.callers[d].offers[k] == m;
    assert Known(s, c, s.callers[c].offers[j]) && Known(s, d, s.callers[d].offers[k]);
  }

  /**
   * A handler that found a channel can finish in every state, and moves nobody but itself: its reply fills a free
   * slot and is dropped at a taken one, and only a reply that is not the first for its call is ever dropped.
   */
  lemma HandlerNeverBlocks(run: seq<System>, steps: seq<Step>, i: nat, h: Handler)
    requires IsRun(run, steps) && i < |run| && h in run[i].handlers
    ensures Enabled(run[i], Send(h)) && h !in Apply(run[i], Send(h)).handlers
    ensures forall c :: 0 <= c < |run[i].callers| ==>
              Apply(run[i], Send(h)).callers[c].phase == run[i].callers[c].phase
    ensures var s := run[i]; var before, after := s.callers[h.caller], Apply(s, Send(h)).callers[h.caller];
            && h.message < |s.arrivals| && s.arrivals[h.message].id == before.id
            && (before.slot.None? ==> after.slot == Some(s.arrivals[h.message].reply))
            && (before.slot.Some? ==> after.slot == before.slot && before.offers != [])
  {
    RunKeepsInv(run, steps, i);
    assert Known(run[i], h.caller, h.message);
    assert FirstOffer(run[i], h.caller);
  }

  /** The first reply for a call that still waits is never dropped: it sits in the slot, ready to be received. */
  lemma FirstReplyIsKept(run: seq<System>, steps: seq<Step>, i: nat, c: nat)
    requires IsRun(run, steps) && i < |run| && c < |run[i].callers|
    requires run[i].callers[c].phase.Waiting? && run[i].callers[c].offers != []
    ensures Enabled(run[i], Receive(c))
    ensures run[i].callers[c].offers[0] < |run[i].arrivals|
    ensures run[i].callers[c].slot == Some(run[i].arrivals[run[i].callers[c].offers[0]].reply)
  {
    RunKeepsInv(run, steps, i);
    assert FirstOffer(run[i], c);
  }

  /** When every call has returned, nothing is left registered. */
  lemma NoLeak(run: seq<System>, steps: seq<Step>, i: nat)
    requires IsRun(run, steps) && i < |run|
    requires forall c :: 0 <= c < |run[i].callers| ==> run[i].callers[c].phase.Gone?
    ensures run[i].pending == map[]
  {
    RunKeepsInv(run, steps, i);
    assert forall id :: id !in run[i].pending;
  }

  // With identifiers that no call in flight already uses, the pending map is exactly the calls in flight.

  ghost predicate FreshIds(run: seq<System>, steps: seq<Step>)
    requires IsRun(run, steps)
  {
    forall i :: 0 <= i < |steps| && steps[i].Register? ==> steps[i].id !in run[i].pending
  }

  ghost predicate Registered(s: System) {
    forall c :: 0 <= c < |s.callers| && InFlight(s.callers[c]) ==>
      s.callers[c].id in s.pending && s.pending[s.callers[c].id] == c
  }

  lemma StepRegisters(s: System, step: Step)
    requires Inv(s) && Registered(s) && Enabled(s, step)
    requires step.Register? ==> step.id !in s.pending
    ensures Registered(Apply(s, step))
  {
    var t := Apply(s, step);
    forall c | 0 <= c < |t.callers| && InFlight(t.callers[c])
      ensures t.callers[c].id in t.pending && t.pending[t.callers[c].id] == c
    {
      if c < |s.callers| {
        assert t.callers[c].id == s.callers[c].id && InFlight(s.callers[c]);
      }
    }
  }

  lemma {:induction false} PendingIsInFlight(run: seq<System>, steps: seq<Step>, i: nat)
    requires IsRun(run, steps) && FreshIds(run, steps) && i < |run|
    ensures Registered(run[i])
    ensures forall id, c :: id in run[i].pending && run[i].pending[id] == c <==>
              0 <= c < |run[i].callers| && run[i].callers[c].id == id && InFlight(run[i].callers[c])
  {
    if i > 0 {
      PendingIsInFlight(run, steps, i - 1);
      RunKeepsInv(run, steps, i - 1);
      StepRegisters(run[i - 1], steps[i - 1]);
    }
    RunKeepsInv(run, steps, i);
  }
}
