/** Invoking a latent task that runs on every proplet: which proplets are asked, in which order, until when. */
module Broadcast {
  import opened Tasks
  import opened RoundRobin

  const NOT_PRECOMPILED := "has not been precompiled"

  /** What an attempt on one proplet comes back with. */
  datatype Answer = Results(text: string) | Error(text: string)

  predicate Contains(s: string, part: string) {
    part <= s || (s != [] && Contains(s[1..], part))
  }

  lemma {:induction false} ContainsSomewhere(s: string, part: string)
    ensures Contains(s, part) <==> exists i :: 0 <= i <= |s| && part <= s[i..]
  {
    assert s[0..] == s;
    if s == [] {
      assert forall i :: 0 <= i <= |s| ==> s[i..] == s;
    } else {
      ContainsSomewhere(s[1..], part);
      if i :| 0 <= i <= |s| && part <= s[i..] {
        assert i > 0 ==> s[i..] == s[1..][i - 1..];
      }
      if i :| 0 <= i <= |s[1..]| && part <= s[1..][i..] {
        assert s[i + 1..] == s[1..][i..];
      }
    }
  }

  predicate NotPrecompiled(a: Answer) {
    a.Error? && Contains(a.text, NOT_PRECOMPILED)
  }

  /** The list read in a circle from position `k`. */
  function Rotation<T>(s: seq<T>, k: nat): seq<T>
    requires k <= |s|
  {
    s[k..] + s[..k]
  }

  lemma RotationPermutes<T>(s: seq<T>, k: nat)
    requires k <= |s|
    ensures multiset(Rotation(s, k)) == multiset(s)
  {
    assert s == s[..k] + s[k..];
  }

  lemma RotationAt<T>(s: seq<T>, k: nat, i: nat)
    requires k <= |s| && i < |s|
    ensures |Rotation(s, k)| == |s|
    ensures Rotation(s, k)[i] == s[if k + i < |s| then k + i else k + i - |s|]
  {
  }

  predicate FirstAt(proplets: seq<Proplet>, id: string, k: nat) {
    k < |proplets| && proplets[k].id == id && forall i :: 0 <= i < k ==> proplets[i].id != id
  }

  /** Starts the circle at the proplet with the given identifier. */
  method OrderedProplets(proplets: seq<Proplet>, firstId: string) returns (r: seq<Proplet>)
    ensures forall k :: FirstAt(proplets, firstId, k) ==> r == Rotation(proplets, k)
    ensures (forall i :: 0 <= i < |proplets| ==> proplets[i].id != firstId) ==> r == proplets
    ensures multiset(r) == multiset(proplets)
  {
    var idx := -1;
    var i := 0;
    while i < |proplets|
      invariant 0 <= i <= |proplets| && idx == -1
      invariant forall j :: 0 <= j < i ==> proplets[j].id != firstId
    {
      if proplets[i].id == firstId {
        idx := i;
        break;
      }
      i := i + 1;
    }
    if idx <= 0 {
      assert proplets == Rotation(proplets, 0);
      return proplets;
    }
    assert FirstAt(proplets, firstId, idx);
    RotationPermutes(proplets, idx);
    return Rotation(proplets, idx);
  }

  /** What a round of attempts over `candidates` must look like when `tried` of them were made. */
  ghost predicate Attempts(candidates: seq<Proplet>, answers: nat -> Answer, tried: nat) {
    && tried <= |candidates|
    && (forall i :: 0 <= i < tried - 1 ==> NotPrecompiled(answers(i)))
    && (tried < |candidates| ==> tried > 0 && !NotPrecompiled(answers(tried - 1)))
  }

  /** The attempts one after the other. */
  method AskInTurn(order: seq<Proplet>, answers: nat -> Answer)
    returns (r: Answer, tried: seq<Proplet>, redeployed: seq<Proplet>)
    requires order != []
    ensures 0 < |tried| && tried <= order && Attempts(order, answers, |tried|)
    ensures r == answers(|tried| - 1)
    ensures redeployed == if |tried| == |order| && NotPrecompiled(answers(|tried| - 1)) then order else []
  {
    hide NotPrecompiled;
    tried, redeployed, r := [], [], Error("");
    var i := 0;
    while i < |order|
      invariant 0 <= i <= |order| && tried == order[..i] && redeployed == (if i == |order| then order else [])
      invariant forall j :: 0 <= j < i ==> NotPrecompiled(answers(j))
      invariant i > 0 ==> r == answers(i - 1)
    {
      r := answers(i);
      tried := tried + [order[i]];
      assert tried == order[..i + 1];
      if !NotPrecompiled(r) {
        return;
      }
      if i == |order| - 1 {
        redeployed := order;
      }
      i := i + 1;
    }
  }

  /**
   * Asks the proplets one after the other, starting with the scheduler's choice, until one gives
   * anything but "not precompiled"; when all do, the task is deployed again on every one of them.
   */
  method InvokeBroadcast(scheduler: Scheduler, proplets: seq<Proplet>, answers: nat -> Answer)
    returns (r: Result<Answer, SelectError>, tried: seq<Proplet>, redeployed: seq<Proplet>,
             ghost candidates: seq<Proplet>)
    modifies scheduler
    ensures r.Ok? <==> !NoneAlive(proplets)
    ensures r.Err? ==> r.error == (if proplets == [] then NoProplet else AllDead) && tried == [] && redeployed == []
    ensures r.Ok? ==> FromChoice(proplets, scheduler.lastProplet, candidates)
    ensures r.Ok? ==> 0 < |tried| && tried <= candidates && Attempts(candidates, answers, |tried|)
    ensures r.Ok? ==> r.value == answers(|tried| - 1)
    ensures r.Ok? ==>
              redeployed == if |tried| == |candidates| && NotPrecompiled(answers(|tried| - 1)) then candidates else []
  {
    hide Attempts, NotPrecompiled, NoneAlive, FromChoice;
    var first; ghost var turn;
    first, turn := scheduler.SelectProplet(proplets);
    if first.Err? {
      return Err(first.error), [], [], [];
    }
    var order := OrderedProplets(proplets, first.value.id);
    ChoiceFirst(proplets, scheduler.lastProplet, order);
    candidates := order;
    var a;
    a, tried, redeployed := AskInTurn(order, answers);
    r := Ok(a);
  }

  /** All proplets, in a circle that starts at the one chosen. */
  ghost predicate FromChoice(proplets: seq<Proplet>, chosen: nat, candidates: seq<Proplet>) {
    && chosen < |proplets|
    && multiset(candidates) == multiset(proplets)
    && exists k :: FirstAt(proplets, proplets[chosen].id, k) && candidates == Rotation(proplets, k)
  }

  lemma ChoiceFirst(proplets: seq<Proplet>, chosen: nat, order: seq<Proplet>)
    requires chosen < |proplets| && multiset(order) == multiset(proplets)
    requires forall k :: FirstAt(proplets, proplets[chosen].id, k) ==> order == Rotation(proplets, k)
    ensures FromChoice(proplets, chosen, order) && order != []
  {
    var k := FirstWithId(proplets, proplets[chosen].id, chosen);
    assert proplets[chosen] in multiset(proplets);
  }

  lemma {:induction false} FirstWithId(proplets: seq<Proplet>, id: string, at: nat) returns (k: nat)
    requires at < |proplets| && proplets[at].id == id
    ensures k <= at && FirstAt(proplets, id, k)
  {
    if i :| 0 <= i < at && proplets[i].id == id {
      k := FirstWithId(proplets, id, i);
    } else {
      k := at;
    }
  }
}
