/** Round-robin choice of a proplet: who is chosen next, and why nobody alive is passed over. */
module RoundRobin {
  import opened Tasks
  import opened Graph

  datatype Proplet = Proplet(id: string, alive: bool)

  datatype SelectError = NoProplet | AllDead

  /** Whether the proplet that an unbounded turn counter points at is alive. */
  predicate AliveAt(proplets: seq<Proplet>, turn: nat)
    requires proplets != []
  {
    proplets[turn % |proplets|].alive
  }

  predicate NoneAlive(proplets: seq<Proplet>) {
    forall i :: 0 <= i < |proplets| ==> !proplets[i].alive
  }

  function AliveIndices(proplets: seq<Proplet>): set<nat> {
    set i: nat | i < |proplets| && proplets[i].alive
  }

  /** The turns after `start` up to `end` that fall on a proplet that is alive. */
  function Turns(proplets: seq<Proplet>, start: nat, end: nat): seq<nat>
    requires proplets != [] && start <= end
    decreases end - start
  {
    if start == end then []
    else Turns(proplets, start, end - 1) + if AliveAt(proplets, end) then [end] else []
  }

  function Indices(turns: seq<nat>, n: nat): seq<nat>
    requires n > 0
  {
    seq(|turns|, i requires 0 <= i < |turns| => turns[i] % n)
  }

  lemma {:induction false} TurnsMembers(proplets: seq<Proplet>, start: nat, end: nat)
    requires proplets != [] && start <= end
    ensures forall t :: t in Turns(proplets, start, end) <==> start < t <= end && AliveAt(proplets, t)
    ensures forall i, j :: 0 <= i < j < |Turns(proplets, start, end)| ==>
              Turns(proplets, start, end)[i] < Turns(proplets, start, end)[j]
    decreases end - start
  {
    if start < end {
      TurnsMembers(proplets, start, end - 1);
      var before := Turns(proplets, start, end - 1);
      assert forall i :: 0 <= i < |before| ==> before[i] in before;
    }
  }

  /** Turns that pass nobody alive add nothing. */
  lemma {:induction false} TurnsQuiet(proplets: seq<Proplet>, start: nat, mid: nat, end: nat)
    requires proplets != [] && start <= mid <= end
    requires forall t {:trigger AliveAt(proplets, t)} :: mid < t <= end ==> !AliveAt(proplets, t)
    ensures Turns(proplets, start, end) == Turns(proplets, start, mid)
    decreases end - mid
  {
    if mid < end {
      TurnsQuiet(proplets, start, mid, end - 1);
      assert !AliveAt(proplets, end);
    }
  }

  lemma {:induction false} TurnsGrow(proplets: seq<Proplet>, start: nat, mid: nat, end: nat)
    requires proplets != [] && start <= mid <= end
    ensures Turns(proplets, start, mid) <= Turns(proplets, start, end)
    decreases end - mid
  {
    if mid < end {
      TurnsGrow(proplets, start, mid, end - 1);
    }
  }

  lemma ModShift(t: nat, n: nat)
    requires n > 0
    ensures (t + n) % n == t % n
  {
    assert t == n * (t / n) + t % n;
    assert t + n == n * (t / n + 1) + t % n;
    ModUnique(t + n, n, t / n + 1, t % n);
  }

  lemma ModUnique(t: int, n: nat, q: int, r: nat)
    requires n > 0 && r < n && t == n * q + r
    ensures t % n == r
  {
    var q', r' := t / n, t % n;
    assert t == n * q' + r';
    Distribute(n, q, q');
    SmallMultiple(n, q - q', r' - r);
  }

  lemma Distribute(n: int, a: int, b: int)
    ensures n * (a - b) == n * a - n * b
  {
  }

  lemma SmallMultiple(n: nat, d: int, e: int)
    requires n * d == e && 0 - n < e < n
    ensures e == 0
  {
    if d >= 1 {
      AtLeast(n, d);
    } else if d <= -1 {
      assert n * -d == -e;
      AtLeast(n, -d);
    }
  }

  lemma AtLeast(n: nat, d: nat)
    requires d >= 1
    ensures n * d >= n
  {
  }

  lemma ModApart(a: nat, b: nat, n: nat)
    requires n > 0 && a < b < a + n
    ensures a % n != b % n
  {
    if a % n == b % n {
      var qa, qb := a / n, b / n;
      assert a == n * qa + a % n && b == n * qb + b % n;
      Distribute(n, qb, qa);
      SmallMultiple(n, qb - qa, b - a);
    }
  }

  /** Every index has a turn within any full round. */
  lemma {:induction false} TurnOf(start: nat, n: nat, i: nat) returns (t: nat)
    requires i < n
    ensures start < t <= start + n && t % n == i
  {
    if start == 0 {
      t := if i == 0 then n else i;
    } else {
      t := TurnOf(start - 1, n, i);
      if t == start {
        ModShift(t, n);
        t := t + n;
      }
    }
  }

  function Elements(s: seq<nat>): set<nat> {
    set x | x in s
  }

  lemma {:induction false} DistinctCount(s: seq<nat>)
    requires Distinct(s)
    ensures |Elements(s)| == |s|
  {
    if s != [] {
      var last := s[|s| - 1];
      var rest := s[..|s| - 1];
      DistinctCount(rest);
      assert s == rest + [last];
      assert last !in rest;
      assert Elements(s) == Elements(rest) + {last};
    }
  }

  /** A full round falls on every alive proplet exactly once. */
  lemma RoundCovers(proplets: seq<Proplet>, start: nat)
    requires proplets != []
    ensures var n := |proplets|; var round := Indices(Turns(proplets, start, start + n), n);
            Distinct(round) && Elements(round) == AliveIndices(proplets)
            && |round| == |AliveIndices(proplets)|
  {
    var n := |proplets|;
    var turns := Turns(proplets, start, start + n);
    var round := Indices(turns, n);
    TurnsMembers(proplets, start, start + n);
    forall i, j | 0 <= i < j < |round|
      ensures round[i] != round[j]
    {
      assert turns[i] in turns && turns[j] in turns;
      ModApart(turns[i], turns[j], n);
    }
    forall i | i in AliveIndices(proplets)
      ensures i in round
    {
      var t := TurnOf(start, n, i);
      assert AliveAt(proplets, t);
      var k :| 0 <= k < |turns| && turns[k] == t;
      assert round[k] == i;
    }
    forall i | i in round
      ensures i in AliveIndices(proplets)
    {
      var k :| 0 <= k < |round| && round[k] == i;
      assert turns[k] in turns;
    }
    assert Elements(round) == AliveIndices(proplets);
    DistinctCount(round);
  }

  /** One choice: `turn` is the first one after the cursor that falls on a proplet alive. */
  ghost predicate Selected(proplets: seq<Proplet>, cursor: nat, turn: nat) {
    && proplets != []
    && cursor < turn <= cursor + |proplets|
    && AliveAt(proplets, turn)
    && forall t {:trigger AliveAt(proplets, t)} :: cursor < t < turn ==> !AliveAt(proplets, t)
  }

  /** Consecutive choices over a list that does not change: each leaves the cursor where its turn fell. */
  ghost predicate Selections(proplets: seq<Proplet>, cursors: seq<nat>, turns: seq<nat>) {
    && proplets != [] && |cursors| == |turns| + 1
    && forall i :: 0 <= i < |turns| ==>
         Selected(proplets, cursors[i], turns[i]) && cursors[i + 1] == turns[i] % |proplets|
  }

  class Scheduler {
    var lastProplet: nat

    constructor ()
      ensures lastProplet == 0
    {
      lastProplet := 0;
    }

    /** Moves to the next proplet alive, whatever the cursor was; the search cannot come back empty. */
    method SelectProplet(proplets: seq<Proplet>) returns (r: Result<Proplet, SelectError>, ghost turn: nat)
      modifies this
      ensures r.Ok? <==> !NoneAlive(proplets)
      ensures r.Err? ==> r.error == (if proplets == [] then NoProplet else AllDead) && lastProplet == old(lastProplet)
      ensures r.Ok? ==>
                && Selected(proplets, old(lastProplet), turn)
                && lastProplet == turn % |proplets| && r.value == proplets[lastProplet]
    {
      turn := lastProplet;
      if |proplets| == 0 {
        return Err(NoProplet), turn;
      }
      var alive := CountAlive(proplets);
      if alive == 0 {
        return Err(AllDead), turn;
      }
      var n := |proplets|;
      ghost var start := lastProplet;
      var i := 0;
      while i < n
        invariant 0 <= i <= n
        invariant turn == start + i && (i == 0 ==> lastProplet == start) && lastProplet % n == turn % n
        invariant forall t {:trigger AliveAt(proplets, t)} :: start < t <= turn ==> !AliveAt(proplets, t)
      {
        ModNext(lastProplet, turn, n);
        lastProplet := (lastProplet + 1) % n;
        turn := turn + 1;
        ModTwice(turn, n);
        if proplets[lastProplet].alive {
          return Ok(proplets[lastProplet]), turn;
        }
        assert !AliveAt(proplets, turn);
        i := i + 1;
      }
      FullRound(proplets, start);
      return Err(AllDead), turn;
    }

    method CountAlive(proplets: seq<Proplet>) returns (alive: nat)
      ensures alive == 0 <==> NoneAlive(proplets)
    {
      alive := 0;
      for i := 0 to |proplets|
        invariant alive == 0 <==> NoneAlive(proplets[..i])
      {
        NoneAliveSnoc(proplets, i);
        if proplets[i].alive {
          alive := alive + 1;
        }
      }
      assert proplets[..|proplets|] == proplets;
    }

    /**
     * Repeated choices over a list that does not change: as many as there are proplets alive
     * choose each of them exactly once, wherever the cursor was.
     */
    method SelectRound(proplets: seq<Proplet>) returns (chosen: seq<nat>, ghost turns: seq<nat>)
      requires !NoneAlive(proplets)
      modifies this
      ensures Selections(proplets, [old(lastProplet)] + chosen, turns)
      ensures |chosen| == |AliveIndices(proplets)| > 0 && lastProplet == chosen[|chosen| - 1]
      ensures Distinct(chosen) && Elements(chosen) == AliveIndices(proplets)
    {
      ghost var i :| 0 <= i < |proplets| && proplets[i].alive;
      assert i in AliveIndices(proplets);
      hide AliveIndices, Selected, Distinct, Elements;
      ghost var cursors := [lastProplet];
      var total := |AliveIndices(proplets)|;
      chosen, turns := [], [];
      while |chosen| < total
        invariant |chosen| <= total && cursors == [old(lastProplet)] + chosen
        invariant Selections(proplets, cursors, turns) && cursors[|turns|] == lastProplet
      {
        var r; ghost var turn;
        r, turn := SelectProplet(proplets);
        chosen, turns := chosen + [lastProplet], turns + [turn];
        cursors := cursors + [lastProplet];
      }
      assert cursors[1..] == chosen;
      RoundOfSelections(proplets, cursors, turns);
    }
  }

  /** What the choices so far have in common with the turns since `start`. */
  ghost predicate Chosen(proplets: seq<Proplet>, start: nat, at: nat, cursor: nat, chosen: seq<nat>) {
    && proplets != [] && start <= at && cursor % |proplets| == at % |proplets|
    && chosen == Indices(Turns(proplets, start, at), |proplets|)
    && (at > start ==> AliveAt(proplets, at))
  }

  lemma RoundStart(proplets: seq<Proplet>, start: nat)
    requires proplets != []
    ensures Chosen(proplets, start, start, start, [])
  {
  }

  lemma RoundStep(proplets: seq<Proplet>, start: nat, at: nat, before: nat, turn: nat, chosen: seq<nat>)
    requires Chosen(proplets, start, at, before, chosen) && before < turn && AliveAt(proplets, turn)
    requires forall t {:trigger AliveAt(proplets, t)} :: before < t < turn ==> !AliveAt(proplets, t)
    ensures Chosen(proplets, start, at + (turn - before), turn % |proplets|, chosen + [turn % |proplets|])
  {
    Advance(proplets, start, at, at + (turn - before), before, turn);
    ModTwice(turn, |proplets|);
  }

  lemma RoundEnd(proplets: seq<Proplet>, start: nat, at: nat, cursor: nat, chosen: seq<nat>)
    requires Chosen(proplets, start, at, cursor, chosen) && |chosen| == |AliveIndices(proplets)|
    ensures Distinct(chosen) && Elements(chosen) == AliveIndices(proplets)
  {
    StaysInRound(proplets, start, at);
    RoundCovers(proplets, start);
  }

  lemma {:induction false} SelectionsChosen(proplets: seq<Proplet>, cursors: seq<nat>, turns: seq<nat>, k: nat)
    returns (at: nat)
    requires Selections(proplets, cursors, turns) && k <= |turns|
    ensures Chosen(proplets, cursors[0], at, cursors[k], cursors[1..k + 1])
  {
    hide Chosen;
    if k == 0 {
      at := cursors[0];
      RoundStart(proplets, at);
    } else {
      at := SelectionsChosen(proplets, cursors, turns, k - 1);
      RoundStep(proplets, cursors[0], at, cursors[k - 1], turns[k - 1], cursors[1..k]);
      assert cursors[1..k + 1] == cursors[1..k] + [cursors[k]];
      at := at + (turns[k - 1] - cursors[k - 1]);
    }
  }

  /** Any consecutive choices that are as many as the proplets alive choose each of these exactly once. */
  lemma RoundOfSelections(proplets: seq<Proplet>, cursors: seq<nat>, turns: seq<nat>)
    requires Selections(proplets, cursors, turns) && |turns| == |AliveIndices(proplets)|
    ensures Distinct(cursors[1..]) && Elements(cursors[1..]) == AliveIndices(proplets)
  {
    var at := SelectionsChosen(proplets, cursors, turns, |turns|);
    assert cursors[1..|turns| + 1] == cursors[1..];
    RoundEnd(proplets, cursors[0], at, cursors[|turns|], cursors[1..]);
  }

  lemma ModNext(a: nat, b: nat, n: nat)
    requires n > 0 && a % n == b % n
    ensures (a + 1) % n == (b + 1) % n
  {
    var r := a % n;
    if r + 1 < n {
      ModUnique(a + 1, n, a / n, r + 1);
      ModUnique(b + 1, n, b / n, r + 1);
    } else {
      assert n * (a / n) + n == n * (a / n + 1);
      assert n * (b / n) + n == n * (b / n + 1);
      ModUnique(a + 1, n, a / n + 1, 0);
      ModUnique(b + 1, n, b / n + 1, 0);
    }
  }

  lemma {:induction false} ModAdd(a: nat, b: nat, k: nat, n: nat)
    requires n > 0 && a % n == b % n
    ensures (a + k) % n == (b + k) % n
  {
    if k > 0 {
      ModAdd(a, b, k - 1, n);
      ModNext(a + k - 1, b + k - 1, n);
    }
  }

  lemma ModTwice(t: nat, n: nat)
    requires n > 0
    ensures t % n % n == t % n
  {
    ModUnique(t % n, n, 0, t % n);
  }

  lemma NoneAliveSnoc(proplets: seq<Proplet>, i: nat)
    requires i < |proplets|
    ensures NoneAlive(proplets[..i + 1]) <==> NoneAlive(proplets[..i]) && !proplets[i].alive
  {
    assert proplets[..i + 1] == proplets[..i] + [proplets[i]];
    assert forall k :: 0 <= k < i ==> proplets[..i][k] == proplets[..i + 1][k];
    assert proplets[..i + 1][i] == proplets[i];
  }

  /** A round without anybody alive means that nobody is. */
  lemma FullRound(proplets: seq<Proplet>, start: nat)
    requires proplets != []
    requires forall t {:trigger AliveAt(proplets, t)} :: start < t <= start + |proplets| ==> !AliveAt(proplets, t)
    ensures NoneAlive(proplets)
  {
    forall i | 0 <= i < |proplets|
      ensures !proplets[i].alive
    {
      var t := TurnOf(start, |proplets|, i);
      assert !AliveAt(proplets, t);
    }
  }

  /** One choice extends the list of turns by exactly one. */
  lemma Advance(proplets: seq<Proplet>, start: nat, at: nat, next: nat, before: nat, turn: nat)
    requires proplets != [] && start <= at && before % |proplets| == at % |proplets|
    requires before < turn && next == at + (turn - before)
    requires AliveAt(proplets, turn)
    requires forall t {:trigger AliveAt(proplets, t)} :: before < t < turn ==> !AliveAt(proplets, t)
    ensures AliveAt(proplets, next) && next % |proplets| == turn % |proplets|
    ensures Indices(Turns(proplets, start, next), |proplets|)
         == Indices(Turns(proplets, start, at), |proplets|) + [turn % |proplets|]
  {
    var n := |proplets|;
    ModAdd(at, before, turn - before, n);
    forall t {:trigger AliveAt(proplets, t)} | at < t < next
      ensures !AliveAt(proplets, t)
    {
      ModAdd(at, before, t - at, n);
      assert !AliveAt(proplets, before + (t - at));
    }
    TurnsQuiet(proplets, start, at, next - 1);
    assert Turns(proplets, start, next) == Turns(proplets, start, at) + [next];
  }

  /** As many turns as there are proplets alive are the turns of one round. */
  lemma StaysInRound(proplets: seq<Proplet>, start: nat, at: nat)
    requires proplets != [] && start <= at
    requires at > start ==> AliveAt(proplets, at)
    requires |Turns(proplets, start, at)| == |AliveIndices(proplets)|
    ensures Turns(proplets, start, at) == Turns(proplets, start, start + |proplets|)
  {
    var end := start + |proplets|;
    RoundCovers(proplets, start);
    if at <= end {
      TurnsGrow(proplets, start, at, end);
    } else {
      TurnsGrow(proplets, start, end, at - 1);
    }
  }
}
