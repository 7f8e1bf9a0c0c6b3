/** Finite dependency graphs: walks, cycles, topological orders. */
module Graph {

  /** Each node with its dependency list. A list may repeat entries and may name nodes that are absent. */
  type Graph = map<string, seq<string>>

  ghost predicate Edge(g: Graph, a: string, b: string) {
    a in g && b in g[a]
  }

  ghost predicate IsWalk(g: Graph, p: seq<string>) {
    forall i :: 0 <= i < |p| - 1 ==> Edge(g, p[i], p[i + 1])
  }

  ghost predicate IsCycle(g: Graph, p: seq<string>) {
    && |p| >= 2
    && p[0] == p[|p| - 1]
    && IsWalk(g, p)
  }

  ghost predicate Acyclic(g: Graph) {
    forall p :: !IsCycle(g, p)
  }

  ghost predicate Distinct<T>(s: seq<T>) {
    forall i, j :: 0 <= i < j < |s| ==> s[i] != s[j]
  }

  /** Every dependency that is a node of the graph occurs before the node that lists it. */
  ghost predicate DepsFirst(g: Graph, o: seq<string>) {
    forall i, d :: 0 <= i < |o| && Edge(g, o[i], d) && d in g ==> d in o[..i]
  }

  ghost predicate IsTopoOrder(g: Graph, o: seq<string>) {
    && Distinct(o)
    && (forall x :: x in o <==> x in g)
    && DepsFirst(g, o)
  }

  /** The dependencies of a set of nodes stay inside the set. */
  ghost predicate Closed(g: Graph, s: set<string>) {
    forall a, b :: a in s && Edge(g, a, b) ==> b in s
  }

  function IndexOf(o: seq<string>, x: string): (i: nat)
    requires x in o
    ensures i < |o| && o[i] == x
    ensures x !in o[..i]
  {
    if o[0] == x then 0 else 1 + IndexOf(o[1..], x)
  }

  lemma {:induction false} TopoOrderDescends(g: Graph, o: seq<string>, p: seq<string>, i: nat)
    requires IsTopoOrder(g, o) && IsWalk(g, p) && i < |p|
    requires forall x :: x in p ==> x in g
    ensures IndexOf(o, p[i]) + i <= IndexOf(o, p[0])
  {
    if i > 0 {
      TopoOrderDescends(g, o, p, i - 1);
      var k := IndexOf(o, p[i - 1]);
      assert Edge(g, p[i - 1], p[i]) && p[i] in p;
      assert p[i] in o[..k];
      var j :| 0 <= j < k && o[j] == p[i];
      assert IndexOf(o, p[i]) == j;
    }
  }

  lemma CycleInside(g: Graph, p: seq<string>)
    requires IsCycle(g, p)
    ensures forall x :: x in p ==> x in g
  {
    forall i | 0 <= i < |p| ensures p[i] in g {
      assert i < |p| - 1 ==> Edge(g, p[i], p[i + 1]);
      assert Edge(g, p[0], p[1]);
    }
  }

  /** A topological order rules out every cycle. */
  lemma TopoOrderAcyclic(g: Graph, o: seq<string>)
    requires IsTopoOrder(g, o)
    ensures Acyclic(g)
  {
    forall p | IsCycle(g, p) ensures false {
      CycleInside(g, p);
      TopoOrderDescends(g, o, p, |p| - 1);
    }
  }

  lemma RepeatIsCycle(g: Graph, p: seq<string>, i: nat, j: nat)
    requires IsWalk(g, p) && i < j < |p| && p[i] == p[j]
    ensures !Acyclic(g)
  {
    var c := p[i..j + 1];
    forall k | 0 <= k < |c| - 1 ensures Edge(g, c[k], c[k + 1]) {
      assert Edge(g, p[i + k], p[i + k + 1]);
    }
    assert IsCycle(g, c);
  }

  lemma {:induction false} DistinctBound(p: seq<string>, s: set<string>)
    requires Distinct(p) && forall x :: x in p ==> x in s
    ensures |p| <= |s|
  {
    if p != [] {
      DistinctBound(p[1..], s - {p[0]});
    }
  }

  ghost predicate HasDepIn(g: Graph, s: set<string>, x: string) {
    exists y :: y in s && Edge(g, x, y)
  }

  ghost predicate NoSource(g: Graph, s: set<string>) {
    forall x {:trigger HasDepIn(g, s, x)} :: x in s ==> HasDepIn(g, s, x)
  }

  /** A walk of any length inside a set in which every node has a dependency of the set. */
  lemma {:induction false} LongWalk(g: Graph, s: set<string>, n: nat) returns (p: seq<string>)
    requires s != {} && NoSource(g, s)
    ensures |p| == n + 1 && IsWalk(g, p) && forall x :: x in p ==> x in s
  {
    if n == 0 {
      var x :| x in s;
      p := [x];
    } else {
      var q := LongWalk(g, s, n - 1);
      assert q[n - 1] in s && HasDepIn(g, s, q[n - 1]);
      var y :| y in s && Edge(g, q[n - 1], y);
      p := q + [y];
    }
  }

  lemma NoSourceCyclic(g: Graph, s: set<string>)
    requires s != {} && NoSource(g, s)
    ensures !Acyclic(g)
  {
    var p := LongWalk(g, s, |s|);
    if Distinct(p) {
      DistinctBound(p, s);
    } else {
      var i, j :| 0 <= i < j < |p| && p[i] == p[j];
      RepeatIsCycle(g, p, i, j);
    }
  }

  /** In an acyclic graph every non-empty set has a member none of whose dependencies is in the set. */
  lemma AcyclicHasSource(g: Graph, s: set<string>) returns (x: string)
    requires Acyclic(g) && s != {}
    ensures x in s && !HasDepIn(g, s, x)
  {
    if NoSource(g, s) {
      NoSourceCyclic(g, s);
    }
    x :| x in s && !HasDepIn(g, s, x);
  }

  lemma CycleLifts(g: Graph, h: Graph, p: seq<string>)
    requires forall a :: a in h && a in p ==> a in g && h[a] == g[a]
    requires IsCycle(h, p)
    ensures IsCycle(g, p)
  {
    forall i | 0 <= i < |p| - 1 ensures Edge(g, p[i], p[i + 1]) {
      assert Edge(h, p[i], p[i + 1]);
    }
  }

  /** Removing nodes from an acyclic graph leaves it acyclic. */
  lemma SubgraphAcyclic(g: Graph, h: Graph)
    requires Acyclic(g)
    requires forall a :: a in h ==> a in g && h[a] == g[a]
    ensures Acyclic(h)
  {
    forall p ensures !IsCycle(h, p) {
      if IsCycle(h, p) {
        CycleLifts(g, h, p);
      }
    }
  }

  lemma {:induction false} WalkStaysInside(g: Graph, s: set<string>, p: seq<string>, i: nat, j: nat)
    requires Closed(g, s) && IsWalk(g, p) && i <= j < |p| && p[i] in s
    ensures p[j] in s
    decreases j - i
  {
    if i < j {
      assert Edge(g, p[i], p[i + 1]);
      WalkStaysInside(g, s, p, i + 1, j);
    }
  }

  /** A cycle of a union whose second part only depends on itself lies in one of the parts. */
  lemma CycleInOnePart(g: Graph, h: Graph, p: seq<string>)
    requires g.Keys !! h.Keys && Closed(h, h.Keys)
    requires IsCycle(g + h, p)
    ensures IsCycle(g, p) || IsCycle(h, p)
  {
    var u := g + h;
    forall a, b | a in h.Keys && Edge(u, a, b) ensures b in h.Keys {
      assert Edge(h, a, b);
    }
    CycleInside(u, p);
    if i :| 0 <= i < |p| && p[i] in h.Keys {
      WalkStaysInside(u, h.Keys, p, i, |p| - 1);
      forall k | 0 <= k < |p| ensures p[k] in h {
        WalkStaysInside(u, h.Keys, p, 0, k);
      }
      CycleLifts(h, u, p);
    } else {
      CycleLifts(g, u, p);
    }
  }

  /** Joining such a part to an acyclic graph makes no cycle, whatever the graph itself lists. */
  lemma JoinAcyclic(g: Graph, h: Graph)
    requires Acyclic(g) && Acyclic(h)
    requires g.Keys !! h.Keys && Closed(h, h.Keys)
    ensures Acyclic(g + h)
  {
    forall p ensures !IsCycle(g + h, p) {
      if IsCycle(g + h, p) {
        CycleInOnePart(g, h, p);
      }
    }
  }
}
