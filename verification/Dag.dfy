/** Validation, sorting and readiness of task dependencies. */
module Dag {
  import opened Options
  import opened Tasks
  import opened Graph

  datatype DagError =
    | SelfDependency(id: string)
    | CycleDetected(id: string, dep: string)
    | MissingDependency(id: string, dep: string)
    | NotAllProcessed

  /** The dependency graph of a task list; of several tasks with one id the last one counts. */
  function GraphOf(tasks: seq<Task>): Graph {
    if tasks == [] then map[]
    else
      var last := tasks[|tasks| - 1];
      GraphOf(tasks[..|tasks| - 1])[last.id := last.dependsOn]
  }

  lemma {:induction false} GraphOfHasTask(tasks: seq<Task>, i: nat)
    requires i < |tasks|
    ensures tasks[i].id in GraphOf(tasks)
  {
    if i < |tasks| - 1 {
      GraphOfHasTask(tasks[..|tasks| - 1], i);
    }
  }

  lemma {:induction false} GraphOfTask(tasks: seq<Task>, x: string) returns (i: nat)
    requires x in GraphOf(tasks)
    ensures i < |tasks| && tasks[i].id == x && tasks[i].dependsOn == GraphOf(tasks)[x]
  {
    i := |tasks| - 1;
    if tasks[i].id != x {
      i := GraphOfTask(tasks[..|tasks| - 1], x);
    }
  }

  predicate NoneListsItself(tasks: seq<Task>) {
    forall i :: 0 <= i < |tasks| ==> tasks[i].id !in tasks[i].dependsOn
  }

  predicate DependenciesExist(tasks: seq<Task>) {
    forall i, d :: 0 <= i < |tasks| && d in tasks[i].dependsOn ==> exists j :: 0 <= j < |tasks| && tasks[j].id == d
  }

  /** Some absent node is listed at two places. */
  ghost predicate MissingListedTwice(g: Graph) {
    exists a, i, b, j ::
      && a in g && 0 <= i < |g[a]|
      && b in g && 0 <= j < |g[b]|
      && (a, i) != (b, j)
      && g[a][i] == g[b][j]
      && g[a][i] !in g
  }

  /** What the depth-first search knows at one moment. */
  datatype Search = Search(
    visited: set<string>,
    recStack: set<string>,
    order: seq<string>,               // nodes in the order in which their visits returned
    upto: map<string, nat>,           // for each node visited, how many of its dependencies were looked at
    place: map<string, (string, nat)> // for each absent node visited, the place that listed it
  )

  /** The open visits form a walk, and exactly their nodes and the absent ones are marked in recStack. */
  ghost predicate StackValid(g: Graph, s: Search, stack: seq<string>) {
    && s.recStack <= s.visited
    && Distinct(stack)
    && IsWalk(g, stack)
    && (forall x :: x in stack ==> x in g && x in s.recStack)
    && (forall x :: x in s.recStack && x in g ==> x in stack)
    && (forall x :: x in s.visited && x !in g ==> x in s.recStack)
  }

  /** The closed visits form a topological order of the nodes visited so far. */
  ghost predicate OrderValid(g: Graph, s: Search, stack: seq<string>) {
    && Distinct(s.order)
    && (forall x :: x in s.order <==> x in g && x in s.visited && x !in stack)
    && DepsFirst(g, s.order)
  }

  /** Every dependency looked at is a closed node, or an absent one looked at only there. */
  ghost predicate ScanValid(g: Graph, s: Search, stack: seq<string>) {
    && (forall x :: x in s.upto <==> x in s.order || x in stack)
    && (forall x :: x in s.upto ==> x in g && s.upto[x] <= |g[x]|)
    && (forall x :: x in s.order ==> x in s.upto && s.upto[x] == |g[x]|)
    && (forall a, i :: a in s.upto && 0 <= i < s.upto[a] && g[a][i] in g ==> g[a][i] in s.order)
    && (forall a, i :: a in s.upto && 0 <= i < s.upto[a] && g[a][i] !in g ==>
          g[a][i] in s.visited && g[a][i] in s.place && s.place[g[a][i]] == (a, i))
    && (forall m :: m in s.visited && m !in g ==>
          && m in s.place
          && var (a, i) := s.place[m];
             a in s.upto && i < s.upto[a] && g[a][i] == m)
  }

  ghost predicate Valid(g: Graph, s: Search, stack: seq<string>) {
    StackValid(g, s, stack) && OrderValid(g, s, stack) && ScanValid(g, s, stack)
  }

  /** The innermost open visit is about to look at dependency `dep`, its k-th. */
  ghost predicate LooksAt(g: Graph, s: Search, stack: seq<string>, k: nat, dep: string) {
    && stack != []
    && var id := stack[|stack| - 1];
       id in s.upto && s.upto[id] == k && id in g && k < |g[id]| && g[id][k] == dep
  }

  /** The search after a visit of `id` has begun. */
  function Opened(s: Search, id: string): Search {
    s.(visited := s.visited + {id}, recStack := s.recStack + {id}, upto := s.upto[id := 0])
  }

  lemma OpenStack(g: Graph, s: Search, stack: seq<string>, id: string)
    requires StackValid(g, s, stack) && id in g && id !in s.visited
    requires stack != [] ==> Edge(g, stack[|stack| - 1], id)
    ensures StackValid(g, Opened(s, id), stack + [id])
  {
    var inner := stack + [id];
    assert forall x :: x in inner <==> x in stack || x == id;
    assert IsWalk(g, inner);
  }

  lemma OpenRest(g: Graph, s: Search, stack: seq<string>, id: string)
    requires StackValid(g, s, stack) && OrderValid(g, s, stack) && ScanValid(g, s, stack) && id in g && id !in s.visited
    ensures OrderValid(g, Opened(s, id), stack + [id]) && ScanValid(g, Opened(s, id), stack + [id])
  {
    hide DepsFirst, IsWalk;
    var inner := stack + [id];
    assert forall x :: x in inner <==> x in stack || x == id;
  }

  lemma OpenVisit(g: Graph, s: Search, stack: seq<string>, id: string)
    requires Valid(g, s, stack) && id in g && id !in s.visited
    requires stack != [] ==> Edge(g, stack[|stack| - 1], id)
    ensures Valid(g, Opened(s, id), stack + [id])
  {
    hide StackValid, OrderValid, ScanValid;
    OpenStack(g, s, stack, id);
    OpenRest(g, s, stack, id);
  }

  /** The search after `id` has met an absent node as its k-th dependency. */
  function AbsentSeen(s: Search, id: string, k: nat, dep: string): Search {
    s.(visited := s.visited + {dep}, recStack := s.recStack + {dep},
       place := s.place[dep := (id, k)], upto := s.upto[id := k + 1])
  }

  lemma AbsentStackAndOrder(g: Graph, s: Search, stack: seq<string>, k: nat, dep: string)
    requires StackValid(g, s, stack) && OrderValid(g, s, stack) && LooksAt(g, s, stack, k, dep)
    requires dep !in g && dep !in s.visited
    ensures var t := AbsentSeen(s, stack[|stack| - 1], k, dep); StackValid(g, t, stack) && OrderValid(g, t, stack)
  {
    hide IsWalk, DepsFirst;
  }

  lemma AbsentScan(g: Graph, s: Search, stack: seq<string>, k: nat, dep: string)
    requires OrderValid(g, s, stack) && ScanValid(g, s, stack) && LooksAt(g, s, stack, k, dep)
    requires dep !in g && dep !in s.visited
    ensures ScanValid(g, AbsentSeen(s, stack[|stack| - 1], k, dep), stack)
  {
    hide IsWalk, DepsFirst;
    var id := stack[|stack| - 1];
    assert id in stack && id !in s.order;
    hide OrderValid;
  }

  lemma LookAtAbsent(g: Graph, s: Search, stack: seq<string>, k: nat, dep: string)
    requires Valid(g, s, stack) && LooksAt(g, s, stack, k, dep)
    requires dep !in g && dep !in s.visited
    ensures Valid(g, AbsentSeen(s, stack[|stack| - 1], k, dep), stack)
  {
    hide StackValid, OrderValid, ScanValid;
    AbsentStackAndOrder(g, s, stack, k, dep);
    AbsentScan(g, s, stack, k, dep);
  }

  lemma ClosedScan(g: Graph, s: Search, stack: seq<string>, k: nat, dep: string)
    requires StackValid(g, s, stack) && OrderValid(g, s, stack) && ScanValid(g, s, stack)
    requires LooksAt(g, s, stack, k, dep)
    requires dep in s.visited && dep !in s.recStack
    ensures ScanValid(g, s.(upto := s.upto[stack[|stack| - 1] := k + 1]), stack)
  {
    hide IsWalk, DepsFirst;
    var id := stack[|stack| - 1];
    assert id in stack && id !in s.order;
    assert dep in g && dep in s.order;
    hide OrderValid, StackValid;
  }

  lemma LookAtClosed(g: Graph, s: Search, stack: seq<string>, k: nat, dep: string)
    requires Valid(g, s, stack) && LooksAt(g, s, stack, k, dep)
    requires dep in s.visited && dep !in s.recStack
    ensures var id := stack[|stack| - 1];
            Valid(g, s.(upto := s.upto[id := k + 1]), stack)
  {
    hide ScanValid;
    ClosedScan(g, s, stack, k, dep);
  }

  /** The search after the visit of `id` has returned. */
  function Shut(s: Search, id: string): Search {
    s.(recStack := s.recStack - {id}, order := s.order + [id])
  }

  lemma CloseStack(g: Graph, s: Search, stack: seq<string>, id: string)
    requires StackValid(g, s, stack + [id])
    ensures StackValid(g, Shut(s, id), stack)
  {
    var inner := stack + [id];
    assert inner[|stack|] == id;
    assert forall x :: x in inner <==> x in stack || x == id;
    assert forall i :: 0 <= i < |stack| ==> inner[i] == stack[i];
    forall i | 0 <= i < |stack| - 1 ensures Edge(g, stack[i], stack[i + 1]) {
      assert Edge(g, inner[i], inner[i + 1]);
    }
  }

  lemma CloseOrder(g: Graph, s: Search, stack: seq<string>, id: string)
    requires StackValid(g, s, stack + [id]) && OrderValid(g, s, stack + [id]) && ScanValid(g, s, stack + [id])
    requires id in s.upto && s.upto[id] == |g[id]|
    ensures OrderValid(g, Shut(s, id), stack)
  {
    var inner, order := stack + [id], s.order + [id];
    assert inner[|stack|] == id;
    assert forall x :: x in inner <==> x in stack || x == id;
    assert forall x :: x in order <==> x in s.order || x == id;
    assert id !in stack by {
      assert forall i :: 0 <= i < |stack| ==> inner[i] == stack[i];
    }
    hide IsWalk;
    forall i, d | 0 <= i < |order| && Edge(g, order[i], d) && d in g ensures d in order[..i] {
      assert i < |s.order| ==> order[..i] == s.order[..i] && Edge(g, s.order[i], d);
      assert order[..|s.order|] == s.order;
    }
  }

  lemma CloseScan(g: Graph, s: Search, stack: seq<string>, id: string)
    requires ScanValid(g, s, stack + [id]) && id in s.upto && s.upto[id] == |g[id]|
    ensures ScanValid(g, Shut(s, id), stack)
  {
    var inner, order := stack + [id], s.order + [id];
    assert forall x :: x in inner <==> x in stack || x == id;
    assert forall x :: x in order <==> x in s.order || x == id;
  }

  lemma CloseVisit(g: Graph, s: Search, stack: seq<string>, id: string)
    requires Valid(g, s, stack + [id]) && id in s.upto && s.upto[id] == |g[id]|
    ensures Valid(g, Shut(s, id), stack)
  {
    hide StackValid, OrderValid, ScanValid;
    CloseStack(g, s, stack, id);
    CloseOrder(g, s, stack, id);
    CloseScan(g, s, stack, id);
  }

  /** A dependency that is still marked closes a cycle, or is an absent node listed elsewhere too. */
  lemma LookAtMarked(g: Graph, s: Search, stack: seq<string>, k: nat, dep: string)
    requires Valid(g, s, stack) && LooksAt(g, s, stack, k, dep)
    requires dep in s.recStack
    ensures !Acyclic(g) || MissingListedTwice(g)
  {
    if dep in g {
      var i :| 0 <= i < |stack| && stack[i] == dep;
      var p := stack + [dep];
      forall j | 0 <= j < |p| - 1 ensures Edge(g, p[j], p[j + 1]) {
        assert j < |stack| - 1 ==> Edge(g, stack[j], stack[j + 1]);
      }
      RepeatIsCycle(g, p, i, |stack|);
    } else {
      var (a, i) := s.place[dep];
      assert (a, i) != (stack[|stack| - 1], k);
    }
  }

  /** When every node is closed, the closing order is topological and no absent node was met twice. */
  lemma AllClosed(g: Graph, s: Search)
    requires Valid(g, s, [])
    requires forall x :: x in g ==> x in s.visited
    ensures Acyclic(g) && !MissingListedTwice(g)
  {
    TopoOrderAcyclic(g, s.order);
  }

  /** What a visit leaves as it found it: marks stay, and open visits are not moved on. */
  ghost predicate Kept(before: Search, now: Search) {
    && before.visited <= now.visited
    && before.recStack <= now.recStack
    && forall x :: x in before.upto && x in before.recStack ==> x in now.upto && now.upto[x] == before.upto[x]
  }

  lemma KeptOn(a: Search, b: Search, c: Search, id: string, k: nat)
    requires Kept(a, b) && (Kept(b, c) || (b.visited <= c.visited && b.recStack <= c.recStack && b.upto == c.upto))
    requires id !in a.recStack
    ensures Kept(a, c) && Kept(a, c.(upto := c.upto[id := k]))
  {
  }

  /** The closure `dfs` of ValidateDAG with the two maps it captures. */
  class DepthFirst {
    const graph: Graph
    var visited: set<string>
    var recStack: set<string>
    ghost var order: seq<string>
    ghost var upto: map<string, nat>
    ghost var place: map<string, (string, nat)>

    constructor (g: Graph)
      ensures graph == g && visited == {} && Valid(graph, Now(), [])
    {
      graph := g;
      visited, recStack := {}, {};
      order, upto, place := [], map[], map[];
    }

    ghost function Now(): Search
      reads this
    {
      Search(visited, recStack, order, upto, place)
    }

    ghost function Universe(): set<string> {
      graph.Keys + (set a, i | a in graph && 0 <= i < |graph[a]| :: graph[a][i])
    }

    /** One dependency of an open visit. */
    method Look(id: string, k: nat, ghost stack: seq<string>, ghost before: Search) returns (r: Option<DagError>)
      requires Valid(graph, Now(), stack + [id]) && id in graph && k < |graph[id]|
      requires id in visited && id in recStack && id in upto && upto[id] == k
      requires Kept(before, Now()) && id !in before.recStack
      modifies this
      ensures r.None? ==>
                && Valid(graph, Now(), stack + [id]) && Kept(before, Now())
                && id in visited && id in recStack && id in upto && upto[id] == k + 1
      ensures r.Some? ==> r.value.CycleDetected? && (!Acyclic(graph) || MissingListedTwice(graph))
      decreases Universe() - visited, 1
    {
      hide Valid, Acyclic, MissingListedTwice, Edge;
      var dep := graph[id][k];
      ghost var inner, here := stack + [id], Now();
      assert LooksAt(graph, here, inner, k, dep);
      if dep !in visited {
        DepIsEdge(graph, here, inner, k, dep);
        r := Visit(dep, inner);
        if r.Some? {
          return;
        }
        if dep !in graph {
          LookAtAbsent(graph, here, inner, k, dep);
          place := place[dep := (id, k)];
        } else {
          LookAtClosed(graph, Now(), inner, k, dep);
        }
      } else if dep in recStack {
        LookAtMarked(graph, here, inner, k, dep);
        return Some(CycleDetected(id, dep));
      } else {
        LookAtClosed(graph, here, inner, k, dep);
      }
      KeptOn(before, here, Now(), id, k + 1);
      upto := upto[id := k + 1];
      return None;
    }

    method Visit(id: string, ghost stack: seq<string>) returns (r: Option<DagError>)
      requires Valid(graph, Now(), stack)
      requires id !in visited && id in Universe()
      requires stack != [] ==> Edge(graph, stack[|stack| - 1], id)
      modifies this
      ensures r.None? && id !in graph ==>
                Now() == old(Now()).(visited := old(visited) + {id}, recStack := old(recStack) + {id})
      ensures r.None? && id in graph ==>
                && Valid(graph, Now(), stack)
                && id in visited && id !in recStack
                && Kept(old(Now()), Now())
      ensures r.Some? ==> r.value.CycleDetected? && (!Acyclic(graph) || MissingListedTwice(graph))
      decreases Universe() - visited, 0
    {
      hide Valid, Acyclic, MissingListedTwice, Edge;
      assert id !in recStack by { MarkedIsVisited(graph, Now(), stack); }
      ghost var before := Now();
      visited := visited + {id};
      recStack := recStack + {id};
      if id !in graph {
        return None;
      }
      var deps := graph[id];
      ghost var inner := stack + [id];
      upto := upto[id := 0];
      OpenVisit(graph, before, stack, id);
      for k := 0 to |deps|
        invariant Valid(graph, Now(), inner)
        invariant Kept(before, Now())
        invariant id in visited && id in recStack && id in upto && upto[id] == k
      {
        var e := Look(id, k, stack, before);
        if e.Some? {
          return e;
        }
      }
      CloseVisit(graph, Now(), stack, id);
      recStack := recStack - {id};
      order := order + [id];
      return None;
    }
  }

  lemma MarkedIsVisited(g: Graph, s: Search, stack: seq<string>)
    requires Valid(g, s, stack)
    ensures s.recStack <= s.visited
  {
  }

  lemma DepIsEdge(g: Graph, s: Search, stack: seq<string>, k: nat, dep: string)
    requires LooksAt(g, s, stack, k, dep)
    ensures Edge(g, stack[|stack| - 1], dep)
  {
  }

  method BuildGraph(tasks: seq<Task>) returns (g: Graph)
    ensures g == GraphOf(tasks)
  {
    g := map[];
    for i := 0 to |tasks|
      invariant g == GraphOf(tasks[..i])
    {
      assert tasks[..i + 1][..i] == tasks[..i];
      g := g[tasks[i].id := tasks[i].dependsOn];
    }
    assert tasks[..|tasks|] == tasks;
  }

  /** Visits every task that an earlier visit did not reach. */
  method SearchAll(tasks: seq<Task>, g: Graph) returns (r: Option<DagError>)
    requires forall i :: 0 <= i < |tasks| ==> tasks[i].id in g
    requires forall x :: x in g ==> exists i :: 0 <= i < |tasks| && tasks[i].id == x
    ensures r.None? <==> Acyclic(g) && !MissingListedTwice(g)
    ensures r.Some? ==> r.value.CycleDetected?
  {
    hide Valid, Acyclic, MissingListedTwice;
    var dfs := new DepthFirst(g);
    for i := 0 to |tasks|
      invariant fresh(dfs) && dfs.graph == g && Valid(g, dfs.Now(), [])
      invariant forall j :: 0 <= j < i ==> tasks[j].id in dfs.visited
    {
      if tasks[i].id !in dfs.visited {
        var e := dfs.Visit(tasks[i].id, []);
        if e.Some? {
          return e;
        }
      }
    }
    AllClosed(g, dfs.Now());
    return None;
  }

  /**
    * Depth-first cycle check. It accepts exactly the lists in which no task lists itself, the graph has no cycle,
    * and no absent task is listed twice.
    */
  method ValidateDAG(tasks: seq<Task>) returns (r: Option<DagError>)
    ensures r.None? <==> NoneListsItself(tasks) && Acyclic(GraphOf(tasks)) && !MissingListedTwice(GraphOf(tasks))
    ensures r.Some? ==> r.value.SelfDependency? || r.value.CycleDetected?
  {
    var g := BuildGraph(tasks);
    for i := 0 to |tasks|
      invariant forall j :: 0 <= j < i ==> tasks[j].id !in tasks[j].dependsOn
    {
      if tasks[i].id in tasks[i].dependsOn {
        return Some(SelfDependency(tasks[i].id));
      }
    }

    forall i | 0 <= i < |tasks| ensures tasks[i].id in g {
      GraphOfHasTask(tasks, i);
    }
    forall x | x in g ensures exists i :: 0 <= i < |tasks| && tasks[i].id == x {
      var i := GraphOfTask(tasks, x);
    }
    r := SearchAll(tasks, g);
  }

  /** With distinct ids and all dependencies present the check is exact. */
  lemma ValidatedIffAcyclic(tasks: seq<Task>)
    requires UniqueIds(tasks) && DependenciesExist(tasks)
    ensures NoneListsItself(tasks) && Acyclic(GraphOf(tasks)) && !MissingListedTwice(GraphOf(tasks))
       <==> Acyclic(GraphOf(tasks))
  {
    var g := GraphOf(tasks);
    forall a, d | a in g && d in g[a] ensures d in g {
      var i := GraphOfTask(tasks, a);
      var j :| 0 <= j < |tasks| && tasks[j].id == d;
      GraphOfHasTask(tasks, j);
    }
    if Acyclic(g) {
      forall i | 0 <= i < |tasks| ensures tasks[i].id !in tasks[i].dependsOn {
        GraphOfUnique(tasks, i);
        assert !IsCycle(g, [tasks[i].id, tasks[i].id]);
      }
    }
  }

  /** A task absent from the list but named by two others is reported as a cycle that is not there. */
  lemma MissingReportedAsCycle()
    ensures exists tasks: seq<Task> ::
              && UniqueIds(tasks) && NoneListsItself(tasks) && Acyclic(GraphOf(tasks))
              && MissingListedTwice(GraphOf(tasks))
  {
    var a := Task("a", "", Pending, ["x"], "", "", "", "", false, "", map[]);
    var tasks := [a, a.(id := "b")];
    var g := GraphOf(tasks);
    assert tasks[..1] == [a] && [a][..0] == [];
    assert GraphOf([a]) == map["a" := ["x"]];
    assert g == map["a" := ["x"], "b" := ["x"]];
    TopoOrderAcyclic(g, ["a", "b"]);
    assert ("a", 0) != ("b", 0) && g["a"][0] == g["b"][0];
  }

  lemma {:induction false} GraphOfUnique(tasks: seq<Task>, i: nat)
    requires UniqueIds(tasks) && i < |tasks|
    ensures tasks[i].id in GraphOf(tasks) && GraphOf(tasks)[tasks[i].id] == tasks[i].dependsOn
  {
    if i < |tasks| - 1 {
      GraphOfUnique(tasks[..|tasks| - 1], i);
    }
  }

  method ValidateDependenciesExist(tasks: seq<Task>) returns (r: Option<DagError>)
    ensures r.None? <==> DependenciesExist(tasks)
    ensures r.Some? ==>
              && r.value.MissingDependency?
              && exists i :: 0 <= i < |tasks| && tasks[i].id == r.value.id && r.value.dep in tasks[i].dependsOn
                             && forall j :: 0 <= j < |tasks| ==> tasks[j].id != r.value.dep
  {
    var present: set<string> := {};
    for i := 0 to |tasks|
      invariant forall x :: x in present <==> exists j :: 0 <= j < i && tasks[j].id == x
    {
      present := present + {tasks[i].id};
    }
    for i := 0 to |tasks|
      invariant forall j, d :: 0 <= j < i && d in tasks[j].dependsOn ==> d in present
    {
      var deps := tasks[i].dependsOn;
      for k := 0 to |deps|
        invariant forall d :: d in deps[..k] ==> d in present
      {
        if deps[k] !in present {
          assert deps[k] in tasks[i].dependsOn;
          return Some(MissingDependency(tasks[i].id, deps[k]));
        }
      }
    }
    forall i, d | 0 <= i < |tasks| && d in tasks[i].dependsOn
      ensures exists j :: 0 <= j < |tasks| && tasks[j].id == d
    {
      assert d in present;
    }
    return None;
  }

  // ---------- Kahn's algorithm ----------

  /** How many entries of a dependency list are not visited yet. */
  function Open(deps: seq<string>, visited: set<string>): nat {
    if deps == [] then 0
    else Open(deps[1..], visited) + if deps[0] in visited then 0 else 1
  }

  lemma {:induction false} OpenVisited(deps: seq<string>, visited: set<string>, x: string)
    requires x !in visited
    ensures Open(deps, visited + {x}) == Open(deps, visited) - multiset(deps)[x]
  {
    if deps != [] {
      OpenVisited(deps[1..], visited, x);
      assert deps == [deps[0]] + deps[1..];
    }
  }

  lemma {:induction false} OpenZero(deps: seq<string>, visited: set<string>)
    ensures Open(deps, visited) == 0 <==> forall d :: d in deps ==> d in visited
  {
    if deps != [] {
      OpenZero(deps[1..], visited);
      assert deps == [deps[0]] + deps[1..];
    }
  }

  lemma {:induction false} OpenNothing(deps: seq<string>)
    ensures Open(deps, {}) == |deps|
  {
    if deps != [] {
      OpenNothing(deps[1..]);
    }
  }

  /** How often tasks with id `x` list `d`. */
  function TimesListed(tasks: seq<Task>, d: string, x: string): nat {
    if tasks == [] then 0
    else
      var last := tasks[|tasks| - 1];
      TimesListed(tasks[..|tasks| - 1], d, x) + if last.id == x then multiset(last.dependsOn)[d] else 0
  }

  lemma {:induction false} TimesListedInGraph(tasks: seq<Task>, d: string, x: string)
    ensures x !in GraphOf(tasks) ==> TimesListed(tasks, d, x) == 0
    ensures UniqueIds(tasks) && x in GraphOf(tasks) ==> TimesListed(tasks, d, x) == multiset(GraphOf(tasks)[x])[d]
  {
    if tasks != [] {
      var init, last := tasks[..|tasks| - 1], tasks[|tasks| - 1];
      TimesListedInGraph(init, d, x);
      if last.id in GraphOf(init) {
        var i := GraphOfTask(init, last.id);
      }
    }
  }

  function Get(m: map<string, seq<string>>, x: string): seq<string> {
    if x in m then m[x] else []
  }

  ghost predicate DependsFirst(tasks: seq<Task>) {
    forall i, d :: 0 <= i < |tasks| && d in tasks[i].dependsOn ==> exists j :: 0 <= j < i && tasks[j].id == d
  }

  method AddDependents(before: map<string, seq<string>>, t: Task) returns (after: map<string, seq<string>>)
    ensures forall d, x :: multiset(Get(after, d))[x] ==
                           multiset(Get(before, d))[x] + if x == t.id then multiset(t.dependsOn)[d] else 0
  {
    after := before;
    var deps := t.dependsOn;
    for k := 0 to |deps|
      invariant forall d, x :: multiset(Get(after, d))[x] ==
                               multiset(Get(before, d))[x] + if x == t.id then multiset(deps[..k])[d] else 0
    {
      assert deps[..k + 1] == deps[..k] + [deps[k]];
      after := after[deps[k] := Get(after, deps[k]) + [t.id]];
    }
    assert deps[..|deps|] == deps;
  }

  method BuildDependents(tasks: seq<Task>) returns (inDegree: map<string, int>, dependents: map<string, seq<string>>)
    ensures inDegree.Keys == GraphOf(tasks).Keys
    ensures forall x :: x in inDegree ==> inDegree[x] == |GraphOf(tasks)[x]|
    ensures forall d, x :: multiset(Get(dependents, d))[x] == TimesListed(tasks, d, x)
  {
    inDegree, dependents := map[], map[];
    for i := 0 to |tasks|
      invariant inDegree.Keys == GraphOf(tasks[..i]).Keys
      invariant forall x :: x in inDegree ==> inDegree[x] == |GraphOf(tasks[..i])[x]|
      invariant forall d, x :: multiset(Get(dependents, d))[x] == TimesListed(tasks[..i], d, x)
    {
      assert tasks[..i + 1][..i] == tasks[..i];
      inDegree := inDegree[tasks[i].id := |tasks[i].dependsOn|];
      dependents := AddDependents(dependents, tasks[i]);
    }
    assert tasks[..|tasks|] == tasks;
  }

  /** The tasks with no dependencies, in whatever order the map yields them. */
  method InitialQueue(inDegree: map<string, int>) returns (queue: seq<string>)
    ensures forall x :: x in queue <==> x in inDegree && inDegree[x] == 0
  {
    queue := [];
    var rest := inDegree.Keys;
    while rest != {}
      invariant rest <= inDegree.Keys
      invariant forall x :: x in queue <==> x in inDegree && x !in rest && inDegree[x] == 0
    {
      var x :| x in rest;
      rest := rest - {x};
      if inDegree[x] == 0 {
        queue := queue + [x];
      }
    }
  }

  /** Lowers the degree of each dependent once per entry; those that reach zero join the queue. */
  method Release(inDegree: map<string, int>, queue: seq<string>, dependents: seq<string>)
    returns (inDegree': map<string, int>, queue': seq<string>)
    requires forall x :: x in dependents ==> x in inDegree
    ensures inDegree'.Keys == inDegree.Keys
    ensures forall x :: x in inDegree ==> inDegree'[x] == inDegree[x] - multiset(dependents)[x]
    ensures forall x :: x in queue' <==> x in queue || (x in inDegree && 0 < inDegree[x] <= multiset(dependents)[x])
  {
    inDegree', queue' := inDegree, queue;
    for k := 0 to |dependents|
      invariant inDegree'.Keys == inDegree.Keys
      invariant forall x :: x in inDegree ==> inDegree'[x] == inDegree[x] - multiset(dependents[..k])[x]
      invariant forall x :: x in queue' <==>
                  x in queue || (x in inDegree && 0 < inDegree[x] <= multiset(dependents[..k])[x])
    {
      var x := dependents[k];
      assert dependents[..k + 1] == dependents[..k] + [x];
      inDegree' := inDegree'[x := inDegree'[x] - 1];
      if inDegree'[x] == 0 {
        queue' := queue' + [x];
      }
    }
    assert dependents[..|dependents|] == dependents;
  }

  /** Degrees count the unvisited dependencies, and the queue holds exactly the unvisited tasks that have none left. */
  ghost predicate Kahn(g: Graph, inDegree: map<string, int>, queue: seq<string>, visited: set<string>) {
    && inDegree.Keys == g.Keys
    && (forall x :: x in g ==> inDegree[x] == Open(g[x], visited))
    && (forall x :: x in queue ==> x in g && inDegree[x] == 0)
    && (forall x :: x in g && x !in visited && inDegree[x] == 0 ==> x in queue)
  }

  lemma KahnStep(tasks: seq<Task>, inDegree: map<string, int>, queue: seq<string>, visited: set<string>,
                 dependents: seq<string>, inDegree': map<string, int>, queue': seq<string>)
    requires UniqueIds(tasks) && queue != [] && queue[0] !in visited
    requires Kahn(GraphOf(tasks), inDegree, queue, visited)
    requires forall x :: multiset(dependents)[x] == TimesListed(tasks, queue[0], x)
    requires inDegree'.Keys == inDegree.Keys
    requires forall x :: x in inDegree ==> inDegree'[x] == inDegree[x] - multiset(dependents)[x]
    requires forall x :: x in queue' <==>
               x in queue[1..] || (x in inDegree && 0 < inDegree[x] <= multiset(dependents)[x])
    ensures Kahn(GraphOf(tasks), inDegree', queue', visited + {queue[0]})
  {
    var g, cur := GraphOf(tasks), queue[0];
    forall x | x in g ensures inDegree'[x] == Open(g[x], visited + {cur}) {
      TimesListedInGraph(tasks, cur, x);
      OpenVisited(g[x], visited, cur);
    }
    assert queue == [cur] + queue[1..];
  }

  lemma KahnSkip(g: Graph, inDegree: map<string, int>, queue: seq<string>, visited: set<string>)
    requires queue != [] && queue[0] in visited && Kahn(g, inDegree, queue, visited)
    ensures Kahn(g, inDegree, queue[1..], visited)
  {
    assert queue == [queue[0]] + queue[1..];
  }

  /** With the queue empty, an acyclic graph with all dependencies present is completely visited. */
  lemma KahnDone(tasks: seq<Task>, inDegree: map<string, int>, visited: set<string>)
    requires DependenciesExist(tasks) && Acyclic(GraphOf(tasks))
    requires Kahn(GraphOf(tasks), inDegree, [], visited)
    ensures GraphOf(tasks).Keys <= visited
  {
    var g := GraphOf(tasks);
    var left := g.Keys - visited;
    if left != {} {
      var x := AcyclicHasSource(g, left);
      var k := GraphOfTask(tasks, x);
      forall d | d in g[x] ensures d in visited {
        var j :| 0 <= j < |tasks| && tasks[j].id == d;
        GraphOfHasTask(tasks, j);
        assert Edge(g, x, d);
        assert d !in visited ==> d in left;
      }
      OpenZero(g[x], visited);
    }
    assert forall x :: x in g.Keys && x !in visited ==> x in left;
  }

  /** What the output list holds: the visited tasks, once each, with their dependencies before them. */
  ghost predicate Emitted(tasks: seq<Task>, result: seq<Task>, visited: set<string>) {
    && UniqueIds(result)
    && (forall i :: 0 <= i < |result| ==> result[i] in tasks && result[i].id in visited)
    && (forall x :: x in visited ==> exists i :: 0 <= i < |result| && result[i].id == x)
    && |result| == |visited|
  }

  lemma EmitMembers(tasks: seq<Task>, result: seq<Task>, visited: set<string>, t: Task)
    requires Emitted(tasks, result, visited) && t in tasks && t.id !in visited
    ensures Emitted(tasks, result + [t], visited + {t.id})
  {
    var result' := result + [t];
    forall x | x in visited + {t.id} ensures exists i :: 0 <= i < |result'| && result'[i].id == x {
      if x == t.id {
        assert result'[|result|].id == x;
      } else {
        var i :| 0 <= i < |result| && result[i].id == x;
        assert result'[i].id == x;
      }
    }
  }

  lemma EmitInOrder(result: seq<Task>, t: Task)
    requires DependsFirst(result) && forall d :: d in t.dependsOn ==> exists j :: 0 <= j < |result| && result[j].id == d
    ensures DependsFirst(result + [t])
  {
    var result' := result + [t];
    forall i, d | 0 <= i < |result'| && d in result'[i].dependsOn ensures exists j :: 0 <= j < i && result'[j].id == d {
      if i < |result| {
        var j :| 0 <= j < i && result[j].id == d;
        assert result'[j].id == d;
      } else {
        var j :| 0 <= j < |result| && result[j].id == d;
        assert result'[j].id == d;
      }
    }
  }

  lemma Emit(tasks: seq<Task>, result: seq<Task>, visited: set<string>, t: Task)
    requires Emitted(tasks, result, visited) && t in tasks && t.id !in visited
    ensures Emitted(tasks, result + [t], visited + {t.id})
    ensures DependsFirst(result) && (forall d :: d in t.dependsOn ==> d in visited) ==> DependsFirst(result + [t])
  {
    hide DependsFirst, UniqueIds;
    EmitMembers(tasks, result, visited, t);
    if DependsFirst(result) && forall d :: d in t.dependsOn ==> d in visited {
      EmitInOrder(result, t);
    }
  }

  lemma {:induction false} DistinctMultiset(a: seq<Task>, b: seq<Task>)
    requires UniqueIds(a) && UniqueIds(b) && |a| == |b| && forall t :: t in a ==> t in b
    ensures multiset(a) == multiset(b)
  {
    if a != [] {
      var t := a[0];
      assert t in a;
      var k :| 0 <= k < |b| && b[k] == t;
      var b' := b[..k] + b[k + 1..];
      assert b == b[..k] + [t] + b[k + 1..];
      forall u | u in a[1..] ensures u in b' {
        var i :| 0 <= i < |a[1..]| && a[1..][i] == u;
        assert a[i + 1] == u && u in a;
        assert u.id != t.id;
      }
      DistinctMultiset(a[1..], b');
      assert a == [t] + a[1..];
    }
  }

  lemma {:induction false} IdsBound(tasks: seq<Task>)
    ensures |GraphOf(tasks)| <= |tasks|
    ensures UniqueIds(tasks) <==> |GraphOf(tasks)| == |tasks|
  {
    if tasks != [] {
      var init, last := tasks[..|tasks| - 1], tasks[|tasks| - 1];
      IdsBound(init);
      var h := GraphOf(init);
      assert GraphOf(tasks).Keys == h.Keys + {last.id};
      if last.id in h {
        var i := GraphOfTask(init, last.id);
        assert tasks[i].id == tasks[|tasks| - 1].id;
        assert h.Keys + {last.id} == h.Keys;
      } else {
        forall i | 0 <= i < |init| ensures tasks[i].id != last.id {
          GraphOfHasTask(init, i);
        }
      }
    }
  }

  method BuildTaskMap(tasks: seq<Task>) returns (m: map<string, Task>)
    ensures m.Keys == GraphOf(tasks).Keys
    ensures forall x :: x in m ==> m[x] in tasks && m[x].id == x && m[x].dependsOn == GraphOf(tasks)[x]
  {
    m := map[];
    for i := 0 to |tasks|
      invariant m.Keys == GraphOf(tasks[..i]).Keys
      invariant forall x :: x in m ==> m[x] in tasks && m[x].id == x && m[x].dependsOn == GraphOf(tasks[..i])[x]
    {
      assert tasks[..i + 1][..i] == tasks[..i];
      m := m[tasks[i].id := tasks[i]];
    }
    assert tasks[..|tasks|] == tasks;
  }

  ghost predicate Sortable(tasks: seq<Task>) {
    UniqueIds(tasks) && DependenciesExist(tasks) && Acyclic(GraphOf(tasks))
  }

  /** What both validations accept together, repeated ids or not. */
  ghost predicate Validated(tasks: seq<Task>) {
    && DependenciesExist(tasks)
    && NoneListsItself(tasks)
    && Acyclic(GraphOf(tasks))
    && !MissingListedTwice(GraphOf(tasks))
  }

  /** Two tasks with one id pass the validations, so the sort ends in its last error. */
  lemma RepeatedIdReachesLastError()
    ensures exists tasks: seq<Task> :: !UniqueIds(tasks) && Validated(tasks)
  {
    var a := Task("a", "", Pending, [], "", "", "", "", false, "", map[]);
    var tasks := [a, a];
    assert tasks[0].id == tasks[1].id;
    assert tasks[..1] == [a] && [a][..0] == [];
    assert GraphOf([a]) == map["a" := []];
    assert GraphOf(tasks) == map["a" := []];
    TopoOrderAcyclic(GraphOf(tasks), ["a"]);
    assert Validated(tasks);
  }

  /**
    * Kahn's algorithm. It succeeds exactly on lists with distinct ids, all dependencies present and no cycle; its
    * last error is what a repeated id leads to in a list that passes both validations.
    */
  method TopologicalSort(tasks: seq<Task>) returns (r: Result<seq<Task>, DagError>)
    ensures r.Ok? <==> Sortable(tasks)
    ensures r.Ok? ==> multiset(r.value) == multiset(tasks) && DependsFirst(r.value)
    ensures r == Err(NotAllProcessed) <==> !UniqueIds(tasks) && Validated(tasks)
  {
    var e := ValidateDependenciesExist(tasks);
    if e.Some? {
      return Err(e.value);
    }
    e := ValidateDAG(tasks);
    if UniqueIds(tasks) {
      ValidatedIffAcyclic(tasks);
    }
    if e.Some? {
      return Err(e.value);
    }
    var result, visited := Drain(tasks);
    IdsBound(tasks);
    CardinalityBound(visited, GraphOf(tasks).Keys);
    if |result| != |tasks| {
      return Err(NotAllProcessed);
    }
    DistinctMultiset(result, tasks);
    return Ok(result);
  }

  lemma KahnStart(g: Graph, inDegree: map<string, int>, queue: seq<string>)
    requires inDegree.Keys == g.Keys && forall x :: x in g ==> inDegree[x] == |g[x]|
    requires forall x :: x in queue <==> x in inDegree && inDegree[x] == 0
    ensures Kahn(g, inDegree, queue, {})
  {
    forall x | x in g ensures inDegree[x] == Open(g[x], {}) {
      OpenNothing(g[x]);
    }
  }

  lemma KahnHead(g: Graph, inDegree: map<string, int>, queue: seq<string>, visited: set<string>)
    requires queue != [] && Kahn(g, inDegree, queue, visited)
    ensures queue[0] in g && forall d :: d in g[queue[0]] ==> d in visited
  {
    assert queue[0] in queue;
    OpenZero(g[queue[0]], visited);
  }

  /** Takes the head off the queue and releases what depends on it. */
  method Take(tasks: seq<Task>, inDegree: map<string, int>, dependents: map<string, seq<string>>, queue: seq<string>,
              ghost seen: set<string>)
    returns (inDegree': map<string, int>, queue': seq<string>)
    requires queue != [] && queue[0] !in seen && inDegree.Keys == GraphOf(tasks).Keys
    requires forall d, x :: multiset(Get(dependents, d))[x] == TimesListed(tasks, d, x)
    ensures inDegree'.Keys == inDegree.Keys && forall x :: x in queue' ==> x in queue || x in inDegree
    ensures UniqueIds(tasks) && Kahn(GraphOf(tasks), inDegree, queue, seen) ==>
              && Kahn(GraphOf(tasks), inDegree', queue', seen + {queue[0]})
              && queue[0] in GraphOf(tasks) && forall d :: d in GraphOf(tasks)[queue[0]] ==> d in seen
  {
    hide Kahn, UniqueIds, GraphOf;
    var ds := Get(dependents, queue[0]);
    forall x | x in ds ensures x in inDegree {
      TimesListedInGraph(tasks, queue[0], x);
    }
    inDegree', queue' := Release(inDegree, queue[1..], ds);
    if UniqueIds(tasks) && Kahn(GraphOf(tasks), inDegree, queue, seen) {
      KahnHead(GraphOf(tasks), inDegree, queue, seen);
      KahnStep(tasks, inDegree, queue, seen, ds, inDegree', queue');
    }
  }

  /** Works the queue off until it is empty. */
  method Drain(tasks: seq<Task>) returns (result: seq<Task>, ghost visited: set<string>)
    requires DependenciesExist(tasks) && Acyclic(GraphOf(tasks))
    ensures Emitted(tasks, result, visited) && visited <= GraphOf(tasks).Keys
    ensures UniqueIds(tasks) ==> GraphOf(tasks).Keys == visited && DependsFirst(result)
  {
    ghost var g := GraphOf(tasks);
    var taskMap := BuildTaskMap(tasks);
    var inDegree, dependents := BuildDependents(tasks);
    var queue := InitialQueue(inDegree);
    result := [];
    var seen: set<string> := {};
    assert Emitted(tasks, result, seen) && DependsFirst(result);
    KahnStart(g, inDegree, queue);
    hide Kahn, Emitted, DependsFirst, Acyclic, DependenciesExist, UniqueIds, GraphOf;
    while queue != []
      invariant seen <= g.Keys && forall x :: x in queue ==> x in g
      invariant inDegree.Keys == g.Keys
      invariant Emitted(tasks, result, seen)
      invariant UniqueIds(tasks) ==> Kahn(g, inDegree, queue, seen) && DependsFirst(result)
      decreases g.Keys - seen, |queue|
    {
      var cur := queue[0];
      if cur in seen {
        if UniqueIds(tasks) {
          KahnSkip(g, inDegree, queue, seen);
        }
        queue := queue[1..];
      } else {
        var inDegree', queue' := Take(tasks, inDegree, dependents, queue, seen);
        Emit(tasks, result, seen, taskMap[cur]);
        result := result + [taskMap[cur]];
        seen := seen + {cur};
        inDegree, queue := inDegree', queue';
      }
    }
    visited := seen;
    if UniqueIds(tasks) {
      KahnDone(tasks, inDegree, visited);
    }
  }

  lemma {:induction false} CardinalityBound(a: set<string>, b: set<string>)
    requires a <= b
    ensures |a| <= |b|
    ensures |a| == |b| ==> a == b
  {
    if a != {} {
      var x :| x in a;
      CardinalityBound(a - {x}, b - {x});
    }
  }

  // ---------- Readiness ----------

  predicate IsReady(t: Task, completed: map<string, State>) {
    && !t.state.IsTerminal()
    && forall d :: d in t.dependsOn ==> d in completed && completed[d].IsTerminal()
  }

  /** The ready tasks, in the order of the list. */
  function ReadyTasks(tasks: seq<Task>, completed: map<string, State>): seq<Task> {
    if tasks == [] then []
    else
      var last := tasks[|tasks| - 1];
      ReadyTasks(tasks[..|tasks| - 1], completed) + if IsReady(last, completed) then [last] else []
  }

  lemma {:induction false} ReadyTasksMembers(tasks: seq<Task>, completed: map<string, State>, t: Task)
    ensures t in ReadyTasks(tasks, completed) <==> t in tasks && IsReady(t, completed)
  {
    if tasks != [] {
      ReadyTasksMembers(tasks[..|tasks| - 1], completed, t);
      assert tasks == tasks[..|tasks| - 1] + [tasks[|tasks| - 1]];
    }
  }

  method GetReadyTasks(tasks: seq<Task>, completed: map<string, State>) returns (ready: seq<Task>)
    ensures ready == ReadyTasks(tasks, completed)
  {
    ready := [];
    for i := 0 to |tasks|
      invariant ready == ReadyTasks(tasks[..i], completed)
    {
      assert tasks[..i + 1][..i] == tasks[..i];
      var t := tasks[i];
      if t.state.IsTerminal() {
        continue;
      }
      var allDepsSatisfied := true;
      for k := 0 to |t.dependsOn|
        invariant allDepsSatisfied
        invariant forall d :: d in t.dependsOn[..k] ==> d in completed && completed[d].IsTerminal()
      {
        var d := t.dependsOn[k];
        if d !in completed || !completed[d].IsTerminal() {
          allDepsSatisfied := false;
          break;
        }
      }
      if allDepsSatisfied {
        ready := ready + [t];
      }
    }
    assert tasks[..|tasks|] == tasks;
  }
}
