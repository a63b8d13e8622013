/** Package dependency graphs and the cycle finder (scripts/analyze_dependency_tree.py). */
module DependencyGraph {

  type Node = string

  /** A dict from package to its set of dependencies: keys in insertion order, each set in the
      order it is iterated. A dependency need not be a key. */
  datatype Graph = Graph(keys: seq<Node>, deps: map<Node, seq<Node>>)

  predicate Distinct<T(==)>(s: seq<T>) {
    forall i, j :: 0 <= i < j < |s| ==> s[i] != s[j]
  }

  ghost predicate ValidGraph(g: Graph) {
    && Distinct(g.keys)
    && (forall k :: k in g.keys <==> k in g.deps)
    && (forall k :: k in g.deps ==> Distinct(g.deps[k]))
  }

  /** `graph.get(package, set())` */
  function Deps(g: Graph, p: Node): seq<Node> {
    if p in g.deps then g.deps[p] else []
  }

  function Members<T>(s: seq<T>): set<T> {
    set x <- s
  }

  function Nodes(g: Graph): set<Node> {
    g.deps.Keys + set k, d | k in g.deps && d in g.deps[k] :: d
  }

  // ---------- What a cycle is ----------

  predicate Walk(g: Graph, w: seq<Node>) {
    w != [] && forall i :: 0 <= i < |w| - 1 ==> w[i + 1] in Deps(g, w[i])
  }

  predicate ClosedWalk(g: Graph, w: seq<Node>) {
    |w| >= 2 && Walk(g, w) && w[0] == w[|w| - 1]
  }

  /** A closed walk that repeats no node but its first. */
  predicate SimpleCycle(g: Graph, w: seq<Node>) {
    ClosedWalk(g, w) && Distinct(w[..|w| - 1])
  }

  ghost predicate Acyclic(g: Graph) {
    forall w :: !ClosedWalk(g, w)
  }

  function ClosingEdge(c: seq<Node>): (Node, Node)
    requires |c| >= 2
  {
    (c[|c| - 2], c[|c| - 1])
  }

  /** Simple cycles, each closed by an edge of its own. */
  predicate Report(g: Graph, cycles: seq<seq<Node>>) {
    && (forall i :: 0 <= i < |cycles| ==> SimpleCycle(g, cycles[i]))
    && (forall i, j :: 0 <= i < j < |cycles| ==> ClosingEdge(cycles[i]) != ClosingEdge(cycles[j]))
  }

  /** No reported cycle closes with the edge from u to v. */
  ghost predicate Unclosed(cycles: seq<seq<Node>>, u: Node, v: Node) {
    forall i :: 0 <= i < |cycles| ==> |cycles[i]| >= 2 && ClosingEdge(cycles[i]) != (u, v)
  }

  /** Every cycle of the graph runs through an edge that closes a reported one. */
  ghost predicate Covers(g: Graph, cycles: seq<seq<Node>>) {
    forall w :: ClosedWalk(g, w) ==> exists i :: 0 <= i < |w| - 1 && !Unclosed(cycles, w[i], w[i + 1])
  }

  // ---------- An order in which dependencies come first rules out cycles ----------

  /** Closing edges aside, each node comes after its dependencies. */
  ghost predicate DependenciesFirst(g: Graph, order: seq<Node>, cycles: seq<seq<Node>>) {
    forall i :: 0 <= i < |order| ==> forall d <- Deps(g, order[i]) :: Unclosed(cycles, order[i], d) ==> d in order[..i]
  }

  function FirstIndex(order: seq<Node>, x: Node): (i: nat)
    requires x in order
    ensures i < |order| && order[i] == x && forall j :: 0 <= j < i ==> order[j] != x
  {
    if order[0] == x then 0 else 1 + FirstIndex(order[1..], x)
  }

  lemma EdgeDescends(g: Graph, order: seq<Node>, cycles: seq<seq<Node>>, u: Node, d: Node)
    requires DependenciesFirst(g, order, cycles) && u in order && d in Deps(g, u) && Unclosed(cycles, u, d)
    ensures d in order && FirstIndex(order, d) < FirstIndex(order, u)
  {
    var i := FirstIndex(order, u);
    assert d in order[..i];
    var j :| 0 <= j < i && order[j] == d;
    assert FirstIndex(order, d) <= j;
  }

  lemma {:induction false} WalkDescends(g: Graph, order: seq<Node>, cycles: seq<seq<Node>>, w: seq<Node>, k: nat)
    requires DependenciesFirst(g, order, cycles) && Walk(g, w) && w[0] in order && k < |w|
    requires forall i :: 0 <= i < |w| - 1 ==> Unclosed(cycles, w[i], w[i + 1])
    ensures w[k] in order && FirstIndex(order, w[k]) + k <= FirstIndex(order, w[0])
  {
    if k > 0 {
      WalkDescends(g, order, cycles, w, k - 1);
      assert w[k - 1 + 1] in Deps(g, w[k - 1]);
      EdgeDescends(g, order, cycles, w[k - 1], w[k]);
    }
  }

  lemma OrderGrows(g: Graph, order: seq<Node>, cycles: seq<seq<Node>>, u: Node)
    requires DependenciesFirst(g, order, cycles)
    requires forall d <- Deps(g, u) :: Unclosed(cycles, u, d) ==> d in order
    ensures DependenciesFirst(g, order + [u], cycles)
  {
    var longer := order + [u];
    forall i | 0 <= i < |longer|
      ensures forall d <- Deps(g, longer[i]) :: Unclosed(cycles, longer[i], d) ==> d in longer[..i]
    {
      assert longer[..i] == order[..i];
    }
  }

  lemma OrderKept(g: Graph, order: seq<Node>, cycles: seq<seq<Node>>, more: seq<seq<Node>>)
    requires DependenciesFirst(g, order, cycles) && cycles <= more
    ensures DependenciesFirst(g, order, more)
  {
    forall u, v | Unclosed(more, u, v) ensures Unclosed(cycles, u, v) {
      assert forall i :: 0 <= i < |cycles| ==> cycles[i] == more[i];
    }
  }

  lemma OrderMeansCovered(g: Graph, order: seq<Node>, cycles: seq<seq<Node>>)
    requires DependenciesFirst(g, order, cycles) && forall k <- g.deps :: k in order
    ensures Covers(g, cycles)
  {
    forall w | ClosedWalk(g, w) ensures exists i :: 0 <= i < |w| - 1 && !Unclosed(cycles, w[i], w[i + 1]) {
      assert w[0 + 1] in Deps(g, w[0]);
      if forall i :: 0 <= i < |w| - 1 ==> Unclosed(cycles, w[i], w[i + 1]) {
        WalkDescends(g, order, cycles, w, |w| - 1);
      }
    }
  }

  // ---------- The depth-first search ----------

  /** The nodes on path lead to package, one edge after the other, and are all different. */
  predicate Leads(g: Graph, path: seq<Node>, package: Node) {
    Distinct(path) && Walk(g, path + [package])
  }

  lemma LeadsOn(g: Graph, path: seq<Node>, package: Node, dep: Node)
    requires Leads(g, path, package) && package !in path && dep in Deps(g, package)
    ensures Leads(g, path + [package], dep)
  {
    var w, w' := path + [package], path + [package] + [dep];
    forall i | 0 <= i < |w'| - 1 ensures w'[i + 1] in Deps(g, w'[i]) {
      assert i < |w| - 1 ==> w[i + 1] in Deps(g, w[i]);
    }
  }

  lemma CycleOnPath(g: Graph, path: seq<Node>, package: Node, k: nat)
    requires Leads(g, path, package) && k < |path| && path[k] == package
    ensures var c := path[k..] + [package];
            SimpleCycle(g, c) && ClosingEdge(c) == (path[|path| - 1], package)
  {
    var w, c := path + [package], path[k..] + [package];
    forall i | 0 <= i < |c| - 1 ensures c[i + 1] in Deps(g, c[i]) {
      assert w[k + i + 1] in Deps(g, w[k + i]);
    }
    assert c[..|c| - 1] == path[k..];
  }

  datatype Snapshot = Snapshot(visited: set<Node>, finished: seq<Node>, cycles: seq<seq<Node>>)

  /** The search only adds; cycles it adds close at nodes it visits for the first time. */
  ghost predicate Extends(a: Snapshot, b: Snapshot) {
    && a.visited <= b.visited && a.finished <= b.finished && a.cycles <= b.cycles
    && forall i :: |a.cycles| <= i < |b.cycles| ==>
                     |b.cycles[i]| >= 2 && ClosingEdge(b.cycles[i]).0 !in a.visited
  }

  /** One cycle more, closed by the edge from u to v. */
  ghost predicate Closes(a: Snapshot, b: Snapshot, u: Node, v: Node) {
    && b.visited == a.visited && b.finished == a.finished
    && exists c :: |c| >= 2 && b.cycles == a.cycles + [c] && ClosingEdge(c) == (u, v)
  }

  /** What one search from u to its dependency v does, to the whole search from u. */
  lemma ExtendsOn(a: Snapshot, b: Snapshot, c: Snapshot, u: Node, v: Node)
    requires Extends(a, b) && u !in a.visited
    requires Closes(b, c, u, v) || Extends(b, c)
    ensures Extends(a, c)
  {
  }

  lemma StillUnclosed(b: Snapshot, c: Snapshot, u: Node, v: Node, v': Node)
    requires u in b.visited && v != v' && Unclosed(b.cycles, u, v')
    requires Closes(b, c, u, v) || Extends(b, c)
    ensures Unclosed(c.cycles, u, v')
  {
    forall i | 0 <= i < |c.cycles| ensures |c.cycles[i]| >= 2 && ClosingEdge(c.cycles[i]) != (u, v') {
      if i < |b.cycles| {
        assert c.cycles[i] == b.cycles[i];
      }
    }
  }

  /** The first n of u's dependencies are finished, unless a reported cycle closes there. */
  ghost predicate Explored(s: Snapshot, u: Node, deps: seq<Node>, n: nat)
    requires n <= |deps|
  {
    forall j :: 0 <= j < n && Unclosed(s.cycles, u, deps[j]) ==> deps[j] in s.finished
  }

  lemma ExploredOn(b: Snapshot, c: Snapshot, u: Node, deps: seq<Node>, n: nat)
    requires n < |deps| && Explored(b, u, deps, n)
    requires Closes(b, c, u, deps[n]) || (Extends(b, c) && deps[n] in c.finished)
    ensures Explored(c, u, deps, n + 1)
  {
    assert b.cycles <= c.cycles && b.finished <= c.finished;
    forall j | 0 <= j < n && Unclosed(c.cycles, u, deps[j]) ensures deps[j] in c.finished {
      assert forall i :: 0 <= i < |b.cycles| ==> c.cycles[i] == b.cycles[i];
      assert Unclosed(b.cycles, u, deps[j]);
    }
    if Closes(b, c, u, deps[n]) {
      assert ClosingEdge(c.cycles[|b.cycles|]) == (u, deps[n]);
    }
  }

  class CycleFinder {
    const g: Graph
    var cycles: seq<seq<Node>>
    var visited: set<Node>
    var recStack: set<Node>
    /** Nodes in the order the search leaves them. */
    ghost var finished: seq<Node>

    constructor (g: Graph)
      ensures this.g == g && cycles == [] && visited == {} && recStack == {} && finished == []
    {
      this.g := g;
      cycles, visited, recStack, finished := [], {}, {}, [];
    }

    ghost predicate Valid()
      reads this
    {
      && ValidGraph(g) && recStack <= visited <= Nodes(g) && Members(finished) == visited - recStack
      && Report(g, cycles)
      && (forall i :: 0 <= i < |cycles| ==> ClosingEdge(cycles[i]).0 in visited)
      && DependenciesFirst(g, finished, cycles)
    }

    ghost function Now(): Snapshot
      reads this
    {
      Snapshot(visited, finished, cycles)
    }

    /** The search meets a node it is still inside of. */
    method ReportCycle(package: Node, path: seq<Node>)
      requires Valid() && package in recStack
      requires Members(path) == recStack && Leads(g, path, package) && path != []
      requires Unclosed(cycles, path[|path| - 1], package)
      modifies this`cycles
      ensures Valid() && Closes(old(Now()), Now(), path[|path| - 1], package)
    {
      var cycleStart := IndexOf(path, package);
      CycleOnPath(g, path, package, cycleStart);
      var cycle := path[cycleStart..] + [package];
      assert ClosingEdge(cycle).0 in recStack;
      OrderKept(g, finished, cycles, cycles + [cycle]);
      cycles := cycles + [cycle];
    }

    /** The search leaves a node, all of whose dependencies it has seen. */
    method Leave(package: Node)
      requires Valid() && package in recStack
      requires forall d <- Deps(g, package) :: Unclosed(cycles, package, d) ==> d in finished
      modifies this`recStack, this`finished
      ensures Valid() && recStack == old(recStack) - {package} && finished == old(finished) + [package]
    {
      OrderGrows(g, finished, cycles, package);
      recStack := recStack - {package};
      finished := finished + [package];
      assert Members(finished) == Members(finished[..|finished| - 1]) + {package};
    }

    method Dfs(package: Node, path: seq<Node>)
      requires Valid() && package in Nodes(g)
      requires Members(path) == recStack && Leads(g, path, package)
      requires path != [] ==> Unclosed(cycles, path[|path| - 1], package)
      modifies this
      ensures Valid() && recStack == old(recStack) && package in visited
      ensures if package in old(recStack) then path != [] && Closes(old(Now()), Now(), path[|path| - 1], package) else Extends(old(Now()), Now())
      decreases Nodes(g) - visited
    {
      if package in recStack {
        ReportCycle(package, path);
        return;
      }
      if package in visited {
        return;
      }
      visited := visited + {package};
      recStack := recStack + {package};
      var deps := Deps(g, package);
      for i := 0 to |deps|
        invariant Valid() && recStack == old(recStack) + {package}
        invariant package in visited && Extends(old(Now()), Now())
        invariant Explored(Now(), package, deps, i)
        invariant forall j :: i <= j < |deps| ==> Unclosed(cycles, package, deps[j])
      {
        LeadsOn(g, path, package, deps[i]);
        ghost var before := Now();
        Dfs(deps[i], path + [package]);
        ExtendsOn(old(Now()), before, Now(), package, deps[i]);
        forall j | i < j < |deps| ensures Unclosed(cycles, package, deps[j]) {
          StillUnclosed(before, Now(), package, deps[i], deps[j]);
        }
        assert deps[i] !in recStack ==> deps[i] in Members(finished);
        ExploredOn(before, Now(), package, deps, i);
      }
      Leave(package);
    }
  }

  method IndexOf(path: seq<Node>, x: Node) returns (i: nat)
    requires x in path
    ensures i < |path| && path[i] == x && x !in path[..i]
  {
    i := 0;
    while path[i] != x
      invariant i < |path| && x !in path[..i]
      decreases |path| - i
    {
      i := i + 1;
    }
  }

  method FindDependencyCycles(g: Graph) returns (cycles: seq<seq<Node>>)
    requires ValidGraph(g)
    ensures Report(g, cycles)
    ensures Covers(g, cycles)
    ensures cycles == [] <==> Acyclic(g)
  {
    var finder := new CycleFinder(g);
    for i := 0 to |g.keys|
      invariant fresh(finder) && finder.g == g && finder.Valid() && finder.recStack == {}
      invariant forall j :: 0 <= j < i ==> g.keys[j] in finder.visited
    {
      if g.keys[i] !in finder.visited {
        assert Members<Node>([]) == {} && g.keys[i] in g.keys;
        finder.Dfs(g.keys[i], []);
      }
    }
    cycles := finder.cycles;
    forall k <- g.deps ensures k in finder.finished {
      assert k in g.keys;
      assert k in Members(finder.finished);
    }
    OrderMeansCovered(g, finder.finished, cycles);
    if cycles != [] {
      assert ClosedWalk(g, cycles[0]);
    }
  }
}
