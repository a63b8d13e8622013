/** The depth figure of the dependency report (scripts/analyze_dependency_tree.py, calculate_max_depth). */
module LongestPath {
  import opened DependencyGraph

  /** The recursion of get_depth: a package already on the way counts nothing. */
  function Depth(g: Graph, package: Node, visited: set<Node>): nat
    decreases g.deps.Keys - visited, 0
  {
    if package in visited || package !in g.deps then 0
    else DeepestOf(g, g.deps[package], visited + {package})
  }

  function DeepestOf(g: Graph, deps: seq<Node>, visited: set<Node>): nat
    decreases g.deps.Keys - visited, |deps|
  {
    if deps == [] then 0
    else Max(DeepestOf(g, deps[..|deps| - 1], visited), 1 + Depth(g, deps[|deps| - 1], visited))
  }

  function Max(a: nat, b: nat): nat {
    if a < b then b else a
  }

  method GetDepth(g: Graph, package: Node, visited: set<Node>) returns (maxDepth: nat)
    ensures maxDepth == Depth(g, package, visited)
    decreases g.deps.Keys - visited
  {
    if package in visited {
      return 0;
    }
    var inside := visited + {package};
    maxDepth := 0;
    var deps := Deps(g, package);
    for i := 0 to |deps|
      invariant maxDepth == DeepestOf(g, deps[..i], inside)
    {
      var below := GetDepth(g, deps[i], inside);
      maxDepth := Max(maxDepth, 1 + below);
      assert deps[..i + 1][..i] == deps[..i];
    }
    assert deps[..|deps|] == deps;
  }

  // ---------- What the depth is: the longest trail ----------

  /** A walk outside visited that repeats no node, except that it may end on one. */
  predicate Trail(g: Graph, w: seq<Node>, visited: set<Node>) {
    && Walk(g, w) && Distinct(w[..|w| - 1])
    && forall i :: 0 <= i < |w| - 1 ==> w[i] !in visited
  }

  lemma {:induction false} DeepestCovers(g: Graph, deps: seq<Node>, visited: set<Node>, k: nat)
    requires k < |deps|
    ensures DeepestOf(g, deps, visited) >= 1 + Depth(g, deps[k], visited)
  {
    if k < |deps| - 1 {
      DeepestCovers(g, deps[..|deps| - 1], visited, k);
    }
  }

  lemma {:induction false} DeepestAttained(g: Graph, deps: seq<Node>, visited: set<Node>) returns (k: nat)
    requires deps != []
    ensures k < |deps| && DeepestOf(g, deps, visited) == 1 + Depth(g, deps[k], visited)
  {
    var n := |deps| - 1;
    k := n;
    if n > 0 && DeepestOf(g, deps[..n], visited) > 1 + Depth(g, deps[n], visited) {
      k := DeepestAttained(g, deps[..n], visited);
    }
  }

  lemma TrailTail(g: Graph, w: seq<Node>, visited: set<Node>)
    requires Trail(g, w, visited) && |w| > 1
    ensures w[1] in Deps(g, w[0]) && w[0] !in visited && Trail(g, w[1..], visited + {w[0]})
  {
    assert w[0 + 1] in Deps(g, w[0]);
    var t := w[1..];
    forall i | 0 <= i < |t| - 1
      ensures t[i + 1] in Deps(g, t[i]) && t[i] !in visited + {w[0]}
    {
      assert w[i + 1 + 1] in Deps(g, w[i + 1]);
      assert w[..|w| - 1][0] != w[..|w| - 1][i + 1];
    }
    forall i, j | 0 <= i < j < |t| - 1 ensures t[i] != t[j] {
      assert w[..|w| - 1][i + 1] != w[..|w| - 1][j + 1];
    }
  }

  lemma TrailCons(g: Graph, p: Node, t: seq<Node>, visited: set<Node>)
    requires p !in visited && Trail(g, t, visited + {p}) && t[0] in Deps(g, p)
    ensures Trail(g, [p] + t, visited)
  {
    var w := [p] + t;
    forall i | 0 <= i < |w| - 1 ensures w[i + 1] in Deps(g, w[i]) && w[i] !in visited {
      if i > 0 {
        assert t[i - 1 + 1] in Deps(g, t[i - 1]);
      }
    }
    assert w[..|w| - 1] == [p] + t[..|t| - 1];
  }

  /** No trail is longer than the depth. */
  lemma {:induction false} DepthBounds(g: Graph, w: seq<Node>, visited: set<Node>)
    requires Trail(g, w, visited)
    ensures |w| - 1 <= Depth(g, w[0], visited)
    decreases |w|
  {
    if |w| > 1 {
      TrailTail(g, w, visited);
      DepthBounds(g, w[1..], visited + {w[0]});
      var deps := g.deps[w[0]];
      var k :| 0 <= k < |deps| && deps[k] == w[1];
      DeepestCovers(g, deps, visited + {w[0]}, k);
    }
  }

  /** Some trail is as long as the depth. */
  lemma {:induction false} DepthAttained(g: Graph, p: Node, visited: set<Node>) returns (w: seq<Node>)
    ensures Trail(g, w, visited) && w[0] == p && |w| - 1 == Depth(g, p, visited)
    decreases g.deps.Keys - visited
  {
    if p in visited || p !in g.deps || g.deps[p] == [] {
      w := [p];
    } else {
      var k := DeepestAttained(g, g.deps[p], visited + {p});
      var t := DepthAttained(g, g.deps[p][k], visited + {p});
      TrailCons(g, p, t, visited);
      w := [p] + t;
    }
  }

  // ---------- Bounds on any graph, and the acyclic case ----------

  lemma {:induction false} DistinctMembers<T>(s: seq<T>)
    requires Distinct(s)
    ensures |Members(s)| == |s|
  {
    if s != [] {
      DistinctMembers(s[..|s| - 1]);
      assert Members(s) == Members(s[..|s| - 1]) + {s[|s| - 1]};
    }
  }

  lemma SubsetSmaller<T>(a: set<T>, b: set<T>)
    requires a <= b
    ensures |a| <= |b|
  {
    assert b == a + (b - a);
  }

  /** Every node of a trail but the last has a dependency, so it is a key. */
  lemma TrailShort(g: Graph, w: seq<Node>)
    requires ValidGraph(g) && Trail(g, w, {})
    ensures |w| - 1 <= |g.keys|
  {
    var inner := w[..|w| - 1];
    forall x <- inner ensures x in Members(g.keys) {
      var i :| 0 <= i < |inner| && inner[i] == x;
      assert w[i + 1] in Deps(g, w[i]);
    }
    DistinctMembers(inner);
    DistinctMembers(g.keys);
    SubsetSmaller(Members(inner), Members(g.keys));
  }

  lemma AcyclicWalkIsTrail(g: Graph, w: seq<Node>)
    requires Acyclic(g) && Walk(g, w)
    ensures Distinct(w) && Trail(g, w, {})
  {
    forall i, j | 0 <= i < j < |w| ensures w[i] != w[j] {
      var part := w[i..j + 1];
      forall k | 0 <= k < |part| - 1 ensures part[k + 1] in Deps(g, part[k]) {
        assert w[i + k + 1] in Deps(g, w[i + k]);
      }
      assert !ClosedWalk(g, part);
    }
  }

  /** The longest of the trails of a graph, counted in edges. */
  ghost predicate LongestTrail(g: Graph, n: nat) {
    && (exists w :: Trail(g, w, {}) && |w| - 1 == n)
    && (forall w :: Trail(g, w, {}) ==> |w| - 1 <= n)
  }

  ghost predicate LongestWalk(g: Graph, n: nat) {
    && (exists w :: Walk(g, w) && |w| - 1 == n)
    && (forall w :: Walk(g, w) ==> |w| - 1 <= n)
  }

  method CalculateMaxDepth(g: Graph) returns (d: nat)
    requires ValidGraph(g)
    ensures LongestTrail(g, d)
    ensures d <= |g.keys|
    ensures Acyclic(g) ==> LongestWalk(g, d)
  {
    d := 0;
    ghost var longest := [""];
    for i := 0 to |g.keys|
      invariant Trail(g, longest, {}) && |longest| - 1 == d
      invariant forall j :: 0 <= j < i ==> Depth(g, g.keys[j], {}) <= d
    {
      var depth := GetDepth(g, g.keys[i], {});
      if depth > d {
        d := depth;
        longest := DepthAttained(g, g.keys[i], {});
      }
    }
    forall w | Trail(g, w, {}) ensures |w| - 1 <= d {
      DepthBounds(g, w, {});
      if |w| > 1 {
        TrailTail(g, w, {});
        assert w[0] in g.keys;
      }
    }
    TrailShort(g, longest);
    if Acyclic(g) {
      forall w | Walk(g, w) ensures |w| - 1 <= d {
        AcyclicWalkIsTrail(g, w);
      }
    }
  }
}
