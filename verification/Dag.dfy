/** Dependency graphs as finite maps from a node to what it depends on: paths, cycles and topological orders. */
module Dag {
  import opened JsText
  import opened Sorting

  type NodeId = JsString
  type Edges = map<NodeId, set<NodeId>>

  /** Each node of a path depends directly on the next one. */
  ghost predicate IsPath(g: Edges, p: seq<NodeId>) {
    && p != []
    && forall i :: 0 <= i < |p| - 1 ==> p[i] in g && p[i + 1] in g[p[i]]
  }

  ghost predicate Joins(g: Edges, p: seq<NodeId>, x: NodeId, y: NodeId) {
    |p| >= 2 && IsPath(g, p) && p[0] == x && p[|p| - 1] == y
  }

  /** `x` depends on `y`, directly or through other nodes. */
  ghost predicate Reaches(g: Edges, x: NodeId, y: NodeId) {
    exists p :: Joins(g, p, x, y)
  }

  ghost predicate OnCycle(g: Edges, x: NodeId) {
    Reaches(g, x, x)
  }

  ghost predicate Acyclic(g: Edges) {
    forall x :: !OnCycle(g, x)
  }

  /** `x` lies on a cycle or depends on a node that does. */
  ghost predicate ReachesCycle(g: Edges, x: NodeId) {
    exists y :: (x == y || Reaches(g, x, y)) && OnCycle(g, y)
  }

  ghost function Targets(g: Edges): set<NodeId> {
    set x, y | x in g && y in g[x] :: y
  }

  /** Everything `x` depends on, directly or not. */
  ghost function Ancestors(g: Edges, x: NodeId): set<NodeId> {
    set y | y in Targets(g) && Reaches(g, x, y)
  }

  lemma Edge(g: Edges, x: NodeId, y: NodeId)
    requires x in g && y in g[x]
    ensures Reaches(g, x, y)
  {
    assert Joins(g, [x, y], x, y);
  }

  lemma Transitive(g: Edges, x: NodeId, y: NodeId, z: NodeId)
    requires Reaches(g, x, y) && Reaches(g, y, z)
    ensures Reaches(g, x, z)
  {
    var p :| Joins(g, p, x, y);
    var q :| Joins(g, q, y, z);
    assert Joins(g, p + q[1..], x, z);
  }

  lemma FirstStep(g: Edges, x: NodeId, y: NodeId) returns (d: NodeId)
    requires Reaches(g, x, y)
    ensures x in g && d in g[x] && (d == y || Reaches(g, d, y))
  {
    var p :| Joins(g, p, x, y);
    assert p[0] in g && p[0 + 1] in g[p[0]];
    d := p[1];
    if |p| > 2 {
      assert IsPath(g, p[1..]) by {
        forall i | 0 <= i < |p[1..]| - 1 ensures p[1..][i] in g && p[1..][i + 1] in g[p[1..][i]] {
          assert p[i + 1] in g && p[i + 1 + 1] in g[p[i + 1]];
        }
      }
      assert Joins(g, p[1..], d, y);
    }
  }

  lemma LastStep(g: Edges, x: NodeId, y: NodeId) returns (d: NodeId)
    requires Reaches(g, x, y)
    ensures d in g && y in g[d] && (d == x || Reaches(g, x, d))
  {
    var p :| Joins(g, p, x, y);
    var n := |p| - 2;
    assert p[n] in g && p[n + 1] in g[p[n]];
    d := p[n];
    if n > 0 {
      assert Joins(g, p[..n + 1], x, d);
    }
  }

  lemma ReachedIsTarget(g: Edges, x: NodeId, y: NodeId)
    requires Reaches(g, x, y)
    ensures x in g && y in Targets(g) && y in Ancestors(g, x)
  {
    var d := LastStep(g, x, y);
    var e := FirstStep(g, x, y);
  }

  /** Along an edge of an acyclic graph the set of ancestors shrinks strictly. */
  lemma AncestorsShrink(g: Edges, x: NodeId, y: NodeId)
    requires Acyclic(g) && Reaches(g, x, y)
    ensures y in Ancestors(g, x) && Ancestors(g, y) < Ancestors(g, x)
  {
    ReachedIsTarget(g, x, y);
    forall z | z in Ancestors(g, y) ensures z in Ancestors(g, x) {
      Transitive(g, x, y, z);
    }
    assert !OnCycle(g, y);
  }

  /** A set closed under one-step dependencies is closed under all of them. */
  lemma {:induction false} ClosedContains(g: Edges, s: set<NodeId>, p: seq<NodeId>)
    requires IsPath(g, p) && p[0] in s
    requires forall x, d :: x in s && x in g && d in g[x] ==> d in s
    ensures p[|p| - 1] in s
  {
    if |p| > 1 {
      assert p[0] in g && p[0 + 1] in g[p[0]];
      forall i | 0 <= i < |p[1..]| - 1 ensures p[1..][i] in g && p[1..][i + 1] in g[p[1..][i]] {
        assert p[i + 1] in g && p[i + 1 + 1] in g[p[i + 1]];
      }
      ClosedContains(g, s, p[1..]);
    }
  }

  // -------------------------------------------------------------------------
  // no exit from a set means a cycle
  // -------------------------------------------------------------------------

  lemma {:induction false} Pigeonhole(p: seq<NodeId>, s: set<NodeId>) returns (i: nat, j: nat)
    requires forall k :: 0 <= k < |p| ==> p[k] in s
    requires |p| > |s|
    ensures i < j < |p| && p[i] == p[j]
    decreases |p|
  {
    var last := |p| - 1;
    if k :| 0 <= k < last && p[k] == p[last] {
      return k, last;
    }
    assert |s - {p[last]}| == |s| - 1;
    i, j := Pigeonhole(p[..last], s - {p[last]});
  }

  lemma {:induction false} WalkWithin(g: Edges, s: set<NodeId>, x: NodeId, n: nat) returns (p: seq<NodeId>)
    requires x in s
    requires forall y :: y in s ==> y in g && g[y] * s != {}
    ensures |p| == n + 1 && p[0] == x && IsPath(g, p)
    ensures forall k :: 0 <= k < |p| ==> p[k] in s
    decreases n
  {
    if n == 0 {
      return [x];
    }
    var d :| d in g[x] * s;
    var rest := WalkWithin(g, s, d, n - 1);
    p := [x] + rest;
  }

  lemma SubPath(g: Edges, p: seq<NodeId>, i: nat, j: nat)
    requires IsPath(g, p) && i < j < |p|
    ensures Reaches(g, p[i], p[j])
  {
    var q := p[i..j + 1];
    forall k | 0 <= k < |q| - 1 ensures q[k] in g && q[k + 1] in g[q[k]] {
      assert p[i + k] in g && p[i + k + 1] in g[p[i + k]];
    }
    assert Joins(g, q, p[i], p[j]);
  }

  /** If every node of `s` has a dependency inside `s`, then every node of `s` reaches a cycle. */
  lemma NoExitReachesCycle(g: Edges, s: set<NodeId>, x: NodeId)
    requires x in s
    requires forall y :: y in s ==> y in g && g[y] * s != {}
    ensures ReachesCycle(g, x)
  {
    var p := WalkWithin(g, s, x, |s|);
    var i, j := Pigeonhole(p, s);
    SubPath(g, p, i, j);
    if i > 0 { SubPath(g, p, 0, i); }
    assert (x == p[i] || Reaches(g, x, p[i])) && OnCycle(g, p[i]);
  }

  /** In an acyclic graph every non-empty set of nodes has a member none of whose dependencies is in the set. */
  lemma SomeMinimal(g: Edges, s: set<NodeId>) returns (x: NodeId)
    requires Acyclic(g) && s != {} && s <= g.Keys
    ensures x in s && g[x] * s == {}
  {
    if y :| y in s && g[y] * s == {} {
      return y;
    }
    var y :| y in s;
    NoExitReachesCycle(g, s, y);
    assert false;
  }

  // -------------------------------------------------------------------------
  // topological orders
  // -------------------------------------------------------------------------

  ghost predicate Distinct(s: seq<NodeId>) {
    forall i, j :: 0 <= i < j < |s| ==> s[i] != s[j]
  }

  ghost predicate Available(g: Edges, before: seq<NodeId>, x: NodeId) {
    x in g && x !in before && forall d :: d in g[x] ==> d in before
  }

  /** Every node of the list comes after everything it depends on; no node comes twice. */
  ghost predicate TopoPrefix(g: Edges, order: seq<NodeId>) {
    forall i :: 0 <= i < |order| ==> Available(g, order[..i], order[i])
  }

  ghost predicate TopologicalOrder(g: Edges, order: seq<NodeId>) {
    TopoPrefix(g, order) && forall x :: x in g ==> x in order
  }

  /** Each node is the smallest that could have come at its place. */
  ghost predicate GreedyPrefix(g: Edges, order: seq<NodeId>) {
    && TopoPrefix(g, order)
    && forall i, x :: 0 <= i < |order| && Available(g, order[..i], x) ==> AtMost(order[i], x)
  }

  /** Before every other topological order, comparing node by node. */
  ghost predicate LeastTopologicalOrder(g: Edges, order: seq<NodeId>) {
    && TopologicalOrder(g, order)
    && forall t :: TopologicalOrder(g, t) && t != order ==>
         exists i :: 0 <= i < |order| && i < |t| && t[..i] == order[..i] && Less(order[i], t[i])
  }

  lemma TopoPrefixFacts(g: Edges, order: seq<NodeId>)
    requires TopoPrefix(g, order)
    ensures Distinct(order) && (forall x :: x in order ==> x in g)
  {
    forall i, j | 0 <= i < j < |order| ensures order[i] != order[j] {
      assert Available(g, order[..j], order[j]);
      assert order[i] in order[..j];
    }
  }

  lemma TopoExtend(g: Edges, order: seq<NodeId>, x: NodeId)
    requires GreedyPrefix(g, order) && Available(g, order, x)
    requires forall y :: Available(g, order, y) ==> AtMost(x, y)
    ensures GreedyPrefix(g, order + [x])
  {
    var next := order + [x];
    forall i | 0 <= i < |next|
      ensures Available(g, next[..i], next[i])
      ensures forall y :: Available(g, next[..i], y) ==> AtMost(next[i], y)
    {
      if i < |order| {
        assert next[..i] == order[..i];
      } else {
        assert next[..i] == order;
      }
    }
  }

  /** What a listed node depends on is listed before it. */
  lemma {:induction false} DependenciesListedBefore(g: Edges, order: seq<NodeId>, i: nat, p: seq<NodeId>)
    requires TopoPrefix(g, order) && i < |order|
    requires IsPath(g, p) && |p| >= 2 && p[0] == order[i]
    ensures p[|p| - 1] in order[..i]
  {
    assert Available(g, order[..i], order[i]);
    assert p[0] in g && p[0 + 1] in g[p[0]];
    var s := set x | x in order[..i];
    forall x, d | x in s && x in g && d in g[x] ensures d in s {
      var k :| 0 <= k < i && order[..i][k] == x;
      assert Available(g, order[..k], order[k]);
      assert d in order[..k];
      assert order[..k] <= order[..i];
      assert order[..i][..k] == order[..k];
    }
    forall k | 0 <= k < |p[1..]| - 1 ensures p[1..][k] in g && p[1..][k + 1] in g[p[1..][k]] {
      assert p[k + 1] in g && p[k + 1 + 1] in g[p[k + 1]];
    }
    ClosedContains(g, s, p[1..]);
  }

  lemma ListedReachesNoCycle(g: Edges, order: seq<NodeId>, x: NodeId)
    requires TopoPrefix(g, order) && x in order
    ensures !ReachesCycle(g, x)
  {
    if ReachesCycle(g, x) {
      var y :| (x == y || Reaches(g, x, y)) && OnCycle(g, y);
      var i :| 0 <= i < |order| && order[i] == x;
      if x != y {
        var p :| Joins(g, p, x, y);
        DependenciesListedBefore(g, order, i, p);
      }
      assert y in order;
      var j :| 0 <= j < |order| && order[j] == y;
      var q :| Joins(g, q, y, y);
      DependenciesListedBefore(g, order, j, q);
      TopoPrefixFacts(g, order);
      assert false;
    }
  }

  /** When nothing more can be listed, the unlisted nodes are exactly those that reach a cycle. */
  lemma StuckMeansCyclic(g: Edges, order: seq<NodeId>, x: NodeId)
    requires TopoPrefix(g, order) && (forall y :: !Available(g, order, y))
    requires forall y, d :: y in g && d in g[y] ==> d in g
    requires x in g
    ensures x !in order <==> ReachesCycle(g, x)
  {
    if x in order {
      ListedReachesNoCycle(g, order, x);
    } else {
      var s := set y | y in g && y !in order;
      forall y | y in s ensures y in g && g[y] * s != {} {
        assert !Available(g, order, y);
        var d :| d in g[y] && d !in order;
        assert d in g[y] * s;
      }
      NoExitReachesCycle(g, s, x);
    }
  }

  lemma AcyclicIffNoneReachesCycle(g: Edges)
    ensures Acyclic(g) <==> forall x :: x in g ==> !ReachesCycle(g, x)
  {
    if x :| OnCycle(g, x) {
      ReachedIsTarget(g, x, x);
      assert ReachesCycle(g, x);
    }
  }

  lemma GreedyIsLeast(g: Edges, order: seq<NodeId>)
    requires GreedyPrefix(g, order) && (forall x :: x in g ==> x in order)
    ensures LeastTopologicalOrder(g, order)
  {
    forall t | TopologicalOrder(g, t) && t != order
      ensures exists i :: 0 <= i < |order| && i < |t| && t[..i] == order[..i] && Less(order[i], t[i])
    {
      var i := FirstDifference(g, order, t);
      assert Available(g, t[..i], t[i]);
      assert AtMost(order[i], t[i]);
    }
  }

  lemma FirstDifference(g: Edges, a: seq<NodeId>, b: seq<NodeId>) returns (i: nat)
    requires TopologicalOrder(g, a) && TopologicalOrder(g, b) && a != b
    ensures i < |a| && i < |b| && a[..i] == b[..i] && a[i] != b[i]
  {
    TopoPrefixFacts(g, a);
    TopoPrefixFacts(g, b);
    assert |a| == |b| by {
      DistinctSameMultiset(a, b);
      SameElements(a, b);
    }
    i := 0;
    while i < |a| && a[i] == b[i]
      invariant i <= |a|
      invariant forall k :: 0 <= k < i ==> a[k] == b[k]
    {
      i := i + 1;
    }
  }

  lemma AgreeBelow(a: seq<NodeId>, b: seq<NodeId>, n: nat)
    requires n <= |a| && n <= |b| && a[..n] == b[..n]
    ensures forall k :: 0 <= k < n ==> a[k] == b[k]
  {
    forall k | 0 <= k < n ensures a[k] == b[k] {
      assert a[..n][k] == b[..n][k];
    }
  }

  lemma SameFirstDifference(a: seq<NodeId>, b: seq<NodeId>, i: nat, j: nat)
    requires i < |a| && i < |b| && a[..i] == b[..i] && a[i] != b[i]
    requires j < |a| && j < |b| && a[..j] == b[..j] && a[j] != b[j]
    ensures i == j
  {
    AgreeBelow(a, b, i);
    AgreeBelow(a, b, j);
  }

  /** There is at most one least topological order. */
  lemma LeastIsUnique(g: Edges, a: seq<NodeId>, b: seq<NodeId>)
    requires LeastTopologicalOrder(g, a) && LeastTopologicalOrder(g, b)
    ensures a == b
  {
    if a != b {
      var i :| 0 <= i < |a| && i < |b| && b[..i] == a[..i] && Less(a[i], b[i]);
      var j :| 0 <= j < |b| && j < |a| && a[..j] == b[..j] && Less(b[j], a[j]);
      LessTotal(a[i], b[i]);
      LessTotal(a[j], b[j]);
      SameFirstDifference(a, b, i, j);
      assert false;
    }
  }
}
