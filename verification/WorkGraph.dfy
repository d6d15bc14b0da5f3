/** The work graph of `ts/src/agent/WorkGraph.ts`: nodes with dependencies and write-sets. */
module WorkGraphs {
  import opened Common
  import opened JsText
  import opened Sorting
  import opened Dag

  datatype WorkNode<T> = WorkNode(id: NodeId, payload: T, dependsOn: seq<NodeId>, writeSet: seq<JsString>)

  /** A JavaScript `Map` from ids to nodes: `keys` is the insertion order that iteration follows. */
  datatype WorkGraph<T> = WorkGraph(keys: seq<NodeId>, nodes: map<NodeId, WorkNode<T>>) {

    ghost predicate Valid() {
      && Distinct(keys)
      && (forall k :: k in keys <==> k in nodes)
      && (forall k :: k in nodes ==> nodes[k].id == k)
    }

    /** All dependency edges, also those that point outside the graph. */
    ghost function Full(): Edges {
      map x | x in nodes :: set d | d in nodes[x].dependsOn
    }

    /** The dependency edges between nodes of the graph. */
    ghost function Present(): Edges {
      map x | x in nodes :: set d | d in nodes[x].dependsOn && d in nodes
    }

    ghost predicate NoDangling() {
      forall x, d :: x in nodes && d in nodes[x].dependsOn ==> d in nodes
    }

    function PresentDeps(x: NodeId): seq<NodeId>
      requires x in nodes
    {
      FilterKeys(nodes[x].dependsOn, d => d in nodes)
    }

    /** `addNode`: a known id keeps its place in the iteration order. */
    function Put(n: WorkNode<T>): WorkGraph<T> {
      WorkGraph(if n.id in nodes then keys else keys + [n.id], nodes[n.id := n])
    }
  }

  datatype RunState = RunState(done: set<NodeId>, running: set<NodeId>, blocked: set<NodeId>)

  datatype SortResult = Ordered(order: seq<NodeId>) | Cyclic(involved: seq<NodeId>)

  lemma PresentIsFull<T>(g: WorkGraph<T>)
    requires g.NoDangling()
    ensures g.Present() == g.Full()
  {
    forall x | x in g.nodes ensures g.Present()[x] == g.Full()[x] {
    }
  }

  // -------------------------------------------------------------------------
  // construction
  // -------------------------------------------------------------------------

  ghost predicate LastOfItsId<T>(ns: seq<WorkNode<T>>, i: nat, n: nat)
    requires i < n <= |ns|
  {
    forall j :: i < j < n ==> ns[j].id != ns[i].id
  }

  ghost predicate Stems<T>(g: WorkGraph<T>, ns: seq<WorkNode<T>>, n: nat, k: NodeId)
    requires n <= |ns| && k in g.nodes
  {
    g.nodes[k] in ns[..n]
  }

  /** The graph holds, for each id among the first `n` nodes, the last node that carries it. */
  ghost predicate BuiltFrom<T>(g: WorkGraph<T>, ns: seq<WorkNode<T>>, n: nat)
    requires n <= |ns|
  {
    && (forall k {:trigger Stems(g, ns, n, k)} :: k in g.nodes ==> Stems(g, ns, n, k))
    && (forall i :: 0 <= i < n ==> ns[i].id in g.nodes)
    && (forall i {:trigger LastOfItsId(ns, i, n)} :: 0 <= i < n && LastOfItsId(ns, i, n) ==>
        ns[i].id in g.nodes && g.nodes[ns[i].id] == ns[i])
  }

  lemma PutKeepsValid<T>(g: WorkGraph<T>, node: WorkNode<T>)
    requires g.Valid()
    ensures g.Put(node).Valid()
  {
  }

  lemma PutStems<T>(g: WorkGraph<T>, ns: seq<WorkNode<T>>, n: nat, k: NodeId)
    requires n < |ns| && k in g.Put(ns[n]).nodes && (k in g.nodes ==> Stems(g, ns, n, k))
    ensures Stems(g.Put(ns[n]), ns, n + 1, k)
  {
    assert ns[..n + 1] == ns[..n] + [ns[n]];
  }

  lemma PutBuilds<T>(g: WorkGraph<T>, ns: seq<WorkNode<T>>, n: nat)
    requires n < |ns| && BuiltFrom(g, ns, n)
    ensures BuiltFrom(g.Put(ns[n]), ns, n + 1)
  {
    forall k | k in g.Put(ns[n]).nodes ensures Stems(g.Put(ns[n]), ns, n + 1, k) {
      PutStems(g, ns, n, k);
    }
    forall i | 0 <= i < n && LastOfItsId(ns, i, n + 1) ensures g.Put(ns[n]).nodes[ns[i].id] == ns[i] {
      assert LastOfItsId(ns, i, n) && ns[n].id != ns[i].id;
    }
  }

  /** `fromNodes`: of two nodes with one id the later wins. */
  method FromNodes<T>(ns: seq<WorkNode<T>>) returns (g: WorkGraph<T>)
    ensures g.Valid() && BuiltFrom(g, ns, |ns|)
  {
    g := WorkGraph([], map[]);
    for n := 0 to |ns|
      invariant g.Valid() && BuiltFrom(g, ns, n)
    {
      PutKeepsValid(g, ns[n]);
      PutBuilds(g, ns, n);
      g := g.Put(ns[n]);
    }
  }

  // -------------------------------------------------------------------------
  // dangling edges
  // -------------------------------------------------------------------------

  method DanglingEdges<T>(g: WorkGraph<T>) returns (out: seq<(NodeId, NodeId)>)
    requires g.Valid()
    ensures forall x, d :: (x, d) in out <==> x in g.nodes && d in g.nodes[x].dependsOn && d !in g.nodes
    ensures out == [] <==> g.NoDangling()
  {
    out := [];
    for i := 0 to |g.keys|
      invariant forall x, d :: (x, d) in out <==>
        x in g.keys[..i] && d in g.nodes[x].dependsOn && d !in g.nodes
    {
      var node := g.nodes[g.keys[i]];
      ghost var before := out;
      for j := 0 to |node.dependsOn|
        invariant forall x, d :: (x, d) in out <==>
          (x, d) in before || (x == node.id && d in node.dependsOn[..j] && d !in g.nodes)
      {
        if node.dependsOn[j] !in g.nodes {
          out := out + [(node.id, node.dependsOn[j])];
        }
      }
      assert node.dependsOn[..|node.dependsOn|] == node.dependsOn;
    }
    assert g.keys[..|g.keys|] == g.keys;
    if !g.NoDangling() {
      var x, d :| x in g.nodes && d in g.nodes[x].dependsOn && d !in g.nodes;
      assert (x, d) in out;
    }
    if out != [] {
      assert (out[0].0, out[0].1) in out;
    }
  }

  // -------------------------------------------------------------------------
  // Kahn's algorithm
  // -------------------------------------------------------------------------

  function Lookup(m: map<NodeId, seq<NodeId>>, x: NodeId): seq<NodeId> {
    if x in m then m[x] else []
  }

  /** How many entries of the list for `d` name `x`. */
  ghost function Entries(m: map<NodeId, seq<NodeId>>, d: NodeId, x: NodeId): nat {
    multiset(Lookup(m, d))[x]
  }

  /** Who depends on whom, one entry per occurrence in a dependency list. */
  ghost predicate IndexesDependents(deps: map<NodeId, seq<NodeId>>, dependents: map<NodeId, seq<NodeId>>) {
    forall d, x :: Entries(dependents, d, x) == Entries(deps, x, d)
  }

  lemma PushedEntry(m: map<NodeId, seq<NodeId>>, dep: NodeId, id: NodeId)
    ensures var m1 := m[dep := Lookup(m, dep) + [id]];
            forall d, x :: Entries(m1, d, x) == Entries(m, d, x) + if d == dep && x == id then 1 else 0
  {
  }

  lemma OneMore(s: seq<NodeId>, j: nat, d: NodeId)
    requires j < |s|
    ensures multiset(s[..j + 1])[d] == multiset(s[..j])[d] + if d == s[j] then 1 else 0
  {
    assert s[..j + 1] == s[..j] + [s[j]];
  }

  method IndexOne(id: NodeId, deps: seq<NodeId>, before: map<NodeId, seq<NodeId>>)
    returns (dependents: map<NodeId, seq<NodeId>>)
    ensures forall d, x :: Entries(dependents, d, x) == Entries(before, d, x) + if x == id then multiset(deps)[d] else 0
  {
    dependents := before;
    for j := 0 to |deps|
      invariant forall d, x ::
        Entries(dependents, d, x) == Entries(before, d, x) + if x == id then multiset(deps[..j])[d] else 0
    {
      PushedEntry(dependents, deps[j], id);
      forall d { OneMore(deps, j, d); }
      dependents := dependents[deps[j] := Lookup(dependents, deps[j]) + [id]];
    }
    assert deps[..|deps|] == deps;
  }

  method IndexDependents(keys: seq<NodeId>, deps: map<NodeId, seq<NodeId>>)
    returns (dependents: map<NodeId, seq<NodeId>>)
    requires Distinct(keys) && forall k :: k in keys <==> k in deps
    ensures IndexesDependents(deps, dependents)
  {
    dependents := map[];
    for i := 0 to |keys|
      invariant forall d, x ::
        Entries(dependents, d, x) == if x in keys[..i] then Entries(deps, x, d) else 0
    {
      var id := keys[i];
      assert id !in keys[..i];
      assert keys[..i + 1] == keys[..i] + [id];
      dependents := IndexOne(id, deps[id], dependents);
    }
    assert keys[..|keys|] == keys;
  }

  /** How many entries of a dependency list are not yet done. */
  ghost function Unmet(deps: seq<NodeId>, done: seq<NodeId>): (n: nat)
    ensures n == 0 <==> forall d :: d in deps ==> d in done
  {
    if deps == [] then 0
    else (if deps[0] in done then 0 else 1) + Unmet(deps[1..], done)
  }

  lemma {:induction false} UnmetNone(deps: seq<NodeId>)
    ensures Unmet(deps, []) == |deps|
  {
    if deps != [] { UnmetNone(deps[1..]); }
  }

  /** Finishing `x` settles exactly the entries that name it. */
  lemma {:induction false} UnmetAfter(deps: seq<NodeId>, done: seq<NodeId>, x: NodeId)
    requires x !in done
    ensures Unmet(deps, done) == Unmet(deps, done + [x]) + multiset(deps)[x]
  {
    if deps != [] {
      UnmetAfter(deps[1..], done, x);
      assert deps == [deps[0]] + deps[1..];
    }
  }

  ghost predicate Represents(e: Edges, deps: map<NodeId, seq<NodeId>>) {
    && deps.Keys == e.Keys
    && (forall x, d :: x in e ==> (d in deps[x] <==> d in e[x]))
    && (forall x, d :: x in e && d in e[x] ==> d in e)
  }

  /** What topological sorting must answer, for the edges between present nodes. */
  ghost predicate SortsTopologically(e: Edges, r: SortResult) {
    match r
    case Ordered(order) => Acyclic(e) && LeastTopologicalOrder(e, order)
    case Cyclic(involved) =>
      && !Acyclic(e)
      && Ascending(ATMOST, involved) && Distinct(involved)
      && forall x :: x in involved <==> x in e && ReachesCycle(e, x)
  }

  ghost predicate IndegreeIs(deps: map<NodeId, seq<NodeId>>, indegree: map<NodeId, int>, order: seq<NodeId>,
                             pending: seq<NodeId>)
  {
    && indegree.Keys == deps.Keys
    && forall x :: x in deps ==> indegree[x] == Unmet(deps[x], order) + multiset(pending)[x]
  }

  ghost predicate QueueHolds(indegree: map<NodeId, int>, order: seq<NodeId>, queue: seq<NodeId>) {
    && Distinct(queue)
    && forall x :: x in queue <==> x in indegree && x !in order && indegree[x] == 0
  }

  lemma QueueIsAvailable(e: Edges, deps: map<NodeId, seq<NodeId>>, indegree: map<NodeId, int>, order: seq<NodeId>,
                         queue: seq<NodeId>)
    requires Represents(e, deps) && IndegreeIs(deps, indegree, order, []) && QueueHolds(indegree, order, queue)
    ensures forall x :: x in queue <==> Available(e, order, x)
  {
    forall x ensures x in queue <==> Available(e, order, x) {
      if x in e {
        assert indegree[x] == Unmet(deps[x], order);
      }
    }
  }

  lemma OneReleased(deps: map<NodeId, seq<NodeId>>, indegree: map<NodeId, int>, order: seq<NodeId>,
                    pending: seq<NodeId>)
    requires IndegreeIs(deps, indegree, order, pending) && pending != [] && pending[0] in deps
    ensures indegree[pending[0]] > 0
    ensures IndegreeIs(deps, indegree[pending[0] := indegree[pending[0]] - 1], order, pending[1..])
  {
    var next := pending[0];
    assert pending == [next] + pending[1..];
    forall x ensures multiset(pending)[x] == multiset(pending[1..])[x] + if x == next then 1 else 0 {
    }
  }

  lemma QueueAfter(indegree: map<NodeId, int>, order: seq<NodeId>, queue: seq<NodeId>, next: NodeId)
    requires QueueHolds(indegree, order, queue) && next in indegree && indegree[next] > 0 && next !in order
    ensures var after := if indegree[next] == 1 then queue + [next] else queue;
            QueueHolds(indegree[next := indegree[next] - 1], order, after)
  {
  }

  /** The counters and the queue while the first `j` dependents have been released. */
  ghost predicate Releasing(deps: map<NodeId, seq<NodeId>>, indegree: map<NodeId, int>, order: seq<NodeId>,
                            released: seq<NodeId>, j: int, queue: seq<NodeId>)
  {
    0 <= j <= |released| && IndegreeIs(deps, indegree, order, released[j..]) && QueueHolds(indegree, order, queue)
  }

  lemma NextIsCounted(deps: map<NodeId, seq<NodeId>>, indegree: map<NodeId, int>, order: seq<NodeId>,
                      released: seq<NodeId>, j: nat, queue: seq<NodeId>)
    requires j < |released| && released[j] in deps && Releasing(deps, indegree, order, released, j, queue)
    ensures released[j] in indegree
  {
  }

  lemma ReleaseNext(deps: map<NodeId, seq<NodeId>>, indegree: map<NodeId, int>, order: seq<NodeId>,
                    released: seq<NodeId>, j: nat, queue: seq<NodeId>, indegree': map<NodeId, int>, queue': seq<NodeId>)
    requires j < |released| && released[j] in deps && released[j] !in order && released[j] in indegree
    requires Releasing(deps, indegree, order, released, j, queue)
    requires indegree' == indegree[released[j] := indegree[released[j]] - 1]
    requires queue' == if indegree[released[j]] == 1 then queue + [released[j]] else queue
    ensures Releasing(deps, indegree', order, released, j + 1, queue')
  {
    assert released[j..][0] == released[j] && released[j..][1..] == released[j + 1..];
    OneReleased(deps, indegree, order, released[j..]);
    QueueAfter(indegree, order, queue, released[j]);
  }

  lemma ReleaseBegins(deps: map<NodeId, seq<NodeId>>, indegree: map<NodeId, int>, order: seq<NodeId>,
                      released: seq<NodeId>, queue: seq<NodeId>)
    requires IndegreeIs(deps, indegree, order, released) && QueueHolds(indegree, order, queue)
    ensures Releasing(deps, indegree, order, released, 0, queue)
  {
    assert released[0..] == released;
  }

  lemma ReleaseEnds(deps: map<NodeId, seq<NodeId>>, indegree: map<NodeId, int>, order: seq<NodeId>,
                    released: seq<NodeId>, queue: seq<NodeId>)
    requires Releasing(deps, indegree, order, released, |released|, queue)
    ensures IndegreeIs(deps, indegree, order, []) && QueueHolds(indegree, order, queue)
  {
    assert released[|released|..] == [];
  }

  /** One pass over the dependents of the node just listed. */
  method Release(ghost deps: map<NodeId, seq<NodeId>>, released: seq<NodeId>, ghost order: seq<NodeId>,
                 indegree0: map<NodeId, int>, queue0: seq<NodeId>)
    returns (indegree: map<NodeId, int>, queue: seq<NodeId>)
    requires IndegreeIs(deps, indegree0, order, released) && QueueHolds(indegree0, order, queue0)
    requires forall x :: x in released ==> x in deps && x !in order
    ensures IndegreeIs(deps, indegree, order, []) && QueueHolds(indegree, order, queue)
  {
    indegree, queue := indegree0, queue0;
    ReleaseBegins(deps, indegree, order, released, queue);
    for j := 0 to |released|
      invariant Releasing(deps, indegree, order, released, j, queue)
    {
      var next := released[j];
      assert next in released;
      NextIsCounted(deps, indegree, order, released, j, queue);
      ghost var before, waiting := indegree, queue;
      var remaining := indegree[next] - 1;
      indegree := indegree[next := remaining];
      if remaining == 0 {
        queue := queue + [next];
      }
      ReleaseNext(deps, before, order, released, j, waiting, indegree, queue);
    }
    ReleaseEnds(deps, indegree, order, released, queue);
  }

  ghost predicate KahnInvariant(e: Edges, deps: map<NodeId, seq<NodeId>>, indegree: map<NodeId, int>,
                                order: seq<NodeId>, queue: seq<NodeId>)
  {
    && Represents(e, deps)
    && GreedyPrefix(e, order)
    && IndegreeIs(deps, indegree, order, [])
    && QueueHolds(indegree, order, queue)
  }

  /** The queue loop of `topoSort`: list the smallest free node, release its dependents, sort the queue again. */
  method KahnLoop(ghost e: Edges, ghost deps: map<NodeId, seq<NodeId>>, dependents: map<NodeId, seq<NodeId>>,
                  indegree0: map<NodeId, int>, queue0: seq<NodeId>)
    returns (order: seq<NodeId>)
    requires KahnInvariant(e, deps, indegree0, [], queue0) && Ascending(ATMOST, queue0)
    requires IndexesDependents(deps, dependents)
    ensures GreedyPrefix(e, order) && forall y :: !Available(e, order, y)
  {
    var indegree, queue := indegree0, queue0;
    order := [];
    while queue != []
      invariant KahnInvariant(e, deps, indegree, order, queue)
      invariant Ascending(ATMOST, queue)
      decreases e.Keys - Members(order)
    {
      var id := queue[0];
      ListSmallest(e, deps, indegree, order, queue);
      ListOne(e, deps, dependents, indegree, order, queue);
      order := order + [id];
      indegree, queue := Release(deps, Lookup(dependents, id), order, indegree, queue[1..]);
      SortKeepsDistinct(queue);
      queue := SortStrings(queue);
    }
    QueueIsAvailable(e, deps, indegree, order, queue);
  }

  /** `topoSort`. */
  method TopoSort<T>(g: WorkGraph<T>) returns (r: SortResult)
    requires g.Valid()
    ensures SortsTopologically(g.Present(), r)
  {
    var deps := map x | x in g.nodes :: g.PresentDeps(x);
    var dependents := IndexDependents(g.keys, deps);
    var indegree: map<NodeId, int> := map x | x in deps :: |deps[x]|;
    var roots := FilterKeys(g.keys, x => x in indegree && indegree[x] == 0);
    KahnStart(g, deps, indegree, roots);
    var order := KahnLoop(g.Present(), deps, dependents, indegree, SortStrings(roots));
    if |order| != |g.keys| {
      var rest := FilterKeys(g.keys, x => x !in order);
      SortKeepsDistinct(rest);
      r := Cyclic(SortStrings(rest));
      KahnStuck(g.Present(), g.keys, order, r.involved);
    } else {
      KahnComplete(g.Present(), g.keys, order);
      r := Ordered(order);
    }
  }

  ghost function Members(s: seq<NodeId>): set<NodeId> {
    set x | x in s
  }

  lemma KahnStart<T>(g: WorkGraph<T>, deps: map<NodeId, seq<NodeId>>, indegree: map<NodeId, int>, roots: seq<NodeId>)
    requires g.Valid()
    requires deps == map x | x in g.nodes :: g.PresentDeps(x)
    requires indegree.Keys == deps.Keys && forall x :: x in deps ==> indegree[x] == |deps[x]|
    requires Distinct(roots) && forall x :: x in roots <==> x in g.keys && indegree[x] == 0
    ensures KahnInvariant(g.Present(), deps, indegree, [], SortStrings(roots))
  {
    StartCounts(deps, indegree);
    SortKeepsDistinct(roots);
    assert Represents(g.Present(), deps);
  }

  lemma StartCounts(deps: map<NodeId, seq<NodeId>>, indegree: map<NodeId, int>)
    requires indegree.Keys == deps.Keys && forall x :: x in deps ==> indegree[x] == |deps[x]|
    ensures IndegreeIs(deps, indegree, [], [])
  {
    forall x | x in deps ensures indegree[x] == Unmet(deps[x], []) {
      UnmetNone(deps[x]);
    }
  }

  lemma ListSmallest(e: Edges, deps: map<NodeId, seq<NodeId>>, indegree: map<NodeId, int>, order: seq<NodeId>,
                     queue: seq<NodeId>)
    requires KahnInvariant(e, deps, indegree, order, queue) && Ascending(ATMOST, queue) && queue != []
    ensures GreedyPrefix(e, order + [queue[0]])
    ensures Members(order) < Members(order + [queue[0]]) <= e.Keys
  {
    var id := queue[0];
    QueueIsAvailable(e, deps, indegree, order, queue);
    AtMostOrder();
    forall y | Available(e, order, y) ensures AtMost(id, y) {
      LeastFirst(ATMOST, queue, y);
    }
    TopoExtend(e, order, id);
    TopoPrefixFacts(e, order + [id]);
    assert id in Members(order + [id]) && id !in Members(order);
  }

  lemma KahnStuck(e: Edges, keys: seq<NodeId>, order: seq<NodeId>, involved: seq<NodeId>)
    requires TopoPrefix(e, order) && (forall y :: !Available(e, order, y))
    requires forall y, d :: y in e && d in e[y] ==> d in e
    requires Distinct(keys) && (forall k :: k in keys <==> k in e) && |order| != |keys|
    requires Distinct(involved) && Ascending(ATMOST, involved)
    requires forall x :: x in involved <==> x in keys && x !in order
    ensures SortsTopologically(e, Cyclic(involved))
  {
    forall x ensures x in involved <==> x in e && ReachesCycle(e, x) {
      if x in e {
        StuckMeansCyclic(e, order, x);
      }
    }
    TopoPrefixFacts(e, order);
    NotAllListed(keys, order);
    AcyclicIffNoneReachesCycle(e);
  }

  lemma KahnComplete(e: Edges, keys: seq<NodeId>, order: seq<NodeId>)
    requires GreedyPrefix(e, order)
    requires Distinct(keys) && (forall k :: k in keys <==> k in e) && |order| == |keys|
    ensures SortsTopologically(e, Ordered(order))
  {
    TopoPrefixFacts(e, order);
    AllListed(keys, order);
    forall x | x in e ensures !ReachesCycle(e, x) {
      ListedReachesNoCycle(e, order, x);
    }
    AcyclicIffNoneReachesCycle(e);
    GreedyIsLeast(e, order);
  }

  function FilterKeys(s: seq<NodeId>, p: NodeId -> bool): (r: seq<NodeId>)
    ensures forall x :: x in r <==> x in s && p(x)
    ensures Distinct(s) ==> Distinct(r)
  {
    if s == [] then []
    else
      var rest := FilterKeys(s[1..], p);
      assert s == [s[0]] + s[1..];
      if p(s[0]) then [s[0]] + rest else rest
  }

  lemma SortKeepsDistinct(s: seq<NodeId>)
    requires Distinct(s)
    ensures Distinct(SortStrings(s))
  {
    var r := SortStrings(s);
    forall i, j | 0 <= i < j < |r| ensures r[i] != r[j] {
      CountDistinct(s, r[i]);
      if r[i] == r[j] { TwiceCounts(r, i, j); }
    }
  }

  lemma TwiceCounts(r: seq<NodeId>, i: nat, j: nat)
    requires i < j < |r| && r[i] == r[j]
    ensures multiset(r)[r[i]] >= 2
  {
    assert r == r[..j] + r[j..];
    assert r[i] in r[..j] && r[j] in r[j..];
  }

  /** Moving the head of the queue to the order leaves one pending decrement per entry that names it. */
  lemma ListOne(e: Edges, deps: map<NodeId, seq<NodeId>>, dependents: map<NodeId, seq<NodeId>>,
                indegree: map<NodeId, int>,
                order: seq<NodeId>, queue: seq<NodeId>)
    requires KahnInvariant(e, deps, indegree, order, queue) && IndexesDependents(deps, dependents) && queue != []
    ensures IndegreeIs(deps, indegree, order + [queue[0]], Lookup(dependents, queue[0]))
    ensures QueueHolds(indegree, order + [queue[0]], queue[1..])
    ensures forall x :: x in Lookup(dependents, queue[0]) ==> x in deps && x !in order + [queue[0]]
  {
    var id := queue[0];
    var released := Lookup(dependents, id);
    QueueIsAvailable(e, deps, indegree, order, queue);
    assert Available(e, order, id);
    forall x | x in deps ensures indegree[x] == Unmet(deps[x], order + [id]) + multiset(released)[x] {
      UnmetAfter(deps[x], order, id);
      assert Entries(dependents, id, x) == Entries(deps, x, id);
    }
    forall x | x in released ensures x in e && x !in order + [id] {
      assert Entries(dependents, id, x) == Entries(deps, x, id);
      assert id in Lookup(deps, x);
      ListedAfter(e, order, x, id);
    }
    QueueTail(indegree, order, queue);
  }

  lemma ListedAfter(e: Edges, order: seq<NodeId>, x: NodeId, d: NodeId)
    requires TopoPrefix(e, order) && x in e && d in e[x] && Available(e, order, d)
    ensures x !in order && x != d
  {
    assert forall k :: 0 <= k < |order| ==> Available(e, order[..k], order[k]);
  }

  lemma QueueTail(indegree: map<NodeId, int>, order: seq<NodeId>, queue: seq<NodeId>)
    requires QueueHolds(indegree, order, queue) && queue != []
    ensures QueueHolds(indegree, order + [queue[0]], queue[1..])
  {
    forall x ensures x in queue[1..] <==> x in queue && x != queue[0] {
      if x in queue && x != queue[0] {
        var k :| 0 <= k < |queue| && queue[k] == x;
        assert queue[1..][k - 1] == x;
      }
    }
  }

  lemma AllListed(keys: seq<NodeId>, order: seq<NodeId>)
    requires Distinct(keys) && Distinct(order) && (forall x :: x in order ==> x in keys) && |order| == |keys|
    ensures forall x :: x in keys ==> x in order
  {
    var ks, os := set x | x in keys, set x | x in order;
    DistinctSize(keys);
    DistinctSize(order);
    if x :| x in keys && x !in order {
      assert os <= ks - {x};
      SubsetSize(os, ks - {x});
      assert false;
    }
  }

  lemma NotAllListed(keys: seq<NodeId>, order: seq<NodeId>)
    requires Distinct(keys) && Distinct(order) && (forall x :: x in order ==> x in keys) && |order| != |keys|
    ensures exists x :: x in keys && x !in order
  {
    if forall x :: x in keys ==> x in order {
      DistinctSameMultiset(keys, order);
      SameElements(keys, order);
    }
  }

  lemma {:induction false} DistinctSize(s: seq<NodeId>)
    requires Distinct(s)
    ensures |set x | x in s| == |s|
  {
    if s != [] {
      var rest := s[1..];
      DistinctSize(rest);
      assert (set x | x in s) == (set x | x in rest) + {s[0]};
    }
  }

  /** The answer depends only on the edges: not on insertion order, and not on repeated dependencies. */
  lemma TopoSortIsDetermined(e: Edges, r1: SortResult, r2: SortResult)
    requires SortsTopologically(e, r1) && SortsTopologically(e, r2)
    ensures r1 == r2
  {
    match (r1, r2) {
      case (Ordered(a), Ordered(b)) => LeastIsUnique(e, a, b);
      case (Cyclic(a), Cyclic(b)) =>
        assert forall x :: x in a <==> x in b;
        DistinctSameMultiset(a, b);
        AtMostOrder();
        AscendingUnique(ATMOST, a, b);
      case _ =>
    }
  }

  // -------------------------------------------------------------------------
  // what a failure takes with it
  // -------------------------------------------------------------------------

  /** Every node that depends on `id`, directly or not. */
  ghost function DescendantsOf(e: Edges, id: NodeId): set<NodeId> {
    set x | x in e && Reaches(e, x, id)
  }

  lemma DependentsAre<T>(g: WorkGraph<T>, deps: map<NodeId, seq<NodeId>>, dependents: map<NodeId, seq<NodeId>>,
                         y: NodeId)
    requires deps == map x | x in g.nodes :: g.nodes[x].dependsOn
    requires IndexesDependents(deps, dependents)
    ensures forall x :: x in Lookup(dependents, y) <==> x in g.Full() && y in g.Full()[x]
  {
    forall x ensures x in Lookup(dependents, y) <==> x in g.Full() && y in g.Full()[x] {
      assert Entries(dependents, y, x) == Entries(deps, x, y);
      assert x in Lookup(dependents, y) <==> Entries(dependents, y, x) > 0;
      assert y in Lookup(deps, x) <==> Entries(deps, x, y) > 0;
    }
  }

  lemma {:induction false} ClosedHoldsDescendants(e: Edges, id: NodeId, out: set<NodeId>, p: seq<NodeId>)
    requires IsPath(e, p) && |p| >= 2 && p[|p| - 1] == id
    requires forall x, y {:trigger y in e[x]} :: x in e && y in e[x] && (y == id || y in out) ==> x in out
    ensures p[0] in out
  {
    assert p[0] in e && p[0 + 1] in e[p[0]];
    if |p| > 2 {
      forall i | 0 <= i < |p[1..]| - 1 ensures p[1..][i] in e && p[1..][i + 1] in e[p[1..][i]] {
        assert p[i + 1] in e && p[i + 1 + 1] in e[p[i + 1]];
      }
      ClosedHoldsDescendants(e, id, out, p[1..]);
    }
  }

  ghost predicate Found(e: Edges, id: NodeId, out: set<NodeId>, stack: seq<NodeId>) {
    && (forall x :: x in out || x in stack ==> x in DescendantsOf(e, id))
    && (forall x, y {:trigger y in e[x]} :: x in e && y in e[x] && (y == id || y in out) ==> x in out || x in stack)
  }

  lemma PopSeen(e: Edges, id: NodeId, out: set<NodeId>, stack: seq<NodeId>)
    requires Found(e, id, out, stack) && stack != [] && stack[|stack| - 1] in out
    ensures Found(e, id, out, stack[..|stack| - 1])
  {
    assert stack == stack[..|stack| - 1] + [stack[|stack| - 1]];
  }

  lemma PopNew(e: Edges, id: NodeId, out: set<NodeId>, stack: seq<NodeId>, more: seq<NodeId>)
    requires Found(e, id, out, stack) && stack != []
    requires forall x :: x in more <==> x in e && stack[|stack| - 1] in e[x]
    ensures Found(e, id, out + {stack[|stack| - 1]}, stack[..|stack| - 1] + more)
  {
    var next := stack[|stack| - 1];
    assert stack == stack[..|stack| - 1] + [next];
    assert next in stack && next in DescendantsOf(e, id);
    forall x | x in more ensures x in DescendantsOf(e, id) {
      Edge(e, x, next);
      Transitive(e, x, next, id);
    }
  }

  /** `descendants`. */
  method Descendants<T>(g: WorkGraph<T>, id: NodeId) returns (out: set<NodeId>)
    requires g.Valid()
    ensures out == DescendantsOf(g.Full(), id)
  {
    ghost var e := g.Full();
    var deps := map x | x in g.nodes :: g.nodes[x].dependsOn;
    var dependents := IndexDependents(g.keys, deps);
    out := {};
    var stack := Lookup(dependents, id);
    DependentsAre(g, deps, dependents, id);
    forall x | x in stack ensures x in DescendantsOf(e, id) {
      Edge(e, x, id);
    }
    while stack != []
      invariant Found(e, id, out, stack)
      decreases DescendantsOf(e, id) - out, |stack|
    {
      var next := stack[|stack| - 1];
      if next in out {
        PopSeen(e, id, out, stack);
        stack := stack[..|stack| - 1];
      } else {
        DependentsAre(g, deps, dependents, next);
        PopNew(e, id, out, stack, Lookup(dependents, next));
        out, stack := out + {next}, stack[..|stack| - 1] + Lookup(dependents, next);
      }
    }
    forall x | x in DescendantsOf(e, id) ensures x in out {
      var p :| Joins(e, p, x, id);
      ClosedHoldsDescendants(e, id, out, p);
    }
  }

  /** The descendants a failure newly blocks. */
  ghost function Cascade(e: Edges, st: RunState, failed: NodeId): set<NodeId> {
    set x | x in DescendantsOf(e, failed) && x !in st.done && x !in st.blocked
  }

  /** `newlyBlocked`. */
  method NewlyBlocked<T>(g: WorkGraph<T>, st: RunState, failed: NodeId) returns (out: set<NodeId>)
    requires g.Valid()
    ensures out == Cascade(g.Full(), st, failed)
  {
    var below := Descendants(g, failed);
    out := {};
    var rest := below;
    while rest != {}
      invariant rest <= below
      invariant out == set x | x in below - rest && x !in st.done && x !in st.blocked
      decreases rest
    {
      var id :| id in rest;
      if id !in st.done && id !in st.blocked {
        out := out + {id};
      }
      rest := rest - {id};
    }
  }

  // -------------------------------------------------------------------------
  // what may start now
  // -------------------------------------------------------------------------

  function Writes<T>(g: WorkGraph<T>, id: NodeId): set<JsString> {
    if id in g.nodes then set r | r in g.nodes[id].writeSet else {}
  }

  function Leases<T>(g: WorkGraph<T>, running: set<NodeId>): set<JsString> {
    set id, r | id in running && r in Writes(g, id) :: r
  }

  /** `heldLeases`. */
  method HeldLeases<T>(g: WorkGraph<T>, running: set<NodeId>) returns (held: set<JsString>)
    ensures held == Leases(g, running)
  {
    held := {};
    var rest := running;
    while rest != {}
      invariant rest <= running
      invariant held == Leases(g, running - rest)
      decreases rest
    {
      var id :| id in rest;
      assert running - (rest - {id}) == (running - rest) + {id};
      held := held + Writes(g, id);
      rest := rest - {id};
    }
    assert running - {} == running;
  }

  /** Untouched so far, and every dependency done. */
  predicate Eligible<T>(g: WorkGraph<T>, st: RunState, id: NodeId) {
    && id in g.nodes
    && id !in st.done && id !in st.running && id !in st.blocked
    && forall d :: d in g.nodes[id].dependsOn ==> d in st.done
  }

  /** The planning pass: each chosen node claims its write-set for the rest of the pass. */
  function ReadyScan<T>(g: WorkGraph<T>, keys: seq<NodeId>, st: RunState, held: set<JsString>): seq<NodeId> {
    if keys == [] then []
    else if Eligible(g, st, keys[0]) && Writes(g, keys[0]) !! held then
      [keys[0]] + ReadyScan(g, keys[1..], st, held + Writes(g, keys[0]))
    else
      ReadyScan(g, keys[1..], st, held)
  }

  function ReadyList<T>(g: WorkGraph<T>, st: RunState): seq<NodeId> {
    SortStrings(ReadyScan(g, g.keys, st, Leases(g, st.running)))
  }

  /** `readySet`. */
  method ReadySet<T>(g: WorkGraph<T>, st: RunState) returns (r: seq<NodeId>)
    requires g.Valid()
    ensures r == ReadyList(g, st)
  {
    var held := HeldLeases(g, st.running);
    var ready: seq<NodeId> := [];
    for i := 0 to |g.keys|
      invariant ready + ReadyScan(g, g.keys[i..], st, held) == ReadyScan(g, g.keys, st, Leases(g, st.running))
    {
      var id := g.keys[i];
      assert g.keys[i..][1..] == g.keys[i + 1..];
      if Eligible(g, st, id) && Writes(g, id) !! held {
        held := held + Writes(g, id);
        ready := ready + [id];
      }
    }
    assert ready == ReadyScan(g, g.keys, st, Leases(g, st.running)) by {
      assert g.keys[|g.keys|..] == [];
      assert ready + [] == ready;
    }
    r := SortStrings(ready);
  }

  /** What the two gates guarantee about a planned batch. */
  ghost predicate SafeBatch<T>(g: WorkGraph<T>, st: RunState, held: set<JsString>, batch: seq<NodeId>) {
    && Distinct(batch)
    && (forall x :: x in batch ==> Eligible(g, st, x) && Writes(g, x) !! held)
    && (forall x, y :: x in batch && y in batch && x != y ==> Writes(g, x) !! Writes(g, y))
  }

  lemma {:induction false} ScanIsSafe<T>(g: WorkGraph<T>, keys: seq<NodeId>, st: RunState, held: set<JsString>)
    requires Distinct(keys)
    ensures SafeBatch(g, st, held, ReadyScan(g, keys, st, held))
    ensures forall x :: x in ReadyScan(g, keys, st, held) ==> x in keys
  {
    if keys != [] {
      assert keys[0] !in keys[1..];
      if Eligible(g, st, keys[0]) && Writes(g, keys[0]) !! held {
        ScanIsSafe(g, keys[1..], st, held + Writes(g, keys[0]));
      } else {
        ScanIsSafe(g, keys[1..], st, held);
      }
    }
  }

  /** The pass is maximal: whatever is left out conflicts with a held or a claimed resource. */
  lemma {:induction false} ScanIsMaximal<T>(g: WorkGraph<T>, keys: seq<NodeId>, st: RunState, held: set<JsString>,
                                            x: NodeId)
    requires x in keys && Eligible(g, st, x)
    ensures var batch := ReadyScan(g, keys, st, held);
            x in batch || !(Writes(g, x) !! held) || exists y :: y in batch && !(Writes(g, x) !! Writes(g, y))
  {
    var k := keys[0];
    if Eligible(g, st, k) && Writes(g, k) !! held {
      if x != k {
        ScanIsMaximal(g, keys[1..], st, held + Writes(g, k), x);
      }
    } else if x != k {
      ScanIsMaximal(g, keys[1..], st, held, x);
    }
  }

  /** The planned batch is safe to start together with what runs already, and no larger batch in its place would be. */
  lemma ReadyListIsSafeAndMaximal<T>(g: WorkGraph<T>, st: RunState)
    requires g.Valid()
    ensures SafeBatch(g, st, Leases(g, st.running), ReadyList(g, st))
    ensures forall x :: Eligible(g, st, x) && x !in ReadyList(g, st) ==>
      (exists y :: (y in st.running || y in ReadyList(g, st)) && !(Writes(g, x) !! Writes(g, y)))
  {
    var held := Leases(g, st.running);
    var batch := ReadyScan(g, g.keys, st, held);
    ScanIsSafe(g, g.keys, st, held);
    SortKeepsDistinct(batch);
    forall x | Eligible(g, st, x) && x !in ReadyList(g, st)
      ensures exists y :: (y in st.running || y in ReadyList(g, st)) && !(Writes(g, x) !! Writes(g, y))
    {
      ScanIsMaximal(g, g.keys, st, held, x);
      if !(Writes(g, x) !! held) {
        var r :| r in Writes(g, x) && r in held;
        var y :| y in st.running && r in Writes(g, y);
      }
    }
  }

  /** The unresolved nodes. */
  function Frontier<T>(g: WorkGraph<T>, st: RunState): set<NodeId> {
    g.nodes.Keys - st.done - st.blocked
  }

  /** `isSettled`: nothing running and nothing ready. */
  predicate IsSettled<T>(g: WorkGraph<T>, st: RunState) {
    st.running == {} && ReadyList(g, st) == []
  }
}
