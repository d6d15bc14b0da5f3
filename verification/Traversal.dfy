/** The bounded walk of `ts/src/agent/Traversal.ts`, and why the scheduler accepts the work it is turned into. */
module Traversal {
  import opened Common
  import opened JsText
  import opened Sorting
  import opened Dag
  import opened WorkGraphs
  import opened SchedulerRun

  datatype Neighbor = Neighbor(name: NodeId, kind: JsString, outgoing: bool)

  datatype Page = Page(neighbors: seq<Neighbor>, degree: int, truncated: bool)

  datatype Via = Via(kind: JsString, outgoing: bool, from: NodeId)

  datatype Visited = Visited(name: NodeId, depth: int, degree: int, via: Option<Via>, truncated: bool)

  datatype Options = Options(maxNodes: int, maxDepth: int, branching: int, score: (Neighbor, Visited) -> real,
                             exclude: set<JsString>)

  datatype Stop = Exhausted | MaxNodes | MaxDepth

  datatype WalkResult = WalkResult(seed: NodeId, visited: seq<Visited>, unexplored: seq<NodeId>, stopped: Stop)

  // -------------------------------------------------------------------------
  // the candidates of one node
  // -------------------------------------------------------------------------

  /** An edge that the options let the walk follow. */
  predicate Admissible(opts: Options, n: Neighbor, from: Visited) {
    n.name != [] && n.kind !in opts.exclude && opts.score(n, from) >= 0.0
  }

  function Filter(opts: Options, ns: seq<Neighbor>, from: Visited, seen: set<NodeId>): (r: seq<Neighbor>)
    ensures forall n :: n in r <==> n in ns && Admissible(opts, n, from) && n.name !in seen
    ensures |r| <= |ns|
  {
    if ns == [] then []
    else
      var rest := Filter(opts, ns[1..], from, seen);
      if Admissible(opts, ns[0], from) && ns[0].name !in seen then [ns[0]] + rest else rest
  }

  /** `s.slice(0, n)`: a negative count leaves that many off the end. */
  function JsSlice<T>(s: seq<T>, n: int): (r: seq<T>)
    ensures r <= s && (n >= |s| ==> r == s) && (n >= 0 ==> |r| <= n)
  {
    if n >= |s| then s else if n >= 0 then s[..n] else if |s| + n >= 0 then s[..|s| + n] else []
  }

  function Better(opts: Options, from: Visited): (Neighbor, Neighbor) -> bool {
    (a: Neighbor, b: Neighbor) => opts.score(a, from) >= opts.score(b, from)
  }

  /** What is left of a page: the edges to follow, best score first, cut at the branching factor. */
  function Candidates(opts: Options, page: Page, from: Visited, seen: set<NodeId>): (r: seq<Neighbor>)
    ensures forall n :: n in r ==> n in page.neighbors && Admissible(opts, n, from) && n.name !in seen
    ensures |page.neighbors| <= opts.branching ==>
              forall n :: n in page.neighbors && Admissible(opts, n, from) ==> n.name in seen || n in r
    ensures BestFirst(opts, from, r) && (opts.branching >= 0 ==> |r| <= opts.branching)
  {
    var le := Better(opts, from);
    assert TotalPreorder(le);
    var sorted := Sort(le, Filter(opts, page.neighbors, from, seen));
    var r := JsSlice(sorted, opts.branching);
    assert forall i, j :: 0 <= i < j < |r| ==> le(sorted[i], sorted[j]);
    r
  }

  ghost predicate BestFirst(opts: Options, from: Visited, ns: seq<Neighbor>) {
    forall i, j :: 0 <= i < j < |ns| ==> opts.score(ns[i], from) >= opts.score(ns[j], from)
  }

  // -------------------------------------------------------------------------
  // what a walk keeps
  // -------------------------------------------------------------------------

  predicate IsSeed(v: Visited, seed: NodeId) {
    v.name == seed && v.depth == 0 && v.via == None
  }

  /**
    The entry was reached from an earlier one, one level up, along an edge that the graph has and the options allow.
  */
  ghost predicate ReachedFrom(kg: NodeId -> Page, opts: Options, v: Visited, from: Visited) {
    && v.via.Some? && v.via.value.from == from.name && v.depth == from.depth + 1
    && var n := Neighbor(v.name, v.via.value.kind, v.via.value.outgoing);
       n in kg(from.name).neighbors && Admissible(opts, n, from)
  }

  /** The edge by which an entry was reached. */
  function EdgeTo(v: Visited): Neighbor
    requires v.via.Some?
  {
    Neighbor(v.name, v.via.value.kind, v.via.value.outgoing)
  }

  predicate ParentAt(visited: seq<Visited>, i: int, j: int) {
    0 <= j < i < |visited| && visited[i].via.Some? && visited[i].via.value.from == visited[j].name
  }

  /** First in, first out; and the entries reached from one entry come best score first. */
  ghost predicate Ranked(opts: Options, visited: seq<Visited>) {
    forall i1, i2, j1, j2 {:trigger ParentAt(visited, i1, j1), ParentAt(visited, i2, j2)} ::
      i1 < i2 && ParentAt(visited, i1, j1) && ParentAt(visited, i2, j2) ==>
        && j1 <= j2
        && (j1 == j2 ==> opts.score(EdgeTo(visited[i1]), visited[j1]) >= opts.score(EdgeTo(visited[i2]), visited[j1]))
  }

  function Children(visited: seq<Visited>, j: int): set<int> {
    set i | 0 <= i < |visited| && ParentAt(visited, i, j)
  }

  /** No entry has more entries reached from it than the branching factor allows. */
  ghost predicate FanOut(opts: Options, visited: seq<Visited>) {
    opts.branching >= 0 ==> forall j {:trigger Children(visited, j)} :: |Children(visited, j)| <= opts.branching
  }

  /** Only entries before `h` have been expanded. */
  ghost predicate ParentsBefore(visited: seq<Visited>, h: int) {
    forall i, j {:trigger ParentAt(visited, i, j)} :: ParentAt(visited, i, j) ==> j < h
  }

  ghost predicate Tidy(opts: Options, visited: seq<Visited>, h: int) {
    Ranked(opts, visited) && FanOut(opts, visited) && ParentsBefore(visited, h)
  }

  /** What one expansion adds: entries reached from `current`, best first, no more than there were candidates. */
  ghost predicate Block(opts: Options, current: Visited, visited: seq<Visited>, from: int, n: int) {
    && 0 <= from <= |visited| <= from + n
    && (forall i :: from <= i < |visited| ==> visited[i].via.Some? && visited[i].via.value.from == current.name)
    && forall i, j :: from <= i < j < |visited| ==>
        opts.score(EdgeTo(visited[i]), current) >= opts.score(EdgeTo(visited[j]), current)
  }

  lemma {:induction false} RangeSize(s: set<int>, lo: int, hi: int)
    requires lo <= hi && forall i :: i in s ==> lo <= i < hi
    ensures |s| <= hi - lo
    decreases hi - lo
  {
    if lo < hi {
      RangeSize(s - {hi - 1}, lo, hi - 1);
    } else {
      assert s == {};
    }
  }

  lemma BlockParents(visited0: seq<Visited>, visited: seq<Visited>, opts: Options, c: int, n: int, i: int, j: int)
    requires NamesDistinct(visited) && visited0 <= visited && 0 <= c < |visited0|
    requires Block(opts, visited[c], visited, |visited0|, n) && ParentAt(visited, i, j)
    ensures if i < |visited0| then ParentAt(visited0, i, j) else j == c
  {
  }

  lemma BlockKeepsTidy(opts: Options, visited0: seq<Visited>, visited: seq<Visited>, c: int, n: int)
    requires NamesDistinct(visited) && visited0 <= visited && 0 <= c < |visited0| && Tidy(opts, visited0, c)
    requires Block(opts, visited[c], visited, |visited0|, n) && (opts.branching >= 0 ==> n <= opts.branching)
    ensures Tidy(opts, visited, c + 1)
  {
    forall i1, i2, j1, j2 | i1 < i2 && ParentAt(visited, i1, j1) && ParentAt(visited, i2, j2)
      ensures j1 <= j2
      ensures j1 == j2 ==>
        opts.score(EdgeTo(visited[i1]), visited[j1]) >= opts.score(EdgeTo(visited[i2]), visited[j1])
    {
      BlockParents(visited0, visited, opts, c, n, i1, j1);
      BlockParents(visited0, visited, opts, c, n, i2, j2);
    }
    forall i, j | ParentAt(visited, i, j) ensures j < c + 1 {
      BlockParents(visited0, visited, opts, c, n, i, j);
    }
    if opts.branching >= 0 { BlockFanOut(opts, visited0, visited, c, n); }
  }

  lemma BlockFanOut(opts: Options, visited0: seq<Visited>, visited: seq<Visited>, c: int, n: int)
    requires NamesDistinct(visited) && visited0 <= visited && 0 <= c < |visited0| && Tidy(opts, visited0, c)
    requires Block(opts, visited[c], visited, |visited0|, n) && 0 <= n <= opts.branching
    ensures FanOut(opts, visited)
  {
    forall j ensures |Children(visited, j)| <= opts.branching {
      forall i | i in Children(visited, j) ensures if j == c then |visited0| <= i < |visited|
        else i in Children(visited0, j) {
        BlockParents(visited0, visited, opts, c, n, i, j);
      }
      if j == c {
        RangeSize(Children(visited, j), |visited0|, |visited|);
      } else {
        SubsetSize(Children(visited, j), Children(visited0, j));
      }
    }
  }

  ghost predicate HasParent(kg: NodeId -> Page, opts: Options, visited: seq<Visited>, i: int)
    requires 0 <= i < |visited|
  {
    exists j :: 0 <= j < i && ReachedFrom(kg, opts, visited[i], visited[j])
  }

  ghost predicate NamesDistinct(visited: seq<Visited>) {
    forall i, j :: 0 <= i < j < |visited| ==> visited[i].name != visited[j].name
  }

  ghost predicate DepthsRise(visited: seq<Visited>) {
    forall i, j :: 0 <= i < j < |visited| ==> visited[i].depth <= visited[j].depth
  }

  function Cap(n: int, least: int): int {
    if n > least then n else least
  }

  ghost predicate Shape(kg: NodeId -> Page, opts: Options, seed: NodeId, visited: seq<Visited>) {
    && visited != [] && IsSeed(visited[0], seed)
    && NamesDistinct(visited) && DepthsRise(visited)
    && |visited| <= Cap(opts.maxNodes, 1)
    && (forall i :: 0 <= i < |visited| ==> 0 <= visited[i].depth <= Cap(opts.maxDepth, 0))
    && forall i {:trigger HasParent(kg, opts, visited, i)} :: 0 < i < |visited| ==> HasParent(kg, opts, visited, i)
  }

  predicate Listed(visited: seq<Visited>, name: NodeId) {
    exists i :: 0 <= i < |visited| && visited[i].name == name
  }

  predicate Known(visited: seq<Visited>, unexplored: seq<NodeId>, name: NodeId) {
    Listed(visited, name) || name in unexplored
  }

  /** Every edge that the options allow out of the entry leads to a known name, if the page was not cut. */
  ghost predicate Closed(kg: NodeId -> Page, opts: Options, visited: seq<Visited>, unexplored: seq<NodeId>,
                         v: Visited)
  {
    |kg(v.name).neighbors| <= opts.branching ==>
      forall n :: n in kg(v.name).neighbors && Admissible(opts, n, v) ==> Known(visited, unexplored, n.name)
  }

  /** The entry was cut by a bound, or nothing that follows it was lost. */
  ghost predicate Accounted(kg: NodeId -> Page, opts: Options, visited: seq<Visited>, unexplored: seq<NodeId>,
                            v: Visited)
  {
    v.depth >= opts.maxDepth || v.name in unexplored || Closed(kg, opts, visited, unexplored, v)
  }

  lemma Grow(kg: NodeId -> Page, opts: Options, seed: NodeId, visited: seq<Visited>, c: int, n: Neighbor, next: Visited)
    requires Shape(kg, opts, seed, visited) && 0 <= c < |visited| < opts.maxNodes && visited[c].depth < opts.maxDepth
    requires !Listed(visited, n.name) && n in kg(visited[c].name).neighbors && Admissible(opts, n, visited[c])
    requires forall i :: 0 <= i < |visited| ==> visited[i].depth <= visited[c].depth + 1
    requires next == Visited(n.name, visited[c].depth + 1, 0, Some(Via(n.kind, n.outgoing, visited[c].name)), false)
    ensures Shape(kg, opts, seed, visited + [next])
    ensures forall name :: Listed(visited + [next], name) <==> Listed(visited, name) || name == n.name
  {
    var after := visited + [next];
    assert Neighbor(next.name, next.via.value.kind, next.via.value.outgoing) == n;
    assert ReachedFrom(kg, opts, next, visited[c]);
    forall i | 0 < i < |after| ensures HasParent(kg, opts, after, i) {
      if i < |visited| {
        assert HasParent(kg, opts, visited, i);
        var j :| 0 <= j < i && ReachedFrom(kg, opts, visited[i], visited[j]);
        assert ReachedFrom(kg, opts, after[i], after[j]);
      } else {
        assert ReachedFrom(kg, opts, after[i], after[c]);
      }
    }
    forall name ensures Listed(after, name) <==> Listed(visited, name) || name == n.name {
      if Listed(visited, name) {
        var i :| 0 <= i < |visited| && visited[i].name == name;
        assert after[i].name == name;
      }
      if name == n.name { assert after[|visited|].name == name; }
    }
  }

  /** The first `k` candidates have been taken up: those that follow score no better than what was added. */
  ghost predicate Taken(opts: Options, current: Visited, visited: seq<Visited>, from: int, candidates: seq<Neighbor>,
                        k: int)
  {
    && 0 <= k <= |candidates| && Block(opts, current, visited, from, k)
    && forall i, j :: from <= i < |visited| && k <= j < |candidates| ==>
         opts.score(EdgeTo(visited[i]), current) >= opts.score(candidates[j], current)
  }

  lemma TakeNext(opts: Options, current: Visited, visited: seq<Visited>, from: int, candidates: seq<Neighbor>, k: int,
                 next: Visited)
    requires Taken(opts, current, visited, from, candidates, k) && k < |candidates| &&
      BestFirst(opts, current, candidates)
    requires next.via.Some? && next.via.value.from == current.name && EdgeTo(next) == candidates[k]
    ensures Taken(opts, current, visited + [next], from, candidates, k + 1)
  {
  }

  lemma PassNext(opts: Options, current: Visited, visited: seq<Visited>, from: int, candidates: seq<Neighbor>, k: int)
    requires Taken(opts, current, visited, from, candidates, k) && k < |candidates|
    ensures Taken(opts, current, visited, from, candidates, k + 1)
  {
  }

  /** The set that the walk keeps holds exactly the known names. */
  ghost predicate Sees(seen: set<NodeId>, visited: seq<Visited>, unexplored: seq<NodeId>) {
    forall name :: name in seen <==> Known(visited, unexplored, name)
  }

  lemma SeesEntry(seen: set<NodeId>, visited: seq<Visited>, unexplored: seq<NodeId>, next: Visited)
    requires Sees(seen, visited, unexplored)
    requires forall name :: Listed(visited + [next], name) <==> Listed(visited, name) || name == next.name
    ensures Sees(seen + {next.name}, visited + [next], unexplored)
  {
  }

  lemma SeesLeftOut(seen: set<NodeId>, visited: seq<Visited>, unexplored: seq<NodeId>, name: NodeId)
    requires Sees(seen, visited, unexplored)
    ensures Sees(seen + {name}, visited, unexplored + [name])
  {
  }

  /** The walk while the first `k` candidates of an entry have been looked at. */
  ghost predicate Midway(kg: NodeId -> Page, opts: Options, seed: NodeId, c: int, current: Visited,
                         candidates: seq<Neighbor>, visited0: seq<Visited>, visited: seq<Visited>, k: int)
  {
    && Shape(kg, opts, seed, visited) && visited0 <= visited && 0 <= c < |visited| && visited[c] == current
    && (forall i :: 0 <= i < |visited| ==> visited[i].depth <= current.depth + 1)
    && Taken(opts, current, visited, |visited0|, candidates, k)
  }

  lemma MidwayTake(kg: NodeId -> Page, opts: Options, seed: NodeId, c: int, current: Visited,
                   candidates: seq<Neighbor>, visited0: seq<Visited>, visited: seq<Visited>, k: int, next: Visited)
    requires Midway(kg, opts, seed, c, current, candidates, visited0, visited, k) && k < |candidates|
    requires BestFirst(opts, current, candidates) && |visited| < opts.maxNodes && current.depth < opts.maxDepth
    requires var n := candidates[k];
             && !Listed(visited, n.name) && n in kg(current.name).neighbors && Admissible(opts, n, current)
             && next == Visited(n.name, current.depth + 1, 0, Some(Via(n.kind, n.outgoing, current.name)), false)
    ensures Midway(kg, opts, seed, c, current, candidates, visited0, visited + [next], k + 1)
    ensures forall name :: Listed(visited + [next], name) <==> Listed(visited, name) || name == next.name
  {
    Grow(kg, opts, seed, visited, c, candidates[k], next);
    TakeNext(opts, current, visited, |visited0|, candidates, k, next);
  }

  /** The loop over the candidates of an entry. */
  method Discover(ghost kg: NodeId -> Page, opts: Options, ghost seed: NodeId, ghost c: int, current: Visited,
                  candidates: seq<Neighbor>,
                  seen0: set<NodeId>, visited0: seq<Visited>, queue0: seq<Visited>, unexplored0: seq<NodeId>,
                    stop0: Stop)
    returns (seen: set<NodeId>, visited: seq<Visited>, queue: seq<Visited>, unexplored: seq<NodeId>, stop: Stop)
    requires Shape(kg, opts, seed, visited0) && 0 <= c < |visited0| && current == visited0[c] &&
      current.depth < opts.maxDepth
    requires forall i :: 0 <= i < |visited0| ==> visited0[i].depth <= current.depth + 1
    requires forall n :: n in candidates ==> n in kg(current.name).neighbors && Admissible(opts, n, current)
    requires BestFirst(opts, current, candidates)
    requires forall name :: name in seen0 <==> Known(visited0, unexplored0, name)
    requires stop0 != MaxNodes ==> unexplored0 == []
    ensures Shape(kg, opts, seed, visited) && visited0 <= visited && unexplored0 <= unexplored
    ensures Block(opts, current, visited, |visited0|, |candidates|)
    ensures forall i :: 0 <= i < |visited| ==> visited[i].depth <= current.depth + 1
    ensures queue == queue0 + visited[|visited0|..]
    ensures seen0 <= seen && forall n :: n in candidates ==> n.name in seen
    ensures forall name :: name in seen <==> Known(visited, unexplored, name)
    ensures stop != MaxNodes ==> unexplored == [] && stop == stop0
    ensures stop == MaxNodes ==> stop0 == MaxNodes || |visited| >= opts.maxNodes
  {
    seen, visited, queue, unexplored, stop := seen0, visited0, queue0, unexplored0, stop0;
    for k := 0 to |candidates|
      invariant Midway(kg, opts, seed, c, current, candidates, visited0, visited, k)
      invariant queue == queue0 + visited[|visited0|..]
      invariant unexplored0 <= unexplored
      invariant seen0 <= seen && forall j :: 0 <= j < k ==> candidates[j].name in seen
      invariant Sees(seen, visited, unexplored)
      invariant stop != MaxNodes ==> unexplored == [] && stop == stop0
      invariant stop == MaxNodes ==> stop0 == MaxNodes || |visited| >= opts.maxNodes
    {
      var n := candidates[k];
      assert n in candidates;
      PassNext(opts, current, visited, |visited0|, candidates, k);
      if n.name !in seen {
        if |visited| >= opts.maxNodes {
          SeesLeftOut(seen, visited, unexplored, n.name);
          unexplored := unexplored + [n.name];
          stop := MaxNodes;
        } else {
          var next := Visited(n.name, current.depth + 1, 0, Some(Via(n.kind, n.outgoing, current.name)), false);
          MidwayTake(kg, opts, seed, c, current, candidates, visited0, visited, k, next);
          SeesEntry(seen, visited, unexplored, next);
          assert (visited + [next])[|visited0|..] == visited[|visited0|..] + [next];
          visited := visited + [next];
          queue := queue + [next];
        }
        seen := seen + {n.name};
      }
    }
  }

  lemma KnownStays(visited: seq<Visited>, unexplored: seq<NodeId>, visited': seq<Visited>, unexplored': seq<NodeId>,
                   name: NodeId)
    requires visited <= visited' && unexplored <= unexplored' && Known(visited, unexplored, name)
    ensures Known(visited', unexplored', name)
  {
    if Listed(visited, name) {
      var i :| 0 <= i < |visited| && visited[i].name == name;
      assert visited'[i].name == name;
    }
  }

  lemma AccountedStays(kg: NodeId -> Page, opts: Options, visited: seq<Visited>, unexplored: seq<NodeId>,
                       visited': seq<Visited>, unexplored': seq<NodeId>, v: Visited)
    requires visited <= visited' && unexplored <= unexplored' && Accounted(kg, opts, visited, unexplored, v)
    ensures Accounted(kg, opts, visited', unexplored', v)
  {
    if Closed(kg, opts, visited, unexplored, v) && |kg(v.name).neighbors| <= opts.branching {
      forall n | n in kg(v.name).neighbors && Admissible(opts, n, v) ensures Known(visited', unexplored', n.name) {
        KnownStays(visited, unexplored, visited', unexplored', n.name);
      }
    }
  }

  /** `Array.from(new Set(s))`: the first of each. */
  function FirstOfEach(s: seq<NodeId>): (r: seq<NodeId>)
    ensures Distinct(r) && forall x :: x in r <==> x in s
  {
    if s == [] then []
    else
      var before := FirstOfEach(s[..|s| - 1]);
      if s[|s| - 1] in before then before else before + [s[|s| - 1]]
  }

  /** What the result of a walk tells. */
  ghost predicate WalkOk(kg: NodeId -> Page, opts: Options, seed: NodeId, r: WalkResult) {
    && r.seed == seed && Shape(kg, opts, seed, r.visited) && Ranked(opts, r.visited) && FanOut(opts, r.visited)
    && Ascending(ATMOST, r.unexplored) && Distinct(r.unexplored)
    && (forall v :: v in r.visited ==> Accounted(kg, opts, r.visited, r.unexplored, v))
    && (r.stopped == MaxNodes ==> |r.visited| >= opts.maxNodes)
    && (r.stopped != MaxNodes ==> r.unexplored == [])
    && (r.stopped == Exhausted ==> forall v :: v in r.visited ==> v.depth < opts.maxDepth)
  }

  /** The entries from `h` on are still to be expanded, the earlier ones are accounted for. */
  ghost predicate Going(kg: NodeId -> Page, opts: Options, seed: NodeId, visited: seq<Visited>, h: int,
                        unexplored: seq<NodeId>, stop: Stop)
  {
    && Shape(kg, opts, seed, visited) && 0 <= h <= |visited| && Tidy(opts, visited, h)
    && (forall i :: 0 <= i < |visited| && h < |visited| ==> visited[i].depth <= visited[h].depth + 1)
    && (forall i :: 0 <= i < h ==> Accounted(kg, opts, visited, unexplored, visited[i]))
    && (stop != MaxNodes ==> unexplored == [])
    && (stop == Exhausted ==> forall i :: 0 <= i < h ==> visited[i].depth < opts.maxDepth)
  }

  /** The end of the loop: nothing is left to expand, or the rest was put down as unexplored. */
  ghost predicate Over(opts: Options, visited: seq<Visited>, h: int, unexplored: seq<NodeId>, stop: Stop) {
    if stop == MaxNodes then |visited| >= opts.maxNodes &&
      forall i :: 0 <= h <= i < |visited| ==> visited[i].name in unexplored
    else h == |visited|
  }

  lemma DepthCut(kg: NodeId -> Page, opts: Options, seed: NodeId, visited: seq<Visited>, h: int,
                 unexplored: seq<NodeId>, stop: Stop)
    requires Going(kg, opts, seed, visited, h, unexplored, stop) && stop != MaxNodes
    requires h < |visited| && visited[h].depth >= opts.maxDepth
    ensures Going(kg, opts, seed, visited, h + 1, unexplored, MaxDepth)
  {
    assert Accounted(kg, opts, visited, unexplored, visited[h]);
  }

  lemma Expanded(kg: NodeId -> Page, opts: Options, seed: NodeId, visited: seq<Visited>, h: int,
                 unexplored: seq<NodeId>, stop: Stop,
                 visited': seq<Visited>, unexplored': seq<NodeId>, stop': Stop)
    requires Going(kg, opts, seed, visited, h, unexplored, stop) && h < |visited| && visited[h].depth < opts.maxDepth
    requires Shape(kg, opts, seed, visited') && visited <= visited' && unexplored <= unexplored'
    requires forall i :: 0 <= i < |visited'| ==> visited'[i].depth <= visited[h].depth + 1
    requires Closed(kg, opts, visited', unexplored', visited[h]) && Tidy(opts, visited', h + 1)
    requires stop' != MaxNodes ==> unexplored' == [] && stop' == stop
    ensures Going(kg, opts, seed, visited', h + 1, unexplored', stop')
  {
    forall i | 0 <= i < h + 1 ensures Accounted(kg, opts, visited', unexplored', visited'[i]) {
      if i < h { AccountedStays(kg, opts, visited, unexplored, visited', unexplored', visited[i]); }
    }
    if h + 1 < |visited'| {
      assert visited'[h].depth <= visited'[h + 1].depth;
    }
  }

  lemma Discovered(kg: NodeId -> Page, opts: Options, seed: NodeId, visited0: seq<Visited>, h: int, stop0: Stop, n: int,
                   visited: seq<Visited>, unexplored: seq<NodeId>, stop: Stop)
    requires Going(kg, opts, seed, visited0, h, [], stop0) && h < |visited0| && visited0[h].depth < opts.maxDepth
    requires Shape(kg, opts, seed, visited) && visited0 <= visited
    requires Block(opts, visited0[h], visited, |visited0|, n) && (opts.branching >= 0 ==> n <= opts.branching)
    requires forall i :: 0 <= i < |visited| ==> visited[i].depth <= visited0[h].depth + 1
    requires Closed(kg, opts, visited, unexplored, visited0[h])
    requires stop != MaxNodes ==> unexplored == [] && stop == stop0
    ensures Going(kg, opts, seed, visited, h + 1, unexplored, stop)
  {
    BlockKeepsTidy(opts, visited0, visited, h, n);
    Expanded(kg, opts, seed, visited0, h, [], stop0, visited, unexplored, stop);
  }

  /** The loop that puts the rest of the queue down as unexplored. */
  method Drain(queue: seq<Visited>, unexplored0: seq<NodeId>) returns (unexplored: seq<NodeId>)
    ensures unexplored0 <= unexplored
    ensures forall x :: x in unexplored <==> x in unexplored0 || exists j :: 0 <= j < |queue| && queue[j].name == x
  {
    unexplored := unexplored0;
    for i := 0 to |queue|
      invariant unexplored0 <= unexplored
      invariant forall x :: x in unexplored <==> x in unexplored0 || exists j :: 0 <= j < i && queue[j].name == x
    {
      unexplored := unexplored + [queue[i].name];
    }
  }

  lemma CandidatesClose(kg: NodeId -> Page, opts: Options, current: Visited, seen0: set<NodeId>, seen: set<NodeId>,
                        visited: seq<Visited>, unexplored: seq<NodeId>)
    requires seen0 <= seen && forall n :: n in Candidates(opts, kg(current.name), current, seen0) ==> n.name in seen
    requires forall name :: name in seen <==> Known(visited, unexplored, name)
    ensures Closed(kg, opts, visited, unexplored, current)
  {
  }

  /** The list is full: what is still queued is put down as unexplored. */
  method GiveUp(ghost kg: NodeId -> Page, ghost opts: Options, ghost seed: NodeId, ghost visited: seq<Visited>,
                ghost h: int,
                queue: seq<Visited>, unexplored0: seq<NodeId>, ghost stop: Stop)
    returns (unexplored: seq<NodeId>)
    requires Going(kg, opts, seed, visited, h, unexplored0, stop) && queue == visited[h..] && |visited| >= opts.maxNodes
    ensures Going(kg, opts, seed, visited, h, unexplored, MaxNodes) && Over(opts, visited, h, unexplored, MaxNodes)
    ensures forall name :: Known(visited, unexplored0, name) <==> Known(visited, unexplored, name)
  {
    unexplored := Drain(queue, unexplored0);
    DrainKeeps(kg, opts, visited, unexplored0, unexplored, h, queue);
  }

  lemma QueueIsSuffix(visited0: seq<Visited>, visited: seq<Visited>, h: int)
    requires 0 <= h <= |visited0| && visited0 <= visited
    ensures visited0[h..] + visited[|visited0|..] == visited[h..]
  {
  }

  /** One node is expanded: its candidates are taken up. */
  method Expand(kg: NodeId -> Page, opts: Options, ghost seed: NodeId, ghost h: int, current: Visited,
                seen0: set<NodeId>,
                visited0: seq<Visited>, queue0: seq<Visited>, stop0: Stop)
    returns (seen: set<NodeId>, visited: seq<Visited>, queue: seq<Visited>, unexplored: seq<NodeId>, stop: Stop)
    requires Going(kg, opts, seed, visited0, h, [], stop0) && stop0 != MaxNodes
    requires h < |visited0| && current == visited0[h] && current.depth < opts.maxDepth && queue0 == visited0[h + 1..]
    requires forall name :: name in seen0 <==> Known(visited0, [], name)
    ensures Going(kg, opts, seed, visited, h + 1, unexplored, stop)
    ensures if stop == MaxNodes then |visited| >= opts.maxNodes else stop == stop0
    ensures queue == visited[h + 1..]
    ensures forall name :: name in seen <==> Known(visited, unexplored, name)
    ensures |queue| - |visited| <= |queue0| - |visited0|
  {
    var candidates := Candidates(opts, kg(current.name), current, seen0);
    seen, visited, queue, unexplored, stop :=
      Discover(kg, opts, seed, h, current, candidates, seen0, visited0, queue0, [], stop0);
    CandidatesClose(kg, opts, current, seen0, seen, visited, unexplored);
    Discovered(kg, opts, seed, visited0, h, stop0, |candidates|, visited, unexplored, stop);
    QueueIsSuffix(visited0, visited, h + 1);
  }

  /** The loop of `walk`: breadth first, over a graph that can only be asked for one node's neighbours at a time. */
  method WalkLoop(kg: NodeId -> Page, opts: Options, seed: NodeId, seedNode: Visited)
    returns (visited: seq<Visited>, unexplored: seq<NodeId>, stop: Stop)
    requires IsSeed(seedNode, seed)
    ensures exists h :: Going(kg, opts, seed, visited, h, unexplored, stop) && Over(opts, visited, h, unexplored, stop)
  {
    var seen: set<NodeId> := {seed};
    var queue := [seedNode];
    visited, unexplored, stop := [seedNode], [], Exhausted;
    ghost var h := 0;
    assert forall name :: Listed(visited, name) <==> name == seed by { assert visited[0].name == seed; }
    while queue != []
      invariant Going(kg, opts, seed, visited, h, unexplored, stop)
      invariant stop != MaxNodes ==> queue == visited[h..]
      invariant stop == MaxNodes ==> queue == [] && Over(opts, visited, h, unexplored, stop)
      invariant forall name :: name in seen <==> Known(visited, unexplored, name)
      decreases Cap(opts.maxNodes, 1) - |visited| + |queue|
    {
      var current := queue[0];
      queue := queue[1..];
      if current.depth >= opts.maxDepth {
        DepthCut(kg, opts, seed, visited, h, unexplored, stop);
        stop := MaxDepth;
      } else {
        seen, visited, queue, unexplored, stop := Expand(kg, opts, seed, h, current, seen, visited, queue, stop);
        if |visited| >= opts.maxNodes {
          unexplored := GiveUp(kg, opts, seed, visited, h + 1, queue, unexplored, stop);
          queue, stop := [], MaxNodes;
        }
      }
      h := h + 1;
    }
  }

  lemma WalkEnds(kg: NodeId -> Page, opts: Options, seed: NodeId, visited: seq<Visited>, h: int,
                 unexplored: seq<NodeId>, stop: Stop)
    requires Going(kg, opts, seed, visited, h, unexplored, stop) && Over(opts, visited, h, unexplored, stop)
    ensures WalkOk(kg, opts, seed, WalkResult(seed, visited, SortStrings(FirstOfEach(unexplored)), stop))
  {
    var listed := SortStrings(FirstOfEach(unexplored));
    SortKeepsDistinct(FirstOfEach(unexplored));
    forall v | v in visited ensures Accounted(kg, opts, visited, listed, v) {
      var i :| 0 <= i < |visited| && visited[i] == v;
      assert Accounted(kg, opts, visited, unexplored, visited[i]);
      SameUnexplored(kg, opts, visited, unexplored, listed, v);
    }
  }

  /** `walk`. */
  method Walk(kg: NodeId -> Page, opts: Options, seed: NodeId) returns (r: WalkResult)
    ensures WalkOk(kg, opts, seed, r)
  {
    var head := kg(seed);
    var visited, unexplored, stop := WalkLoop(kg, opts, seed, Visited(seed, 0, head.degree, None, head.truncated));
    ghost var h :| Going(kg, opts, seed, visited, h, unexplored, stop) && Over(opts, visited, h, unexplored, stop);
    WalkEnds(kg, opts, seed, visited, h, unexplored, stop);
    r := WalkResult(seed, visited, SortStrings(FirstOfEach(unexplored)), stop);
  }

  lemma SameUnexplored(kg: NodeId -> Page, opts: Options, visited: seq<Visited>, u: seq<NodeId>, u': seq<NodeId>,
                       v: Visited)
    requires Accounted(kg, opts, visited, u, v) && forall x :: x in u <==> x in u'
    ensures Accounted(kg, opts, visited, u', v)
  {
    if Closed(kg, opts, visited, u, v) && |kg(v.name).neighbors| <= opts.branching {
      forall n | n in kg(v.name).neighbors && Admissible(opts, n, v) ensures Known(visited, u', n.name) {
        assert Known(visited, u, n.name);
      }
    }
  }

  lemma DrainKeeps(kg: NodeId -> Page, opts: Options, visited: seq<Visited>, u: seq<NodeId>, u': seq<NodeId>, h: int,
                   queue: seq<Visited>)
    requires u <= u' && 0 <= h <= |visited| && queue == visited[h..]
    requires forall x :: x in u' <==> x in u || exists j :: 0 <= j < |queue| && queue[j].name == x
    ensures forall name :: Known(visited, u, name) <==> Known(visited, u', name)
    ensures forall i :: h <= i < |visited| ==> visited[i].name in u'
    ensures forall i :: 0 <= i < h && Accounted(kg, opts, visited, u, visited[i]) ==>
      Accounted(kg, opts, visited, u', visited[i])
  {
    forall i | h <= i < |visited| ensures visited[i].name in u' {
      assert queue[i - h].name == visited[i].name;
    }
    forall name ensures Known(visited, u, name) <==> Known(visited, u', name) {
      if name in u' && name !in u {
        var j :| 0 <= j < |queue| && queue[j].name == name;
        assert visited[h + j].name == name;
      }
    }
    forall i | 0 <= i < h && Accounted(kg, opts, visited, u, visited[i])
      ensures Accounted(kg, opts, visited, u', visited[i]) {
      AccountedStays(kg, opts, visited, u, visited, u', visited[i]);
    }
  }

  // -------------------------------------------------------------------------
  // main results about walks
  // -------------------------------------------------------------------------

  /**
    A walk that ends as exhausted, over pages that respect the requested limit, has seen everything: the names it
    visited are closed under every edge that the options allow.
  */
  lemma ExhaustedIsClosed(kg: NodeId -> Page, opts: Options, seed: NodeId, r: WalkResult, v: Visited, n: Neighbor)
    requires WalkOk(kg, opts, seed, r) && r.stopped == Exhausted
    requires forall name :: |kg(name).neighbors| <= opts.branching
    requires v in r.visited && n in kg(v.name).neighbors && Admissible(opts, n, v)
    ensures Listed(r.visited, n.name)
  {
    assert Accounted(kg, opts, r.visited, r.unexplored, v);
    assert |kg(v.name).neighbors| <= opts.branching;
  }

  // -------------------------------------------------------------------------
  // a walk as work
  // -------------------------------------------------------------------------

  function WorkOf(v: Visited): WorkNode<Visited> {
    WorkNode(v.name, v, if v.via.None? then [] else [v.via.value.from], [])
  }

  /** `toWorkNodes`. */
  function ToWorkNodes(visited: seq<Visited>): (ns: seq<WorkNode<Visited>>)
    ensures |ns| == |visited| && forall i :: 0 <= i < |ns| ==> ns[i] == WorkOf(visited[i])
  {
    seq(|visited|, i requires 0 <= i < |visited| => WorkOf(visited[i]))
  }

  lemma EntryIsNode(visited: seq<Visited>, g: WorkGraph<Visited>, i: int)
    requires NamesDistinct(visited) && BuiltFrom(g, ToWorkNodes(visited), |visited|) && 0 <= i < |visited|
    ensures visited[i].name in g.nodes && g.nodes[visited[i].name] == WorkOf(visited[i])
  {
    var ns := ToWorkNodes(visited);
    assert ns[i].id == visited[i].name;
    assert LastOfItsId(ns, i, |ns|);
  }

  lemma NodeIsEntry(visited: seq<Visited>, g: WorkGraph<Visited>, x: NodeId) returns (i: int)
    requires BuiltFrom(g, ToWorkNodes(visited), |visited|) && x in g.nodes
    ensures 0 <= i < |visited| && g.nodes[x] == WorkOf(visited[i])
  {
    var ns := ToWorkNodes(visited);
    assert ns[..|ns|] == ns && Stems(g, ns, |ns|, x);
    i :| 0 <= i < |ns| && ns[i] == g.nodes[x];
  }

  /** A dependency of a work node is the entry it was reached from: present, and one level up. */
  lemma DependencyIsParent(kg: NodeId -> Page, opts: Options, visited: seq<Visited>, g: WorkGraph<Visited>, x: NodeId,
                           d: NodeId)
    requires NamesDistinct(visited) && BuiltFrom(g, ToWorkNodes(visited), |visited|)
    requires visited != [] && visited[0].via == None &&
      forall i {:trigger HasParent(kg, opts, visited, i)} :: 0 < i < |visited| ==> HasParent(kg, opts, visited, i)
    requires x in g.nodes && d in g.nodes[x].dependsOn
    ensures d in g.nodes && g.nodes[d].payload.depth + 1 == g.nodes[x].payload.depth
  {
    var i := NodeIsEntry(visited, g, x);
    assert HasParent(kg, opts, visited, i);
    var j :| 0 <= j < i && ReachedFrom(kg, opts, visited[i], visited[j]);
    EntryIsNode(visited, g, j);
  }

  lemma {:induction false} PathsClimb(g: WorkGraph<Visited>, p: seq<NodeId>)
    requires g.NoDangling() && IsPath(g.Full(), p) && |p| >= 2
    requires forall x, d :: x in g.nodes && d in g.nodes[x].dependsOn && d in g.nodes ==>
      g.nodes[d].payload.depth + 1 == g.nodes[x].payload.depth
    ensures p[0] in g.nodes && p[|p| - 1] in g.nodes && g.nodes[p[|p| - 1]].payload.depth < g.nodes[p[0]].payload.depth
    decreases |p|
  {
    var q := p[..|p| - 1];
    var n := |p| - 2;
    assert p[n] in g.Full() && p[n + 1] in g.Full()[p[n]];
    assert p[n] in g.nodes && p[n + 1] in g.nodes[p[n]].dependsOn;
    if n > 0 {
      forall i | 0 <= i < |q| - 1 ensures q[i] in g.Full() && q[i + 1] in g.Full()[q[i]] {
        assert p[i] in g.Full() && p[i + 1] in g.Full()[p[i]];
      }
      PathsClimb(g, q);
    }
  }

  lemma ClimbingIsAcyclic(g: WorkGraph<Visited>)
    requires g.NoDangling()
    requires forall x, d :: x in g.nodes && d in g.nodes[x].dependsOn && d in g.nodes ==>
      g.nodes[d].payload.depth + 1 == g.nodes[x].payload.depth
    ensures Acyclic(g.Full())
  {
    forall x ensures !OnCycle(g.Full(), x) {
      if OnCycle(g.Full(), x) {
        var p :| Joins(g.Full(), p, x, x);
        PathsClimb(g, p);
        assert false;
      }
    }
  }

  /** The graph of a walk has no dangling edge and no cycle, whatever the neighbour oracle, scores and bounds were. */
  lemma WorkIsRunnable(kg: NodeId -> Page, opts: Options, seed: NodeId, r: WalkResult, g: WorkGraph<Visited>)
    requires WalkOk(kg, opts, seed, r) && BuiltFrom(g, ToWorkNodes(r.visited), |r.visited|)
    ensures g.NoDangling() && Acyclic(g.Full())
  {
    forall x, d | x in g.nodes && d in g.nodes[x].dependsOn
      ensures d in g.nodes && g.nodes[d].payload.depth + 1 == g.nodes[x].payload.depth
    {
      DependencyIsParent(kg, opts, r.visited, g, x, d);
    }
    ClimbingIsAcyclic(g);
  }

  /** The scheduler never refuses a walk, and sorting it gives an order. */
  method WalkIsAdmitted(kg: NodeId -> Page, opts: Options, seed: NodeId)
    returns (refusal: seq<Refusal>, sorted: SortResult)
    ensures refusal == [] && sorted.Ordered?
  {
    var r := Walk(kg, opts, seed);
    var g := FromNodes(ToWorkNodes(r.visited));
    WorkIsRunnable(kg, opts, seed, r, g);
    PresentIsFull(g);
    refusal := Admission(g);
    sorted := TopoSort(g);
  }
}
