/**
  The scheduler of `ts/src/agent/Scheduler.ts` as a state machine. A step is one operation on a `Ref`, one fork,
  one join or one return of `execute`; steps of the planning loop and of the node fibers interleave freely.
*/
module SchedulerModel {
  import opened Dag
  import opened WorkGraphs

  datatype Either<E, A> = Left(error: E) | Right(value: A)

  datatype Outcome<A, E> = Completed(value: A) | Failed(error: E) | Blocked(cause: NodeId)

  type Table = map<NodeId, set<NodeId>>

  ghost function AboveTable(e: Edges): Table {
    map x | x in e :: Ancestors(e, x)
  }

  ghost function BelowTable(e: Edges): Table {
    map x | x in e :: DescendantsOf(e, x)
  }

  /**
    What is run: `execute` is any function of the node and of the values upstream of it. The tables list what each
    node depends on and what depends on it, directly or not.
  */
  datatype Problem<!T, !A, !E> = Problem(
    graph: WorkGraph<T>,
    execute: (WorkNode<T>, map<NodeId, A>) -> Either<E, A>,
    concurrency: int,
    above: Table,
    below: Table)
  {
    /** What `run` checks before it starts anything. */
    ghost predicate Runnable() {
      && graph.Valid() && graph.NoDangling() && Acyclic(graph.Full())
      && above == AboveTable(graph.Full()) && below == BelowTable(graph.Full())
    }

    /** The facts about the tables that the runs rely on. */
    ghost predicate Tabled() {
      && above.Keys == graph.nodes.Keys && below.Keys == graph.nodes.Keys
      && WellFounded(above)
      && Converse(above, below)
      && ListsDependencies(graph, above)
    }
  }

  /** Everything above a node above `x` is above `x`, and no node is above itself. */
  ghost predicate WellFounded(above: Table) {
    forall x, a {:trigger a in above[x]} :: x in above && a in above[x] ==> a in above && above[a] < above[x]
  }

  ghost predicate Converse(above: Table, below: Table) {
    && above.Keys == below.Keys
    && (forall x, a {:trigger a in above[x]} :: x in above && a in above[x] ==> a in below && x in below[a])
    && (forall x, a {:trigger x in below[a]} :: a in below && x in below[a] ==> x in above && a in above[x])
  }

  /** What is above a node is a direct dependency or above one. */
  ghost predicate ListsDependencies<T>(g: WorkGraph<T>, above: Table) {
    && (forall x, d {:trigger d in g.nodes[x].dependsOn} :: x in g.nodes && d in g.nodes[x].dependsOn ==>
        x in above && d in above && d in above[x])
    && (forall x, a :: x in above && a in above[x] && x in g.nodes && a !in g.nodes[x].dependsOn ==>
          exists d :: d in g.nodes[x].dependsOn && d in above && a in above[d])
  }

  lemma AboveIsWellFounded(e: Edges)
    requires Acyclic(e) && forall x, d :: x in e && d in e[x] ==> d in e
    ensures WellFounded(AboveTable(e))
  {
    forall x, a | x in e && a in Ancestors(e, x) ensures a in e && Ancestors(e, a) < Ancestors(e, x) {
      var last := LastStep(e, x, a);
      AncestorsShrink(e, x, a);
    }
  }

  lemma TablesAreConverse(e: Edges)
    requires forall x, d :: x in e && d in e[x] ==> d in e
    ensures Converse(AboveTable(e), BelowTable(e))
  {
    forall x, a | x in e && a in Ancestors(e, x) ensures a in e {
      var last := LastStep(e, x, a);
    }
    forall x, a | a in e && x in DescendantsOf(e, a) ensures x in e && a in Ancestors(e, x) {
      ReachedIsTarget(e, x, a);
    }
  }

  lemma TableListsDependencies<T>(g: WorkGraph<T>)
    requires g.NoDangling()
    ensures ListsDependencies(g, AboveTable(g.Full()))
  {
    var e := g.Full();
    forall x, d | x in g.nodes && d in g.nodes[x].dependsOn ensures d in e && d in Ancestors(e, x) {
      Edge(e, x, d);
      ReachedIsTarget(e, x, d);
    }
    forall x, a | x in e && a in Ancestors(e, x) && a !in g.nodes[x].dependsOn
      ensures exists d :: d in g.nodes[x].dependsOn && d in e && a in Ancestors(e, d)
    {
      var d := FirstStep(e, x, a);
      ReachedIsTarget(e, d, a);
    }
  }

  lemma TablesHold<T, A, E>(p: Problem<T, A, E>)
    requires p.Runnable()
    ensures p.Tabled()
  {
    AboveIsWellFounded(p.graph.Full());
    TablesAreConverse(p.graph.Full());
    TableListsDependencies(p.graph);
  }

  /** Where the fiber of a node stands, by the last operation it finished. */
  datatype Fiber<A, E> =
    | Forked(upstream: map<NodeId, A>)
    | Returned(result: Either<E, A>)
    | ValueStored(value: A)
    | CompletionStored(value: A)
    | CascadeRead(error: E, cascade: set<NodeId>)
    | FailureStored(error: E, cascade: set<NodeId>)
    | Finished

  /** Where the planning loop stands. */
  datatype Main<A> =
    | Top
    | Planned(seen: RunState)
    | Starting(rest: seq<NodeId>)
    | Forking(id: NodeId, upstream: map<NodeId, A>, rest: seq<NodeId>)
    | Measuring
    | Peaking(n: nat)
    | Checking
    | Waiting
    | Draining(exit: RunState)
    | Done(exit: RunState)

  datatype State<A, E> = State(
    st: RunState,
    outcomes: map<NodeId, Outcome<A, E>>,
    values: map<NodeId, A>,
    peak: nat,
    fibers: map<NodeId, Fiber<A, E>>,
    live: seq<NodeId>,
    main: Main<A>)

  datatype Step = MainStep | FiberStep(id: NodeId)

  function Initial<A, E>(): State<A, E> {
    State(RunState({}, {}, {}), map[], map[], 0, map[], [], Top)
  }

  /** `array.slice(0, n)` for a positive `n`. */
  function Take(s: seq<NodeId>, n: int): seq<NodeId> {
    if n <= 0 then [] else if n < |s| then s[..n] else s
  }

  function Slots<T, A, E>(p: Problem<T, A, E>, seen: RunState): int {
    p.concurrency - |seen.running|
  }

  function Batch<T, A, E>(p: Problem<T, A, E>, seen: RunState): seq<NodeId> {
    Take(ReadyList(p.graph, seen), Slots(p, seen))
  }

  /** `upstreamOf`: the recorded values of everything the node depends on. */
  function UpstreamValues<A>(above: Table, id: NodeId, values: map<NodeId, A>): map<NodeId, A> {
    map a | a in values && id in above && a in above[id] :: values[a]
  }

  /** `newlyBlocked`. */
  function Doomed(below: Table, st: RunState, id: NodeId): set<NodeId> {
    if id in below then below[id] - st.done - st.blocked else {}
  }

  predicate CanStep<T, A, E>(p: Problem<T, A, E>, s: State<A, E>, step: Step) {
    match step
    case FiberStep(id) => id in s.fibers && id in p.graph.nodes && !s.fibers[id].Finished?
    case MainStep =>
      match s.main
      case Waiting => s.live == [] || (s.live[0] in s.fibers && s.fibers[s.live[0]].Finished?)
      case Draining(_) => forall id :: id in s.live && id in s.fibers ==> s.fibers[id].Finished?
      case Done(_) => false
      case _ => true
  }

  function DoMain<T, A, E>(p: Problem<T, A, E>, s: State<A, E>): State<A, E> {
    match s.main
    case Top => s.(main := Planned(s.st))
    case Planned(seen) =>
      var ready := Batch(p, seen);
      if ready == [] then s.(main := Checking)
      else s.(st := s.st.(running := s.st.running + (set x | x in ready)), main := Starting(ready))
    case Starting(rest) =>
      if rest == [] then s.(main := Measuring)
      else s.(main := Forking(rest[0], UpstreamValues(p.above, rest[0], s.values), rest[1..]))
    case Forking(id, upstream, rest) =>
      s.(fibers := s.fibers[id := Forked(upstream)], live := s.live + [id], main := Starting(rest))
    case Measuring => s.(main := Peaking(|s.st.running|))
    case Peaking(n) => s.(peak := if n > s.peak then n else s.peak, main := Top)
    case Checking => s.(main := if s.st.running == {} then Draining(s.st) else Waiting)
    case Waiting => s.(live := if s.live == [] then [] else s.live[1..], main := Top)
    case Draining(exit) => s.(main := Done(exit))
    case Done(_) => s
  }

  function WithFailure<A, E>(outcomes: map<NodeId, Outcome<A, E>>, id: NodeId, error: E, cascade: set<NodeId>)
    : map<NodeId, Outcome<A, E>>
  {
    map x | x in outcomes.Keys + {id} + cascade ::
      if x == id then Failed(error) else if x in outcomes then outcomes[x] else Blocked(id)
  }

  function DoFiber<T, A, E>(p: Problem<T, A, E>, s: State<A, E>, id: NodeId): State<A, E>
    requires id in s.fibers && id in p.graph.nodes
  {
    match s.fibers[id]
    case Forked(upstream) =>
      s.(fibers := s.fibers[id := Returned(p.execute(p.graph.nodes[id], upstream))])
    case Returned(Right(v)) =>
      s.(values := s.values[id := v], fibers := s.fibers[id := ValueStored(v)])
    case ValueStored(v) =>
      s.(outcomes := s.outcomes[id := Completed(v)], fibers := s.fibers[id := CompletionStored(v)])
    case CompletionStored(v) =>
      s.(st := RunState(s.st.done + {id}, s.st.running - {id}, s.st.blocked), fibers := s.fibers[id := Finished])
    case Returned(Left(error)) =>
      s.(fibers := s.fibers[id := CascadeRead(error, Doomed(p.below, s.st, id))])
    case CascadeRead(error, cascade) =>
      s.(outcomes := WithFailure(s.outcomes, id, error, cascade),
        fibers := s.fibers[id := FailureStored(error, cascade)])
    case FailureStored(error, cascade) =>
      s.(st := RunState(s.st.done, s.st.running - {id}, s.st.blocked + {id} + cascade),
        fibers := s.fibers[id := Finished])
    case Finished => s
  }

  function Do<T, A, E>(p: Problem<T, A, E>, s: State<A, E>, step: Step): State<A, E>
    requires CanStep(p, s, step)
  {
    match step
    case MainStep => DoMain(p, s)
    case FiberStep(id) => DoFiber(p, s, id)
  }

  /** The schedule is one the runtime may choose: each of its steps is enabled when its turn comes. */
  ghost predicate Follows<T, A, E>(p: Problem<T, A, E>, s: State<A, E>, steps: seq<Step>)
    decreases |steps|
  {
    steps == [] || (CanStep(p, s, steps[0]) && Follows(p, Do(p, s, steps[0]), steps[1..]))
  }

  ghost function RunFrom<T, A, E>(p: Problem<T, A, E>, s: State<A, E>, steps: seq<Step>): State<A, E>
    requires Follows(p, s, steps)
    decreases |steps|
  {
    if steps == [] then s else RunFrom(p, Do(p, s, steps[0]), steps[1..])
  }

  // -------------------------------------------------------------------------
  // the meaning of a graph, without any schedule
  // -------------------------------------------------------------------------

  /** What must become of a node: it completes, it fails, or it never runs because something upstream failed. */
  datatype Fate<A, E> = Good(value: A) | Bad(error: E) | Skipped

  function Judge<A, E>(r: Either<E, A>): Fate<A, E> {
    match r
    case Right(v) => Good(v)
    case Left(error) => Bad(error)
  }

  ghost predicate AllGood<A, E>(above: Table, f: map<NodeId, Fate<A, E>>, id: NodeId)
    requires id in above
  {
    forall a :: a in above[id] ==> a in f && f[a].Good?
  }

  ghost function GoodValues<A, E>(above: Table, f: map<NodeId, Fate<A, E>>, id: NodeId): map<NodeId, A>
    requires id in above
  {
    map a | a in above[id] && a in f && f[a].Good? :: f[a].value
  }

  /** What becomes of a node, given what becomes of everything above it. */
  ghost function FateFrom<T, A, E>(p: Problem<T, A, E>, f: map<NodeId, Fate<A, E>>, id: NodeId): Fate<A, E>
    requires id in p.above && id in p.graph.nodes
  {
    if AllGood(p.above, f, id) then Judge(p.execute(p.graph.nodes[id], GoodValues(p.above, f, id))) else Skipped
  }

  ghost predicate FateAt<T, A, E>(p: Problem<T, A, E>, f: map<NodeId, Fate<A, E>>, id: NodeId) {
    id in p.above && id in p.graph.nodes && id in f && f[id] == FateFrom(p, f, id)
  }

  /**
    The topological semantics: a node runs on all its ancestors' values if they all completed, otherwise not at all.
  */
  ghost predicate Solves<T, A, E>(p: Problem<T, A, E>, f: map<NodeId, Fate<A, E>>) {
    f.Keys == p.graph.nodes.Keys && forall id {:trigger FateAt(p, f, id)} :: id in f ==> FateAt(p, f, id)
  }

  lemma {:induction false} LowestOf(above: Table, s: set<NodeId>, x: NodeId) returns (y: NodeId)
    requires WellFounded(above) && s <= above.Keys && x in s
    ensures y in s && above[y] !! s
    decreases above[x]
  {
    if above[x] !! s {
      return x;
    }
    var z :| z in above[x] && z in s;
    y := LowestOf(above, s, z);
  }

  /** A node's fate depends on nothing but the fates above it. */
  lemma FateFromAbove<T, A, E>(p: Problem<T, A, E>, f1: map<NodeId, Fate<A, E>>, f2: map<NodeId, Fate<A, E>>,
                               id: NodeId)
    requires id in p.above && id in p.graph.nodes
    requires forall a :: a in p.above[id] ==> a in f1 && a in f2 && f1[a] == f2[a]
    ensures FateFrom(p, f1, id) == FateFrom(p, f2, id)
  {
    assert GoodValues(p.above, f1, id) == GoodValues(p.above, f2, id);
    assert AllGood(p.above, f1, id) == AllGood(p.above, f2, id);
  }

  ghost predicate Layered<T, A, E>(p: Problem<T, A, E>) {
    WellFounded(p.above) && p.above.Keys == p.graph.nodes.Keys
  }

  ghost predicate SolvesBelow<T, A, E>(p: Problem<T, A, E>, f: map<NodeId, Fate<A, E>>) {
    f.Keys <= p.above.Keys && forall y :: y in f ==> FateAt(p, f, y) && p.above[y] <= f.Keys
  }

  lemma UnsolvedLowest<T, A, E>(p: Problem<T, A, E>, f: map<NodeId, Fate<A, E>>) returns (x: NodeId)
    requires WellFounded(p.above) && f.Keys <= p.above.Keys && f.Keys != p.above.Keys
    ensures x in p.above && x !in f && p.above[x] <= f.Keys
  {
    var rest := p.above.Keys - f.Keys;
    if rest == {} {
      forall k | k in p.above.Keys ensures k in f.Keys {
        assert k !in rest;
      }
    }
    var some :| some in rest;
    x := LowestOf(p.above, rest, some);
    assert p.above[x] <= p.above.Keys;
  }

  lemma SolveOneMore<T, A, E>(p: Problem<T, A, E>, f: map<NodeId, Fate<A, E>>, x: NodeId)
    requires Layered(p) && SolvesBelow(p, f)
    requires x in p.above && x !in f && p.above[x] <= f.Keys
    ensures SolvesBelow(p, f[x := FateFrom(p, f, x)])
  {
    var f1 := f[x := FateFrom(p, f, x)];
    forall y | y in f1 ensures FateAt(p, f1, y) && p.above[y] <= f1.Keys {
      assert y != x ==> FateAt(p, f, y) && p.above[y] <= f.Keys;
      FateFromAbove(p, f, f1, y);
    }
  }

  /** Every acyclic graph has such a semantics. */
  lemma FatesExist<T, A, E>(p: Problem<T, A, E>) returns (f: map<NodeId, Fate<A, E>>)
    requires Layered(p)
    ensures Solves(p, f)
  {
    f := map[];
    while f.Keys != p.above.Keys
      invariant SolvesBelow(p, f)
      decreases p.above.Keys - f.Keys
    {
      var x := UnsolvedLowest(p, f);
      SolveOneMore(p, f, x);
      f := f[x := FateFrom(p, f, x)];
    }
  }

  lemma {:induction false} SameFateAt<T, A, E>(p: Problem<T, A, E>, f1: map<NodeId, Fate<A, E>>,
                                               f2: map<NodeId, Fate<A, E>>, id: NodeId)
    requires Layered(p) && Solves(p, f1) && Solves(p, f2) && id in p.above
    ensures f1[id] == f2[id]
    decreases p.above[id]
  {
    forall a | a in p.above[id] ensures f1[a] == f2[a] {
      SameFateAt(p, f1, f2, a);
    }
    FateFromAbove(p, f1, f2, id);
    assert FateAt(p, f1, id) && FateAt(p, f2, id);
  }

  /** And no acyclic graph has two. */
  lemma FatesAreUnique<T, A, E>(p: Problem<T, A, E>, f1: map<NodeId, Fate<A, E>>, f2: map<NodeId, Fate<A, E>>)
    requires Layered(p) && Solves(p, f1) && Solves(p, f2)
    ensures f1 == f2
  {
    forall id | id in f1 ensures f1[id] == f2[id] {
      SameFateAt(p, f1, f2, id);
    }
  }

  /** A node is skipped exactly when something it depends on failed. */
  lemma {:induction false} SkippedBelowAFailure<T, A, E>(p: Problem<T, A, E>, f: map<NodeId, Fate<A, E>>, id: NodeId)
    requires Layered(p) && Solves(p, f) && id in p.above
    ensures f[id].Skipped? <==> exists a :: a in p.above[id] && a in f && f[a].Bad?
    decreases p.above[id]
  {
    assert FateAt(p, f, id);
    if f[id].Skipped? {
      var a :| a in p.above[id] && !f[a].Good?;
      if f[a].Skipped? {
        SkippedBelowAFailure(p, f, a);
        var b :| b in p.above[a] && b in f && f[b].Bad?;
        assert b in p.above[id];
      }
    }
  }
}
