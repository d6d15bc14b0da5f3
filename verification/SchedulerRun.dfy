/** `run` as code over mutable cells: each method does one operation and refines one step of the state machine. */
module SchedulerRun {
  import opened Dag
  import opened WorkGraphs
  import opened SchedulerModel
  import opened SchedulerSafety
  import opened SchedulerTheorems

  // -------------------------------------------------------------------------
  // upstreamOf
  // -------------------------------------------------------------------------

  /**
    `seen` holds the values of the nodes expanded so far, as far as there are any; every dependency of `id` and of an
    expanded node is expanded or on the stack.
  */
  ghost predicate Collected<T, A>(g: WorkGraph<T>, wanted: set<NodeId>, id: NodeId, values: map<NodeId, A>,
                                  seen: map<NodeId, A>, expanded: set<NodeId>, stack: seq<NodeId>)
  {
    && expanded <= wanted
    && (forall a {:trigger a in seen} {:trigger a in expanded} ::
          (a in seen <==> a in expanded && a in values) && (a in seen ==> seen[a] == values[a]))
    && (forall a {:trigger a in stack} :: a in stack ==> a in wanted)
    && (forall x, d {:trigger d in g.nodes[x].dependsOn} ::
          (x == id || x in expanded) && x in g.nodes && d in g.nodes[x].dependsOn ==> d in expanded || d in stack)
  }

  lemma {:induction false} CollectedAll<T>(g: WorkGraph<T>, above: Table, id: NodeId, seen: set<NodeId>, x: NodeId)
    requires WellFounded(above) && ListsDependencies(g, above) && above.Keys == g.nodes.Keys
    requires x in above && (x == id || x in seen)
    requires forall y, d {:trigger d in g.nodes[y].dependsOn} ::
      (y == id || y in seen) && y in g.nodes && d in g.nodes[y].dependsOn ==> d in seen
    ensures above[x] <= seen
    decreases above[x]
  {
    forall a | a in above[x] ensures a in seen {
      if a !in g.nodes[x].dependsOn {
        var d :| d in g.nodes[x].dependsOn && d in above && a in above[d];
        CollectedAll(g, above, id, seen, d);
      }
    }
  }

  /** The dependencies of what is above `id` are above `id`. */
  lemma WantedIsClosed<T>(g: WorkGraph<T>, above: Table, id: NodeId)
    requires WellFounded(above) && ListsDependencies(g, above) && id in above
    ensures forall x, d {:trigger d in g.nodes[x].dependsOn} ::
      x in above[id] && x in g.nodes && d in g.nodes[x].dependsOn ==> d in above[id]
  {
    forall x, d | x in above[id] && x in g.nodes && d in g.nodes[x].dependsOn ensures d in above[id] {
      assert d in above[x];
    }
  }

  lemma PopSplits(stack: seq<NodeId>)
    requires stack != []
    ensures forall d {:trigger d in stack} {:trigger d in stack[..|stack| - 1]} ::
      d in stack <==> d in stack[..|stack| - 1] || d == stack[|stack| - 1]
  {
    assert stack == stack[..|stack| - 1] + [stack[|stack| - 1]];
  }

  lemma PopOld<T, A>(g: WorkGraph<T>, wanted: set<NodeId>, id: NodeId, values: map<NodeId, A>,
                     seen: map<NodeId, A>, expanded: set<NodeId>, stack: seq<NodeId>)
    requires Collected(g, wanted, id, values, seen, expanded, stack) && stack != [] && stack[|stack| - 1] in seen
    ensures Collected(g, wanted, id, values, seen, expanded, stack[..|stack| - 1])
  {
    PopSplits(stack);
  }

  lemma PopNew<T, A>(g: WorkGraph<T>, wanted: set<NodeId>, id: NodeId, values: map<NodeId, A>,
                     seen: map<NodeId, A>, expanded: set<NodeId>, stack: seq<NodeId>)
    requires Collected(g, wanted, id, values, seen, expanded, stack) && stack != []
    requires stack[|stack| - 1] in g.nodes && stack[|stack| - 1] in wanted
    requires forall d :: d in g.nodes[stack[|stack| - 1]].dependsOn ==> d in wanted
    ensures var x := stack[|stack| - 1];
            Collected(g, wanted, id, values, if x in values then seen[x := values[x]] else seen, expanded + {x},
                      stack[..|stack| - 1] + g.nodes[x].dependsOn)
  {
    PopSplits(stack);
  }

  ghost predicate Stacked(above: Table, bound: set<NodeId>, stack: seq<NodeId>) {
    forall d :: d in stack ==> d in above && above[d] < bound
  }

  /** How many nodes are popped until what hangs on these ones is done, however often a node is met. */
  ghost function Pops<T>(g: WorkGraph<T>, above: Table, bound: set<NodeId>, stack: seq<NodeId>): nat
    requires WellFounded(above) && ListsDependencies(g, above) && above.Keys == g.nodes.Keys &&
      Stacked(above, bound, stack)
    decreases bound, |stack|
  {
    if stack == [] then 0
    else
      var n, x := |stack| - 1, stack[|stack| - 1];
      assert Stacked(above, bound, stack[..n]) && Stacked(above, above[x], g.nodes[x].dependsOn);
      Pops(g, above, bound, stack[..n]) + 1 + Pops(g, above, above[x], g.nodes[x].dependsOn)
  }

  lemma {:induction false} PopsAdd<T>(g: WorkGraph<T>, above: Table, b1: set<NodeId>, b2: set<NodeId>,
                                      bound: set<NodeId>,
                                      s: seq<NodeId>, more: seq<NodeId>)
    requires WellFounded(above) && ListsDependencies(g, above) && above.Keys == g.nodes.Keys
    requires Stacked(above, b1, s) && Stacked(above, b2, more) && Stacked(above, bound, s + more)
    ensures Pops(g, above, bound, s + more) == Pops(g, above, b1, s) + Pops(g, above, b2, more)
    decreases |s| + |more|
  {
    if more != [] {
      var n := |more| - 1;
      assert (s + more)[..|s + more| - 1] == s + more[..n];
      PopsAdd(g, above, b1, b2, bound, s, more[..n]);
    } else if s != [] {
      var n := |s| - 1;
      assert s + more == s && s[..n] + [] == s[..n];
      PopsAdd(g, above, b1, b2, bound, s[..n], []);
    }
  }

  lemma FewerPops<T>(g: WorkGraph<T>, above: Table, bound: set<NodeId>, stack: seq<NodeId>)
    requires WellFounded(above) && ListsDependencies(g, above) && above.Keys == g.nodes.Keys
    requires Stacked(above, bound, stack) && stack != []
    ensures var rest, more := stack[..|stack| - 1], g.nodes[stack[|stack| - 1]].dependsOn;
            && Stacked(above, bound, rest) && Pops(g, above, bound, rest) < Pops(g, above, bound, stack)
            && Stacked(above, bound, rest + more) && Pops(g, above, bound, rest + more) < Pops(g, above, bound, stack)
  {
    var n := |stack| - 1;
    var x := stack[n];
    assert Stacked(above, bound, stack[..n]) && Stacked(above, above[x], g.nodes[x].dependsOn);
    PopsAdd(g, above, bound, above[x], bound, stack[..n], g.nodes[x].dependsOn);
  }

  lemma AllExpanded<T, A>(g: WorkGraph<T>, above: Table, id: NodeId, values: map<NodeId, A>, seen: map<NodeId, A>,
                          expanded: set<NodeId>)
    requires WellFounded(above) && ListsDependencies(g, above) && above.Keys == g.nodes.Keys && id in above
    requires Collected(g, above[id], id, values, seen, expanded, [])
    ensures expanded == above[id]
  {
    CollectedAll(g, above, id, expanded, id);
  }

  lemma AllCollected<T, A>(g: WorkGraph<T>, above: Table, id: NodeId, values: map<NodeId, A>, seen: map<NodeId, A>)
    requires id in above && Collected(g, above[id], id, values, seen, above[id], [])
    ensures seen == UpstreamValues(above, id, values)
  {
    forall a ensures a in seen <==> a in above[id] && a in values {
    }
  }

  /** `upstreamOf`: the values recorded for anything above the node, whether or not all of them are there. */
  method UpstreamOf<T, A>(g: WorkGraph<T>, ghost above: Table, id: NodeId, values: map<NodeId, A>)
    returns (seen: map<NodeId, A>)
    requires WellFounded(above) && ListsDependencies(g, above) && above.Keys == g.nodes.Keys && id in g.nodes
    ensures seen == UpstreamValues(above, id, values)
  {
    seen := map[];
    var stack := g.nodes[id].dependsOn;
    ghost var expanded: set<NodeId> := {};
    WantedIsClosed(g, above, id);
    while stack != []
      invariant Collected(g, above[id], id, values, seen, expanded, stack) && Stacked(above, above[id], stack)
      decreases Pops(g, above, above[id], stack)
    {
      var n := |stack| - 1;
      var x := stack[n];
      FewerPops(g, above, above[id], stack);
      assert x in stack && x in above[id];
      if x in seen {
        PopOld(g, above[id], id, values, seen, expanded, stack);
        stack := stack[..n];
      } else {
        PopNew(g, above[id], id, values, seen, expanded, stack);
        if x in values { seen := seen[x := values[x]]; }
        stack, expanded := stack[..n] + g.nodes[x].dependsOn, expanded + {x};
      }
    }
    AllExpanded(g, above, id, values, seen, expanded);
    AllCollected(g, above, id, values, seen);
  }

  // -------------------------------------------------------------------------
  // the cells
  // -------------------------------------------------------------------------

  class Run<T, A, E> {
    const graph: WorkGraph<T>
    const execute: (WorkNode<T>, map<NodeId, A>) -> Either<E, A>
    const concurrency: int
    var stateRef: RunState
    var outcomes: map<NodeId, Outcome<A, E>>
    var values: map<NodeId, A>
    var peak: nat
    var fibers: map<NodeId, Fiber<A, E>>
    var live: seq<NodeId>
    var main: Main<A>
    ghost const fates: map<NodeId, Fate<A, E>>

    function View(): State<A, E>
      reads this
    {
      State(stateRef, outcomes, values, peak, fibers, live, main)
    }

    ghost function P(): Problem<T, A, E> {
      Problem(graph, execute, concurrency, AboveTable(graph.Full()), BelowTable(graph.Full()))
    }

    ghost predicate Valid()
      reads this
    {
      graph.NoDangling() && Acyclic(graph.Full()) && Ready(P(), fates) && Inv(P(), fates, View())
    }

    constructor (graph: WorkGraph<T>, execute: (WorkNode<T>, map<NodeId, A>) -> Either<E, A>, concurrency: int)
      requires graph.Valid() && graph.NoDangling() && Acyclic(graph.Full())
      ensures Valid() && View() == Initial()
      ensures this.graph == graph && this.execute == execute && this.concurrency == concurrency
    {
      ghost var p := Problem(graph, execute, concurrency, AboveTable(graph.Full()), BelowTable(graph.Full()));
      ghost var f := RunnableIsReady(p);
      this.graph, this.execute, this.concurrency := graph, execute, concurrency;
      stateRef, outcomes, values, peak := RunState({}, {}, {}), map[], map[], 0;
      fibers, live, main := map[], [], Top;
      fates := f;
      new;
      InitialInv(P(), fates);
    }

    method Plan(seen: RunState)
      requires graph.Valid() && main == Planned(seen)
      modifies this
      ensures View() == DoMain(P(), old(View()))
    {
      var ready := ReadySet(graph, seen);
      ready := Take(ready, concurrency - |seen.running|);
      if ready != [] {
        stateRef := stateRef.(running := stateRef.running + set x | x in ready);
        main := Starting(ready);
      } else {
        main := Checking;
      }
    }

    method ReadUpstream(rest: seq<NodeId>)
      requires main == Starting(rest) && rest != []
      requires WellFounded(P().above) && ListsDependencies(graph, P().above) && P().above.Keys == graph.nodes.Keys
      requires rest[0] in graph.nodes
      modifies this
      ensures View() == DoMain(P(), old(View()))
    {
      var upstream := UpstreamOf(graph, P().above, rest[0], values);
      main := Forking(rest[0], upstream, rest[1..]);
    }

    method MoveOn()
      requires !main.Planned? && (main.Starting? ==> main.rest == [])
      modifies this
      ensures View() == DoMain(P(), old(View()))
    {
      match main {
        case Top =>
          main := Planned(stateRef);
        case Starting(_) =>
          main := Measuring;
        case Forking(id, upstream, rest) =>
          fibers := fibers[id := Forked(upstream)];
          live := live + [id];
          main := Starting(rest);
        case Measuring =>
          main := Peaking(|stateRef.running|);
        case Peaking(n) =>
          peak := if n > peak then n else peak;
          main := Top;
        case Checking =>
          main := if stateRef.running == {} then Draining(stateRef) else Waiting;
        case Waiting =>
          live := if live == [] then [] else live[1..];
          main := Top;
        case Draining(exit) =>
          main := Done(exit);
        case Done(_) =>
      }
    }

    lemma PendingIsNode(x: NodeId)
      requires P().above.Keys == graph.nodes.Keys && Inv(P(), fates, View()) && x in Pending(main)
      ensures x in graph.nodes
    {
    }

    /** One operation of the planning loop. */
    method MainTurn()
      requires Valid() && CanStep(P(), View(), MainStep)
      modifies this
      ensures Valid() && View() == DoMain(P(), old(View()))
    {
      MainStepKeepsInv(P(), fates, View());
      if main.Planned? {
        Plan(main.seen);
      } else if main.Starting? && main.rest != [] {
        PendingIsNode(main.rest[0]);
        ReadUpstream(main.rest);
      } else {
        MoveOn();
      }
    }

    /** `markFailed`, first operation: read the run state and compute what the failure takes with it. */
    method ReadCascade(id: NodeId, error: E)
      requires graph.Valid() && id in graph.nodes && id in fibers && fibers[id] == Returned(Left(error))
      modifies this
      ensures View() == DoFiber(P(), old(View()), id)
    {
      var cascade := NewlyBlocked(graph, stateRef, id);
      assert cascade == Doomed(P().below, stateRef, id);
      fibers := fibers[id := CascadeRead(error, cascade)];
    }

    /** The other operations of `markCompleted` and `markFailed`, and the return of `execute`. */
    method Proceed(id: NodeId)
      requires id in graph.nodes && id in fibers && !(fibers[id].Returned? && fibers[id].result.Left?)
      modifies this
      ensures View() == DoFiber(P(), old(View()), id)
    {
      match fibers[id] {
        case Forked(upstream) =>
          fibers := fibers[id := Returned(execute(graph.nodes[id], upstream))];
        case Returned(Right(v)) =>
          values := values[id := v];
          fibers := fibers[id := ValueStored(v)];
        case ValueStored(v) =>
          outcomes := outcomes[id := Completed(v)];
          fibers := fibers[id := CompletionStored(v)];
        case CompletionStored(v) =>
          stateRef := RunState(stateRef.done + {id}, stateRef.running - {id}, stateRef.blocked);
          fibers := fibers[id := Finished];
        case CascadeRead(error, cascade) =>
          outcomes := WithFailure(outcomes, id, error, cascade);
          fibers := fibers[id := FailureStored(error, cascade)];
        case FailureStored(error, cascade) =>
          stateRef := RunState(stateRef.done, stateRef.running - {id}, stateRef.blocked + {id} + cascade);
          fibers := fibers[id := Finished];
        case Finished =>
      }
    }

    /** One operation of the fiber of a node. */
    method FiberTurn(id: NodeId)
      requires Valid() && CanStep(P(), View(), FiberStep(id))
      modifies this
      ensures Valid() && View() == DoFiber(P(), old(View()), id)
    {
      FiberStepKeepsInv(P(), fates, View(), id);
      if fibers[id].Returned? && fibers[id].result.Left? {
        ReadCascade(id, fibers[id].result.error);
      } else {
        Proceed(id);
      }
    }

    /** A fiber that can still act, when the loop cannot. */
    method SomeFiber() returns (id: NodeId)
      requires LiveOk(fibers, live) && FibersOk(P(), fates, stateRef, fibers) && P().above.Keys == graph.nodes.Keys
      requires !main.Done? && !CanStep(P(), View(), MainStep)
      ensures CanStep(P(), View(), FiberStep(id))
    {
      ghost var busy := StillBusy(P(), fates, View());
      var i := 0;
      while live[i] !in fibers || fibers[live[i]].Finished?
        invariant 0 <= i < |live| && busy in live[i..]
        decreases |live| - i
      {
        assert live[i..] == [live[i]] + live[i + 1..];
        i := i + 1;
      }
      id := live[i];
      assert FiberOk(P(), fates, stateRef, id, fibers[id]);
    }

    /** The step asked for, if it is enabled; otherwise some step that is. */
    method TakeTurn(step: Step)
      requires Valid() && !main.Done?
      modifies this
      ensures Valid() && Work(P(), View()) < old(Work(P(), View()))
    {
      if step.FiberStep? && step.id in fibers && step.id in graph.nodes && !fibers[step.id].Finished? {
        FiberStepWorks(P(), fates, View(), step.id);
        FiberTurn(step.id);
      } else if MainCanStep() {
        MainStepWorks(P(), fates, View());
        MainTurn();
      } else {
        var id := SomeFiber();
        FiberStepWorks(P(), fates, View(), id);
        FiberTurn(id);
      }
    }

    /** The whole run under a scheduler that picks any enabled step it likes. */
    method Drive(pick: State<A, E> -> Step)
      requires Valid()
      modifies this
      ensures Valid() && main.Done?
    {
      while !main.Done?
        invariant Valid()
        decreases Work(P(), View())
      {
        TakeTurn(pick(View()));
      }
    }

    /**
      The whole run: what it records is what the graph determines, and it covers the graph exactly if it stopped
      settled.
    */
    method RunToEnd(pick: State<A, E> -> Step)
      requires Valid()
      modifies this
      ensures Valid() && main.Done?
      ensures forall x :: x in outcomes ==> Means(P().above, fates, x, outcomes[x])
      ensures outcomes.Keys == graph.nodes.Keys <==> IsSettled(graph, main.exit)
    {
      Drive(pick);
      FinalOutcomes();
      FinalCoverage();
    }

    lemma FinalOutcomes()
      requires Valid()
      ensures forall x :: x in outcomes ==> Means(P().above, fates, x, outcomes[x])
    {
      OutcomesMean(P(), fates, View());
    }

    lemma FinalCoverage()
      requires Valid() && main.Done?
      ensures outcomes.Keys == graph.nodes.Keys <==> IsSettled(graph, main.exit)
    {
      CompleteAtDone(P(), fates, View());
    }

    predicate MainCanStep()
      reads this
    {
      match main
      case Waiting => live == [] || (live[0] in fibers && fibers[live[0]].Finished?)
      case Draining(_) => forall id :: id in live && id in fibers ==> fibers[id].Finished?
      case Done(_) => false
      case _ => true
    }
  }

  // -------------------------------------------------------------------------
  // run
  // -------------------------------------------------------------------------

  datatype Refusal = DanglingDependency(edges: seq<(NodeId, NodeId)>) | CyclicGraph(involved: seq<NodeId>)

  /** The checks at the head of `run`: it starts exactly the graphs without dangling edges and without cycles. */
  method Admission<T>(g: WorkGraph<T>) returns (refusal: seq<Refusal>)
    requires g.Valid()
    ensures refusal == [] <==> g.NoDangling() && Acyclic(g.Full())
    ensures |refusal| <= 1
    ensures refusal != [] && !g.NoDangling() ==>
      refusal[0].DanglingDependency? &&
      forall x, d :: (x, d) in refusal[0].edges <==> x in g.nodes && d in g.nodes[x].dependsOn && d !in g.nodes
    ensures refusal != [] && g.NoDangling() ==>
      refusal[0].CyclicGraph? && forall x :: x in refusal[0].involved <==> x in g.nodes && ReachesCycle(g.Full(), x)
  {
    var dangling := DanglingEdges(g);
    if dangling != [] {
      return [DanglingDependency(dangling)];
    }
    PresentIsFull(g);
    var sorted := TopoSort(g);
    match sorted {
      case Cyclic(involved) => refusal := [CyclicGraph(involved)];
      case Ordered(_) => refusal := [];
    }
  }
}
