/** What the scheduler promises about whole runs, whatever the interleaving. */
module SchedulerTheorems {
  import opened JsText
  import opened Sorting
  import opened Dag
  import opened WorkGraphs
  import opened SchedulerModel
  import opened SchedulerSafety

  ghost predicate Ready<T, A, E>(p: Problem<T, A, E>, f: map<NodeId, Fate<A, E>>) {
    p.graph.Valid() && p.Tabled() && Solves(p, f)
  }

  lemma RunnableIsReady<T, A, E>(p: Problem<T, A, E>) returns (f: map<NodeId, Fate<A, E>>)
    requires p.Runnable()
    ensures Ready(p, f)
  {
    TablesHold(p);
    f := FatesExist(p);
  }

  lemma MainStepKeepsInv<T, A, E>(p: Problem<T, A, E>, f: map<NodeId, Fate<A, E>>, s: State<A, E>)
    requires Ready(p, f) && Inv(p, f, s) && CanStep(p, s, MainStep)
    ensures Inv(p, f, DoMain(p, s))
  {
    match s.main {
      case Top => SnapshotStep(p, f, s);
      case Planned(seen) => if Batch(p, seen) == [] { QuietMainStep(p, f, s); } else { AdmitStep(p, f, s); }
      case Starting(rest) => if rest == [] { QuietMainStep(p, f, s); } else { ReadUpstreamStep(p, f, s); }
      case Forking(_, _, _) => ForkStep(p, f, s);
      case Waiting => JoinStep(p, f, s);
      case _ => QuietMainStep(p, f, s);
    }
  }

  lemma FiberStepKeepsInv<T, A, E>(p: Problem<T, A, E>, f: map<NodeId, Fate<A, E>>, s: State<A, E>, id: NodeId)
    requires Ready(p, f) && Inv(p, f, s) && CanStep(p, s, FiberStep(id))
    ensures Inv(p, f, DoFiber(p, s, id))
  {
    match s.fibers[id] {
      case Forked(_) => ReturnStep(p, f, s, id);
      case Returned(Right(_)) => StoreValueStep(p, f, s, id);
      case Returned(Left(_)) => ReadCascadeStep(p, f, s, id);
      case ValueStored(_) => StoreCompletionStep(p, f, s, id);
      case CompletionStored(_) => FinishCompletedStep(p, f, s, id);
      case CascadeRead(_, _) => StoreFailureStep(p, f, s, id);
      case FailureStored(_, _) => FinishFailedStep(p, f, s, id);
    }
  }

  /** Every step of every fiber and of the planning loop keeps the invariant. */
  lemma StepKeepsInv<T, A, E>(p: Problem<T, A, E>, f: map<NodeId, Fate<A, E>>, s: State<A, E>, step: Step)
    requires Ready(p, f) && Inv(p, f, s) && CanStep(p, s, step)
    ensures Inv(p, f, Do(p, s, step))
  {
    match step {
      case MainStep => MainStepKeepsInv(p, f, s);
      case FiberStep(id) => FiberStepKeepsInv(p, f, s, id);
    }
  }

  lemma {:induction false} RunKeepsInv<T, A, E>(p: Problem<T, A, E>, f: map<NodeId, Fate<A, E>>, s: State<A, E>,
                                                steps: seq<Step>)
    requires Ready(p, f) && Inv(p, f, s) && Follows(p, s, steps)
    ensures Inv(p, f, RunFrom(p, s, steps))
    decreases |steps|
  {
    if steps != [] {
      StepKeepsInv(p, f, s, steps[0]);
      RunKeepsInv(p, f, Do(p, s, steps[0]), steps[1..]);
    }
  }

  /** What a run of `run` can look like at any moment. */
  ghost predicate Reachable<T, A, E>(p: Problem<T, A, E>, s: State<A, E>) {
    exists steps :: Follows(p, Initial(), steps) && RunFrom(p, Initial(), steps) == s
  }

  lemma ReachableInv<T, A, E>(p: Problem<T, A, E>, f: map<NodeId, Fate<A, E>>, s: State<A, E>)
    requires Ready(p, f) && Reachable(p, s)
    ensures Inv(p, f, s)
  {
    var steps :| Follows(p, Initial(), steps) && RunFrom(p, Initial(), steps) == s;
    InitialInv(p, f);
    RunKeepsInv(p, f, Initial(), steps);
  }

  // -------------------------------------------------------------------------
  // safety
  // -------------------------------------------------------------------------

  /**
    In every state of every interleaving: no node is in two of done, running and blocked; nodes that run together
    write to different resources; what runs or is done has all its dependencies done; the bound on concurrency is
    respected, and so is the reported peak.
  */
  lemma RunsAreSafe<T, A, E>(p: Problem<T, A, E>, s: State<A, E>)
    requires p.Runnable() && Reachable(p, s)
    ensures s.st.done !! s.st.running && s.st.done !! s.st.blocked && s.st.running !! s.st.blocked
    ensures forall x, y :: x in s.st.running && y in s.st.running && x != y ==> Writes(p.graph, x) !! Writes(p.graph, y)
    ensures forall x, d ::
      (x in s.st.running || x in s.st.done) && x in p.graph.nodes && d in p.graph.nodes[x].dependsOn ==> d in s.st.done
    ensures |s.st.running| <= p.concurrency || s.st.running == {}
    ensures s.peak <= p.concurrency || s.peak == 0
  {
    var f := RunnableIsReady(p);
    ReachableInv(p, f, s);
    DependenciesDone(p.graph, p.above, s.st);
  }

  lemma DependenciesDone<T>(g: WorkGraph<T>, above: Table, st: RunState)
    requires ListsDependencies(g, above) && DepsOk(above, st)
    ensures forall x, d :: (x in st.running || x in st.done) && x in g.nodes && d in g.nodes[x].dependsOn ==>
      d in st.done
  {
    forall x, d | (x in st.running || x in st.done) && x in g.nodes && d in g.nodes[x].dependsOn ensures d in st.done {
      assert d in above[x];
    }
  }

  // -------------------------------------------------------------------------
  // schedule independence
  // -------------------------------------------------------------------------

  lemma StartedInv<T, A, E>(p: Problem<T, A, E>, f: map<NodeId, Fate<A, E>>, s: State<A, E>, id: NodeId)
    requires DepsOk(p.above, s.st) && FibersOk(p, f, s.st, s.fibers) && OutcomesOk(p, f, s.st, s.fibers, s.outcomes)
    requires id in s.fibers && s.fibers[id].Forked?
    ensures id in p.above && s.fibers[id].upstream.Keys == p.above[id]
    ensures forall a :: a in p.above[id] ==> a in s.outcomes && s.outcomes[a] == Completed(s.fibers[id].upstream[a])
  {
    assert FiberOk(p, f, s.st, id, s.fibers[id]);
    forall a | a in p.above[id] ensures a in s.outcomes && s.outcomes[a] == Completed(s.fibers[id].upstream[a]) {
      assert a in s.st.done;
      assert OutcomeOk(p, f, s.st, s.fibers, s.outcomes, a);
    }
  }

  /** A node that has been started was given the recorded value of each of its ancestors, and nothing else. */
  lemma StartedOnAncestorValues<T, A, E>(p: Problem<T, A, E>, s: State<A, E>, id: NodeId)
    requires p.Runnable() && Reachable(p, s) && id in s.fibers && s.fibers[id].Forked?
    ensures id in p.above && s.fibers[id].upstream.Keys == p.above[id] == Ancestors(p.graph.Full(), id)
    ensures forall a :: a in p.above[id] ==> a in s.outcomes && s.outcomes[a] == Completed(s.fibers[id].upstream[a])
  {
    var f := RunnableIsReady(p);
    ReachableInv(p, f, s);
    StartedInv(p, f, s, id);
  }

  ghost predicate Means<A, E>(above: Table, f: map<NodeId, Fate<A, E>>, x: NodeId, o: Outcome<A, E>) {
    && x in f && x in above
    && match o
       case Completed(v) => f[x] == Good(v)
       case Failed(error) => f[x] == Bad(error)
       case Blocked(cause) => f[x].Skipped? && cause in above[x] && cause in f && f[cause].Bad?
  }

  lemma OutcomeMeansInv<T, A, E>(p: Problem<T, A, E>, f: map<NodeId, Fate<A, E>>, s: State<A, E>, x: NodeId)
    requires Layered(p) && Solves(p, f) && OutcomesOk(p, f, s.st, s.fibers, s.outcomes) && x in s.outcomes
    ensures Means(p.above, f, x, s.outcomes[x])
  {
    assert OutcomeOk(p, f, s.st, s.fibers, s.outcomes, x);
    if s.outcomes[x].Blocked? {
      var cause := s.outcomes[x].cause;
      assert OutcomeOk(p, f, s.st, s.fibers, s.outcomes, cause);
      SkippedBelowAFailure(p, f, x);
    }
  }

  lemma OutcomesMean<T, A, E>(p: Problem<T, A, E>, f: map<NodeId, Fate<A, E>>, s: State<A, E>)
    requires Layered(p) && Solves(p, f) && OutcomesOk(p, f, s.st, s.fibers, s.outcomes)
    ensures forall x :: x in s.outcomes ==> Means(p.above, f, x, s.outcomes[x])
  {
    forall x | x in s.outcomes ensures Means(p.above, f, x, s.outcomes[x]) {
      OutcomeMeansInv(p, f, s, x);
    }
  }

  /**
    Every recorded outcome is the one the graph alone determines: completed or failed as `execute` says on the
    ancestors' values, or blocked, by a failed ancestor.
  */
  lemma OutcomesAreDetermined<T, A, E>(p: Problem<T, A, E>, s: State<A, E>, f: map<NodeId, Fate<A, E>>)
    requires p.Runnable() && Reachable(p, s) && Solves(p, f)
    ensures forall x :: x in s.outcomes ==> Means(p.above, f, x, s.outcomes[x])
  {
    TablesHold(p);
    ReachableInv(p, f, s);
    OutcomesMean(p, f, s);
  }

  ghost predicate SameUpToCause<A, E>(a: Outcome<A, E>, b: Outcome<A, E>) {
    a == b || (a.Blocked? && b.Blocked?)
  }

  /**
    Two runs, even under different concurrency bounds, never disagree about a node, except in whom a blocked node
    blames.
  */
  lemma SchedulesAgree<T, A, E>(p: Problem<T, A, E>, concurrency: int, s: State<A, E>, t: State<A, E>)
    requires p.Runnable() && Reachable(p, s) && Reachable(p.(concurrency := concurrency), t)
    ensures forall x :: x in s.outcomes && x in t.outcomes ==> SameUpToCause(s.outcomes[x], t.outcomes[x])
  {
    var q := p.(concurrency := concurrency);
    var f := RunnableIsReady(p);
    SolvesAnyConcurrency(p, concurrency, f);
    OutcomesAreDetermined(p, s, f);
    OutcomesAreDetermined(q, t, f);
    forall x | x in s.outcomes && x in t.outcomes ensures SameUpToCause(s.outcomes[x], t.outcomes[x]) {
      assert Means(p.above, f, x, s.outcomes[x]) && Means(p.above, f, x, t.outcomes[x]);
    }
  }

  lemma SolvesAnyConcurrency<T, A, E>(p: Problem<T, A, E>, concurrency: int, f: map<NodeId, Fate<A, E>>)
    requires Solves(p, f)
    ensures Solves(p.(concurrency := concurrency), f)
  {
    var q := p.(concurrency := concurrency);
    forall x | x in f ensures FateAt(q, f, x) {
      assert FateAt(p, f, x);
    }
  }

  // -------------------------------------------------------------------------
  // termination
  // -------------------------------------------------------------------------

  function FiberWork<A, E>(fiber: Fiber<A, E>): nat {
    match fiber
    case Forked(_) => 4
    case Returned(_) => 3
    case ValueStored(_) => 2
    case CompletionStored(_) => 1
    case CascadeRead(_, _) => 2
    case FailureStored(_, _) => 1
    case Finished => 0
  }

  /** An upper bound on the work one node still causes. */
  function NodeWork<A, E>(s: State<A, E>, x: NodeId): nat {
    if x in s.fibers then FiberWork(s.fibers[x])
    else if s.main.Forking? && x == s.main.id then 9
    else if x in Pending(s.main) then 10
    else 15
  }

  function NodesWork<A, E>(s: State<A, E>, keys: seq<NodeId>): nat {
    if keys == [] then 0 else NodeWork(s, keys[0]) + NodesWork(s, keys[1..])
  }

  function MainWork<A>(main: Main<A>): nat {
    match main
    case Starting(_) => 8
    case Forking(_, _, _) => 8
    case Measuring => 7
    case Peaking(_) => 6
    case Top => 5
    case Planned(_) => 4
    case Checking => 3
    case Waiting => 2
    case Draining(_) => 1
    case Done(_) => 0
  }

  /** Every step makes this smaller. */
  function Work<T, A, E>(p: Problem<T, A, E>, s: State<A, E>): nat {
    NodesWork(s, p.graph.keys) + 4 * |s.live| + MainWork(s.main)
  }

  lemma {:induction false} SameNodesWork<A, E>(s: State<A, E>, t: State<A, E>, keys: seq<NodeId>)
    requires forall x :: x in keys ==> NodeWork(t, x) == NodeWork(s, x)
    ensures NodesWork(t, keys) == NodesWork(s, keys)
  {
    if keys != [] {
      assert keys[0] in keys;
      SameNodesWork(s, t, keys[1..]);
    }
  }

  lemma {:induction false} LessNodesWork<A, E>(s: State<A, E>, t: State<A, E>, keys: seq<NodeId>, x: NodeId, n: nat)
    requires x in keys && NodeWork(t, x) + n <= NodeWork(s, x)
    requires forall y :: y in keys ==> NodeWork(t, y) <= NodeWork(s, y)
    ensures NodesWork(t, keys) + n <= NodesWork(s, keys)
  {
    if keys[0] == x {
      NodesWorkShrinks(s, t, keys[1..]);
    } else {
      assert keys[0] in keys;
      LessNodesWork(s, t, keys[1..], x, n);
    }
  }

  lemma {:induction false} NodesWorkShrinks<A, E>(s: State<A, E>, t: State<A, E>, keys: seq<NodeId>)
    requires forall y :: y in keys ==> NodeWork(t, y) <= NodeWork(s, y)
    ensures NodesWork(t, keys) <= NodesWork(s, keys)
  {
    if keys != [] {
      assert keys[0] in keys;
      NodesWorkShrinks(s, t, keys[1..]);
    }
  }

  lemma FiberStepWorks<T, A, E>(p: Problem<T, A, E>, f: map<NodeId, Fate<A, E>>, s: State<A, E>, id: NodeId)
    requires p.graph.Valid() && CanStep(p, s, FiberStep(id))
    ensures Work(p, DoFiber(p, s, id)) < Work(p, s)
  {
    var t := DoFiber(p, s, id);
    assert forall y :: y != id ==> NodeWork(t, y) == NodeWork(s, y);
    LessNodesWork(s, t, p.graph.keys, id, 1);
  }

  lemma AdmitWorks<T, A, E>(p: Problem<T, A, E>, s: State<A, E>, t: State<A, E>)
    requires s.main.Planned? && Batch(p, s.main.seen) != [] && t == DoMain(p, s)
    requires forall x :: x in Batch(p, s.main.seen) ==> x in p.graph.keys && x !in s.fibers
    ensures Work(p, t) < Work(p, s)
  {
    var batch := Batch(p, s.main.seen);
    assert batch[0] in batch;
    LessNodesWork(s, t, p.graph.keys, batch[0], 5);
  }

  lemma ReadWorks<T, A, E>(p: Problem<T, A, E>, s: State<A, E>, t: State<A, E>)
    requires s.main.Starting? && s.main.rest != [] && t == DoMain(p, s) && PendingOk(s.st, s.fibers, Pending(s.main))
    requires s.main.rest[0] in p.graph.keys
    ensures Work(p, t) < Work(p, s)
  {
    assert s.main.rest == [s.main.rest[0]] + s.main.rest[1..];
    assert s.main.rest[0] in Pending(s.main);
    LessNodesWork(s, t, p.graph.keys, s.main.rest[0], 1);
  }

  lemma OtherMainWorks<T, A, E>(p: Problem<T, A, E>, s: State<A, E>)
    requires CanStep(p, s, MainStep) && !s.main.Forking?
    requires s.main.Starting? ==> s.main.rest == []
    requires s.main.Planned? ==> Batch(p, s.main.seen) == []
    requires s.main.Waiting? ==> s.live != []
    ensures Work(p, DoMain(p, s)) < Work(p, s)
  {
    SameNodesWork(s, DoMain(p, s), p.graph.keys);
  }

  lemma MainStepWorks<T, A, E>(p: Problem<T, A, E>, f: map<NodeId, Fate<A, E>>, s: State<A, E>)
    requires Ready(p, f) && Inv(p, f, s) && CanStep(p, s, MainStep)
    ensures Work(p, DoMain(p, s)) < Work(p, s)
  {
    match s.main {
      case Planned(seen) =>
        if Batch(p, seen) == [] {
          OtherMainWorks(p, s);
        } else {
          AdmittedStates(p, f, s);
          AdmitWorks(p, s, DoMain(p, s));
        }
      case Starting(rest) =>
        if rest == [] {
          OtherMainWorks(p, s);
        } else {
          assert rest[0] in Pending(s.main);
          ReadWorks(p, s, DoMain(p, s));
        }
      case Forking(id, _, rest) =>
        assert id in Pending(s.main);
        ForkWorks(p, s, DoMain(p, s));
      case _ => OtherMainWorks(p, s);
    }
  }

  lemma ForkWorks<T, A, E>(p: Problem<T, A, E>, s: State<A, E>, t: State<A, E>)
    requires s.main.Forking? && t == DoMain(p, s) && PendingOk(s.st, s.fibers, Pending(s.main))
    requires s.main.id in p.graph.keys
    ensures Work(p, t) < Work(p, s)
  {
    var id := s.main.id;
    assert id in Pending(s.main);
    forall y | y != id ensures NodeWork(t, y) == NodeWork(s, y) {
      assert y in Pending(s.main) <==> y in s.main.rest;
    }
    LessNodesWork(s, t, p.graph.keys, id, 5);
  }

  lemma StepWorks<T, A, E>(p: Problem<T, A, E>, f: map<NodeId, Fate<A, E>>, s: State<A, E>, step: Step)
    requires Ready(p, f) && Inv(p, f, s) && CanStep(p, s, step)
    ensures Work(p, Do(p, s, step)) < Work(p, s)
  {
    match step {
      case MainStep => MainStepWorks(p, f, s);
      case FiberStep(id) => FiberStepWorks(p, f, s, id);
    }
  }

  lemma {:induction false} RunWorks<T, A, E>(p: Problem<T, A, E>, f: map<NodeId, Fate<A, E>>, s: State<A, E>,
                                             steps: seq<Step>)
    requires Ready(p, f) && Inv(p, f, s) && Follows(p, s, steps)
    ensures |steps| + Work(p, RunFrom(p, s, steps)) <= Work(p, s)
    decreases |steps|
  {
    if steps != [] {
      StepKeepsInv(p, f, s, steps[0]);
      StepWorks(p, f, s, steps[0]);
      RunWorks(p, f, Do(p, s, steps[0]), steps[1..]);
    }
  }

  lemma {:induction false} InitialWork<A, E>(s: State<A, E>, keys: seq<NodeId>)
    requires s == Initial()
    ensures NodesWork(s, keys) == 15 * |keys|
  {
    if keys != [] { InitialWork(s, keys[1..]); }
  }

  /** Every run ends: no schedule of a graph with `n` nodes is longer than `15 * n + 5` steps. */
  lemma RunsAreBounded<T, A, E>(p: Problem<T, A, E>, steps: seq<Step>)
    requires p.Runnable() && Follows(p, Initial(), steps)
    ensures |steps| <= 15 * |p.graph.keys| + 5
  {
    var f := RunnableIsReady(p);
    var s: State<A, E> := Initial();
    InitialInv(p, f);
    InitialWork(s, p.graph.keys);
    RunWorks(p, f, s, steps);
  }

  ghost predicate Stuck<T, A, E>(p: Problem<T, A, E>, s: State<A, E>) {
    forall step {:trigger CanStep(p, s, step)} :: !CanStep(p, s, step)
  }

  /** No run gets stuck before it is done. */
  lemma RunsNeverStick<T, A, E>(p: Problem<T, A, E>, s: State<A, E>)
    requires p.Runnable() && Reachable(p, s)
    ensures s.main.Done? <==> Stuck(p, s)
  {
    var f := RunnableIsReady(p);
    ReachableInv(p, f, s);
    InvDoneOrBusy(p, f, s);
  }

  lemma InvDoneOrBusy<T, A, E>(p: Problem<T, A, E>, f: map<NodeId, Fate<A, E>>, s: State<A, E>)
    requires FibersOk(p, f, s.st, s.fibers) && LiveOk(s.fibers, s.live) && MainOk(p, f, s)
    requires p.above.Keys == p.graph.nodes.Keys
    ensures s.main.Done? <==> Stuck(p, s)
  {
    if s.main.Done? {
      NothingLeft(p, f, s);
    } else if !CanStep(p, s, MainStep) {
      var id := StillBusy(p, f, s);
      assert CanStep(p, s, FiberStep(id));
    }
  }

  /** The loop never joins an empty list of fibers: whatever runs has its fiber in `live` or is about to get one. */
  lemma LiveCoversRunning<T, A, E>(p: Problem<T, A, E>, s: State<A, E>)
    requires p.Runnable() && Reachable(p, s)
    ensures s.main.Waiting? ==> s.live != []
    ensures forall x :: x in s.st.running ==> x in s.live || x in Pending(s.main)
  {
    var f := RunnableIsReady(p);
    ReachableMain(p, f, s);
    LiveInv(p, f, s);
  }

  /** What the invariant says about the loop and its fibers. */
  lemma ReachableMain<T, A, E>(p: Problem<T, A, E>, f: map<NodeId, Fate<A, E>>, s: State<A, E>)
    requires Ready(p, f) && Reachable(p, s)
    ensures MainOk(p, f, s) && PendingOk(s.st, s.fibers, Pending(s.main)) && LiveOk(s.fibers, s.live)
  {
    ReachableInv(p, f, s);
  }

  lemma LiveInv<T, A, E>(p: Problem<T, A, E>, f: map<NodeId, Fate<A, E>>, s: State<A, E>)
    requires MainOk(p, f, s) && PendingOk(s.st, s.fibers, Pending(s.main)) && LiveOk(s.fibers, s.live)
    ensures s.main.Waiting? ==> s.live != []
    ensures forall x :: x in s.st.running ==> x in s.live || x in Pending(s.main)
  {
  }

  lemma NothingLeft<T, A, E>(p: Problem<T, A, E>, f: map<NodeId, Fate<A, E>>, s: State<A, E>)
    requires FibersOk(p, f, s.st, s.fibers) && s.main.Done? && s.st.running == {}
    ensures Stuck(p, s)
  {
    forall step ensures !CanStep(p, s, step) {
      assert step.FiberStep? && step.id in s.fibers ==> FiberOk(p, f, s.st, step.id, s.fibers[step.id]);
    }
  }

  lemma StillBusy<T, A, E>(p: Problem<T, A, E>, f: map<NodeId, Fate<A, E>>, s: State<A, E>) returns (id: NodeId)
    requires FibersOk(p, f, s.st, s.fibers) && LiveOk(s.fibers, s.live)
    requires p.above.Keys == p.graph.nodes.Keys && !s.main.Done? && !CanStep(p, s, MainStep)
    ensures CanStep(p, s, FiberStep(id))
  {
    if s.main.Waiting? {
      id := s.live[0];
    } else {
      id :| id in s.live && id in s.fibers && !s.fibers[id].Finished?;
    }
    assert id in s.live && FiberOk(p, f, s.st, id, s.fibers[id]);
  }

  // -------------------------------------------------------------------------
  // completeness
  // -------------------------------------------------------------------------

  lemma RecordedAtExit<T, A, E>(p: Problem<T, A, E>, f: map<NodeId, Fate<A, E>>, s: State<A, E>)
    requires FibersOk(p, f, s.st, s.fibers) && OutcomesOk(p, f, s.st, s.fibers, s.outcomes) && s.st.running == {}
    ensures s.outcomes.Keys == s.st.done + s.st.blocked
  {
    forall x | x in s.outcomes ensures x in s.st.done + s.st.blocked {
      assert OutcomeOk(p, f, s.st, s.fibers, s.outcomes, x);
      assert forall y :: y in s.fibers ==> FiberOk(p, f, s.st, y, s.fibers[y]);
    }
  }

  lemma BlockedSpreads<T, A, E>(p: Problem<T, A, E>, st: RunState, x: NodeId, d: NodeId)
    requires p.Runnable() && ClosedOk(p.below, st)
    requires x in p.graph.nodes && d in p.graph.nodes[x].dependsOn && d in st.blocked
    ensures x in st.blocked
  {
    var e := p.graph.Full();
    Edge(e, x, d);
    assert d in e && x in DescendantsOf(e, d);
    assert p.below[d] <= st.blocked;
  }

  /** While work remains that no failure has cancelled, and nothing runs, some node can start. */
  lemma FrontierHasReady<T, A, E>(p: Problem<T, A, E>, st: RunState)
    requires p.Runnable() && st.running == {} && ClosedOk(p.below, st) && Frontier(p.graph, st) != {}
    ensures exists x :: Eligible(p.graph, st, x)
  {
    var x := SomeMinimal(p.graph.Full(), Frontier(p.graph, st));
    forall d | d in p.graph.nodes[x].dependsOn ensures d in st.done {
      assert d in p.graph.nodes && d in p.graph.Full()[x];
      assert d !in p.graph.Full()[x] * Frontier(p.graph, st);
      if d in st.blocked {
        BlockedSpreads(p, st, x, d);
      }
    }
    assert Eligible(p.graph, st, x);
  }

  /** With nothing running, the run state is settled exactly when no work remains. */
  lemma SettledIffNoFrontier<T, A, E>(p: Problem<T, A, E>, st: RunState)
    requires p.Runnable() && st.running == {} && ClosedOk(p.below, st)
    ensures IsSettled(p.graph, st) <==> Frontier(p.graph, st) == {}
  {
    var ready := ReadyList(p.graph, st);
    ReadyListIsSafeAndMaximal(p.graph, st);
    assert ready != [] ==> ready[0] in ready && ready[0] in Frontier(p.graph, st);
    if Frontier(p.graph, st) != {} {
      FrontierHasReady(p, st);
    }
  }

  lemma CompleteAtDone<T, A, E>(p: Problem<T, A, E>, f: map<NodeId, Fate<A, E>>, s: State<A, E>)
    requires p.Runnable() && MainOk(p, f, s) && ClosedOk(p.below, s.st) && s.main.Done?
    requires FibersOk(p, f, s.st, s.fibers) && OutcomesOk(p, f, s.st, s.fibers, s.outcomes)
    requires StatesOk(p.graph.nodes.Keys, s.st)
    ensures s.outcomes.Keys == p.graph.nodes.Keys <==> IsSettled(p.graph, s.main.exit)
  {
    IdleMain(p, f, s);
    SettledIffNoFrontier(p, s.st);
    CoverageAtExit(p, f, s);
  }

  /**
    The report of a finished run covers the whole graph if and only if the state that the loop read just before it
    stopped was settled. The loop does not check that: it checks only that nothing runs.
  */
  lemma CompleteIffSettledAtExit<T, A, E>(p: Problem<T, A, E>, s: State<A, E>)
    requires p.Runnable() && Reachable(p, s) && s.main.Done?
    ensures s.outcomes.Keys == p.graph.nodes.Keys <==> IsSettled(p.graph, s.main.exit)
  {
    var f := RunnableIsReady(p);
    ReachableInv(p, f, s);
    CompleteAtDone(p, f, s);
  }

  lemma CoverageAtExit<T, A, E>(p: Problem<T, A, E>, f: map<NodeId, Fate<A, E>>, s: State<A, E>)
    requires FibersOk(p, f, s.st, s.fibers) && OutcomesOk(p, f, s.st, s.fibers, s.outcomes) && s.st.running == {}
    requires StatesOk(p.graph.nodes.Keys, s.st)
    ensures s.outcomes.Keys == p.graph.nodes.Keys <==> Frontier(p.graph, s.st) == {}
  {
    RecordedAtExit(p, f, s);
    var settled := s.st.done + s.st.blocked;
    assert Frontier(p.graph, s.st) == p.graph.nodes.Keys - settled;
    if Frontier(p.graph, s.st) == {} {
      forall x | x in p.graph.nodes.Keys ensures x in settled {
        assert x !in Frontier(p.graph, s.st);
      }
    }
  }

  /** The schedule lets no fiber act between the planning read and the read that decides about stopping. */
  ghost predicate Prompt<T, A, E>(p: Problem<T, A, E>, s: State<A, E>, steps: seq<Step>)
    requires Follows(p, s, steps)
    decreases |steps|
  {
    steps == [] ||
    (((s.main.Planned? || s.main.Checking?) ==> steps[0].MainStep?) && Prompt(p, Do(p, s, steps[0]), steps[1..]))
  }

  ghost predicate PromptOk<T, A, E>(p: Problem<T, A, E>, s: State<A, E>) {
    match s.main
    case Planned(seen) => seen == s.st
    case Checking => Batch(p, s.st) == []
    case Draining(exit) => Batch(p, exit) == []
    case Done(exit) => Batch(p, exit) == []
    case _ => true
  }

  lemma PromptStep<T, A, E>(p: Problem<T, A, E>, s: State<A, E>, step: Step)
    requires CanStep(p, s, step) && PromptOk(p, s)
    requires s.main.Planned? || s.main.Checking? ==> step.MainStep?
    ensures PromptOk(p, Do(p, s, step))
  {
  }

  lemma {:induction false} PromptKept<T, A, E>(p: Problem<T, A, E>, s: State<A, E>, steps: seq<Step>)
    requires Follows(p, s, steps) && Prompt(p, s, steps) && PromptOk(p, s)
    ensures PromptOk(p, RunFrom(p, s, steps))
    decreases |steps|
  {
    if steps != [] {
      PromptStep(p, s, steps[0]);
      PromptKept(p, Do(p, s, steps[0]), steps[1..]);
    }
  }

  lemma IdleAtExit<T, A, E>(p: Problem<T, A, E>, s: State<A, E>)
    requires p.Runnable() && Reachable(p, s) && s.main.Done?
    ensures s.main.exit.running == {}
  {
    var f := RunnableIsReady(p);
    ReachableMain(p, f, s);
    IdleMain(p, f, s);
  }

  lemma IdleMain<T, A, E>(p: Problem<T, A, E>, f: map<NodeId, Fate<A, E>>, s: State<A, E>)
    requires MainOk(p, f, s) && s.main.Done?
    ensures s.main.exit == s.st && s.main.exit.running == {}
  {
  }

  lemma NoBatchIsSettled<T, A, E>(p: Problem<T, A, E>, st: RunState)
    requires p.concurrency >= 1 && st.running == {} && Batch(p, st) == []
    ensures IsSettled(p.graph, st)
  {
    assert Slots(p, st) >= 1;
  }

  /** If the two reads act as one, every finished run accounts for every node. */
  lemma PromptRunsAreComplete<T, A, E>(p: Problem<T, A, E>, steps: seq<Step>)
    requires p.Runnable() && p.concurrency >= 1
    requires Follows(p, Initial(), steps) && Prompt(p, Initial(), steps) && RunFrom(p, Initial(), steps).main.Done?
    ensures RunFrom(p, Initial(), steps).outcomes.Keys == p.graph.nodes.Keys
  {
    var s := RunFrom(p, Initial(), steps);
    PromptKept(p, Initial(), steps);
    assert Reachable(p, s);
    IdleAtExit(p, s);
    NoBatchIsSettled(p, s.main.exit);
    CompleteIffSettledAtExit(p, s);
  }

  // -------------------------------------------------------------------------
  // the report
  // -------------------------------------------------------------------------

  datatype Tag = CompletedTag | FailedTag | BlockedTag

  function TagOf<A, E>(o: Outcome<A, E>): Tag {
    match o
    case Completed(_) => CompletedTag
    case Failed(_) => FailedTag
    case Blocked(_) => BlockedTag
  }

  /** `pick`: the nodes with one kind of outcome, sorted. */
  function Pick<A, E>(keys: seq<NodeId>, outcomes: map<NodeId, Outcome<A, E>>, tag: Tag): seq<NodeId> {
    SortStrings(FilterKeys(keys, x => x in outcomes && TagOf(outcomes[x]) == tag))
  }

  /**
    The three lists of the report are sorted, without repetitions, pairwise disjoint, and together name every recorded
    node.
  */
  lemma ReportPartitions<T, A, E>(p: Problem<T, A, E>, s: State<A, E>)
    requires p.Runnable() && Reachable(p, s)
    ensures forall tag ::
      Ascending(ATMOST, Pick(p.graph.keys, s.outcomes, tag)) && Distinct(Pick(p.graph.keys, s.outcomes, tag))
    ensures forall x, tag :: x in Pick(p.graph.keys, s.outcomes, tag) <==>
      x in s.outcomes && TagOf(s.outcomes[x]) == tag
  {
    var f := RunnableIsReady(p);
    ReachableInv(p, f, s);
    forall x | x in s.outcomes ensures x in p.graph.keys {
      assert OutcomeOk(p, f, s.st, s.fibers, s.outcomes, x);
    }
    forall tag ensures Distinct(Pick(p.graph.keys, s.outcomes, tag)) {
      SortKeepsDistinct(FilterKeys(p.graph.keys, x => x in s.outcomes && TagOf(s.outcomes[x]) == tag));
    }
  }
}
