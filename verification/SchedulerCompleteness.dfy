/** When the report of every run covers the whole graph, although the loop reads the run state twice. */
module SchedulerCompleteness {
  import opened Dag
  import opened WorkGraphs
  import opened SchedulerModel
  import opened SchedulerSafety
  import opened SchedulerTheorems

  const IDLE: RunState := RunState({}, {}, {})

  /** The nodes that the first plan starts. */
  function FirstBatch<T, A, E>(p: Problem<T, A, E>): seq<NodeId> {
    Batch(p, IDLE)
  }

  /** Every node starts at once, or never runs because something upstream fails. */
  ghost predicate OneBatchIsEnough<T, A, E>(p: Problem<T, A, E>, f: map<NodeId, Fate<A, E>>) {
    forall x :: x in p.graph.nodes && x in f ==> x in FirstBatch(p) || f[x].Skipped?
  }

  ghost predicate CoversEverything<T, A, E>(p: Problem<T, A, E>, s: State<A, E>) {
    s.outcomes.Keys == p.graph.nodes.Keys
  }

  /** No schedule loses a node. */
  ghost predicate AlwaysComplete<T(!new), A(!new), E(!new)>(p: Problem<T, A, E>) {
    forall s {:trigger Reachable(p, s)} :: Reachable(p, s) && s.main.Done? ==> CoversEverything(p, s)
  }

  // -------------------------------------------------------------------------
  // extending a run
  // -------------------------------------------------------------------------

  lemma {:induction false} FollowsOn<T, V, E>(p: Problem<T, V, E>, s: State<V, E>, steps: seq<Step>, step: Step)
    requires Follows(p, s, steps) && CanStep(p, RunFrom(p, s, steps), step)
    ensures Follows(p, s, steps + [step])
    ensures RunFrom(p, s, steps + [step]) == Do(p, RunFrom(p, s, steps), step)
    decreases |steps|
  {
    var all := steps + [step];
    if steps == [] {
      assert all[1..] == [];
    } else {
      assert all[1..] == steps[1..] + [step];
      FollowsOn(p, Do(p, s, steps[0]), steps[1..], step);
    }
  }

  lemma ReachOn<T, V, E>(p: Problem<T, V, E>, s: State<V, E>, step: Step) returns (t: State<V, E>)
    requires Reachable(p, s) && CanStep(p, s, step)
    ensures t == Do(p, s, step) && Reachable(p, t)
  {
    var steps :| Follows(p, Initial(), steps) && RunFrom(p, Initial(), steps) == s;
    FollowsOn(p, Initial(), steps, step);
    t := Do(p, s, step);
  }

  lemma InitialIsReachable<T, A, E>(p: Problem<T, A, E>)
    ensures Reachable<T, A, E>(p, Initial())
  {
    assert Follows<T, A, E>(p, Initial(), []) && RunFrom<T, A, E>(p, Initial(), []) == Initial();
  }

  // -------------------------------------------------------------------------
  // if one batch is enough, every run is complete
  // -------------------------------------------------------------------------

  /** Nothing was planned yet, or the first batch is accounted for. */
  ghost predicate Begun<T, A, E>(p: Problem<T, A, E>, s: State<A, E>) {
    || (s.st == IDLE && s.fibers == map[] && (s.main.Top? || s.main == Planned(IDLE)))
    || forall x :: x in FirstBatch(p) ==> x in s.st.done + s.st.running + s.st.blocked
  }

  lemma BegunMain<T, A, E>(p: Problem<T, A, E>, s: State<A, E>)
    requires Begun(p, s)
    ensures Begun(p, DoMain(p, s))
  {
  }

  lemma BegunFiber<T, A, E>(p: Problem<T, A, E>, s: State<A, E>, id: NodeId)
    requires Begun(p, s) && CanStep(p, s, FiberStep(id))
    ensures Begun(p, DoFiber(p, s, id))
  {
  }

  lemma BegunStep<T, A, E>(p: Problem<T, A, E>, s: State<A, E>, step: Step)
    requires Begun(p, s) && CanStep(p, s, step)
    ensures Begun(p, Do(p, s, step))
  {
    match step {
      case MainStep => BegunMain(p, s);
      case FiberStep(id) => BegunFiber(p, s, id);
    }
  }

  lemma {:induction false} BegunKept<T, A, E>(p: Problem<T, A, E>, s: State<A, E>, steps: seq<Step>)
    requires Begun(p, s) && Follows(p, s, steps)
    ensures Begun(p, RunFrom(p, s, steps))
    decreases |steps|
  {
    if steps != [] {
      BegunStep(p, s, steps[0]);
      BegunKept(p, Do(p, s, steps[0]), steps[1..]);
    }
  }

  /** A node with a failure above it is blocked once that failure is. */
  lemma SkippedIsBlocked<T, A, E>(p: Problem<T, A, E>, f: map<NodeId, Fate<A, E>>, s: State<A, E>, x: NodeId)
    requires Ready(p, f) && OneBatchIsEnough(p, f) && x in p.graph.nodes && f[x].Skipped?
    requires ClosedOk(p.below, s.st) && ValuesOk(f, s.st, s.fibers, s.values)
    requires forall y :: y in FirstBatch(p) ==> y in s.st.done + s.st.blocked
    ensures x in s.st.blocked
  {
    SkippedBelowAFailure(p, f, x);
    var a :| a in p.above[x] && a in f && f[a].Bad?;
    assert a in FirstBatch(p);
    assert !HoldsValue(s.st, s.fibers, a);
    assert a in p.below && x in p.below[a];
    assert p.below[a] <= s.st.blocked;
  }

  lemma EnoughAtDone<T, A, E>(p: Problem<T, A, E>, f: map<NodeId, Fate<A, E>>, s: State<A, E>)
    requires Ready(p, f) && OneBatchIsEnough(p, f) && Begun(p, s) && s.main.Done? && s.st.running == {}
    requires ClosedOk(p.below, s.st) && ValuesOk(f, s.st, s.fibers, s.values)
    ensures p.graph.nodes.Keys <= s.st.done + s.st.blocked
  {
    forall x | x in p.graph.nodes ensures x in s.st.done + s.st.blocked {
      if x !in FirstBatch(p) { SkippedIsBlocked(p, f, s, x); }
    }
  }

  lemma RecordedNodes<T, A, E>(p: Problem<T, A, E>, f: map<NodeId, Fate<A, E>>, s: State<A, E>)
    requires FibersOk(p, f, s.st, s.fibers) && OutcomesOk(p, f, s.st, s.fibers, s.outcomes)
    requires MainOk(p, f, s) && s.main.Done? && StatesOk(p.graph.nodes.Keys, s.st)
    ensures s.st.running == {} && s.outcomes.Keys == s.st.done + s.st.blocked <= p.graph.nodes.Keys
  {
    RecordedAtExit(p, f, s);
  }

  lemma EnoughCovers<T, A, E>(p: Problem<T, A, E>, f: map<NodeId, Fate<A, E>>, s: State<A, E>)
    requires Ready(p, f) && OneBatchIsEnough(p, f) && Begun(p, s) && s.main.Done?
    requires FibersOk(p, f, s.st, s.fibers) && OutcomesOk(p, f, s.st, s.fibers, s.outcomes)
    requires MainOk(p, f, s) && StatesOk(p.graph.nodes.Keys, s.st)
    requires ClosedOk(p.below, s.st) && ValuesOk(f, s.st, s.fibers, s.values)
    ensures CoversEverything(p, s)
  {
    RecordedNodes(p, f, s);
    EnoughAtDone(p, f, s);
  }

  lemma EnoughIsComplete<T, A, E>(p: Problem<T, A, E>, f: map<NodeId, Fate<A, E>>, s: State<A, E>)
    requires Ready(p, f) && OneBatchIsEnough(p, f) && Reachable(p, s) && s.main.Done?
    ensures CoversEverything(p, s)
  {
    var steps :| Follows(p, Initial(), steps) && RunFrom(p, Initial(), steps) == s;
    BegunKept(p, Initial(), steps);
    ReachableInv(p, f, s);
    EnoughCovers(p, f, s);
  }

  // -------------------------------------------------------------------------
  // otherwise some run loses a node
  // -------------------------------------------------------------------------

  /** The loop forks what it has planned, without any fiber moving. */
  lemma {:induction false} ForkAll<T, A, E>(p: Problem<T, A, E>, s: State<A, E>) returns (t: State<A, E>)
    requires Reachable(p, s) && s.main.Starting?
    ensures Reachable(p, t) && t.main == Starting([]) && t.st == s.st
    ensures t.fibers.Keys == s.fibers.Keys + (set x | x in s.main.rest)
    decreases |s.main.rest|
  {
    var rest := s.main.rest;
    if rest == [] {
      t := s;
    } else {
      assert rest == [rest[0]] + rest[1..];
      var u := ReachOn(p, s, MainStep);
      u := ReachOn(p, u, MainStep);
      t := ForkAll(p, u);
    }
  }

  /** Whatever could join the first batch conflicts with a resource that batch has claimed. */
  lemma LeftOutConflicts<T>(g: WorkGraph<T>, running: set<NodeId>, y: NodeId)
    requires g.Valid() && Eligible(g, IDLE, y) && y !in ReadyList(g, IDLE)
    requires running == set x | x in ReadyList(g, IDLE)
    ensures !(Writes(g, y) !! Leases(g, running))
  {
    ReadyListIsSafeAndMaximal(g, IDLE);
    var z :| z in ReadyList(g, IDLE) && !(Writes(g, y) !! Writes(g, z));
    var r :| r in Writes(g, y) && r in Writes(g, z);
    assert z in running;
    assert r in Leases(g, running);
  }

  lemma NothingCanJoin<T>(g: WorkGraph<T>, st: RunState)
    requires g.Valid() && st == RunState({}, set x | x in ReadyList(g, IDLE), {})
    ensures ReadyList(g, st) == []
  {
    var next := ReadyList(g, st);
    assert next != [] ==> next[0] in next;
    ReadyListIsSafeAndMaximal(g, st);
    forall y ensures y !in next {
      assert Eligible(g, st, y) ==> Eligible(g, IDLE, y) && y !in ReadyList(g, IDLE);
      if Eligible(g, IDLE, y) && y !in ReadyList(g, IDLE) { LeftOutConflicts(g, st.running, y); }
    }
  }

  /** With the first batch running and nothing finished, the second plan is empty: no slot, or nothing can join. */
  lemma SecondBatchIsEmpty<T, A, E>(p: Problem<T, A, E>, st: RunState)
    requires p.graph.Valid() && st == RunState({}, set x | x in FirstBatch(p), {})
    ensures Batch(p, st) == []
  {
    var batch := FirstBatch(p);
    ReadyListIsSafeAndMaximal(p.graph, IDLE);
    TakeDistinct(ReadyList(p.graph, IDLE), p.concurrency);
    DistinctSize(batch);
    if Slots(p, st) > 0 {
      assert batch == ReadyList(p.graph, IDLE);
      NothingCanJoin(p.graph, st);
    }
  }

  lemma TakeDistinct(s: seq<NodeId>, n: int)
    requires Distinct(s)
    ensures Distinct(Take(s, n))
  {
  }

  lemma BusyFiber<T, A, E>(p: Problem<T, A, E>, f: map<NodeId, Fate<A, E>>, s: State<A, E>) returns (id: NodeId)
    requires Ready(p, f) && Inv(p, f, s) && s.main.Checking? && s.st.running != {}
    ensures CanStep(p, s, FiberStep(id))
  {
    id :| id in s.st.running;
    assert Pending(s.main) == [];
  }

  /** The fibers of a planned batch all run to their ends before the loop looks again. */
  lemma {:induction false} FinishAll<T, A, E>(p: Problem<T, A, E>, f: map<NodeId, Fate<A, E>>, s: State<A, E>)
    returns (t: State<A, E>)
    requires Ready(p, f) && Reachable(p, s) && s.main.Checking?
    ensures Reachable(p, t) && t.main.Checking? && t.fibers.Keys == s.fibers.Keys && t.st.running == {}
    decreases Work(p, s)
  {
    if s.st.running == {} {
      t := s;
    } else {
      ReachableInv(p, f, s);
      var id := BusyFiber(p, f, s);
      FiberStepWorks(p, f, s, id);
      var u := ReachOn(p, s, FiberStep(id));
      FiberStepKeepsKeys(p, s, id);
      t := FinishAll(p, f, u);
    }
  }

  lemma FiberStepKeepsKeys<T, A, E>(p: Problem<T, A, E>, s: State<A, E>, id: NodeId)
    requires CanStep(p, s, FiberStep(id))
    ensures DoFiber(p, s, id).fibers.Keys == s.fibers.Keys && DoFiber(p, s, id).main == s.main
  {
  }

  /** The first batch has started, and the loop has planned again before anything finished. */
  lemma StartedTwice<T, A, E>(p: Problem<T, A, E>) returns (s: State<A, E>)
    requires p.graph.Valid() && FirstBatch(p) != []
    ensures Reachable(p, s) && s.main.Checking? && s.fibers.Keys == (set x | x in FirstBatch(p))
  {
    InitialIsReachable<T, A, E>(p);
    s := Initial();
    s := ReachOn(p, s, MainStep);
    s := ReachOn(p, s, MainStep);
    s := ForkAll(p, s);
    s := ReachOn(p, s, MainStep);
    s := ReachOn(p, s, MainStep);
    s := ReachOn(p, s, MainStep);
    s := ReachOn(p, s, MainStep);
    SecondBatchIsEmpty(p, s.st);
    s := ReachOn(p, s, MainStep);
  }

  lemma IdleDrains<T, A, E>(p: Problem<T, A, E>, f: map<NodeId, Fate<A, E>>, s: State<A, E>) returns (t: State<A, E>)
    requires Ready(p, f) && Reachable(p, s) && s.main.Checking? && s.st.running == {}
    ensures Reachable(p, t) && t.main.Done? && t.fibers == s.fibers
  {
    t := ReachOn(p, s, MainStep);
    ReachableInv(p, f, t);
    forall id | id in t.live && id in t.fibers ensures t.fibers[id].Finished? {
      assert FiberOk(p, f, t.st, id, t.fibers[id]);
    }
    t := ReachOn(p, t, MainStep);
  }

  /** A node that was never started has an outcome only if something above it failed. */
  lemma NotStartedNotRecorded<T, A, E>(p: Problem<T, A, E>, f: map<NodeId, Fate<A, E>>, s: State<A, E>, x: NodeId)
    requires Ready(p, f) && OutcomesOk(p, f, s.st, s.fibers, s.outcomes) && x in p.graph.nodes && x !in s.fibers &&
      !f[x].Skipped?
    ensures x !in s.outcomes
  {
    if x in s.outcomes {
      assert OutcomeOk(p, f, s.st, s.fibers, s.outcomes, x);
      var cause := s.outcomes[x].cause;
      assert OutcomeOk(p, f, s.st, s.fibers, s.outcomes, cause);
      SkippedBelowAFailure(p, f, x);
      assert false;
    }
  }

  lemma SomethingIsReady<T, A, E>(p: Problem<T, A, E>)
    requires p.Runnable() && p.Tabled() && p.concurrency >= 1 && p.graph.nodes.Keys != {}
    ensures FirstBatch(p) != []
  {
    var x :| x in p.graph.nodes.Keys;
    assert x in Frontier(p.graph, IDLE);
    SettledIffNoFrontier(p, IDLE);
    if FirstBatch(p) == [] { NoBatchIsSettled(p, IDLE); }
  }

  /** A node that needs a second batch, although nothing upstream fails, is lost by some schedule. */
  lemma SecondBatchCanBeLost<T, A, E>(p: Problem<T, A, E>, f: map<NodeId, Fate<A, E>>, x: NodeId)
    returns (s: State<A, E>)
    requires p.Runnable() && p.concurrency >= 1 && Ready(p, f)
    requires x in p.graph.nodes && x !in FirstBatch(p) && !f[x].Skipped?
    ensures Reachable(p, s) && s.main.Done? && x !in s.outcomes
  {
    SomethingIsReady(p);
    s := StartedTwice(p);
    s := FinishAll(p, f, s);
    s := IdleDrains(p, f, s);
    ReachableInv(p, f, s);
    NotStartedNotRecorded(p, f, s, x);
  }

  // -------------------------------------------------------------------------
  // main result
  // -------------------------------------------------------------------------

  /**
    Every run of a graph reports every node if and only if each node is in the first batch or is skipped because
    something upstream fails. As soon as a second batch is needed, some schedule loses it.
  */
  lemma CompleteIffOneBatch<T(!new), A(!new), E(!new)>(p: Problem<T, A, E>, f: map<NodeId, Fate<A, E>>)
    requires p.Runnable() && p.concurrency >= 1 && Solves(p, f)
    ensures AlwaysComplete(p) <==> OneBatchIsEnough(p, f)
  {
    TablesHold(p);
    if OneBatchIsEnough(p, f) {
      forall s | Reachable(p, s) && s.main.Done? ensures CoversEverything(p, s) {
        EnoughIsComplete(p, f, s);
      }
    } else {
      var x :| x in p.graph.nodes && x in f && x !in FirstBatch(p) && !f[x].Skipped?;
      var s := SecondBatchCanBeLost(p, f, x);
      assert !CoversEverything(p, s);
    }
  }
}
