/** What holds in every state that any interleaving of the scheduler's steps can reach. */
module SchedulerSafety {
  import opened Common
  import opened Dag
  import opened WorkGraphs
  import opened SchedulerModel

  // -------------------------------------------------------------------------
  // the invariant, one concern at a time
  // -------------------------------------------------------------------------

  ghost predicate Disjoint(st: RunState) {
    st.done !! st.running && st.done !! st.blocked && st.running !! st.blocked
  }

  ghost predicate StatesOk(nodes: set<NodeId>, st: RunState) {
    Disjoint(st) && st.done + st.running + st.blocked <= nodes
  }

  /** Whatever runs or is done has everything above it done. */
  ghost predicate DepsOk(above: Table, st: RunState) {
    forall x {:trigger above[x]} :: x in above && (x in st.done || x in st.running) ==> above[x] <= st.done
  }

  /** Whatever is below a blocked node is blocked. */
  ghost predicate ClosedOk(below: Table, st: RunState) {
    forall x {:trigger below[x]} :: x in below && x in st.blocked ==> below[x] <= st.blocked
  }

  ghost predicate LeasesOk<T>(g: WorkGraph<T>, running: set<NodeId>) {
    forall x, y {:trigger Writes(g, x), Writes(g, y)} :: x in running && y in running && x != y ==>
      Writes(g, x) !! Writes(g, y)
  }

  ghost predicate Bounded(n: nat, concurrency: int) {
    n == 0 || n <= concurrency
  }

  /** The cascade read by the fiber of `id`, together with what is blocked by now, covers everything below `id`. */
  ghost predicate CascadeOk(below: Table, st: RunState, id: NodeId, cascade: set<NodeId>) {
    id in below && cascade <= below[id] <= cascade + st.blocked
  }

  ghost predicate FiberOk<T, A, E>(p: Problem<T, A, E>, f: map<NodeId, Fate<A, E>>, st: RunState, id: NodeId,
                                   fiber: Fiber<A, E>)
  {
    && id in f && id in p.above
    && (fiber.Finished? ==> id in st.done || id in st.blocked)
    && (!fiber.Finished? ==> id in st.running)
    && match fiber
       case Forked(upstream) => AllGood(p.above, f, id) && upstream == GoodValues(p.above, f, id)
       case Returned(r) => f[id] == Judge(r)
       case ValueStored(v) => f[id] == Good(v)
       case CompletionStored(v) => f[id] == Good(v)
       case CascadeRead(error, cascade) => f[id] == Bad(error) && CascadeOk(p.below, st, id, cascade)
       case FailureStored(error, cascade) => f[id] == Bad(error) && CascadeOk(p.below, st, id, cascade)
       case Finished => true
  }

  ghost predicate FibersOk<T, A, E>(p: Problem<T, A, E>, f: map<NodeId, Fate<A, E>>, st: RunState,
                                    fibers: map<NodeId, Fiber<A, E>>)
  {
    && (forall id {:trigger FiberOk(p, f, st, id, fibers[id])} :: id in fibers ==> FiberOk(p, f, st, id, fibers[id]))
    && (forall id {:trigger fibers[id]} :: id in st.done ==> id in fibers && fibers[id].Finished?)
  }

  ghost predicate HoldsValue<A, E>(st: RunState, fibers: map<NodeId, Fiber<A, E>>, x: NodeId) {
    x in st.done || (x in fibers && (fibers[x].ValueStored? || fibers[x].CompletionStored?))
  }

  ghost predicate ValuesOk<A, E>(f: map<NodeId, Fate<A, E>>, st: RunState, fibers: map<NodeId, Fiber<A, E>>,
                                 values: map<NodeId, A>)
  {
    forall x {:trigger x in values} {:trigger HoldsValue(st, fibers, x)} ::
      (x in values <==> HoldsValue(st, fibers, x)) && (x in values ==> x in f && f[x] == Good(values[x]))
  }

  /** `x` was put down as blocked by the failure of `cause`, which lies above it. */
  ghost predicate BlockedOk<A, E>(above: Table, st: RunState, fibers: map<NodeId, Fiber<A, E>>,
                                  outcomes: map<NodeId, Outcome<A, E>>, x: NodeId, cause: NodeId)
  {
    && x in above && cause in above[x] && cause in outcomes && outcomes[cause].Failed?
    && (x in st.blocked || (cause in fibers && fibers[cause].FailureStored? && x in fibers[cause].cascade))
  }

  ghost predicate OutcomeOk<T, A, E>(p: Problem<T, A, E>, f: map<NodeId, Fate<A, E>>, st: RunState,
                                     fibers: map<NodeId, Fiber<A, E>>,
                                     outcomes: map<NodeId, Outcome<A, E>>, x: NodeId)
    requires x in outcomes
  {
    && x in f
    && match outcomes[x]
       case Completed(v) => f[x] == Good(v) && x in fibers && (x in st.done || fibers[x].CompletionStored?)
       case Failed(error) => f[x] == Bad(error) && x in fibers && (x in st.blocked || fibers[x].FailureStored?)
       case Blocked(cause) => BlockedOk(p.above, st, fibers, outcomes, x, cause)
  }

  ghost predicate OutcomesOk<T, A, E>(p: Problem<T, A, E>, f: map<NodeId, Fate<A, E>>, st: RunState,
                                      fibers: map<NodeId, Fiber<A, E>>,
                                      outcomes: map<NodeId, Outcome<A, E>>)
  {
    && (forall x {:trigger OutcomeOk(p, f, st, fibers, outcomes, x)} :: x in outcomes ==>
        OutcomeOk(p, f, st, fibers, outcomes, x))
    && RecordedOk(st, fibers, outcomes)
  }

  /** Everything the run state or a fiber counts as settled has its outcome recorded. */
  ghost predicate RecordedOk<A, E>(st: RunState, fibers: map<NodeId, Fiber<A, E>>,
                                   outcomes: map<NodeId, Outcome<A, E>>)
  {
    && (forall x {:trigger x in st.done} :: x in st.done ==> x in outcomes && outcomes[x].Completed?)
    && (forall x {:trigger x in st.blocked} :: x in st.blocked ==> x in outcomes && !outcomes[x].Completed?)
    && (forall x {:trigger fibers[x]} :: x in fibers && fibers[x].CompletionStored? ==>
        x in outcomes && outcomes[x].Completed?)
    && (forall x {:trigger fibers[x]} :: x in fibers && fibers[x].FailureStored? ==>
          x in outcomes && outcomes[x].Failed? && SkipsRecorded(outcomes, fibers[x].cascade))
  }

  ghost predicate SkipsRecorded<A, E>(outcomes: map<NodeId, Outcome<A, E>>, cascade: set<NodeId>) {
    forall y {:trigger y in cascade} :: y in cascade ==> y in outcomes && !outcomes[y].Completed?
  }

  function Pending<A>(main: Main<A>): seq<NodeId> {
    match main
    case Starting(rest) => rest
    case Forking(id, _, rest) => [id] + rest
    case _ => []
  }

  /** A running node has an unfinished fiber or is about to get its fiber. */
  ghost predicate PendingOk<A, E>(st: RunState, fibers: map<NodeId, Fiber<A, E>>, pending: seq<NodeId>) {
    && Distinct(pending)
    && (forall x {:trigger x in pending} :: x in pending ==> x in st.running && x !in fibers)
    && (forall x {:trigger x in st.running} :: x in st.running ==>
        x in pending || (x in fibers && !fibers[x].Finished?))
  }

  /** What the planner saw can only be outdated in ways that do no harm. */
  ghost predicate SnapshotOk(st: RunState, fibers: set<NodeId>, seen: RunState) {
    && seen.done <= st.done <= seen.done + seen.running
    && st.running <= seen.running
    && seen.blocked <= st.blocked
    && fibers <= seen.done + seen.running + seen.blocked
  }

  ghost predicate MainOk<T, A, E>(p: Problem<T, A, E>, f: map<NodeId, Fate<A, E>>, s: State<A, E>) {
    match s.main
    case Planned(seen) => SnapshotOk(s.st, s.fibers.Keys, seen)
    case Forking(id, upstream, rest) => id in p.above && AllGood(p.above, f, id) &&
      upstream == GoodValues(p.above, f, id)
    case Peaking(n) => Bounded(n, p.concurrency)
    case Waiting => s.live != []
    case Draining(exit) => exit == s.st && s.st.running == {}
    case Done(exit) => exit == s.st && s.st.running == {}
    case _ => true
  }

  ghost predicate LiveOk<A, E>(fibers: map<NodeId, Fiber<A, E>>, live: seq<NodeId>) {
    && (forall x {:trigger x in live} :: x in live ==> x in fibers)
    && (forall x {:trigger fibers[x]} :: x in fibers && !fibers[x].Finished? ==> x in live)
  }

  ghost predicate Inv<T, A, E>(p: Problem<T, A, E>, f: map<NodeId, Fate<A, E>>, s: State<A, E>) {
    && StatesOk(p.graph.nodes.Keys, s.st)
    && DepsOk(p.above, s.st)
    && ClosedOk(p.below, s.st)
    && LeasesOk(p.graph, s.st.running)
    && Bounded(|s.st.running|, p.concurrency)
    && Bounded(s.peak, p.concurrency)
    && FibersOk(p, f, s.st, s.fibers)
    && ValuesOk(f, s.st, s.fibers, s.values)
    && OutcomesOk(p, f, s.st, s.fibers, s.outcomes)
    && PendingOk(s.st, s.fibers, Pending(s.main))
    && MainOk(p, f, s)
    && LiveOk(s.fibers, s.live)
  }

  lemma InitialInv<T, A, E>(p: Problem<T, A, E>, f: map<NodeId, Fate<A, E>>)
    ensures Inv(p, f, Initial())
  {
  }

  // -------------------------------------------------------------------------
  // steps of a fiber that leave the run state alone
  // -------------------------------------------------------------------------

  lemma FiberMoves<T, A, E>(p: Problem<T, A, E>, f: map<NodeId, Fate<A, E>>, st: RunState,
                            fibers: map<NodeId, Fiber<A, E>>,
                            id: NodeId, next: Fiber<A, E>)
    requires Disjoint(st) && FibersOk(p, f, st, fibers)
    requires id in fibers && !fibers[id].Finished? && FiberOk(p, f, st, id, next)
    ensures FibersOk(p, f, st, fibers[id := next])
  {
    assert FiberOk(p, f, st, id, fibers[id]);
    var fibers1 := fibers[id := next];
    forall x | x in fibers1 ensures FiberOk(p, f, st, x, fibers1[x]) {
      if x != id { assert FiberOk(p, f, st, x, fibers[x]); }
    }
  }

  lemma PendingKept<A, E>(st: RunState, fibers: map<NodeId, Fiber<A, E>>, pending: seq<NodeId>, live: seq<NodeId>,
                          id: NodeId, next: Fiber<A, E>)
    requires PendingOk(st, fibers, pending) && LiveOk(fibers, live)
    requires id in fibers && !fibers[id].Finished? && !next.Finished?
    ensures PendingOk(st, fibers[id := next], pending) && LiveOk(fibers[id := next], live)
  {
    forall x | x in fibers[id := next] && !fibers[id := next][x].Finished? ensures x in live {
      assert !fibers[x].Finished?;
    }
  }

  /** A change of `fibers[id]` that touches no recorded outcome keeps the outcomes in order. */
  lemma OutcomesKept<T, A, E>(p: Problem<T, A, E>, f: map<NodeId, Fate<A, E>>, st: RunState,
                              fibers: map<NodeId, Fiber<A, E>>,
                              outcomes: map<NodeId, Outcome<A, E>>, id: NodeId, next: Fiber<A, E>)
    requires OutcomesOk(p, f, st, fibers, outcomes)
    requires id in fibers && !fibers[id].CompletionStored? && !fibers[id].FailureStored?
    requires !next.CompletionStored? && !next.FailureStored?
    ensures OutcomesOk(p, f, st, fibers[id := next], outcomes)
  {
    var fibers1 := fibers[id := next];
    forall x | x in outcomes ensures OutcomeOk(p, f, st, fibers1, outcomes, x) {
      assert OutcomeOk(p, f, st, fibers, outcomes, x);
    }
    forall x | x in fibers1 && fibers1[x].FailureStored?
      ensures x in outcomes && outcomes[x].Failed? && SkipsRecorded(outcomes, fibers1[x].cascade)
    {
      assert fibers[x].FailureStored?;
    }
    forall x | x in fibers1 && fibers1[x].CompletionStored? ensures x in outcomes && outcomes[x].Completed? {
      assert fibers[x].CompletionStored?;
    }
  }

  lemma ValuesKept<A, E>(f: map<NodeId, Fate<A, E>>, st: RunState, fibers: map<NodeId, Fiber<A, E>>,
                         values: map<NodeId, A>, id: NodeId, next: Fiber<A, E>)
    requires ValuesOk(f, st, fibers, values) && id in fibers
    requires (fibers[id].ValueStored? || fibers[id].CompletionStored?) == (next.ValueStored? || next.CompletionStored?)
    ensures ValuesOk(f, st, fibers[id := next], values)
  {
    forall x ensures x in values <==> HoldsValue(st, fibers[id := next], x) {
      assert HoldsValue(st, fibers, x) == HoldsValue(st, fibers[id := next], x);
    }
  }

  /** A fiber that still runs is not waiting to be started, and a snapshot never lists it as new. */
  lemma MainKept<T, A, E>(p: Problem<T, A, E>, f: map<NodeId, Fate<A, E>>, s: State<A, E>, t: State<A, E>, id: NodeId)
    requires MainOk(p, f, s) && id in s.fibers && !s.fibers[id].Finished? && FiberOk(p, f, s.st, id, s.fibers[id])
    requires t.main == s.main && t.live == s.live && t.st == s.st && t.fibers.Keys == s.fibers.Keys
    ensures MainOk(p, f, t)
  {
  }

  lemma ReturnStep<T, A, E>(p: Problem<T, A, E>, f: map<NodeId, Fate<A, E>>, s: State<A, E>, id: NodeId)
    requires Solves(p, f) && Inv(p, f, s) && id in s.fibers && id in p.graph.nodes && s.fibers[id].Forked?
    ensures Inv(p, f, DoFiber(p, s, id))
  {
    assert FiberOk(p, f, s.st, id, s.fibers[id]);
    assert FateAt(p, f, id);
    var next := Returned(p.execute(p.graph.nodes[id], s.fibers[id].upstream));
    FiberMoves(p, f, s.st, s.fibers, id, next);
    OutcomesKept(p, f, s.st, s.fibers, s.outcomes, id, next);
    ValuesKept(f, s.st, s.fibers, s.values, id, next);
    FiberMoved(p, f, s, DoFiber(p, s, id), id, next);
  }

  lemma StoreValueStep<T, A, E>(p: Problem<T, A, E>, f: map<NodeId, Fate<A, E>>, s: State<A, E>, id: NodeId)
    requires Inv(p, f, s) && id in s.fibers && id in p.graph.nodes
    requires s.fibers[id].Returned? && s.fibers[id].result.Right?
    ensures Inv(p, f, DoFiber(p, s, id))
  {
    assert FiberOk(p, f, s.st, id, s.fibers[id]);
    var v := s.fibers[id].result.value;
    FiberMoves(p, f, s.st, s.fibers, id, ValueStored(v));
    OutcomesKept(p, f, s.st, s.fibers, s.outcomes, id, ValueStored(v));
    ValueAdded(f, s.st, s.fibers, s.values, id, v);
    FiberMoved(p, f, s, DoFiber(p, s, id), id, ValueStored(v));
  }

  lemma ValueAdded<A, E>(f: map<NodeId, Fate<A, E>>, st: RunState, fibers: map<NodeId, Fiber<A, E>>,
                         values: map<NodeId, A>, id: NodeId, v: A)
    requires ValuesOk(f, st, fibers, values) && id in f && f[id] == Good(v)
    ensures ValuesOk(f, st, fibers[id := ValueStored(v)], values[id := v])
  {
    var fibers1, values1 := fibers[id := ValueStored(v)], values[id := v];
    forall x ensures (x in values1 <==> HoldsValue(st, fibers1, x)) &&
      (x in values1 ==> x in f && f[x] == Good(values1[x])) {
      if x != id {
        assert HoldsValue(st, fibers, x) == HoldsValue(st, fibers1, x);
      }
    }
  }

  /** A running node has no outcome yet, and nothing above it has failed. */
  lemma RunningIsUnsettled<T, A, E>(p: Problem<T, A, E>, f: map<NodeId, Fate<A, E>>, s: State<A, E>, x: NodeId)
    requires Inv(p, f, s) && x in p.above
    requires x in s.st.running || (x !in s.st.done && x !in s.st.blocked && p.above[x] <= s.st.done)
    requires x in s.fibers ==> !s.fibers[x].CompletionStored? && !s.fibers[x].FailureStored?
    ensures x !in s.outcomes
  {
    assert x in s.outcomes ==> OutcomeOk(p, f, s.st, s.fibers, s.outcomes, x);
  }

  lemma StoreCompletionStep<T, A, E>(p: Problem<T, A, E>, f: map<NodeId, Fate<A, E>>, s: State<A, E>, id: NodeId)
    requires Inv(p, f, s) && id in s.fibers && id in p.graph.nodes && s.fibers[id].ValueStored?
    ensures Inv(p, f, DoFiber(p, s, id))
  {
    assert FiberOk(p, f, s.st, id, s.fibers[id]);
    var v := s.fibers[id].value;
    FiberMoves(p, f, s.st, s.fibers, id, CompletionStored(v));
    PendingKept(s.st, s.fibers, Pending(s.main), s.live, id, CompletionStored(v));
    RunningIsUnsettled(p, f, s, id);
    CompletionAdded(p, f, s.st, s.fibers, s.outcomes, id, v);
    ValuesKept(f, s.st, s.fibers, s.values, id, CompletionStored(v));
    MainKept(p, f, s, DoFiber(p, s, id), id);
  }

  lemma CompletionAdded<T, A, E>(p: Problem<T, A, E>, f: map<NodeId, Fate<A, E>>, st: RunState,
                                 fibers: map<NodeId, Fiber<A, E>>,
                                 outcomes: map<NodeId, Outcome<A, E>>, id: NodeId, v: A)
    requires OutcomesOk(p, f, st, fibers, outcomes) && id !in outcomes
    requires id in fibers && fibers[id].ValueStored? && id in f && f[id] == Good(v)
    ensures OutcomesOk(p, f, st, fibers[id := CompletionStored(v)], outcomes[id := Completed(v)])
  {
    var fibers1, outcomes1 := fibers[id := CompletionStored(v)], outcomes[id := Completed(v)];
    forall x | x in outcomes1 ensures OutcomeOk(p, f, st, fibers1, outcomes1, x) {
      if x != id { assert OutcomeOk(p, f, st, fibers, outcomes, x); }
    }
    forall x | x in fibers1 && fibers1[x].FailureStored?
      ensures x in outcomes1 && outcomes1[x].Failed? && SkipsRecorded(outcomes1, fibers1[x].cascade)
    {
      assert fibers[x].FailureStored? && SkipsRecorded(outcomes, fibers[x].cascade);
    }
    forall x | x in fibers1 && fibers1[x].CompletionStored? ensures x in outcomes1 && outcomes1[x].Completed? {
      if x != id { assert fibers[x].CompletionStored?; }
    }
  }

  lemma ReadCascadeStep<T, A, E>(p: Problem<T, A, E>, f: map<NodeId, Fate<A, E>>, s: State<A, E>, id: NodeId)
    requires WellFounded(p.above) && Converse(p.above, p.below) && Inv(p, f, s) && id in s.fibers && id in p.graph.nodes
    requires s.fibers[id].Returned? && s.fibers[id].result.Left?
    ensures Inv(p, f, DoFiber(p, s, id))
  {
    assert FiberOk(p, f, s.st, id, s.fibers[id]);
    NothingDoneBelow(p, s.st, id);
    var next := CascadeRead(s.fibers[id].result.error, Doomed(p.below, s.st, id));
    FiberMoves(p, f, s.st, s.fibers, id, next);
    OutcomesKept(p, f, s.st, s.fibers, s.outcomes, id, next);
    ValuesKept(f, s.st, s.fibers, s.values, id, next);
    FiberMoved(p, f, s, DoFiber(p, s, id), id, next);
  }

  /** A move of one fiber that does not touch the run state keeps the invariant if it keeps the parts on fibers. */
  lemma FiberMoved<T, A, E>(p: Problem<T, A, E>, f: map<NodeId, Fate<A, E>>, s: State<A, E>, t: State<A, E>, id: NodeId,
                            next: Fiber<A, E>)
    requires Inv(p, f, s) && id in s.fibers && !s.fibers[id].Finished? && !next.Finished?
    requires FiberOk(p, f, s.st, id, s.fibers[id])
    requires t == s.(fibers := s.fibers[id := next], values := t.values, outcomes := t.outcomes)
    requires FibersOk(p, f, s.st, t.fibers) && ValuesOk(f, s.st, t.fibers, t.values)
    requires OutcomesOk(p, f, s.st, t.fibers, t.outcomes)
    ensures Inv(p, f, t)
  {
    PendingKept(s.st, s.fibers, Pending(s.main), s.live, id, next);
    MainKept(p, f, s, t, id);
  }

  /** Below a node that is not done, nothing is done and nothing runs. */
  lemma NothingDoneBelow<T, A, E>(p: Problem<T, A, E>, st: RunState, id: NodeId)
    requires WellFounded(p.above) && Converse(p.above, p.below)
    requires DepsOk(p.above, st) && id in p.below && id !in st.done
    ensures p.below[id] !! st.done && p.below[id] !! st.running && id !in p.below[id]
  {
    forall x | x in p.below[id] ensures x !in st.done && x !in st.running && x != id {
      assert id in p.above[x];
    }
  }

  lemma StoreFailureStep<T, A, E>(p: Problem<T, A, E>, f: map<NodeId, Fate<A, E>>, s: State<A, E>, id: NodeId)
    requires WellFounded(p.above) && Converse(p.above, p.below) && f.Keys == p.above.Keys
    requires Inv(p, f, s) && id in s.fibers && id in p.graph.nodes && s.fibers[id].CascadeRead?
    ensures Inv(p, f, DoFiber(p, s, id))
  {
    assert FiberOk(p, f, s.st, id, s.fibers[id]);
    var error, cascade := s.fibers[id].error, s.fibers[id].cascade;
    var next := FailureStored(error, cascade);
    FiberMoves(p, f, s.st, s.fibers, id, next);
    NothingDoneBelow(p, s.st, id);
    RunningIsUnsettled(p, f, s, id);
    FailureAdded(p, f, s.st, s.fibers, s.outcomes, id, error, cascade);
    ValuesKept(f, s.st, s.fibers, s.values, id, next);
    FiberMoved(p, f, s, DoFiber(p, s, id), id, next);
  }

  lemma FailureAdded<T, A, E>(p: Problem<T, A, E>, f: map<NodeId, Fate<A, E>>, st: RunState,
                              fibers: map<NodeId, Fiber<A, E>>,
                              outcomes: map<NodeId, Outcome<A, E>>, id: NodeId, error: E, cascade: set<NodeId>)
    requires Converse(p.above, p.below) && f.Keys == p.above.Keys
    requires FibersOk(p, f, st, fibers) && OutcomesOk(p, f, st, fibers, outcomes) && id !in outcomes
    requires id in fibers && fibers[id] == CascadeRead(error, cascade) && id in f && f[id] == Bad(error)
    requires id in p.below && cascade <= p.below[id] && p.below[id] !! st.done && p.below[id] !! st.running
    ensures OutcomesOk(p, f, st, fibers[id := FailureStored(error, cascade)], WithFailure(outcomes, id, error, cascade))
  {
    var fibers1, outcomes1 := fibers[id := FailureStored(error, cascade)], WithFailure(outcomes, id, error, cascade);
    forall x | x in outcomes1 ensures OutcomeOk(p, f, st, fibers1, outcomes1, x) {
      if x in outcomes {
        assert OutcomeOk(p, f, st, fibers, outcomes, x);
      } else if x != id {
        assert x in p.below[id];
      }
    }
    forall y | y in cascade ensures y in outcomes1 && !outcomes1[y].Completed? {
      if y in outcomes && y != id {
        assert y in p.below[id];
        assert OutcomeOk(p, f, st, fibers, outcomes, y);
        assert y in fibers ==> FiberOk(p, f, st, y, fibers[y]);
      }
    }
    forall x | x in fibers1 && fibers1[x].FailureStored?
      ensures x in outcomes1 && outcomes1[x].Failed? && SkipsRecorded(outcomes1, fibers1[x].cascade)
    {
      if x != id { assert fibers[x].FailureStored? && SkipsRecorded(outcomes, fibers[x].cascade); }
    }
    forall x | x in fibers1 && fibers1[x].CompletionStored? ensures x in outcomes1 && outcomes1[x].Completed? {
      assert fibers[x].CompletionStored?;
    }
  }

  // -------------------------------------------------------------------------
  // the last step of a fiber
  // -------------------------------------------------------------------------

  lemma FinishedQueues<T, A, E>(p: Problem<T, A, E>, f: map<NodeId, Fate<A, E>>, s: State<A, E>, t: State<A, E>,
                                id: NodeId)
    requires Inv(p, f, s) && id in s.fibers && !s.fibers[id].Finished? && id in s.st.running
    requires t.main == s.main && t.live == s.live && t.fibers == s.fibers[id := Finished]
    requires t.st.running == s.st.running - {id} && s.st.done <= t.st.done <= s.st.done + {id} &&
      s.st.blocked <= t.st.blocked
    ensures PendingOk(t.st, t.fibers, Pending(t.main)) && LiveOk(t.fibers, t.live) && MainOk(p, f, t)
    ensures LeasesOk(p.graph, t.st.running) && Bounded(|t.st.running|, p.concurrency)
  {
    forall x | x in t.st.running ensures x in Pending(t.main) || (x in t.fibers && !t.fibers[x].Finished?) {
      assert x in s.st.running;
    }
    forall x | x in t.fibers && !t.fibers[x].Finished? ensures x in t.live {
      assert !s.fibers[x].Finished?;
    }
  }

  lemma FinishedFibers<T, A, E>(p: Problem<T, A, E>, f: map<NodeId, Fate<A, E>>, st: RunState, st1: RunState,
                                fibers: map<NodeId, Fiber<A, E>>, id: NodeId)
    requires FibersOk(p, f, st, fibers) && id in fibers && id in st.running
    requires st1.running == st.running - {id} && st.done <= st1.done <= st.done + {id} && st.blocked <= st1.blocked
    requires id in st1.done || id in st1.blocked
    ensures FibersOk(p, f, st1, fibers[id := Finished])
  {
    var fibers1 := fibers[id := Finished];
    forall x | x in fibers1 ensures FiberOk(p, f, st1, x, fibers1[x]) {
      assert FiberOk(p, f, st, x, fibers[x]);
    }
  }

  lemma FinishedValues<A, E>(f: map<NodeId, Fate<A, E>>, st: RunState, st1: RunState,
                             fibers: map<NodeId, Fiber<A, E>>, values: map<NodeId, A>, id: NodeId)
    requires ValuesOk(f, st, fibers, values) && id in fibers && id !in st.done
    requires st1.done == if fibers[id].CompletionStored? then st.done + {id} else st.done
    requires fibers[id].CompletionStored? || fibers[id].FailureStored?
    ensures ValuesOk(f, st1, fibers[id := Finished], values)
  {
    forall x ensures x in values <==> HoldsValue(st1, fibers[id := Finished], x) {
      assert HoldsValue(st, fibers, x) == HoldsValue(st1, fibers[id := Finished], x);
    }
  }

  lemma FinishCompletedStep<T, A, E>(p: Problem<T, A, E>, f: map<NodeId, Fate<A, E>>, s: State<A, E>, id: NodeId)
    requires Inv(p, f, s) && id in s.fibers && id in p.graph.nodes && s.fibers[id].CompletionStored?
    ensures Inv(p, f, DoFiber(p, s, id))
  {
    var t := DoFiber(p, s, id);
    assert FiberOk(p, f, s.st, id, s.fibers[id]);
    FinishedQueues(p, f, s, t, id);
    FinishedFibers(p, f, s.st, t.st, s.fibers, id);
    FinishedValues(f, s.st, t.st, s.fibers, s.values, id);
    FinishedOutcomes(p, f, s, t, id);
  }

  lemma FinishedOutcomes<T, A, E>(p: Problem<T, A, E>, f: map<NodeId, Fate<A, E>>, s: State<A, E>, t: State<A, E>,
                                  id: NodeId)
    requires OutcomesOk(p, f, s.st, s.fibers, s.outcomes) && id in s.fibers
    requires t.outcomes == s.outcomes && t.fibers == s.fibers[id := Finished]
    requires s.fibers[id].CompletionStored? || s.fibers[id].FailureStored?
    requires s.fibers[id].CompletionStored? ==> t.st.done == s.st.done + {id} && t.st.blocked == s.st.blocked
    requires s.fibers[id].FailureStored? ==>
      t.st.done == s.st.done && t.st.blocked == s.st.blocked + {id} + s.fibers[id].cascade
    ensures OutcomesOk(p, f, t.st, t.fibers, t.outcomes)
  {
    forall x | x in t.outcomes ensures OutcomeOk(p, f, t.st, t.fibers, t.outcomes, x) {
      assert OutcomeOk(p, f, s.st, s.fibers, s.outcomes, x);
    }
    forall x | x in t.st.blocked ensures x in t.outcomes && !t.outcomes[x].Completed? {
      assert s.fibers[id].FailureStored? ==> SkipsRecorded(s.outcomes, s.fibers[id].cascade);
    }
    forall x | x in t.fibers && t.fibers[x].FailureStored?
      ensures x in t.outcomes && t.outcomes[x].Failed? && SkipsRecorded(t.outcomes, t.fibers[x].cascade)
    {
      assert s.fibers[x].FailureStored?;
    }
    forall x | x in t.fibers && t.fibers[x].CompletionStored? ensures x in t.outcomes && t.outcomes[x].Completed? {
      assert s.fibers[x].CompletionStored?;
    }
  }

  lemma FinishFailedStep<T, A, E>(p: Problem<T, A, E>, f: map<NodeId, Fate<A, E>>, s: State<A, E>, id: NodeId)
    requires WellFounded(p.above) && Converse(p.above, p.below) && p.above.Keys == p.graph.nodes.Keys
    requires Inv(p, f, s) && id in s.fibers && id in p.graph.nodes && s.fibers[id].FailureStored?
    ensures Inv(p, f, DoFiber(p, s, id))
  {
    var t := DoFiber(p, s, id);
    assert FiberOk(p, f, s.st, id, s.fibers[id]);
    BlockingKeepsStates(p, s.st, id, s.fibers[id].cascade);
    FinishedQueues(p, f, s, t, id);
    FinishedFibers(p, f, s.st, t.st, s.fibers, id);
    FinishedValues(f, s.st, t.st, s.fibers, s.values, id);
    FinishedOutcomes(p, f, s, t, id);
  }

  lemma BlockingKeepsStates<T, A, E>(p: Problem<T, A, E>, st: RunState, id: NodeId, cascade: set<NodeId>)
    requires WellFounded(p.above) && Converse(p.above, p.below) && p.above.Keys == p.graph.nodes.Keys
    requires StatesOk(p.graph.nodes.Keys, st) && DepsOk(p.above, st) && ClosedOk(p.below, st)
    requires id in st.running && CascadeOk(p.below, st, id, cascade)
    ensures var st1 := RunState(st.done, st.running - {id}, st.blocked + {id} + cascade);
            StatesOk(p.graph.nodes.Keys, st1) && DepsOk(p.above, st1) && ClosedOk(p.below, st1)
  {
    NothingDoneBelow(p, st, id);
    BelowIsTransitive(p, id);
    ClosedAfterBlocking(p.below, st, id, cascade);
  }

  lemma ClosedAfterBlocking(below: Table, st: RunState, id: NodeId, cascade: set<NodeId>)
    requires ClosedOk(below, st) && CascadeOk(below, st, id, cascade)
    requires forall x {:trigger below[x]} :: x in below[id] ==> x in below && below[x] <= below[id]
    ensures ClosedOk(below, RunState(st.done, st.running - {id}, st.blocked + {id} + cascade))
  {
    var blocked1 := st.blocked + {id} + cascade;
    forall x | x in below && x in blocked1 ensures below[x] <= blocked1 {
      assert x in cascade ==> below[x] <= below[id];
    }
  }

  lemma BelowIsTransitive<T, A, E>(p: Problem<T, A, E>, id: NodeId)
    requires WellFounded(p.above) && Converse(p.above, p.below) && id in p.below
    ensures forall x {:trigger p.below[x]} :: x in p.below[id] ==> x in p.below && p.below[x] <= p.below[id]
    ensures p.below[id] <= p.above.Keys
  {
    forall x, y | x in p.below[id] && x in p.below && y in p.below[x] ensures y in p.below[id] {
      assert id in p.above[x] && x in p.above[y];
    }
  }

  // -------------------------------------------------------------------------
  // steps of the planning loop
  // -------------------------------------------------------------------------

  lemma QuietMainStep<T, A, E>(p: Problem<T, A, E>, f: map<NodeId, Fate<A, E>>, s: State<A, E>)
    requires Inv(p, f, s) && CanStep(p, s, MainStep)
    requires !s.main.Top? && !s.main.Forking? && !s.main.Waiting?
    requires s.main.Starting? ==> s.main.rest == []
    requires s.main.Planned? ==> Batch(p, s.main.seen) == []
    ensures Inv(p, f, DoMain(p, s))
  {
    if s.main.Checking? && s.st.running != {} {
      var x :| x in s.st.running;
      assert x in s.fibers && !s.fibers[x].Finished?;
    }
  }

  lemma SnapshotStep<T, A, E>(p: Problem<T, A, E>, f: map<NodeId, Fate<A, E>>, s: State<A, E>)
    requires Inv(p, f, s) && s.main.Top?
    ensures Inv(p, f, DoMain(p, s))
  {
    forall x | x in s.fibers ensures x in s.st.done + s.st.running + s.st.blocked {
      assert FiberOk(p, f, s.st, x, s.fibers[x]);
    }
  }

  lemma JoinStep<T, A, E>(p: Problem<T, A, E>, f: map<NodeId, Fate<A, E>>, s: State<A, E>)
    requires Inv(p, f, s) && CanStep(p, s, MainStep) && s.main.Waiting?
    ensures Inv(p, f, DoMain(p, s))
  {
    assert s.live == [s.live[0]] + s.live[1..];
    forall x | x in s.live[1..] ensures x in s.fibers {
      assert x in s.live;
    }
    forall x | x in s.fibers && !s.fibers[x].Finished? ensures x in s.live[1..] {
      assert x in s.live && x != s.live[0];
    }
  }

  /** When a node is about to start, every value above it is there and is the right one. */
  lemma UpstreamIsComplete<A, E>(above: Table, f: map<NodeId, Fate<A, E>>, st: RunState,
                                 fibers: map<NodeId, Fiber<A, E>>,
                                 values: map<NodeId, A>, x: NodeId)
    requires DepsOk(above, st) && ValuesOk(f, st, fibers, values) && x in above && x in st.running
    ensures AllGood(above, f, x) && UpstreamValues(above, x, values) == GoodValues(above, f, x)
    ensures UpstreamValues(above, x, values).Keys == above[x]
  {
    forall a | a in above[x] ensures a in values && a in f && f[a] == Good(values[a]) {
      assert a in st.done;
      assert HoldsValue(st, fibers, a);
    }
  }

  lemma ReadUpstreamStep<T, A, E>(p: Problem<T, A, E>, f: map<NodeId, Fate<A, E>>, s: State<A, E>)
    requires Inv(p, f, s) && p.above.Keys == p.graph.nodes.Keys && s.main.Starting? && s.main.rest != []
    ensures Inv(p, f, DoMain(p, s))
  {
    var x := s.main.rest[0];
    assert x in Pending(s.main);
    UpstreamIsComplete(p.above, f, s.st, s.fibers, s.values, x);
    assert Pending(DoMain(p, s).main) == Pending(s.main);
  }

  lemma ForkStep<T, A, E>(p: Problem<T, A, E>, f: map<NodeId, Fate<A, E>>, s: State<A, E>)
    requires Inv(p, f, s) && f.Keys == p.above.Keys && s.main.Forking?
    ensures Inv(p, f, DoMain(p, s))
  {
    var t := DoMain(p, s);
    var id := s.main.id;
    assert id in Pending(s.main);
    ForkedFibers(p, f, s, t);
    ForkedQueues(p, s, t);
    ForkedOutcomes(p, f, s, t);
  }

  lemma ForkedFibers<T, A, E>(p: Problem<T, A, E>, f: map<NodeId, Fate<A, E>>, s: State<A, E>, t: State<A, E>)
    requires s.main.Forking? && t == DoMain(p, s) && MainOk(p, f, s) && f.Keys == p.above.Keys
    requires s.main.id in s.st.running && s.main.id !in s.fibers && s.main.id !in s.st.done
    requires FibersOk(p, f, s.st, s.fibers) && ValuesOk(f, s.st, s.fibers, s.values)
    ensures FibersOk(p, f, t.st, t.fibers) && ValuesOk(f, t.st, t.fibers, t.values)
  {
    forall x | x in t.fibers ensures FiberOk(p, f, t.st, x, t.fibers[x]) {
      if x != s.main.id { assert FiberOk(p, f, s.st, x, s.fibers[x]); }
    }
    forall x ensures x in t.values <==> HoldsValue(t.st, t.fibers, x) {
      assert HoldsValue(t.st, t.fibers, x) == HoldsValue(s.st, s.fibers, x);
    }
  }

  lemma ForkedQueues<T, A, E>(p: Problem<T, A, E>, s: State<A, E>, t: State<A, E>)
    requires s.main.Forking? && t == DoMain(p, s)
    requires PendingOk(s.st, s.fibers, Pending(s.main)) && LiveOk(s.fibers, s.live)
    ensures PendingOk(t.st, t.fibers, Pending(t.main)) && LiveOk(t.fibers, t.live)
  {
    var id := s.main.id;
    var pending := Pending(s.main);
    forall x | x in t.st.running ensures x in Pending(t.main) || (x in t.fibers && !t.fibers[x].Finished?) {
      assert x in s.st.running;
    }
    forall x | x in Pending(t.main) ensures x in t.st.running && x !in t.fibers {
      assert x in pending;
      var k :| 0 <= k < |s.main.rest| && s.main.rest[k] == x;
      assert pending[k + 1] == x && pending[0] == id;
    }
    forall i, j | 0 <= i < j < |s.main.rest| ensures s.main.rest[i] != s.main.rest[j] {
      assert pending[i + 1] != pending[j + 1];
    }
    forall x | x in t.fibers && !t.fibers[x].Finished? ensures x in t.live {
      if x != id { assert !s.fibers[x].Finished?; }
    }
  }

  lemma ForkedOutcomes<T, A, E>(p: Problem<T, A, E>, f: map<NodeId, Fate<A, E>>, s: State<A, E>, t: State<A, E>)
    requires s.main.Forking? && t == DoMain(p, s) && s.main.id !in s.fibers
    requires OutcomesOk(p, f, s.st, s.fibers, s.outcomes)
    ensures OutcomesOk(p, f, t.st, t.fibers, t.outcomes)
  {
    forall x | x in t.outcomes ensures OutcomeOk(p, f, t.st, t.fibers, t.outcomes, x) {
      assert OutcomeOk(p, f, s.st, s.fibers, s.outcomes, x);
    }
    forall x | x in t.fibers && t.fibers[x].FailureStored?
      ensures x in t.outcomes && t.outcomes[x].Failed? && SkipsRecorded(t.outcomes, t.fibers[x].cascade)
    {
      assert s.fibers[x].FailureStored?;
    }
    forall x | x in t.fibers && t.fibers[x].CompletionStored? ensures x in t.outcomes && t.outcomes[x].Completed? {
      assert s.fibers[x].CompletionStored?;
    }
  }

  // -------------------------------------------------------------------------
  // starting a batch planned from an outdated snapshot
  // -------------------------------------------------------------------------

  lemma EligibleIsClear<T, A, E>(p: Problem<T, A, E>, st: RunState, seen: RunState, x: NodeId)
    requires ListsDependencies(p.graph, p.above) && DepsOk(p.above, st) && seen.done <= st.done
    requires Eligible(p.graph, seen, x) && x in p.above
    ensures p.above[x] <= st.done
  {
    forall a | a in p.above[x] ensures a in st.done {
      if a !in p.graph.nodes[x].dependsOn {
        var d :| d in p.graph.nodes[x].dependsOn && d in p.above && a in p.above[d];
        assert p.above[d] <= st.done;
      }
    }
  }

  lemma EligibleIsUntouched<T, A, E>(p: Problem<T, A, E>, f: map<NodeId, Fate<A, E>>, s: State<A, E>, x: NodeId)
    requires OutcomesOk(p, f, s.st, s.fibers, s.outcomes) && Disjoint(s.st) && s.main.Planned?
    requires SnapshotOk(s.st, s.fibers.Keys, s.main.seen)
    requires Eligible(p.graph, s.main.seen, x) && x in p.above && p.above[x] <= s.st.done
    ensures x !in s.st.done && x !in s.st.running && x !in s.st.blocked && x !in s.fibers
  {
    assert x in s.st.blocked ==> x in s.outcomes && OutcomeOk(p, f, s.st, s.fibers, s.outcomes, x);
  }

  lemma BatchIsSafe<T, A, E>(p: Problem<T, A, E>, seen: RunState)
    requires p.graph.Valid()
    ensures SafeBatch(p.graph, seen, Leases(p.graph, seen.running), Batch(p, seen))
    ensures Batch(p, seen) != [] ==> |seen.running| + |Batch(p, seen)| <= p.concurrency
  {
    ReadyListIsSafeAndMaximal(p.graph, seen);
    var ready, batch := ReadyList(p.graph, seen), Batch(p, seen);
    assert batch <= ready;
  }

  lemma AdmittedStates<T, A, E>(p: Problem<T, A, E>, f: map<NodeId, Fate<A, E>>, s: State<A, E>)
    requires p.graph.Valid() && ListsDependencies(p.graph, p.above) && p.above.Keys == p.graph.nodes.Keys
    requires StatesOk(p.graph.nodes.Keys, s.st) && DepsOk(p.above, s.st) && OutcomesOk(p, f, s.st, s.fibers, s.outcomes)
    requires s.main.Planned? && SnapshotOk(s.st, s.fibers.Keys, s.main.seen)
    ensures forall x {:trigger x in Batch(p, s.main.seen)} :: x in Batch(p, s.main.seen) ==>
      && x in p.above && p.above[x] <= s.st.done
      && x !in s.st.done && x !in s.st.running && x !in s.st.blocked && x !in s.fibers
    ensures Distinct(Batch(p, s.main.seen))
  {
    var batch := Batch(p, s.main.seen);
    BatchIsSafe(p, s.main.seen);
    forall x | x in batch
      ensures x in p.above && p.above[x] <= s.st.done
      ensures x !in s.st.done && x !in s.st.running && x !in s.st.blocked && x !in s.fibers
    {
      assert Eligible(p.graph, s.main.seen, x);
      EligibleIsClear(p, s.st, s.main.seen, x);
      EligibleIsUntouched(p, f, s, x);
    }
  }

  lemma AdmittedLeases<T, A, E>(p: Problem<T, A, E>, s: State<A, E>, t: State<A, E>)
    requires p.graph.Valid() && s.main.Planned? && Batch(p, s.main.seen) != [] && t == DoMain(p, s)
    requires LeasesOk(p.graph, s.st.running) && SnapshotOk(s.st, s.fibers.Keys, s.main.seen)
    ensures LeasesOk(p.graph, t.st.running) && Bounded(|t.st.running|, p.concurrency)
  {
    var seen := s.main.seen;
    var batch := Batch(p, seen);
    BatchIsSafe(p, seen);
    forall x, y | x in batch && y in s.st.running ensures Writes(p.graph, x) !! Writes(p.graph, y) {
      assert y in seen.running;
      assert Writes(p.graph, y) <= Leases(p.graph, seen.running);
    }
    SubsetSize(s.st.running, seen.running);
    DistinctSize(batch);
    UnionSize(s.st.running, set x | x in batch);
  }

  lemma UnionSize<X>(a: set<X>, b: set<X>)
    ensures |a + b| <= |a| + |b|
  {
    assert a + b == a + (b - a);
    SubsetSize(b - a, b);
  }

  lemma AdmitStep<T, A, E>(p: Problem<T, A, E>, f: map<NodeId, Fate<A, E>>, s: State<A, E>)
    requires p.graph.Valid() && ListsDependencies(p.graph, p.above) && p.above.Keys == p.graph.nodes.Keys
    requires Inv(p, f, s) && s.main.Planned? && Batch(p, s.main.seen) != []
    ensures Inv(p, f, DoMain(p, s))
  {
    AdmittedStates(p, f, s);
    AdmittedLeases(p, s, DoMain(p, s));
    AdmittedSets(p, s.st, Batch(p, s.main.seen));
    AdmittedRest(p, f, s, DoMain(p, s));
  }

  lemma AdmittedSets<T, A, E>(p: Problem<T, A, E>, st: RunState, batch: seq<NodeId>)
    requires p.above.Keys == p.graph.nodes.Keys && StatesOk(p.graph.nodes.Keys, st) && DepsOk(p.above, st)
    requires forall x {:trigger x in batch} :: x in batch ==>
      x in p.above && p.above[x] <= st.done && x !in st.done && x !in st.running && x !in st.blocked
    ensures var st1 := st.(running := st.running + set x | x in batch);
            StatesOk(p.graph.nodes.Keys, st1) && DepsOk(p.above, st1)
  {
  }

  lemma AdmittedRest<T, A, E>(p: Problem<T, A, E>, f: map<NodeId, Fate<A, E>>, s: State<A, E>, t: State<A, E>)
    requires FibersOk(p, f, s.st, s.fibers) && ValuesOk(f, s.st, s.fibers, s.values) &&
      OutcomesOk(p, f, s.st, s.fibers, s.outcomes)
    requires PendingOk(s.st, s.fibers, Pending(s.main))
    requires s.main.Planned? && Batch(p, s.main.seen) != [] && t == DoMain(p, s)
    requires Distinct(Batch(p, s.main.seen)) &&
      forall x {:trigger x in Batch(p, s.main.seen)} :: x in Batch(p, s.main.seen) ==> x !in s.fibers
    ensures FibersOk(p, f, t.st, t.fibers) && ValuesOk(f, t.st, t.fibers, t.values) &&
      OutcomesOk(p, f, t.st, t.fibers, t.outcomes)
    ensures PendingOk(t.st, t.fibers, Pending(t.main))
  {
    forall x | x in t.fibers ensures FiberOk(p, f, t.st, x, t.fibers[x]) {
      assert FiberOk(p, f, s.st, x, s.fibers[x]);
    }
    forall x ensures x in t.values <==> HoldsValue(t.st, t.fibers, x) {
      assert HoldsValue(t.st, t.fibers, x) == HoldsValue(s.st, s.fibers, x);
    }
    forall x | x in t.outcomes ensures OutcomeOk(p, f, t.st, t.fibers, t.outcomes, x) {
      assert OutcomeOk(p, f, s.st, s.fibers, s.outcomes, x);
    }
    forall x | x in t.st.running ensures x in Pending(t.main) || (x in t.fibers && !t.fibers[x].Finished?) {
      assert x in s.st.running || x in Pending(t.main);
    }
  }
}
