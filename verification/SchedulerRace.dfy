/**
  The two reads of the run state in the planning loop are separate operations. A fiber that finishes between them
  can make the loop stop although a node became ready.
*/
module SchedulerRace {
  import opened JsText
  import opened Dag
  import opened WorkGraphs
  import opened SchedulerModel
  import opened SchedulerTheorems
  import opened SchedulerCompleteness

  const A: NodeId := [97]
  const B: NodeId := [98]

  /** `B` depends on `A`; nothing is written; every node succeeds. */
  function Chain(): WorkGraph<()> {
    WorkGraph([A, B], map[A := WorkNode(A, (), [], []), B := WorkNode(B, (), [A], [])])
  }

  ghost function ChainProblem(): Problem<(), int, int> {
    Problem(Chain(), (node, upstream) => Right(0), 1, AboveTable(Chain().Full()), BelowTable(Chain().Full()))
  }

  lemma ChainIsRunnable()
    ensures ChainProblem().Runnable()
  {
    var e := Chain().Full();
    assert e[A] == {} && e[B] == {A};
    forall x ensures !OnCycle(e, x) {
      if OnCycle(e, x) {
        var d := FirstStep(e, x, x);
        assert x == B && d == A;
        var d2 := FirstStep(e, A, B);
      }
    }
  }

  lemma OnlyAIsReady()
    ensures Batch(ChainProblem(), RunState({}, {}, {})) == [A]
  {
    var g, st := Chain(), RunState({}, {}, {});
    assert g.keys[1..] == [B] && [B][1..] == [];
    assert A in g.nodes[B].dependsOn;
    assert !Eligible(g, st, B) && Eligible(g, st, A);
    assert ReadyScan(g, [B], st, Leases(g, {}) + Writes(g, A)) == [];
    assert ReadyScan(g, g.keys, st, Leases(g, {})) == [A];
    var ready := SortStrings([A]);
    assert ready[0] in ready;
    assert ready == [A];
  }

  const A_RUNS: RunState := RunState({}, {A}, {})

  lemma PlannedFirst() returns (s: State<int, int>)
    ensures Reachable(ChainProblem(), s)
    ensures s == State(IDLE, map[], map[], 0, map[], [], Planned(IDLE))
  {
    var p := ChainProblem();
    s := Initial();
    assert Follows(p, s, []) && RunFrom(p, s, []) == s;
    s := ReachOn(p, s, MainStep);
  }

  lemma AAdmitted() returns (s: State<int, int>)
    ensures Reachable(ChainProblem(), s)
    ensures s == State(A_RUNS, map[], map[], 0, map[], [], Starting([A]))
  {
    OnlyAIsReady();
    s := PlannedFirst();
    assert {} + (set x | x in [A]) == {A};
    s := ReachOn(ChainProblem(), s, MainStep);
  }

  lemma AForked() returns (s: State<int, int>)
    ensures Reachable(ChainProblem(), s)
    ensures s == State(A_RUNS, map[], map[], 0, map[A := Forked(map[])], [A], Starting([]))
  {
    var p := ChainProblem();
    s := AAdmitted();
    s := ReachOn(p, s, MainStep);
    assert UpstreamValues<int>(p.above, A, map[]) == map[];
    assert [A][1..] == [] && [] + [A] == [A];
    s := ReachOn(p, s, MainStep);
  }

  /** The loop has started `A` and has just read the run state to plan the next batch: there is no free slot. */
  lemma AStarted() returns (s: State<int, int>)
    ensures Reachable(ChainProblem(), s)
    ensures s == State(A_RUNS, map[], map[], 1, map[A := Forked(map[])], [A], Checking)
  {
    var p := ChainProblem();
    s := AForked();
    s := ReachOn(p, s, MainStep);
    s := ReachOn(p, s, MainStep);
    s := ReachOn(p, s, MainStep);
    s := ReachOn(p, s, MainStep);
    s := ReachOn(p, s, MainStep);
  }

  lemma AFinished() returns (s: State<int, int>)
    ensures Reachable(ChainProblem(), s)
    ensures s == State(RunState({A}, {}, {}), map[A := Completed(0)], map[A := 0], 1, map[A := Finished], [A], Checking)
  {
    var p := ChainProblem();
    s := AStarted();
    s := ReachOn(p, s, FiberStep(A));
    s := ReachOn(p, s, FiberStep(A));
    s := ReachOn(p, s, FiberStep(A));
    s := ReachOn(p, s, FiberStep(A));
  }

  /** With one slot and every node succeeding, this run is over without ever having started `B`. */
  lemma ARunCanLoseANode() returns (s: State<int, int>)
    ensures ChainProblem().Runnable() && ChainProblem().concurrency == 1
    ensures Reachable(ChainProblem(), s) && s.main.Done?
    ensures B in ChainProblem().graph.nodes && B !in s.outcomes
  {
    var p := ChainProblem();
    ChainIsRunnable();
    s := AFinished();
    s := ReachOn(p, s, MainStep);
    s := ReachOn(p, s, MainStep);
  }
}
