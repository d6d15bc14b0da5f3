/** Whole concurrent runs of `app/wiki/postgres.py`: they are serial runs in commit order, and they never deadlock. */
module WikiSerializable {
  import opened WikiDomain
  import opened WikiStore
  import opened WikiInvariants
  import opened WikiRuns
  import opened WikiPostgres
  import opened WikiRefinement

  // -------------------------------------------------------------------------
  // histories that grow at the end
  // -------------------------------------------------------------------------

  lemma {:induction false} OneMoreOp(s: Store, ops: seq<Op>, op: Op)
    ensures RunOps(s, ops + [op]) == Apply(RunOps(s, ops), op)
    decreases |ops|
  {
    if ops == [] {
      assert ops + [op] == [op];
      assert RunOps(Apply(s, op), [op][1..]) == Apply(s, op);
    } else {
      assert (ops + [op])[0] == ops[0] && (ops + [op])[1..] == ops[1..] + [op];
      OneMoreOp(Apply(s, ops[0]), ops[1..], op);
    }
  }

  lemma {:induction false} OneMoreFresh(s: Store, ops: seq<Op>, op: Op)
    requires FreshRun(s, ops)
    requires op.Do? && AcceptedAnew(RunOps(s, ops), op.c) ==> Fresh(RunOps(s, ops), op.c)
    ensures FreshRun(s, ops + [op])
    decreases |ops|
  {
    if ops == [] {
      assert ops + [op] == [op];
      assert FreshRun(Apply(s, op), [op][1..]);
    } else {
      assert (ops + [op])[0] == ops[0] && (ops + [op])[1..] == ops[1..] + [op];
      OneMoreFresh(Apply(s, ops[0]), ops[1..], op);
    }
  }

  // -------------------------------------------------------------------------
  // every step
  // -------------------------------------------------------------------------

  ghost predicate TxnsOk(db: Tables, txns: map<TxnId, Txn>) {
    forall t {:trigger txns[t]} :: t in txns ==> TxnOk(db, txns[t])
  }

  ghost predicate AllExclusive(hash: string -> int, txns: map<TxnId, Txn>) {
    forall t, u {:trigger txns[t], txns[u]} :: t in txns && u in txns && t != u ==> Exclusive(hash, txns[t], txns[u])
  }

  /** The serial store that the log so far leads to. */
  function Serial(sys: System): Store {
    RunOps(EMPTY, sys.log)
  }

  ghost predicate SystemOk(hash: string -> int, sys: System) {
    && StoreOk(Serial(sys)) && Represents(sys.db, Serial(sys)) && FreshRun(EMPTY, sys.log)
    && TxnsOk(sys.db, sys.txns) && AllExclusive(hash, sys.txns)
  }

  lemma ReplaceKeepsExclusive(hash: string -> int, txns: map<TxnId, Txn>, t: TxnId, next: Txn)
    requires AllExclusive(hash, txns)
    requires forall u :: u in txns && u != t ==> Exclusive(hash, next, txns[u])
    ensures AllExclusive(hash, txns[t := next])
  {
    var after := txns[t := next];
    forall a, b | a in after && b in after && a != b ensures Exclusive(hash, after[a], after[b]) {
      if b == t { ExclusiveBothWays(hash, next, txns[a]); }
    }
  }

  lemma BeginKeepsOk(hash: string -> int, sys: System, t: TxnId, c: Command)
    requires SystemOk(hash, sys) && t !in sys.txns
    ensures SystemOk(hash, DoStep(sys, Begin(t, c)))
  {
    ReplaceKeepsExclusive(hash, sys.txns, t, Txn(c, Begun, NOTHING));
  }

  lemma AbortKeepsOk(hash: string -> int, sys: System, t: TxnId)
    requires SystemOk(hash, sys) && t in sys.txns
    ensures SystemOk(hash, DoStep(sys, Abort(t)))
  {
    EndedOk(sys.db, sys.txns[t], Broken);
    ReplaceKeepsExclusive(hash, sys.txns, t, End(sys.txns[t], Broken));
  }

  lemma ResolveKeepsSystem(hash: string -> int, sys: System, effectId: string, effectType: EffectType, at: int)
    requires SystemOk(hash, sys)
    ensures SystemOk(hash, DoStep(sys, ResolveNow(effectId, effectType, at)))
  {
    var op := Settle(effectId, effectType, at);
    OneMoreOp(EMPTY, sys.log, op);
    OneMoreFresh(EMPTY, sys.log, op);
    ResolveKeepsOk(Serial(sys), effectId, effectType, at);
    ResolveRefines(sys.db, Serial(sys), effectId, effectType, at);
    var after := DoStep(sys, ResolveNow(effectId, effectType, at));
    forall t | t in after.txns ensures TxnOk(after.db, after.txns[t]) {
      OutboxIsNotRead(sys.db, after.db, sys.txns[t]);
    }
  }

  lemma OutboxIsNotRead(db: Tables, after: Tables, txn: Txn)
    requires TxnOk(db, txn) && after == db.(outbox := after.outbox)
    ensures TxnOk(after, txn)
  {
  }

  lemma StatementExclusive(hash: string -> int, sys: System, t: TxnId)
    requires SystemOk(hash, sys) && CanStep(hash, sys, Statement(t))
    ensures AllExclusive(hash, sys.txns[t := NextTxn(sys.db, sys.txns[t])])
  {
    var next := NextTxn(sys.db, sys.txns[t]);
    forall u | u in sys.txns && u != t ensures Exclusive(hash, next, sys.txns[u]) {
      StatementKeepsExclusive(hash, sys.db, sys.txns[t], sys.txns[u]);
    }
    ReplaceKeepsExclusive(hash, sys.txns, t, next);
  }

  lemma StatementKeepsOk(hash: string -> int, sys: System, t: TxnId)
    requires SystemOk(hash, sys) && CanStep(hash, sys, Statement(t)) && !sys.txns[t].phase.ReceiptWritten?
    ensures SystemOk(hash, DoStep(sys, Statement(t)))
  {
    StatementKeepsTxn(sys.db, Serial(sys), sys.txns[t]);
    StatementExclusive(hash, sys, t);
  }

  lemma CommitKeepsTxns(hash: string -> int, db: Tables, txns: map<TxnId, Txn>, t: TxnId)
    requires TxnsOk(db, txns) && AllExclusive(hash, txns) && t in txns && txns[t].phase.ReceiptWritten?
    ensures TxnsOk(Merge(db, txns[t].writes), txns[t := NextTxn(db, txns[t])])
  {
    var txn, after := txns[t], Merge(db, txns[t].writes);
    EndedOk(after, txn, Committed(ReceiptOf(txn.c, txn.phase.d, txn.phase.page)));
    forall u | u in txns && u != t ensures TxnOk(after, txns[u]) {
      CommitKeepsOthers(hash, db, txn, txns[u]);
    }
  }

  /** What a transaction answers, next to what the serial store answers. */
  ghost predicate AnswersAlike(result: TxnResult, s: Store, c: Command, after: Store) {
    match result
    case Committed(receipt) => AcceptedAnew(s, c) && Execute(s, c) == (after, Success(receipt))
    case Replayed(receipt) => Execute(s, c) == (s, Success(receipt)) && after == s
    case Rejected(error) => Execute(s, c) == (s, Failure(error)) && after == s && error != StreamConflict
    case Broken => after == s
  }

  /** A commit adds one fresh command to the log, and the tables follow the serial store. */
  lemma CommitIsSerial(hash: string -> int, sys: System, t: TxnId)
    requires SystemOk(hash, sys) && t in sys.txns && sys.txns[t].phase.ReceiptWritten?
    ensures var txn, after := sys.txns[t], DoStep(sys, Statement(t));
            && AnswersAlike(Committed(ReceiptOf(txn.c, txn.phase.d, txn.phase.page)), Serial(sys), txn.c, Serial(after))
            && FreshRun(EMPTY, after.log) && StoreOk(Serial(after)) && Represents(after.db, Serial(after))
  {
    var txn := sys.txns[t];
    CommitRefines(sys.db, Serial(sys), txn);
    OneMoreOp(EMPTY, sys.log, Do(txn.c));
    OneMoreFresh(EMPTY, sys.log, Do(txn.c));
    AcceptKeepsOk(Serial(sys), txn.c);
  }

  lemma CommitKeepsOk(hash: string -> int, sys: System, t: TxnId)
    requires SystemOk(hash, sys) && CanStep(hash, sys, Statement(t)) && sys.txns[t].phase.ReceiptWritten?
    ensures SystemOk(hash, DoStep(sys, Statement(t)))
  {
    CommitIsSerial(hash, sys, t);
    StatementExclusive(hash, sys, t);
    CommitKeepsTxns(hash, sys.db, sys.txns, t);
  }

  lemma StepKeepsOk(hash: string -> int, sys: System, step: Step)
    requires SystemOk(hash, sys) && CanStep(hash, sys, step)
    ensures SystemOk(hash, DoStep(sys, step))
  {
    match step {
      case Begin(t, c) => BeginKeepsOk(hash, sys, t, c);
      case Statement(t) =>
        if sys.txns[t].phase.ReceiptWritten? { CommitKeepsOk(hash, sys, t); } else { StatementKeepsOk(hash, sys, t); }
      case Abort(t) => AbortKeepsOk(hash, sys, t);
      case ResolveNow(effectId, effectType, at) => ResolveKeepsSystem(hash, sys, effectId, effectType, at);
    }
  }

  lemma {:induction false} StepsKeepOk(hash: string -> int, sys: System, steps: seq<Step>)
    requires SystemOk(hash, sys) && Follows(hash, sys, steps)
    ensures SystemOk(hash, RunSteps(sys, steps))
    decreases |steps|
  {
    if steps != [] {
      StepKeepsOk(hash, sys, steps[0]);
      StepsKeepOk(hash, DoStep(sys, steps[0]), steps[1..]);
    }
  }

  lemma StartIsOk(hash: string -> int)
    ensures SystemOk(hash, START)
  {
    assert forall p, i :: !At(EMPTY, p, i);
  }

  // -------------------------------------------------------------------------
  // main results
  // -------------------------------------------------------------------------

  /**
    However the statements, commits, aborts and outbox updates of any number of transactions interleave, the tables
    hold what the serial store holds after the committed commands (and the outbox updates) in commit order. That
    serial store is in order, and every commit was one of a command with unused ids. Two different command ids may
    hash to the same advisory lock.
  */
  lemma RunsAreSerial(hash: string -> int, steps: seq<Step>)
    requires Follows(hash, START, steps)
    ensures var sys := RunSteps(START, steps);
            && Represents(sys.db, RunOps(EMPTY, sys.log))
            && StoreOk(RunOps(EMPTY, sys.log))
            && FreshRun(EMPTY, sys.log)
  {
    StartIsOk(hash);
    StepsKeepOk(hash, START, steps);
  }

  ghost predicate Reachable(hash: string -> int, sys: System) {
    exists steps :: Follows(hash, START, steps) && sys == RunSteps(START, steps)
  }

  lemma ReachableIsOk(hash: string -> int, sys: System)
    requires Reachable(hash, sys)
    ensures SystemOk(hash, sys)
  {
    var steps :| Follows(hash, START, steps) && sys == RunSteps(START, steps);
    StartIsOk(hash);
    StepsKeepOk(hash, START, steps);
  }

  ghost predicate StepAnswers(sys: System, phase: Phase, c: Command, result: TxnResult, after: System) {
    && AnswersAlike(result, Serial(sys), c, Serial(after))
    && (result.Committed? ==> after.log == sys.log + [Do(c)])
    && (!result.Committed? ==> after.db == sys.db && after.log == sys.log)
    && (result.Broken? <==> phase.Decided? && !Fresh(Serial(sys), c))
  }

  lemma EndsAlike(db: Tables, s: Store, txn: Txn, result: TxnResult)
    requires StoreOk(s) && Represents(db, s) && TxnOk(db, txn) && !txn.phase.Ended? && !txn.phase.ReceiptWritten?
    requires NextTxn(db, txn).phase == Ended(result)
    ensures AnswersAlike(result, s, txn.c, s) && !result.Committed?
  {
    EndsLikeSerial(db, s, txn);
  }

  lemma CommitResult(db: Tables, txn: Txn)
    requires txn.phase.ReceiptWritten?
    ensures NextTxn(db, txn).phase == Ended(Committed(ReceiptOf(txn.c, txn.phase.d, txn.phase.page)))
  {
  }

  /**
    The caller of a transaction gets the answer that the serial store gives at that moment: the receipt of its
    commit, the receipt of an earlier commit, or the same rejection. The stale-version rejection never happens. A
    unique violation ends it exactly if the ids generated for the command are not new when the event is inserted,
    which the serial store does not check. Only a commit changes the tables.
  */
  lemma AnswersAreSerial(hash: string -> int, sys: System, t: TxnId, result: TxnResult)
    requires Reachable(hash, sys) && CanStep(hash, sys, Statement(t)) &&
      NextTxn(sys.db, sys.txns[t]).phase == Ended(result)
    ensures StepAnswers(sys, sys.txns[t].phase, sys.txns[t].c, result, DoStep(sys, Statement(t)))
  {
    ReachableIsOk(hash, sys);
    BrokenIffStale(sys.db, Serial(sys), sys.txns[t]);
    if sys.txns[t].phase.ReceiptWritten? {
      CommitResult(sys.db, sys.txns[t]);
      CommitIsSerial(hash, sys, t);
    } else {
      EndsAlike(sys.db, Serial(sys), sys.txns[t], result);
    }
  }

  // -------------------------------------------------------------------------
  // no deadlock
  // -------------------------------------------------------------------------

  function Rank(phase: Phase): nat {
    match phase
    case Begun => 0
    case Locked => 1
    case Unclaimed => 2
    case Decided(_, _) => 3
    case EventInserted(_, _, _) => 4
    case PageWritten(_, _, _) => 5
    case OutboxWritten(_, _, _) => 6
    case ReceiptWritten(_, _, _) => 7
    case Ended(_) => 8
  }

  /** A transaction waits only for one that has come further than itself. */
  lemma WaitsForTheAdvanced(hash: string -> int, db: Tables, txn: Txn, other: Txn)
    requires TxnOk(db, other) && WaitsFor(hash, db, txn, other) && !other.phase.Ended?
    ensures Rank(txn.phase) < Rank(other.phase)
  {
  }

  /** Each statement takes its transaction further, so none needs more than eight. */
  lemma StatementsAdvance(db: Tables, txn: Txn)
    requires !txn.phase.Ended?
    ensures Rank(NextTxn(db, txn).phase) > Rank(txn.phase)
  {
  }

  lemma {:induction false} SomeFurthest(txns: map<TxnId, Txn>, open: set<TxnId>) returns (t: TxnId)
    requires open <= txns.Keys && open != {}
    ensures t in open && forall u :: u in open ==> Rank(txns[u].phase) <= Rank(txns[t].phase)
    decreases |open|
  {
    var x :| x in open;
    if open == {x} {
      t := x;
    } else {
      var y := SomeFurthest(txns, open - {x});
      t := if Rank(txns[y].phase) < Rank(txns[x].phase) then x else y;
    }
  }

  /** While a transaction is open, some transaction can go on: locks and unique keys never deadlock. */
  lemma NeverDeadlocked(hash: string -> int, sys: System, open: TxnId)
    requires Reachable(hash, sys) && open in sys.txns && !sys.txns[open].phase.Ended?
    ensures exists t :: CanStep(hash, sys, Statement(t))
  {
    ReachableIsOk(hash, sys);
    var all := set t | t in sys.txns && !sys.txns[t].phase.Ended?;
    assert open in all;
    var t := SomeFurthest(sys.txns, all);
    forall u | u in sys.txns && u != t && !sys.txns[u].phase.Ended?
      ensures !WaitsFor(hash, sys.db, sys.txns[t], sys.txns[u]) {
      assert u in all;
      if WaitsFor(hash, sys.db, sys.txns[t], sys.txns[u]) {
        WaitsForTheAdvanced(hash, sys.db, sys.txns[t], sys.txns[u]);
      }
    }
    assert CanStep(hash, sys, Statement(t));
  }
}
