/**
  Concurrent transactions of `app/wiki/postgres.py`. A step is one SQL statement of one transaction (with the pure
  computation that follows it), a commit, an abort, or the single UPDATE of `resolve_outbox`. Statements see the
  committed tables; a statement that would have to wait for another transaction is not enabled.
*/
module WikiPostgres {
  import opened Common
  import opened WikiDomain
  import opened WikiStore
  import opened WikiRuns

  type TxnId = nat
  type EventKey = (string, int)

  /** The four tables; also what a transaction has written but not committed. */
  datatype Tables = Tables(
    pages: map<string, PageState>,
    events: map<EventKey, WikiEvent>,
    receipts: map<string, CommandReceipt>,
    outbox: map<string, OutboxRecord>)

  const NOTHING: Tables := Tables(map[], map[], map[], map[])

  datatype TxnResult = Committed(receipt: CommandReceipt) | Replayed(receipt: CommandReceipt)
    | Rejected(error: WikiError) | Broken

  /**
    How far a transaction has come. `state` is what it read and locked, `d` what it decided, `page` what it evolved to.
  */
  datatype Phase =
    | Begun
    | Locked
    | Unclaimed
    | Decided(state: Option<PageState>, d: Decision)
    | EventInserted(state: Option<PageState>, d: Decision, page: PageState)
    | PageWritten(state: Option<PageState>, d: Decision, page: PageState)
    | OutboxWritten(state: Option<PageState>, d: Decision, page: PageState)
    | ReceiptWritten(state: Option<PageState>, d: Decision, page: PageState)
    | Ended(result: TxnResult)

  datatype Txn = Txn(c: Command, phase: Phase, writes: Tables)

  datatype System = System(db: Tables, txns: map<TxnId, Txn>, log: seq<Op>)

  datatype Step =
    | Begin(t: TxnId, c: Command)
    | Statement(t: TxnId)
    | Abort(t: TxnId)
    | ResolveNow(effectId: string, effectType: EffectType, at: int)

  predicate HoldsAdvisory(txn: Txn) {
    !txn.phase.Begun? && !txn.phase.Ended?
  }

  predicate HasDecided(txn: Txn) {
    txn.phase.Decided? || HasInserted(txn)
  }

  predicate HasInserted(txn: Txn) {
    txn.phase.EventInserted? || HasPage(txn)
  }

  predicate HasPage(txn: Txn) {
    txn.phase.PageWritten? || HasOutbox(txn)
  }

  predicate HasOutbox(txn: Txn) {
    txn.phase.OutboxWritten? || txn.phase.ReceiptWritten?
  }

  /** The row lock of `SELECT ... FOR UPDATE`. */
  predicate HoldsRow(txn: Txn, pageId: string) {
    HasDecided(txn) && txn.phase.state.Some? && txn.c.pageId == pageId
  }

  predicate SlugIn(pages: map<string, PageState>, slug: string) {
    exists p :: p in pages && pages[p].slug == slug
  }

  predicate EventIdIn(events: map<EventKey, WikiEvent>, id: string) {
    exists k :: k in events && events[k].eventId == id
  }

  /** The place the new event goes to: one after the version that was read. */
  function NextKey(txn: Txn): EventKey
    requires HasDecided(txn)
  {
    (txn.c.pageId, (if txn.phase.state.Some? then txn.phase.state.value.streamVersion else 0) + 1)
  }

  /** The statement of `txn` would have to wait for what `other` holds or has inserted. */
  predicate WaitsFor(hash: string -> int, db: Tables, txn: Txn, other: Txn) {
    match txn.phase
    case Begun => HoldsAdvisory(other) && hash(other.c.base.commandId) == hash(txn.c.base.commandId)
    case Locked => false
    case Unclaimed =>
      if txn.c.CreatePage? then exists p :: p in db.pages && db.pages[p].slug == txn.c.slug && HoldsRow(other, p)
      else HoldsRow(other, txn.c.pageId)
    case Decided(_, d) =>
      NextKey(txn) in other.writes.events || exists e :: e in d.events && EventIdIn(other.writes.events, e.eventId)
    case EventInserted(_, _, _) =>
      txn.c.CreatePage? && (txn.c.pageId in other.writes.pages || SlugIn(other.writes.pages, txn.c.slug))
    case PageWritten(_, d, _) => exists x :: x in d.effects && x.effectId in other.writes.outbox
    case OutboxWritten(_, _, _) => txn.c.base.commandId in other.writes.receipts
    case ReceiptWritten(_, _, _) => false
    case Ended(_) => false
  }

  predicate CanStep(hash: string -> int, sys: System, step: Step) {
    match step
    case Begin(t, _) => t !in sys.txns
    case Statement(t) =>
      t in sys.txns && !sys.txns[t].phase.Ended? &&
      forall u :: u in sys.txns && u != t && !sys.txns[u].phase.Ended? ==>
        !WaitsFor(hash, sys.db, sys.txns[t], sys.txns[u])
    case Abort(t) => t in sys.txns && !sys.txns[t].phase.Ended?
    case ResolveNow(_, _, _) => true
  }

  function End(txn: Txn, result: TxnResult): Txn {
    Txn(txn.c, Ended(result), NOTHING)
  }

  /** `UPDATE wiki_pages`: the columns it sets, on the row that is there. */
  function UpdatedRow(row: PageState, page: PageState): PageState {
    row.(title := page.title, content := page.content, headRevisionId := page.headRevisionId,
      contentHash := page.contentHash,
         headActorId := page.headActorId, streamVersion := page.streamVersion, reviewStatus := page.reviewStatus,
         moderationStatus := page.moderationStatus, updatedAt := page.updatedAt)
  }

  /** `INSERT ... ON CONFLICT DO NOTHING` for each effect. */
  function InsertEffects(db: map<string, OutboxRecord>, own: map<string, OutboxRecord>, effects: seq<OutboxEffect>,
                         at: int)
    : map<string, OutboxRecord>
  {
    if effects == [] then own
    else
      var before := InsertEffects(db, own, effects[..|effects| - 1], at);
      var last := effects[|effects| - 1];
      if last.effectId in db || last.effectId in before then before
      else before[last.effectId := OutboxRecord(last, Pending, at, 0, None)]
  }

  /** The next statement of a transaction, on the committed tables. */
  function NextTxn(db: Tables, txn: Txn): Txn {
    var c := txn.c;
    match txn.phase
    case Begun => txn.(phase := Locked)
    case Locked =>
      if c.base.commandId in db.receipts then
        var prior := db.receipts[c.base.commandId];
        if prior.fingerprint != IntentFingerprint(c) then End(txn, Rejected(IdempotencyConflict))
        else End(txn, Replayed(prior.(replayed := true)))
      else txn.(phase := Unclaimed)
    case Unclaimed =>
      if c.CreatePage? && SlugIn(db.pages, c.slug) then End(txn, Rejected(SlugTaken))
      else
        var state := if c.CreatePage? || c.pageId !in db.pages then None else Some(db.pages[c.pageId]);
        (match Decide(state, c)
         case Failure(error) => End(txn, Rejected(error))
         case Success(d) => txn.(phase := Decided(state, d)))
    case Decided(state, d) =>
      if |d.events| != 1 then End(txn, Broken)
      else if NextKey(txn) in db.events || EventIdIn(db.events, d.events[0].eventId) then End(txn, Broken)
      else
        (match Evolve(state, d.events[0])
         case Failure(error) => End(txn, Rejected(error))
         case Success(page) =>
           txn.(phase := EventInserted(state, d, page),
             writes := txn.writes.(events := txn.writes.events[NextKey(txn) := d.events[0]])))
    case EventInserted(state, d, page) =>
      if c.CreatePage? then
        if page.pageId in db.pages then End(txn, Broken)
        else if SlugIn(db.pages, page.slug) then End(txn, Rejected(SlugTaken))
        else txn.(phase := PageWritten(state, d, page),
          writes := txn.writes.(pages := txn.writes.pages[page.pageId := page]))
      else if page.pageId !in db.pages || state.None? ||
        db.pages[page.pageId].streamVersion != state.value.streamVersion then
        End(txn, Rejected(StreamConflict))
      else
        txn.(phase := PageWritten(state, d, page),
             writes := txn.writes.(pages := txn.writes.pages[page.pageId := UpdatedRow(db.pages[page.pageId], page)]))
    case PageWritten(state, d, page) =>
      txn.(phase := OutboxWritten(state, d, page),
           writes := txn.writes.(outbox := InsertEffects(db.outbox, txn.writes.outbox, d.effects, c.base.occurredAt)))
    case OutboxWritten(state, d, page) =>
      if c.base.commandId in db.receipts then End(txn, Broken)
      else
        txn.(phase := ReceiptWritten(state, d, page),
             writes := txn.writes.(receipts := txn.writes.receipts[c.base.commandId := ReceiptOf(c, d, page)]))
    case ReceiptWritten(_, d, page) => End(txn, Committed(ReceiptOf(c, d, page)))
    case Ended(_) => txn
  }

  function Merge(db: Tables, writes: Tables): Tables {
    Tables(db.pages + writes.pages, db.events + writes.events, db.receipts + writes.receipts, db.outbox + writes.outbox)
  }

  /** The UPDATE of `resolve_outbox`. */
  function ResolveRow(outbox: map<string, OutboxRecord>, effectId: string, effectType: EffectType, at: int)
    : (map<string, OutboxRecord>, bool)
  {
    if effectId in outbox && outbox[effectId].effect.effectType == effectType &&
      outbox[effectId].status in {Pending, Failed, Delivered} then
      var row := outbox[effectId];
      (outbox[effectId := row.(status := Delivered,
        deliveredAt := if row.deliveredAt.Some? then row.deliveredAt else Some(at))], true)
    else (outbox, false)
  }

  function DoStep(sys: System, step: Step): System {
    match step
    case Begin(t, c) => sys.(txns := sys.txns[t := Txn(c, Begun, NOTHING)])
    case Statement(t) =>
      if t !in sys.txns then sys
      else
        var txn := sys.txns[t];
        var commits := txn.phase.ReceiptWritten?;
        System(
          if commits then Merge(sys.db, txn.writes) else sys.db,
          sys.txns[t := NextTxn(sys.db, txn)],
          if commits then sys.log + [Do(txn.c)] else sys.log)
    case Abort(t) => if t !in sys.txns then sys else sys.(txns := sys.txns[t := End(sys.txns[t], Broken)])
    case ResolveNow(effectId, effectType, at) =>
      sys.(db := sys.db.(outbox := ResolveRow(sys.db.outbox, effectId, effectType, at).0),
        log := sys.log + [Settle(effectId, effectType, at)])
  }

  ghost predicate Follows(hash: string -> int, sys: System, steps: seq<Step>)
    decreases |steps|
  {
    steps == [] || (CanStep(hash, sys, steps[0]) && Follows(hash, DoStep(sys, steps[0]), steps[1..]))
  }

  function RunSteps(sys: System, steps: seq<Step>): System
    decreases |steps|
  {
    if steps == [] then sys else RunSteps(DoStep(sys, steps[0]), steps[1..])
  }

  const START: System := System(NOTHING, map[], [])
}
