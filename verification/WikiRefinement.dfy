/** Every interleaving of the SQL transactions acts like the in-memory store fed with one command at a time. */
module WikiRefinement {
  import opened Common
  import opened WikiDomain
  import opened WikiTrace
  import opened WikiStore
  import opened WikiInvariants
  import opened WikiPostgres

  /** The row of the event at a place of a stream: keyed by the page and by the position counted from 1. */
  predicate Kept(db: Tables, s: Store, p: string, i: int) {
    At(s, p, i) && (p, i + 1) in db.events && db.events[(p, i + 1)] == Ev(s, p, i)
  }

  /** The tables hold what the serial store holds. */
  ghost predicate Represents(db: Tables, s: Store) {
    && db.pages == s.pages && db.receipts == s.receipts && db.outbox == s.outbox
    && EventsKept(db, s)
  }

  ghost predicate EventsKept(db: Tables, s: Store) {
    && (forall p, i {:trigger Kept(db, s, p, i)} :: At(s, p, i) ==> Kept(db, s, p, i))
    && (forall k {:trigger k in db.events} :: k in db.events ==> Kept(db, s, k.0, k.1 - 1))
  }

  // -------------------------------------------------------------------------
  // one transaction against the committed tables
  // -------------------------------------------------------------------------

  ghost predicate ClaimOk(db: Tables, txn: Txn) {
    txn.phase.Unclaimed? || HasDecided(txn) ==> txn.c.base.commandId !in db.receipts
  }

  /** What was read is still there, and the decision was taken on it. */
  ghost predicate DecisionOk(db: Tables, txn: Txn) {
    HasDecided(txn) ==>
      && Decide(txn.phase.state, txn.c) == Success(txn.phase.d)
      && (txn.c.CreatePage? ==> txn.phase.state == None)
      && (!txn.c.CreatePage? ==> txn.c.pageId in db.pages && txn.phase.state == Some(db.pages[txn.c.pageId]))
  }

  ghost predicate EventOk(db: Tables, txn: Txn) {
    if HasInserted(txn) then
      && |txn.phase.d.events| == 1
      && Evolve(txn.phase.state, txn.phase.d.events[0]) == Success(txn.phase.page)
      && txn.writes.events == map[NextKey(txn) := txn.phase.d.events[0]]
      && NextKey(txn) !in db.events && !EventIdIn(db.events, txn.phase.d.events[0].eventId)
    else txn.writes.events == map[]
  }

  ghost predicate RowOk(db: Tables, txn: Txn) {
    if HasPage(txn) then
      && txn.phase.page.pageId == txn.c.pageId
      && txn.writes.pages == map[txn.c.pageId := txn.phase.page]
      && (txn.c.CreatePage? ==>
            txn.c.pageId !in db.pages && !SlugIn(db.pages, txn.c.slug) && txn.phase.page.slug == txn.c.slug)
      && (!txn.c.CreatePage? ==> txn.c.pageId in db.pages && txn.phase.page.slug == db.pages[txn.c.pageId].slug)
    else txn.writes.pages == map[]
  }

  ghost predicate EffectsOk(db: Tables, txn: Txn) {
    if HasOutbox(txn) then
      && txn.writes.outbox == WithEffects(map[], txn.phase.d.effects, txn.c.base.occurredAt)
    else txn.writes.outbox == map[]
  }

  ghost predicate ReceiptOk(txn: Txn) {
    txn.writes.receipts ==
      if txn.phase.ReceiptWritten? then map[txn.c.base.commandId := ReceiptOf(txn.c, txn.phase.d, txn.phase.page)]
        else map[]
  }

  ghost predicate TxnOk(db: Tables, txn: Txn) {
    ClaimOk(db, txn) && DecisionOk(db, txn) && EventOk(db, txn) && RowOk(db, txn) && EffectsOk(db, txn) &&
      ReceiptOk(txn)
  }

  // -------------------------------------------------------------------------
  // two transactions against each other
  // -------------------------------------------------------------------------

  ghost predicate Exclusive(hash: string -> int, a: Txn, b: Txn) {
    && (HoldsAdvisory(a) && HoldsAdvisory(b) ==> hash(a.c.base.commandId) != hash(b.c.base.commandId))
    && (HasDecided(a) && HasDecided(b) && a.phase.state.Some? && b.phase.state.Some? ==> a.c.pageId != b.c.pageId)
    && (HasInserted(a) && HasInserted(b) && |a.phase.d.events| == 1 && |b.phase.d.events| == 1 ==>
          NextKey(a) != NextKey(b) && a.phase.d.events[0].eventId != b.phase.d.events[0].eventId)
    && (HasPage(a) && HasPage(b) && a.c.CreatePage? && b.c.CreatePage? ==>
        a.c.pageId != b.c.pageId && a.c.slug != b.c.slug)
  }

  // -------------------------------------------------------------------------
  // facts carried over from the serial store
  // -------------------------------------------------------------------------

  lemma SlugsAgree(db: Tables, s: Store, slug: string)
    requires Represents(db, s) && SlugsOk(s)
    ensures SlugIn(db.pages, slug) <==> slug in s.slugToId
  {
  }

  lemma NewIdIsUnused(db: Tables, s: Store, id: string)
    requires EventsKept(db, s) && !EventIdIn(db.events, id)
    ensures forall p, i {:trigger Ev(s, p, i)} :: At(s, p, i) ==> Ev(s, p, i).eventId != id
  {
    forall p, i | At(s, p, i) ensures Ev(s, p, i).eventId != id {
      assert Kept(db, s, p, i);
    }
  }

  lemma RowMatches(s: Store, p: string)
    requires StoreOk(s) && p in s.pages
    ensures s.pages[p].pageId == p && p in s.events && s.pages[p].streamVersion == |s.events[p]|
  {
    assert PageOk(s, p);
    VersionCounts(s, p);
  }

  /** The row of a page cannot be stale under its lock, so the version check of the UPDATE always succeeds. */
  lemma EvolvedPage(state: Option<PageState>, c: Command, d: Decision, page: PageState)
    requires Decide(state, c) == Success(d) && |d.events| == 1 && Evolve(state, d.events[0]) == Success(page)
    ensures c.CreatePage? ==> state == None && page.pageId == c.pageId && page.slug == c.slug
    ensures !c.CreatePage? ==> state.Some? && page.pageId == state.value.pageId && page.slug == state.value.slug
                               && page == UpdatedRow(state.value, page)
  {
  }

  /** The effects of a new event have keys that are not in the outbox yet. */
  lemma EffectsAreNew(db: Tables, s: Store, c: Command, d: Decision, state: Option<PageState>)
    requires StoreOk(s) && Represents(db, s)
    requires Decide(state, c) == Success(d) && |d.events| == 1 && !EventIdIn(db.events, d.events[0].eventId)
    ensures forall x :: x in d.effects ==> x.effectId !in db.outbox
  {
    var e := d.events[0];
    NewIdIsUnused(db, s, e.eventId);
    forall x | x in d.effects ensures x.effectId !in db.outbox {
      EffectNamesEvent(state, c, d, x);
      if x.effectId in s.outbox {
        assert HasCause(s, x.effectId);
        var p, i :| At(s, p, i) && EffectKey(Ev(s, p, i)) == Some(x.effectId);
        KeysSeparate(Ev(s, p, i), e);
        StoredIds(s, p, i);
        assert false;
      }
    }
  }

  lemma EffectNamesEvent(state: Option<PageState>, c: Command, d: Decision, x: OutboxEffect)
    requires Decide(state, c) == Success(d) && |d.events| == 1 && x in d.effects
    ensures EffectKey(d.events[0]) == Some(x.effectId) && d.events[0].eventId == DataId(d.events[0].data)
  {
  }

  lemma FewEffects(db: map<string, OutboxRecord>, effects: seq<OutboxEffect>, at: int)
    requires |effects| <= 1 && forall x :: x in effects ==> x.effectId !in db
    ensures InsertEffects(db, map[], effects, at) == WithEffects(map[], effects, at)
    ensures db + WithEffects(map[], effects, at) == WithEffects(db, effects, at)
  {
    if |effects| == 1 {
      assert effects[..0] == [];
      assert effects[0] in effects;
      assert WithEffects(db, effects[..0], at) == db;
      assert WithEffects(map[], effects[..0], at) == map[];
      assert InsertEffects(db, map[], effects[..0], at) == map[];
    }
  }

  // -------------------------------------------------------------------------
  // a statement keeps its own transaction in order
  // -------------------------------------------------------------------------

  lemma EndedOk(db: Tables, txn: Txn, result: TxnResult)
    ensures TxnOk(db, End(txn, result))
  {
  }

  lemma ClaimStatement(db: Tables, txn: Txn)
    requires TxnOk(db, txn) && (txn.phase.Begun? || txn.phase.Locked?)
    ensures TxnOk(db, NextTxn(db, txn))
  {
  }

  lemma DecideStatement(db: Tables, txn: Txn)
    requires TxnOk(db, txn) && txn.phase.Unclaimed?
    ensures TxnOk(db, NextTxn(db, txn))
  {
  }

  lemma InsertEventStatement(db: Tables, txn: Txn)
    requires TxnOk(db, txn) && txn.phase.Decided?
    ensures TxnOk(db, NextTxn(db, txn))
  {
    var next := NextTxn(db, txn);
    if next.phase.EventInserted? {
      assert NextKey(next) == NextKey(txn);
    }
  }

  lemma WritePageStatement(db: Tables, s: Store, txn: Txn)
    requires StoreOk(s) && Represents(db, s) && TxnOk(db, txn) && txn.phase.EventInserted?
    ensures TxnOk(db, NextTxn(db, txn))
    ensures NextTxn(db, txn).phase != Ended(Rejected(StreamConflict))
  {
    EvolvedPage(txn.phase.state, txn.c, txn.phase.d, txn.phase.page);
    if !txn.c.CreatePage? {
      RowMatches(s, txn.c.pageId);
    }
    PageInserted(db, txn);
  }

  lemma PageInserted(db: Tables, txn: Txn)
    requires TxnOk(db, txn) && txn.phase.EventInserted? && txn.phase.page.pageId == txn.c.pageId
    requires txn.c.CreatePage? ==> txn.phase.page.slug == txn.c.slug
    requires !txn.c.CreatePage? ==> txn.phase.page == UpdatedRow(db.pages[txn.c.pageId], txn.phase.page)
    ensures TxnOk(db, NextTxn(db, txn)) && NextTxn(db, txn).phase != Ended(Rejected(StreamConflict))
  {
    var next := NextTxn(db, txn);
    if next.phase.PageWritten? {
      assert NextKey(next) == NextKey(txn);
    }
  }

  lemma WriteEffectsStatement(db: Tables, s: Store, txn: Txn)
    requires StoreOk(s) && Represents(db, s) && TxnOk(db, txn) && txn.phase.PageWritten?
    ensures TxnOk(db, NextTxn(db, txn))
  {
    DecidesOneEvent(txn.phase.state, txn.c);
    EffectsAreNew(db, s, txn.c, txn.phase.d, txn.phase.state);
    FewEffects(db.outbox, txn.phase.d.effects, txn.c.base.occurredAt);
    EffectsInserted(db, txn);
  }

  lemma EffectsInserted(db: Tables, txn: Txn)
    requires TxnOk(db, txn) && txn.phase.PageWritten?
    requires InsertEffects(db.outbox, map[], txn.phase.d.effects, txn.c.base.occurredAt) ==
             WithEffects(map[], txn.phase.d.effects, txn.c.base.occurredAt)
    ensures TxnOk(db, NextTxn(db, txn))
  {
    assert NextKey(NextTxn(db, txn)) == NextKey(txn);
  }

  lemma WriteReceiptStatement(db: Tables, txn: Txn)
    requires TxnOk(db, txn) && txn.phase.OutboxWritten?
    ensures TxnOk(db, NextTxn(db, txn)) && NextTxn(db, txn).phase.ReceiptWritten?
  {
    assert NextKey(NextTxn(db, txn)) == NextKey(txn);
  }

  lemma StatementKeepsTxn(db: Tables, s: Store, txn: Txn)
    requires StoreOk(s) && Represents(db, s) && TxnOk(db, txn)
    ensures TxnOk(db, NextTxn(db, txn))
  {
    match txn.phase {
      case Decided(_, _) => InsertEventStatement(db, txn);
      case EventInserted(_, _, _) => WritePageStatement(db, s, txn);
      case PageWritten(_, _, _) => WriteEffectsStatement(db, s, txn);
      case OutboxWritten(_, _, _) => WriteReceiptStatement(db, txn);
      case ReceiptWritten(_, d, page) => EndedOk(db, txn, Committed(ReceiptOf(txn.c, d, page)));
      case Ended(_) =>
      case Unclaimed => DecideStatement(db, txn);
      case _ => ClaimStatement(db, txn);
    }
  }

  // -------------------------------------------------------------------------
  // a statement and the other transactions
  // -------------------------------------------------------------------------

  lemma ExclusiveBothWays(hash: string -> int, a: Txn, b: Txn)
    requires Exclusive(hash, a, b)
    ensures Exclusive(hash, b, a)
  {
  }

  lemma StatementKeepsExclusive(hash: string -> int, db: Tables, txn: Txn, other: Txn)
    requires TxnOk(db, txn) && TxnOk(db, other) && Exclusive(hash, txn, other)
    requires !other.phase.Ended? ==> !WaitsFor(hash, db, txn, other)
    ensures Exclusive(hash, NextTxn(db, txn), other)
  {
    match txn.phase {
      case Unclaimed => RowIsExclusive(hash, db, txn, other);
      case Decided(_, _) => EventIsExclusive(hash, db, txn, other);
      case EventInserted(_, _, _) => PageIsExclusive(hash, db, txn, other);
      case Begun =>
      case _ => LaterIsExclusive(hash, db, txn, other);
    }
  }

  lemma LaterIsExclusive(hash: string -> int, db: Tables, txn: Txn, other: Txn)
    requires txn.phase.Locked? || txn.phase.PageWritten? || txn.phase.OutboxWritten? || txn.phase.ReceiptWritten? ||
      txn.phase.Ended?
    requires Exclusive(hash, txn, other)
    ensures Exclusive(hash, NextTxn(db, txn), other)
  {
    var next := NextTxn(db, txn);
    assert HasInserted(txn) && HasInserted(next) ==> NextKey(next) == NextKey(txn);
  }

  lemma RowIsExclusive(hash: string -> int, db: Tables, txn: Txn, other: Txn)
    requires txn.phase.Unclaimed? && Exclusive(hash, txn, other)
    requires !other.phase.Ended? ==> !WaitsFor(hash, db, txn, other)
    ensures Exclusive(hash, NextTxn(db, txn), other)
  {
  }

  lemma EventIsExclusive(hash: string -> int, db: Tables, txn: Txn, other: Txn)
    requires txn.phase.Decided? && EventOk(db, other) && Exclusive(hash, txn, other)
    requires !other.phase.Ended? ==> !WaitsFor(hash, db, txn, other)
    ensures Exclusive(hash, NextTxn(db, txn), other)
  {
    var next := NextTxn(db, txn);
    if HasInserted(next) && HasInserted(other) {
      var e := txn.phase.d.events[0];
      assert NextKey(next) == NextKey(txn);
      assert e in txn.phase.d.events;
      assert !EventIdIn(other.writes.events, e.eventId);
      assert NextKey(other) in other.writes.events;
    }
  }

  lemma PageIsExclusive(hash: string -> int, db: Tables, txn: Txn, other: Txn)
    requires txn.phase.EventInserted? && RowOk(db, other) && Exclusive(hash, txn, other)
    requires !other.phase.Ended? ==> !WaitsFor(hash, db, txn, other)
    ensures Exclusive(hash, NextTxn(db, txn), other)
  {
    var next := NextTxn(db, txn);
    if HasPage(next) {
      assert NextKey(next) == NextKey(txn);
      if HasPage(other) && txn.c.CreatePage? && other.c.CreatePage? {
        assert other.c.pageId in other.writes.pages;
        assert !SlugIn(other.writes.pages, txn.c.slug);
      }
    }
  }

  /** A commit disturbs no other transaction. */
  lemma CommitKeepsOthers(hash: string -> int, db: Tables, txn: Txn, other: Txn)
    requires TxnOk(db, txn) && txn.phase.ReceiptWritten? && TxnOk(db, other) && Exclusive(hash, txn, other)
    ensures TxnOk(Merge(db, txn.writes), other)
  {
    CommitKeepsDecision(hash, db, txn, other);
    CommitKeepsEvent(hash, db, txn, other);
    CommitKeepsRow(hash, db, txn, other);
  }

  lemma CommitKeepsDecision(hash: string -> int, db: Tables, txn: Txn, other: Txn)
    requires RowOk(db, txn) && DecisionOk(db, txn) && ReceiptOk(txn) && txn.phase.ReceiptWritten?
    requires ClaimOk(db, other) && DecisionOk(db, other) && Exclusive(hash, txn, other)
    ensures ClaimOk(Merge(db, txn.writes), other) && DecisionOk(Merge(db, txn.writes), other)
  {
  }

  lemma CommitKeepsEvent(hash: string -> int, db: Tables, txn: Txn, other: Txn)
    requires EventOk(db, txn) && txn.phase.ReceiptWritten? && EventOk(db, other) && Exclusive(hash, txn, other)
    ensures EventOk(Merge(db, txn.writes), other)
  {
    var after := Merge(db, txn.writes);
    if HasInserted(other) {
      var id := other.phase.d.events[0].eventId;
      forall k | k in after.events ensures after.events[k].eventId != id {
        assert k in db.events ==> db.events[k].eventId != id;
      }
    }
  }

  lemma CommitKeepsRow(hash: string -> int, db: Tables, txn: Txn, other: Txn)
    requires RowOk(db, txn) && DecisionOk(db, txn) && txn.phase.ReceiptWritten? && RowOk(db, other) &&
      DecisionOk(db, other)
    requires Exclusive(hash, txn, other)
    ensures RowOk(Merge(db, txn.writes), other)
  {
    var page := txn.phase.page;
    if HasPage(other) && other.c.CreatePage? {
      if !txn.c.CreatePage? { assert page.slug == db.pages[txn.c.pageId].slug; }
      SlugStaysFree(db.pages, txn.c.pageId, page, other.c.slug);
    }
  }

  lemma SlugStaysFree(pages: map<string, PageState>, id: string, page: PageState, slug: string)
    requires !SlugIn(pages, slug) && page.slug != slug
    ensures !SlugIn(pages + map[id := page], slug)
  {
  }

  // -------------------------------------------------------------------------
  // linearization
  // -------------------------------------------------------------------------

  /** What a transaction decided is what the serial store would decide now. */
  lemma DecidesAlike(db: Tables, s: Store, txn: Txn)
    requires StoreOk(s) && Represents(db, s) && TxnOk(db, txn) && txn.phase.ReceiptWritten?
    ensures AcceptedAnew(s, txn.c)
    ensures Execute(s, txn.c) == (Accept(s, txn.c, txn.phase.d, txn.phase.page),
      Success(ReceiptOf(txn.c, txn.phase.d, txn.phase.page)))
  {
    var c := txn.c;
    if c.CreatePage? { SlugsAgree(db, s, c.slug); }
    assert StateFor(s, c) == txn.phase.state;
    AdvanceOne(txn.phase.state, txn.phase.d.events);
  }

  lemma CommitsFresh(db: Tables, s: Store, txn: Txn)
    requires StoreOk(s) && Represents(db, s) && TxnOk(db, txn) && txn.phase.ReceiptWritten?
    ensures Fresh(s, txn.c)
  {
    NewEventIds(txn.phase.state, txn.c);
    NewIdIsUnused(db, s, txn.phase.d.events[0].eventId);
  }

  /**
    `stream_version + 1` is the next free place of the stream, counted from 1, from the moment the event is inserted;
    that a new page has no stream yet is known from the unique key alone.
  */
  lemma NextPlace(db: Tables, s: Store, txn: Txn)
    requires StoreOk(s) && Represents(db, s) && TxnOk(db, txn) && HasInserted(txn)
    ensures NextKey(txn) == (txn.c.pageId, |StreamOf(s, txn.c.pageId)| + 1)
  {
    var p := txn.c.pageId;
    if txn.c.CreatePage? {
      assert At(s, p, 0) ==> Kept(db, s, p, 0);
    } else {
      RowMatches(s, p);
    }
  }

  lemma EventTablesAgree(db: Tables, s: Store, c: Command, t: Store, e: WikiEvent, after: Tables)
    requires EventsKept(db, s) && Grown(s, c, t, e)
    requires after.events == db.events[(c.pageId, |StreamOf(s, c.pageId)| + 1) := e]
    ensures EventsKept(after, t)
  {
    NewSlots(s, c, t, e);
    var p0, n := c.pageId, |StreamOf(s, c.pageId)|;
    forall p, i {:trigger Kept(after, t, p, i)} | At(t, p, i) ensures Kept(after, t, p, i) {
      if At(s, p, i) {
        assert Kept(db, s, p, i) && Ev(t, p, i) == Ev(s, p, i);
        assert p == p0 ==> i < n;
      }
    }
    forall k | k in after.events ensures Kept(after, t, k.0, k.1 - 1) {
      if k in db.events {
        assert Kept(db, s, k.0, k.1 - 1) && Ev(t, k.0, k.1 - 1) == Ev(s, k.0, k.1 - 1);
        assert k.0 == p0 ==> k.1 - 1 < n;
      }
    }
  }

  lemma CommitOutbox(db: Tables, s: Store, txn: Txn)
    requires StoreOk(s) && Represents(db, s) && TxnOk(db, txn) && txn.phase.ReceiptWritten?
    ensures db.outbox + txn.writes.outbox == WithEffects(s.outbox, txn.phase.d.effects, txn.c.base.occurredAt)
  {
    DecidesOneEvent(txn.phase.state, txn.c);
    EffectsAreNew(db, s, txn.c, txn.phase.d, txn.phase.state);
    FewEffects(db.outbox, txn.phase.d.effects, txn.c.base.occurredAt);
  }

  lemma PlusOne<K, V>(m: map<K, V>, k: K, v: V)
    ensures m + map[k := v] == m[k := v]
  {
  }

  lemma CommitTables(db: Tables, txn: Txn)
    requires txn.phase.ReceiptWritten? && EventOk(db, txn) && RowOk(db, txn) && ReceiptOk(txn)
    ensures var after := Merge(db, txn.writes);
            && after.pages == db.pages[txn.c.pageId := txn.phase.page]
            && after.receipts == db.receipts[txn.c.base.commandId := ReceiptOf(txn.c, txn.phase.d, txn.phase.page)]
            && after.events == db.events[NextKey(txn) := txn.phase.d.events[0]]
  {
    PlusOne(db.pages, txn.c.pageId, txn.phase.page);
    PlusOne(db.receipts, txn.c.base.commandId, ReceiptOf(txn.c, txn.phase.d, txn.phase.page));
    PlusOne(db.events, NextKey(txn), txn.phase.d.events[0]);
  }

  /** A commit puts into the tables what the serial `execute` puts into the store. */
  lemma CommitRefines(db: Tables, s: Store, txn: Txn)
    requires StoreOk(s) && Represents(db, s) && TxnOk(db, txn) && txn.phase.ReceiptWritten?
    ensures AcceptedAnew(s, txn.c) && Fresh(s, txn.c)
    ensures Represents(Merge(db, txn.writes), Execute(s, txn.c).0)
    ensures Execute(s, txn.c).1 == Success(ReceiptOf(txn.c, txn.phase.d, txn.phase.page))
  {
    var c, d, page := txn.c, txn.phase.d, txn.phase.page;
    var t, after := Execute(s, c).0, Merge(db, txn.writes);
    DecidesAlike(db, s, txn);
    CommitsFresh(db, s, txn);
    AcceptedGrows(s, c);
    AcceptedShape(s, c);
    NextPlace(db, s, txn);
    CommitTables(db, txn);
    CommitOutbox(db, s, txn);
    assert NewEvent(s, c) == d.events[0] by { assert StateFor(s, c) == txn.phase.state; }
    EventTablesAgree(db, s, c, t, NewEvent(s, c), after);
  }

  lemma DecidedEvolves(state: Option<PageState>, c: Command)
    requires Decide(state, c).Success?
    ensures |Decide(state, c).value.events| == 1 && Evolve(state, Decide(state, c).value.events[0]).Success?
  {
  }

  /** A result of a transaction that is no unique violation, next to what the serial store answers. */
  ghost predicate EndsAs(s: Store, txn: Txn, result: TxnResult) {
    match result
    case Committed(receipt) => txn.phase.ReceiptWritten? && Execute(s, txn.c).1 == Success(receipt)
    case Replayed(receipt) => Execute(s, txn.c) == (s, Success(receipt))
    case Rejected(error) => Execute(s, txn.c) == (s, Failure(error)) && error != StreamConflict
    case Broken => true
  }

  lemma LockedEnds(db: Tables, s: Store, txn: Txn)
    requires db.receipts == s.receipts && txn.phase.Locked? && NextTxn(db, txn).phase.Ended?
    ensures EndsAs(s, txn, NextTxn(db, txn).phase.result)
  {
  }

  lemma UnclaimedEnds(db: Tables, s: Store, txn: Txn)
    requires SlugsOk(s) && Represents(db, s) && ClaimOk(db, txn) && txn.phase.Unclaimed? &&
      NextTxn(db, txn).phase.Ended?
    ensures EndsAs(s, txn, NextTxn(db, txn).phase.result)
  {
    if txn.c.CreatePage? { SlugsAgree(db, s, txn.c.slug); }
  }

  lemma DecidedEnds(db: Tables, s: Store, txn: Txn)
    requires DecisionOk(db, txn) && txn.phase.Decided? && NextTxn(db, txn).phase.Ended?
    ensures EndsAs(s, txn, NextTxn(db, txn).phase.result)
  {
    DecidedEvolves(txn.phase.state, txn.c);
  }

  lemma InsertedEnds(db: Tables, s: Store, txn: Txn)
    requires StoreOk(s) && Represents(db, s) && TxnOk(db, txn)
    requires txn.phase.EventInserted? && NextTxn(db, txn).phase.Ended?
    ensures EndsAs(s, txn, NextTxn(db, txn).phase.result)
  {
    EvolvedPage(txn.phase.state, txn.c, txn.phase.d, txn.phase.page);
    WritePageStatement(db, s, txn);
    if txn.c.CreatePage? { SlugsAgree(db, s, txn.c.slug); } else { RowMatches(s, txn.c.pageId); }
  }

  lemma WrittenEnds(db: Tables, s: Store, txn: Txn)
    requires txn.phase.Begun? || txn.phase.PageWritten? || txn.phase.OutboxWritten?
    requires NextTxn(db, txn).phase.Ended?
    ensures EndsAs(s, txn, NextTxn(db, txn).phase.result)
  {
  }

  lemma CommittedEnds(db: Tables, s: Store, txn: Txn)
    requires txn.phase.ReceiptWritten?
    requires Execute(s, txn.c).1 == Success(ReceiptOf(txn.c, txn.phase.d, txn.phase.page))
    ensures NextTxn(db, txn).phase.Ended? && EndsAs(s, txn, NextTxn(db, txn).phase.result)
  {
  }

  /**
    Where a transaction ends, the serial store answers the same: the receipt of a commit or of a replay, or the
    error of a rejection; only a commit changes anything. The version check of the UPDATE never fails.
  */
  lemma EndsLikeSerial(db: Tables, s: Store, txn: Txn)
    requires StoreOk(s) && Represents(db, s) && TxnOk(db, txn) && !txn.phase.Ended? && NextTxn(db, txn).phase.Ended?
    ensures EndsAs(s, txn, NextTxn(db, txn).phase.result)
  {
    match txn.phase {
      case Locked => LockedEnds(db, s, txn);
      case Unclaimed => UnclaimedEnds(db, s, txn);
      case Decided(_, _) => DecidedEnds(db, s, txn);
      case EventInserted(_, _, _) => InsertedEnds(db, s, txn);
      case ReceiptWritten(_, _, _) =>
        CommitRefines(db, s, txn);
        CommittedEnds(db, s, txn);
      case _ => WrittenEnds(db, s, txn);
    }
  }

  /** The unique key on event ids finds exactly the ids that some stream holds. */
  lemma IdIsUsed(db: Tables, s: Store, id: string)
    requires EventsKept(db, s)
    ensures EventIdIn(db.events, id) <==> exists p, i {:trigger Ev(s, p, i)} :: At(s, p, i) && Ev(s, p, i).eventId == id
  {
    if !EventIdIn(db.events, id) {
      NewIdIsUnused(db, s, id);
    } else {
      var k :| k in db.events && db.events[k].eventId == id;
      assert Kept(db, s, k.0, k.1 - 1);
      assert At(s, k.0, k.1 - 1) && Ev(s, k.0, k.1 - 1).eventId == id;
    }
  }

  /** The unique key on places finds exactly the pages that are created twice. */
  lemma PlaceIsUsed(db: Tables, s: Store, txn: Txn)
    requires StoreOk(s) && Represents(db, s) && DecisionOk(db, txn) && HasDecided(txn)
    ensures NextKey(txn) in db.events <==> txn.c.CreatePage? && txn.c.pageId in s.pages
  {
    var p := txn.c.pageId;
    if NextKey(txn) in db.events { assert Kept(db, s, p, NextKey(txn).1 - 1); }
    if p in s.pages { RowMatches(s, p); }
    if txn.c.CreatePage? && p in s.pages {
      assert PageOk(s, p);
      assert At(s, p, 0) && Kept(db, s, p, 0);
    }
  }

  lemma InsertFailsIffStale(db: Tables, s: Store, txn: Txn)
    requires StoreOk(s) && Represents(db, s) && DecisionOk(db, txn) && txn.phase.Decided?
    ensures NextTxn(db, txn).phase == Ended(Broken) <==> !Fresh(s, txn.c)
  {
    DecidedEvolves(txn.phase.state, txn.c);
    NewEventIds(txn.phase.state, txn.c);
    PlaceIsUsed(db, s, txn);
    IdIsUsed(db, s, NewEventId(txn.c));
  }

  /**
    A statement ends its transaction on a unique violation exactly if it is the insertion of the event and the ids
    generated for the command are not new.
  */
  lemma BrokenIffStale(db: Tables, s: Store, txn: Txn)
    requires StoreOk(s) && Represents(db, s) && !txn.phase.Ended?
    requires ClaimOk(db, txn) && DecisionOk(db, txn) && EventOk(db, txn)
    ensures NextTxn(db, txn).phase == Ended(Broken) <==> txn.phase.Decided? && !Fresh(s, txn.c)
  {
    match txn.phase {
      case Decided(_, _) => InsertFailsIffStale(db, s, txn);
      case EventInserted(state, d, page) =>
        EvolvedPage(state, txn.c, d, page);
        PlaceIsUsed(db, s, txn);
      case _ =>
    }
  }

  lemma ResolveRefines(db: Tables, s: Store, effectId: string, effectType: EffectType, at: int)
    requires StoreOk(s) && Represents(db, s)
    ensures Represents(db.(outbox := ResolveRow(db.outbox, effectId, effectType, at).0),
      Resolve(s, effectId, effectType, at).0)
    ensures ResolveRow(db.outbox, effectId, effectType, at).1 == Resolve(s, effectId, effectType, at).1
  {
    if effectId in s.outbox {
      assert HasCause(s, effectId);
      if s.outbox[effectId].status == Delivered {
        assert s.outbox[effectId := s.outbox[effectId]] == s.outbox;
      }
    }
    SameEventsKept(db, s, Resolve(s, effectId, effectType, at).0,
      db.(outbox := ResolveRow(db.outbox, effectId, effectType, at).0));
  }

  lemma SameEventsKept(db: Tables, s: Store, t: Store, after: Tables)
    requires EventsKept(db, s) && t.events == s.events && after.events == db.events
    ensures EventsKept(after, t)
  {
    forall p, i {:trigger Kept(after, t, p, i)} | At(t, p, i) ensures Kept(after, t, p, i) {
      assert At(s, p, i) && Kept(db, s, p, i) && Ev(t, p, i) == Ev(s, p, i);
    }
    forall k | k in after.events ensures Kept(after, t, k.0, k.1 - 1) {
      assert Kept(db, s, k.0, k.1 - 1) && Ev(t, k.0, k.1 - 1) == Ev(s, k.0, k.1 - 1);
    }
  }
}
