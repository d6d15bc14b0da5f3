/**
  The in-memory store of `app/wiki/memory.py`: what one command does to streams, projection, slugs, receipts and outbox.
*/
module WikiStore {
  import opened Common
  import opened WikiDomain

  datatype StoredEvent = StoredEvent(index: nat, event: WikiEvent)

  datatype CommandReceipt = CommandReceipt(
    commandId: string, fingerprint: Fingerprint, pageId: string, streamVersion: nat, eventIds: seq<string>,
      replayed: bool)

  datatype OutboxStatus = Pending | Processing | Delivered | Failed

  datatype OutboxRecord = OutboxRecord(
    effect: OutboxEffect, status: OutboxStatus, createdAt: int, attempts: nat, deliveredAt: Option<int>)

  datatype Store = Store(
    pages: map<string, PageState>,
    slugToId: map<string, string>,
    events: map<string, seq<StoredEvent>>,
    receipts: map<string, CommandReceipt>,
    outbox: map<string, OutboxRecord>)

  const EMPTY: Store := Store(map[], map[], map[], map[], map[])

  function StreamOf(s: Store, pageId: string): seq<StoredEvent> {
    if pageId in s.events then s.events[pageId] else []
  }

  /** The state a command is decided on: a new page starts from nothing, whatever its id. */
  function StateFor(s: Store, c: Command): Option<PageState> {
    if c.CreatePage? || c.pageId !in s.pages then None else Some(s.pages[c.pageId])
  }

  function EventIds(events: seq<WikiEvent>): seq<string> {
    seq(|events|, i requires 0 <= i < |events| => events[i].eventId)
  }

  function Numbered(n: nat, events: seq<WikiEvent>): seq<StoredEvent> {
    seq(|events|, i requires 0 <= i < |events| => StoredEvent(n + 1 + i, events[i]))
  }

  /** The events folded into the state, one after the other. */
  function Advance(state: Option<PageState>, events: seq<WikiEvent>): Result<Option<PageState>> {
    if events == [] then Success(state)
    else
      match Advance(state, events[..|events| - 1])
      case Failure(error) => Failure(error)
      case Success(before) =>
        match Evolve(before, events[|events| - 1])
        case Failure(error) => Failure(error)
        case Success(page) => Success(Some(page))
  }

  function WithEffects(outbox: map<string, OutboxRecord>, effects: seq<OutboxEffect>, at: int)
    : map<string, OutboxRecord>
  {
    if effects == [] then outbox
    else
      var last := effects[|effects| - 1];
      WithEffects(outbox, effects[..|effects| - 1], at)[last.effectId := OutboxRecord(last, Pending, at, 0, None)]
  }

  function ReceiptOf(c: Command, d: Decision, page: PageState): CommandReceipt {
    CommandReceipt(c.base.commandId, IntentFingerprint(c), c.pageId, page.streamVersion, EventIds(d.events), false)
  }

  /** The store after an accepted command. */
  function Accept(s: Store, c: Command, d: Decision, page: PageState): Store {
    Store(
      s.pages[c.pageId := page],
      if c.CreatePage? then s.slugToId[c.slug := c.pageId] else s.slugToId,
      s.events[c.pageId := StreamOf(s, c.pageId) + Numbered(|StreamOf(s, c.pageId)|, d.events)],
      s.receipts[c.base.commandId := ReceiptOf(c, d, page)],
      WithEffects(s.outbox, d.effects, c.base.occurredAt))
  }

  /** `execute`: the new store, and the receipt or the rejection. */
  function Execute(s: Store, c: Command): (Store, Result<CommandReceipt>) {
    if c.base.commandId in s.receipts then
      var prior := s.receipts[c.base.commandId];
      (s, if prior.fingerprint != IntentFingerprint(c) then Failure(IdempotencyConflict)
        else Success(prior.(replayed := true)))
    else if c.CreatePage? && c.slug in s.slugToId then (s, Failure(SlugTaken))
    else
      match Decide(StateFor(s, c), c)
      case Failure(error) => (s, Failure(error))
      case Success(d) =>
        match Advance(StateFor(s, c), d.events)
        case Failure(error) => (s, Failure(error))
        case Success(None) => (s, Failure(InvalidEventStream))
        case Success(Some(page)) => (Accept(s, c, d, page), Success(ReceiptOf(c, d, page)))
  }

  /** `resolve_outbox`. */
  function Resolve(s: Store, effectId: string, effectType: EffectType, at: int): (Store, bool) {
    if effectId !in s.outbox || s.outbox[effectId].effect.effectType != effectType then (s, false)
    else
      var record := s.outbox[effectId];
      match record.status
      case Delivered => (s, true)
      case Processing => (s, false)
      case _ => (s.(outbox := s.outbox[effectId := record.(status := Delivered, deliveredAt := Some(at))]), true)
  }

  /** The command was accepted for the first time: neither a replay nor a rejection. */
  predicate AcceptedAnew(s: Store, c: Command) {
    c.base.commandId !in s.receipts && Execute(s, c).1.Success?
  }

  /** What a command does, at a glance: nothing, unless it is accepted; then it adds exactly one event. */
  lemma AcceptedShape(s: Store, c: Command)
    requires AcceptedAnew(s, c)
    ensures Decide(StateFor(s, c), c).Success?
    ensures var d := Decide(StateFor(s, c), c).value;
            && |d.events| == 1 && |d.effects| <= 1 && Evolve(StateFor(s, c), d.events[0]).Success?
            && Execute(s, c).0 == Accept(s, c, d, Evolve(StateFor(s, c), d.events[0]).value)
            && Execute(s, c).1.value == ReceiptOf(c, d, Evolve(StateFor(s, c), d.events[0]).value)
  {
    DecidesOneEvent(StateFor(s, c), c);
    var d := Decide(StateFor(s, c), c).value;
    AdvanceOne(StateFor(s, c), d.events);
  }

  lemma DecidesOneEvent(state: Option<PageState>, c: Command)
    requires Decide(state, c).Success?
    ensures |Decide(state, c).value.events| == 1 && |Decide(state, c).value.effects| <= 1
  {
  }

  lemma AdvanceOne(state: Option<PageState>, events: seq<WikiEvent>)
    requires |events| == 1
    ensures Advance(state, events) ==
      (match Evolve(state, events[0])
       case Failure(error) => Failure(error)
       case Success(page) => Success(Some(page)))
  {
    assert events[..0] == [];
  }

  /** A command that is not accepted anew leaves everything as it was. */
  lemma OthersChangeNothing(s: Store, c: Command)
    requires !AcceptedAnew(s, c)
    ensures Execute(s, c).0 == s
    ensures Execute(s, c).1.Success? ==> c.base.commandId in s.receipts
  {
  }

  // -------------------------------------------------------------------------
  // the class
  // -------------------------------------------------------------------------

  lemma {:induction false} AdvanceFails(state: Option<PageState>, events: seq<WikiEvent>, n: nat)
    requires n <= |events| && Advance(state, events[..n]).Failure?
    ensures Advance(state, events) == Advance(state, events[..n])
    decreases |events| - n
  {
    if n < |events| {
      assert events[..n + 1][..n] == events[..n];
      AdvanceFails(state, events, n + 1);
    } else {
      assert events[..n] == events;
    }
  }

  class InMemoryWikiStore {
    var pages: map<string, PageState>
    var slugToId: map<string, string>
    var events: map<string, seq<StoredEvent>>
    var receipts: map<string, CommandReceipt>
    var outbox: map<string, OutboxRecord>

    function View(): Store
      reads this
    {
      Store(pages, slugToId, events, receipts, outbox)
    }

    constructor ()
      ensures View() == EMPTY
    {
      pages, slugToId, events, receipts, outbox := map[], map[], map[], map[], map[];
    }

    /** The loop over the decided events: the next state and the numbered events, or the error of `evolve`. */
    static method Fold(state: Option<PageState>, n: nat, decided: seq<WikiEvent>)
      returns (next: Result<Option<PageState>>, stored: seq<StoredEvent>)
      ensures next == Advance(state, decided)
      ensures next.Success? ==> stored == Numbered(n, decided)
    {
      var current := state;
      stored := [];
      for offset := 0 to |decided|
        invariant Advance(state, decided[..offset]) == Success(current)
        invariant stored == Numbered(n, decided[..offset])
      {
        assert decided[..offset + 1][..offset] == decided[..offset];
        var evolved := Evolve(current, decided[offset]);
        if evolved.Failure? {
          AdvanceFails(state, decided, offset + 1);
          return Failure(evolved.error), [];
        }
        current := Some(evolved.value);
        stored := stored + [StoredEvent(n + offset + 1, decided[offset])];
      }
      assert decided[..|decided|] == decided;
      next := Success(current);
    }

    method AddEffects(effects: seq<OutboxEffect>, at: int)
      modifies this`outbox
      ensures outbox == WithEffects(old(outbox), effects, at)
    {
      for i := 0 to |effects|
        invariant outbox == WithEffects(old(outbox), effects[..i], at)
      {
        assert effects[..i + 1][..i] == effects[..i];
        outbox := outbox[effects[i].effectId := OutboxRecord(effects[i], Pending, at, 0, None)];
      }
      assert effects[..|effects|] == effects;
    }

    /** `execute`, under the lock. */
    method ExecuteCommand(c: Command) returns (r: Result<CommandReceipt>)
      modifies this
      ensures (View(), r) == Execute(old(View()), c)
    {
      var fingerprint := IntentFingerprint(c);
      if c.base.commandId in receipts {
        var prior := receipts[c.base.commandId];
        if prior.fingerprint != fingerprint {
          return Failure(IdempotencyConflict);
        }
        return Success(prior.(replayed := true));
      }
      var state: Option<PageState> := None;
      if c.CreatePage? {
        if c.slug in slugToId {
          return Failure(SlugTaken);
        }
      } else if c.pageId in pages {
        state := Some(pages[c.pageId]);
      }
      var decision := Decide(state, c);
      if decision.Failure? {
        return Failure(decision.error);
      }
      var existing := if c.pageId in events then events[c.pageId] else [];
      var next, stored := Fold(state, |existing|, decision.value.events);
      if next.Failure? {
        return Failure(next.error);
      }
      if next.value.None? {
        return Failure(InvalidEventStream);
      }
      var page := next.value.value;
      if c.CreatePage? {
        slugToId := slugToId[c.slug := c.pageId];
      }
      pages := pages[c.pageId := page];
      events := events[c.pageId := existing + stored];
      AddEffects(decision.value.effects, c.base.occurredAt);
      var receipt := CommandReceipt(c.base.commandId, fingerprint, c.pageId, page.streamVersion,
        EventIds(decision.value.events), false);
      receipts := receipts[c.base.commandId := receipt];
      return Success(receipt);
    }

    /** `resolve_outbox`, under the lock. */
    method ResolveOutbox(effectId: string, effectType: EffectType, resolvedAt: int) returns (ok: bool)
      modifies this
      ensures (View(), ok) == Resolve(old(View()), effectId, effectType, resolvedAt)
    {
      if effectId !in outbox || outbox[effectId].effect.effectType != effectType {
        return false;
      }
      var record := outbox[effectId];
      if record.status == Delivered {
        return true;
      }
      if record.status != Pending && record.status != Failed {
        return false;
      }
      outbox := outbox[effectId := record.(status := Delivered, deliveredAt := Some(resolvedAt))];
      return true;
    }
  }
}
