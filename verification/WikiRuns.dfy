/** Whole histories of the wiki store: invariants of every reachable store, and exactly-once commands. */
module WikiRuns {
  import opened Common
  import opened WikiDomain
  import opened WikiTrace
  import opened WikiStore
  import opened WikiInvariants

  datatype Op = Do(c: Command) | Settle(effectId: string, effectType: EffectType, at: int)

  function Apply(s: Store, op: Op): Store {
    match op
    case Do(c) => Execute(s, c).0
    case Settle(effectId, effectType, at) => Resolve(s, effectId, effectType, at).0
  }

  function RunOps(s: Store, ops: seq<Op>): Store
    decreases |ops|
  {
    if ops == [] then s else RunOps(Apply(s, ops[0]), ops[1..])
  }

  /** Whenever a command is accepted anew, the ids generated for it are new. */
  ghost predicate FreshRun(s: Store, ops: seq<Op>)
    decreases |ops|
  {
    ops == [] || ((ops[0].Do? && AcceptedAnew(s, ops[0].c) ==> Fresh(s, ops[0].c)) &&
      FreshRun(Apply(s, ops[0]), ops[1..]))
  }

  lemma AcceptKeepsOk(s: Store, c: Command)
    requires StoreOk(s) && AcceptedAnew(s, c) && Fresh(s, c)
    ensures StoreOk(Execute(s, c).0)
  {
    var t, e := Execute(s, c).0, NewEvent(s, c);
    AcceptedGrows(s, c);
    NewEventIsNext(s, c);
    PagesKept(s, c);
    SlugsKept(s, c, t, e);
    assert PageOk(t, c.pageId);
    VersionCounts(t, c.pageId);
    ReceiptsKept(s, c, t, e);
    IdsKept(s, c, t, e);
    OutboxKept(s, c, t, e);
  }

  lemma StaleIdsBreak(s: Store, c: Command)
    requires StoreOk(s) && AcceptedAnew(s, c) && !Fresh(s, c)
    ensures !StoreOk(Execute(s, c).0)
  {
    var t, e := Execute(s, c).0, NewEvent(s, c);
    AcceptedGrows(s, c);
    NewSlots(s, c, t, e);
    if c.CreatePage? && c.pageId in s.pages {
      assert PageOk(s, c.pageId);
      SecondCreationBreaks(s, c, t, e);
    } else {
      var p, i :| At(s, p, i) && Ev(s, p, i).eventId == NewEventId(c);
      assert Ev(t, p, i).eventId == Ev(t, c.pageId, |StreamOf(s, c.pageId)|).eventId;
      assert !(p == c.pageId && i == |StreamOf(s, c.pageId)|);
    }
  }

  lemma SecondCreationBreaks(s: Store, c: Command, t: Store, e: WikiEvent)
    requires Grown(s, c, t, e) && c.pageId in s.events && s.events[c.pageId] != [] && e.data.PageCreated?
    ensures !PageOk(t, c.pageId)
  {
    var es := EventsOf(t.events[c.pageId]);
    assert es[..|es| - 1] == EventsOf(s.events[c.pageId]) && es[|es| - 1] == e;
  }

  /**
    An accepted command keeps the store in order if and only if its generated ids are new. The store itself checks
    only the slug; that ids are new is the promise of its caller.
  */
  lemma OkIffFresh(s: Store, c: Command)
    requires StoreOk(s) && AcceptedAnew(s, c)
    ensures StoreOk(Execute(s, c).0) <==> Fresh(s, c)
  {
    if Fresh(s, c) { AcceptKeepsOk(s, c); } else { StaleIdsBreak(s, c); }
  }

  const FIRST: Command := CreatePage(Base("c1", "ada", {"wiki:edit"}, 1), "p", "r1", "home", "Home", "text", "")
  const SECOND: Command := CreatePage(Base("c2", "bob", {"wiki:edit"}, 2), "p", "r2", "start", "Start", "text", "")

  /** A creation is accepted whatever page its id belongs to, as long as its slug is free. */
  lemma CreationIsAccepted(s: Store, c: Command)
    requires c.CreatePage? && c.base.commandId !in s.receipts && "wiki:edit" in c.base.scopes && c.slug !in s.slugToId
    ensures AcceptedAnew(s, c)
    ensures Execute(s, c).0.slugToId == s.slugToId[c.slug := c.pageId] && c.pageId in Execute(s, c).0.pages
    ensures Execute(s, c).0.receipts.Keys == s.receipts.Keys + {c.base.commandId}
  {
    var d := Decide(None, c).value;
    AdvanceOne(None, d.events);
    AcceptedGrows(s, c);
  }

  /** A second creation under one page id leaves a stream that does not replay. */
  lemma SecondCreationStopsReplay(s: Store, c: Command)
    requires PagesOk(s) && AcceptedAnew(s, c) && c.CreatePage? && c.pageId in s.pages
    ensures c.pageId in Execute(s, c).0.events
    ensures Replay(EventsOf(Execute(s, c).0.events[c.pageId])) == Failure(InvalidEventStream)
  {
    assert PageOk(s, c.pageId);
    AcceptedGrows(s, c);
    var before, es := EventsOf(s.events[c.pageId]), EventsOf(Execute(s, c).0.events[c.pageId]);
    assert es == before + [NewEvent(s, c)];
    CreationStopsReplay(before, NewEvent(s, c));
  }

  lemma CreationStopsReplay(events: seq<WikiEvent>, e: WikiEvent)
    requires Replay(events).Success? && Replay(events).value.Some? && e.data.PageCreated?
    ensures Replay(events + [e]) == Failure(InvalidEventStream)
  {
    assert (events + [e])[..|events|] == events;
  }

  lemma EmptyIsOk()
    ensures StoreOk(EMPTY)
  {
    assert forall p, i :: !At(EMPTY, p, i);
  }

  lemma FirstCreates() returns (s: Store)
    ensures s == Execute(EMPTY, FIRST).0 && StoreOk(s) && "p" in s.pages
    ensures s.slugToId == map["home" := "p"] && s.receipts.Keys == {"c1"}
  {
    s := Execute(EMPTY, FIRST).0;
    EmptyIsOk();
    CreationIsAccepted(EMPTY, FIRST);
    assert forall p, i :: !At(EMPTY, p, i);
    OkIffFresh(EMPTY, FIRST);
  }

  lemma RunTwo(s: Store, a: Op, b: Op)
    ensures RunOps(s, [a, b]) == Apply(Apply(s, a), b)
  {
    assert [a, b][1..] == [b] && [b][1..] == [];
    assert RunOps(Apply(s, a), [b]) == RunOps(Apply(Apply(s, a), b), []);
  }

  /**
    Two commands from the empty store: the second creates a page under the id of the first, with another slug. It is
    accepted, although the first left the store in order, and afterwards the stream of that page does not replay.
  */
  lemma AUsedPageIdIsAccepted() returns (s: Store, t: Store)
    ensures s == Execute(EMPTY, FIRST).0 && StoreOk(s) && t == RunOps(EMPTY, [Do(FIRST), Do(SECOND)])
    ensures AcceptedAnew(s, SECOND) && !Fresh(s, SECOND)
    ensures !StoreOk(t) && "p" in t.events && Replay(EventsOf(t.events["p"])) == Failure(InvalidEventStream)
  {
    s := FirstCreates();
    t := Execute(s, SECOND).0;
    assert |"home"| != |"start"| && "c1"[1] != "c2"[1];
    CreationIsAccepted(s, SECOND);
    OkIffFresh(s, SECOND);
    SecondCreationStopsReplay(s, SECOND);
    RunTwo(EMPTY, Do(FIRST), Do(SECOND));
  }

  lemma ResolveKeepsOk(s: Store, effectId: string, effectType: EffectType, at: int)
    requires StoreOk(s)
    ensures StoreOk(Resolve(s, effectId, effectType, at).0)
  {
    var t := Resolve(s, effectId, effectType, at).0;
    SameStreamsKeepPages(s, t);
    ResolveKeepsRest(s, t);
    ResolveKeepsOutbox(s, effectId, effectType, at);
  }

  lemma SameStreamsKeepPages(s: Store, t: Store)
    requires t.events == s.events && t.pages == s.pages && PagesOk(s)
    ensures PagesOk(t)
  {
    forall p | p in t.pages ensures PageOk(t, p) {
      assert PageOk(s, p);
    }
  }

  lemma ResolveKeepsOutbox(s: Store, effectId: string, effectType: EffectType, at: int)
    requires OutboxOk(s)
    ensures OutboxOk(Resolve(s, effectId, effectType, at).0)
  {
    var t := Resolve(s, effectId, effectType, at).0;
    forall p, i | At(t, p, i) ensures HasEffect(t, p, i) {
      assert Ev(t, p, i) == Ev(s, p, i) && HasEffect(s, p, i);
    }
    forall k | k in t.outbox ensures HasCause(t, k) {
      assert HasCause(s, k);
      CauseStays(s, t, k);
    }
  }

  lemma CauseStays(s: Store, t: Store, k: string)
    requires t.events == s.events && k in s.outbox && k in t.outbox && HasCause(s, k)
    requires t.outbox[k].effect == s.outbox[k].effect && t.outbox[k].status in {Pending, Delivered}
    requires t.outbox[k].status == Delivered <==> t.outbox[k].deliveredAt.Some?
    ensures HasCause(t, k)
  {
    var p, i :| At(s, p, i) && EffectKey(Ev(s, p, i)) == Some(k);
    assert At(t, p, i) && Ev(t, p, i) == Ev(s, p, i);
  }

  lemma ResolveKeepsRest(s: Store, t: Store)
    requires t.events == s.events && t.receipts == s.receipts && ReceiptsOk(s) && IdsUnique(s)
    ensures ReceiptsOk(t) && IdsUnique(t)
  {
    forall p, i | At(t, p, i) ensures HasReceipt(t, p, i) {
      assert Ev(t, p, i) == Ev(s, p, i) && HasReceipt(s, p, i);
    }
    forall k | k in t.receipts ensures HasEvent(t, k) {
      assert HasEvent(s, k);
    }
    forall p, i, q, j | At(t, p, i) && At(t, q, j) && Ev(t, p, i).eventId == Ev(t, q, j).eventId
      ensures p == q && i == j {
      assert Ev(t, p, i) == Ev(s, p, i) && Ev(t, q, j) == Ev(s, q, j);
    }
  }

  lemma {:induction false} RunKeepsOk(s: Store, ops: seq<Op>)
    requires StoreOk(s) && FreshRun(s, ops)
    ensures StoreOk(RunOps(s, ops))
    decreases |ops|
  {
    if ops != [] {
      match ops[0] {
        case Do(c) =>
          if AcceptedAnew(s, c) { AcceptKeepsOk(s, c); } else { OthersChangeNothing(s, c); }
        case Settle(effectId, effectType, at) => ResolveKeepsOk(s, effectId, effectType, at);
      }
      RunKeepsOk(Apply(s, ops[0]), ops[1..]);
    }
  }

  /** Every store that a history of commands and outbox resolutions reaches is in order. */
  lemma ReachableStoresAreOk(ops: seq<Op>)
    requires FreshRun(EMPTY, ops)
    ensures StoreOk(RunOps(EMPTY, ops))
  {
    EmptyIsOk();
    RunKeepsOk(EMPTY, ops);
  }

  /**
    In a store in order, a page is the fold of its stream, counts its events, carries the digest of its content, and
    shows title, content, author and id of its latest revision; its statuses tell what followed that revision.
  */
  lemma PageTellsItsStream(s: Store, p: string)
    requires StoreOk(s) && p in s.pages
    ensures p in s.events
    ensures var es := EventsOf(s.events[p]);
            es != [] && es[0].data.PageCreated? && Grammar(es) && Replay(es) == Success(Some(s.pages[p])) &&
              Projects(es, s.pages[p])
  {
    assert PageOk(s, p);
    GrammarReplays(EventsOf(s.events[p]));
  }

  // -------------------------------------------------------------------------
  // exactly once
  // -------------------------------------------------------------------------

  lemma {:induction false} ReceiptsStay(s: Store, ops: seq<Op>, k: string)
    requires k in s.receipts
    ensures k in RunOps(s, ops).receipts && RunOps(s, ops).receipts[k] == s.receipts[k]
    decreases |ops|
  {
    if ops != [] {
      if ops[0].Do? {
        if AcceptedAnew(s, ops[0].c) { AcceptedShape(s, ops[0].c); } else { OthersChangeNothing(s, ops[0].c); }
      }
      ReceiptsStay(Apply(s, ops[0]), ops[1..], k);
    }
  }

  /**
    Once a command was accepted, sending its id again at any later time changes nothing: with the same intent it
    returns the original receipt, marked as a replay; with another intent it is rejected.
  */
  lemma RetryIsExactlyOnce(s: Store, c: Command, ops: seq<Op>, retry: Command)
    requires AcceptedAnew(s, c) && retry.base.commandId == c.base.commandId
    ensures var t := RunOps(Execute(s, c).0, ops);
            Execute(t, retry) ==
              (t, if ClientPart(retry) == ClientPart(c) then Success(Execute(s, c).1.value.(replayed := true))
                  else Failure(IdempotencyConflict))
  {
    AcceptedShape(s, c);
    ReceiptsStay(Execute(s, c).0, ops, c.base.commandId);
    FingerprintIsIntent(c, retry);
  }

  ghost function Places(s: Store): set<(string, int)> {
    set p, i | p in s.events && 0 <= i < |s.events[p]| :: (p, i)
  }

  lemma {:induction false} InjectiveSize<A, B>(m: map<A, B>)
    requires forall x, y :: x in m && y in m && m[x] == m[y] ==> x == y
    ensures |m.Values| == |m.Keys|
    decreases |m|
  {
    if m.Keys != {} {
      var x :| x in m;
      var rest := m - {x};
      InjectiveSize(rest);
      assert m.Keys == rest.Keys + {x};
      assert m.Values == rest.Values + {m[x]} by {
        forall v | v in m.Values ensures v in rest.Values + {m[x]} {
          var k :| k in m && m[k] == v;
          if k != x { assert k in rest && rest[k] == v; }
        }
      }
      assert m[x] !in rest.Values;
    }
  }

  ghost function CommandAt(s: Store): map<(string, int), string> {
    map place | place in Places(s) :: Ev(s, place.0, place.1).commandId
  }

  /** The command ids of the stored events are the ids of the receipts, and no command has two events. */
  lemma EventsMatchReceipts(s: Store)
    requires ReceiptsOk(s)
    ensures CommandAt(s).Values == s.receipts.Keys
    ensures forall x, y :: x in CommandAt(s) && y in CommandAt(s) && CommandAt(s)[x] == CommandAt(s)[y] ==> x == y
  {
    var m := CommandAt(s);
    forall x, y | x in m && y in m && m[x] == m[y] ensures x == y {
      assert HasReceipt(s, x.0, x.1) && HasReceipt(s, y.0, y.1);
    }
    forall k | k in s.receipts ensures k in m.Values {
      assert HasEvent(s, k);
      var place := (s.receipts[k].pageId, s.receipts[k].streamVersion - 1);
      assert place in Places(s) && m[place] == k;
    }
    forall k | k in m.Values ensures k in s.receipts {
      var place :| place in m && m[place] == k;
      assert HasReceipt(s, place.0, place.1);
    }
  }

  /** There are as many stored events as receipts. */
  lemma OneEventPerReceipt(s: Store)
    requires ReceiptsOk(s)
    ensures |Places(s)| == |s.receipts|
  {
    EventsMatchReceipts(s);
    InjectiveSize(CommandAt(s));
    assert CommandAt(s).Keys == Places(s);
    assert |s.receipts| == |s.receipts.Keys|;
  }

  /** And as many outbox records as events that ask for moderation work: no two events share one. */
  lemma OneRecordPerRequest(s: Store, p: string, i: int, q: string, j: int)
    requires StoreOk(s) && At(s, p, i) && At(s, q, j)
    requires EffectKey(Ev(s, p, i)).Some? && EffectKey(Ev(s, p, i)) == EffectKey(Ev(s, q, j))
    ensures p == q && i == j
  {
    KeysSeparate(Ev(s, p, i), Ev(s, q, j));
    StoredIds(s, p, i);
    StoredIds(s, q, j);
  }
}
