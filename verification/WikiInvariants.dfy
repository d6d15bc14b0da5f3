/** What holds in every store that commands and outbox resolutions can reach. */
module WikiInvariants {
  import opened Common
  import opened WikiDomain
  import opened WikiTrace
  import opened WikiStore

  function EventsOf(stream: seq<StoredEvent>): (es: seq<WikiEvent>)
    ensures |es| == |stream| && forall i :: 0 <= i < |es| ==> es[i] == stream[i].event
  {
    seq(|stream|, i requires 0 <= i < |stream| => stream[i].event)
  }

  /** The event at a place of a page's stream. */
  predicate At(s: Store, p: string, i: int) {
    p in s.events && 0 <= i < |s.events[p]|
  }

  function Ev(s: Store, p: string, i: int): WikiEvent
    requires At(s, p, i)
  {
    s.events[p][i].event
  }

  /** The projection is the replay of the stream, the stream is grammatical, and its events are numbered from 1. */
  ghost predicate PageOk(s: Store, p: string)
    requires p in s.pages && p in s.events
  {
    var es := EventsOf(s.events[p]);
    && es != [] && es[0].data.PageCreated? && es[0].pageId == p
    && Grammar(es)
    && Replay(es) == Success(Some(s.pages[p]))
    && forall i :: 0 <= i < |es| ==> s.events[p][i].index == i + 1
  }

  ghost predicate PagesOk(s: Store) {
    && s.pages.Keys == s.events.Keys
    && forall p {:trigger PageOk(s, p)} :: p in s.pages && p in s.events ==> PageOk(s, p)
  }

  /** Slugs and pages are in bijection. */
  ghost predicate SlugsOk(s: Store) {
    && (forall p :: p in s.pages ==> s.pages[p].slug in s.slugToId && s.slugToId[s.pages[p].slug] == p)
    && (forall slug :: slug in s.slugToId ==> s.slugToId[slug] in s.pages && s.pages[s.slugToId[slug]].slug == slug)
  }

  predicate HasReceipt(s: Store, p: string, i: int)
    requires At(s, p, i)
  {
    var e := Ev(s, p, i);
    && e.commandId in s.receipts
    && s.receipts[e.commandId].pageId == p && s.receipts[e.commandId].streamVersion == i + 1
    && s.receipts[e.commandId].eventIds == [e.eventId]
  }

  predicate HasEvent(s: Store, k: string)
    requires k in s.receipts
  {
    var r := s.receipts[k];
    && r.commandId == k && !r.replayed
    && At(s, r.pageId, r.streamVersion - 1) && Ev(s, r.pageId, r.streamVersion - 1).commandId == k
  }

  /** Receipts and stored events are in bijection. */
  ghost predicate ReceiptsOk(s: Store) {
    && (forall p, i {:trigger Ev(s, p, i)} :: At(s, p, i) ==> HasReceipt(s, p, i))
    && (forall k {:trigger HasEvent(s, k)} :: k in s.receipts ==> HasEvent(s, k))
  }

  ghost predicate IdsUnique(s: Store) {
    forall p, i, q, j {:trigger Ev(s, p, i), Ev(s, q, j)} ::
      At(s, p, i) && At(s, q, j) && Ev(s, p, i).eventId == Ev(s, q, j).eventId ==> p == q && i == j
  }

  /** The outbox key of the work an event asks for. */
  function EffectKey(e: WikiEvent): Option<string> {
    match e.data
    case ReviewSubmitted(id, _, _) => Some("review:" + id)
    case PageReported(id, _, _, _) => Some("report:" + id)
    case _ => None
  }

  function EffectKind(e: WikiEvent): EffectType {
    if e.data.ReviewSubmitted? then ReviewRequested else ModerationReportRequested
  }

  /** What the work item tells about the event and its page. */
  function PayloadOf(e: WikiEvent, pageId: string, slug: string): Payload {
    match e.data
    case ReviewSubmitted(id, revisionId, note) => ReviewPayload(id, pageId, slug, revisionId, e.actorId, note)
    case PageReported(id, revisionId, contentHash, reason) =>
      ReportPayload(id, pageId, slug, revisionId, contentHash, e.actorId, reason)
    case _ => ReviewPayload("", pageId, slug, "", "", "")
  }

  predicate HasEffect(s: Store, p: string, i: int)
    requires At(s, p, i)
  {
    var e := Ev(s, p, i);
    EffectKey(e).Some? ==>
      && p in s.pages && EffectKey(e).value in s.outbox
      && s.outbox[EffectKey(e).value].effect ==
           OutboxEffect(EffectKey(e).value, e.eventId, EffectKind(e), PayloadOf(e, p, s.pages[p].slug))
  }

  ghost predicate HasCause(s: Store, k: string)
    requires k in s.outbox
  {
    && s.outbox[k].effect.effectId == k
    && s.outbox[k].status in {Pending, Delivered}
    && (s.outbox[k].status == Delivered <==> s.outbox[k].deliveredAt.Some?)
    && exists p, i :: At(s, p, i) && EffectKey(Ev(s, p, i)) == Some(k)
  }

  /** Outbox records correspond one to one to the events that ask for review or report a page. */
  ghost predicate OutboxOk(s: Store) {
    && (forall p, i {:trigger Ev(s, p, i)} :: At(s, p, i) ==> HasEffect(s, p, i))
    && (forall k {:trigger HasCause(s, k)} :: k in s.outbox ==> HasCause(s, k))
  }

  ghost predicate StoreOk(s: Store) {
    PagesOk(s) && SlugsOk(s) && ReceiptsOk(s) && IdsUnique(s) && OutboxOk(s)
  }

  /** The id that the event of a command will carry. */
  function NewEventId(c: Command): string {
    match c
    case CreatePage(_, _, revisionId, _, _, _, _) => revisionId
    case EditPage(_, _, revisionId, _, _, _, _) => revisionId
    case SubmitReview(_, _, submissionId, _, _, _) => submissionId
    case ReportPage(_, _, reportId, _) => reportId
    case QuarantinePage(_, _, moderationId, _, _, _) => moderationId
    case ReleasePage(_, _, moderationId, _, _, _) => moderationId
  }

  /** The generated ids are new: what the HTTP layer derives from the command id. */
  ghost predicate Fresh(s: Store, c: Command) {
    && (c.CreatePage? ==> c.pageId !in s.pages)
    && forall p, i {:trigger Ev(s, p, i)} :: At(s, p, i) ==> Ev(s, p, i).eventId != NewEventId(c)
  }

  // -------------------------------------------------------------------------
  // one accepted command
  // -------------------------------------------------------------------------

  predicate EffectOf(e: WikiEvent, state: Option<PageState>, key: string, record: OutboxRecord) {
    && state.Some? && record.effect == OutboxEffect(key, e.eventId, EffectKind(e),
        PayloadOf(e, state.value.pageId, state.value.slug))
    && record.status == Pending && record.deliveredAt.None?
  }

  /** The command adds the event `e` at the end of its page's stream, with all that goes along with it. */
  ghost predicate Grown(s: Store, c: Command, t: Store, e: WikiEvent) {
    && t.events == s.events[c.pageId := StreamOf(s, c.pageId) + [StoredEvent(|StreamOf(s, c.pageId)| + 1, e)]]
    && c.pageId in t.pages && t.pages == s.pages[c.pageId := t.pages[c.pageId]]
    && Evolve(StateFor(s, c), e) == Success(t.pages[c.pageId])
    && t.slugToId == (if c.CreatePage? then s.slugToId[c.slug := c.pageId] else s.slugToId)
    && t.receipts == s.receipts[c.base.commandId :=
         CommandReceipt(c.base.commandId, IntentFingerprint(c), c.pageId, t.pages[c.pageId].streamVersion,
           [e.eventId], false)]
    && (EffectKey(e).None? ==> t.outbox == s.outbox)
    && (EffectKey(e).Some? ==>
          && EffectKey(e).value in t.outbox && EffectOf(e, StateFor(s, c), EffectKey(e).value,
              t.outbox[EffectKey(e).value])
          && t.outbox == s.outbox[EffectKey(e).value := t.outbox[EffectKey(e).value]])
    && e.eventId == NewEventId(c) == DataId(e.data) && e.commandId == c.base.commandId && e.pageId == c.pageId
  }

  /** The one new event of an accepted command. */
  ghost function NewEvent(s: Store, c: Command): WikiEvent
    requires AcceptedAnew(s, c)
  {
    AcceptedShape(s, c);
    Decide(StateFor(s, c), c).value.events[0]
  }

  lemma NewEventIds(state: Option<PageState>, c: Command)
    requires Decide(state, c).Success? && |Decide(state, c).value.events| == 1
    ensures var e := Decide(state, c).value.events[0];
            e.eventId == NewEventId(c) == DataId(e.data) && e.commandId == c.base.commandId && e.pageId == c.pageId
    ensures var e := Decide(state, c).value.events[0];
            (c.CreatePage? <==> e.data.PageCreated?) && (c.CreatePage? ==> e.data.slug == c.slug)
  {
  }

  lemma NewEffects(state: Option<PageState>, c: Command, outbox: map<string, OutboxRecord>)
    requires Decide(state, c).Success? && |Decide(state, c).value.events| == 1
    ensures var d := Decide(state, c).value;
            && var e, after := d.events[0], WithEffects(outbox, d.effects, c.base.occurredAt);
            && (EffectKey(e).None? ==> after == outbox)
            && (EffectKey(e).Some? ==>
                  && EffectKey(e).value in after && EffectOf(e, state, EffectKey(e).value, after[EffectKey(e).value])
                  && after == outbox[EffectKey(e).value := after[EffectKey(e).value]])
  {
    var d := Decide(state, c).value;
    if |d.effects| == 1 {
      assert d.effects[..0] == [];
      assert WithEffects(outbox, [], c.base.occurredAt) == outbox;
    }
  }

  lemma AcceptedGrows(s: Store, c: Command)
    requires AcceptedAnew(s, c)
    ensures Grown(s, c, Execute(s, c).0, NewEvent(s, c))
    ensures NewEvent(s, c).data.PageCreated? <==> c.CreatePage?
    ensures c.CreatePage? ==> NewEvent(s, c).data.slug == c.slug && c.slug !in s.slugToId
    ensures Execute(s, c).1.value == Execute(s, c).0.receipts[c.base.commandId]
  {
    AcceptedShape(s, c);
    var d := Decide(StateFor(s, c), c).value;
    NewEventIds(StateFor(s, c), c);
    NewEffects(StateFor(s, c), c, s.outbox);
    assert Numbered(|StreamOf(s, c.pageId)|, d.events) == [StoredEvent(|StreamOf(s, c.pageId)| + 1, d.events[0])];
    assert EventIds(d.events) == [d.events[0].eventId];
  }

  /** The new event is one that the grammar allows next. */
  lemma NewEventIsNext(s: Store, c: Command)
    requires PagesOk(s) && AcceptedAnew(s, c)
    ensures c.CreatePage? ==> NextOk([], NewEvent(s, c))
    ensures !c.CreatePage? ==> c.pageId in s.pages && c.pageId in s.events && PageOk(s, c.pageId)
    ensures !c.CreatePage? ==> NextOk(EventsOf(s.events[c.pageId]), NewEvent(s, c))
  {
    AcceptedShape(s, c);
    NewEventIds(StateFor(s, c), c);
    if !c.CreatePage? {
      assert PageOk(s, c.pageId);
      GrammarReplays(EventsOf(s.events[c.pageId]));
      AcceptedIsNext(EventsOf(s.events[c.pageId]), s.pages[c.pageId], c);
    }
  }

  /** After the command there is one place more, and it holds the new event. */
  lemma NewSlots(s: Store, c: Command, t: Store, e: WikiEvent)
    requires Grown(s, c, t, e)
    ensures forall p, i {:trigger At(t, p, i)} {:trigger At(s, p, i)} :: At(t, p, i) <==>
      At(s, p, i) || (p == c.pageId && i == |StreamOf(s, c.pageId)|)
    ensures forall p, i {:trigger Ev(t, p, i)} {:trigger Ev(s, p, i)} :: At(s, p, i) ==> Ev(t, p, i) == Ev(s, p, i)
    ensures At(t, c.pageId, |StreamOf(s, c.pageId)|) && Ev(t, c.pageId, |StreamOf(s, c.pageId)|) == e
  {
  }

  lemma PageGrows(s: Store, c: Command, t: Store, e: WikiEvent)
    requires PagesOk(s) && Grown(s, c, t, e) && (c.CreatePage? ==> c.pageId !in s.pages)
    requires c.CreatePage? ==> NextOk([], e)
    requires !c.CreatePage? ==> c.pageId in s.pages && PageOk(s, c.pageId) && NextOk(EventsOf(s.events[c.pageId]), e)
    ensures PageOk(t, c.pageId)
  {
    var p, stream := c.pageId, StreamOf(s, c.pageId);
    assert c.CreatePage? ==> stream == [] && EventsOf(stream) == [];
    PageFollows(t, p, stream, e, StateFor(s, c));
  }

  lemma PageFollows(t: Store, p: string, stream: seq<StoredEvent>, e: WikiEvent, state: Option<PageState>)
    requires p in t.pages && p in t.events && t.events[p] == stream + [StoredEvent(|stream| + 1, e)]
    requires forall i :: 0 <= i < |stream| ==> stream[i].index == i + 1
    requires var before := EventsOf(stream);
             && Grammar(before) && (before != [] ==> before[0].data.PageCreated? && before[0].pageId == p)
             && NextOk(before, e) && Replay(before) == Success(state) && Evolve(state, e) == Success(t.pages[p])
    requires stream == [] ==> e.data.PageCreated? && e.pageId == p
    ensures PageOk(t, p)
  {
    var before, after := EventsOf(stream), EventsOf(t.events[p]);
    assert after == before + [e];
    StreamGrows(before, e, state, t.pages[p]);
    NumbersGrow(stream, t.events[p], e);
  }

  lemma NumbersGrow(before: seq<StoredEvent>, after: seq<StoredEvent>, e: WikiEvent)
    requires after == before + [StoredEvent(|before| + 1, e)]
    requires forall i :: 0 <= i < |before| ==> before[i].index == i + 1
    ensures forall i :: 0 <= i < |after| ==> after[i].index == i + 1
  {
  }

  lemma StreamGrows(before: seq<WikiEvent>, e: WikiEvent, state: Option<PageState>, page: PageState)
    requires Grammar(before) && (before != [] ==> before[0].data.PageCreated?) && NextOk(before, e)
    requires Replay(before) == Success(state) && Evolve(state, e) == Success(page)
    ensures Grammar(before + [e]) && Replay(before + [e]) == Success(Some(page))
  {
    assert (before + [e])[..|before|] == before;
  }

  lemma PagesKept(s: Store, c: Command)
    requires PagesOk(s) && AcceptedAnew(s, c) && (c.CreatePage? ==> c.pageId !in s.pages)
    ensures PagesOk(Execute(s, c).0)
  {
    var t := Execute(s, c).0;
    AcceptedGrows(s, c);
    NewEventIsNext(s, c);
    PageGrows(s, c, t, NewEvent(s, c));
    OtherPagesKept(s, t, c.pageId);
  }

  lemma OtherPagesKept(s: Store, t: Store, pageId: string)
    requires PagesOk(s) && pageId in t.pages && pageId in t.events && PageOk(t, pageId)
    requires t.pages == s.pages[pageId := t.pages[pageId]] && t.events == s.events[pageId := t.events[pageId]]
    ensures PagesOk(t)
  {
    forall p | p in t.pages ensures PageOk(t, p) {
      if p != pageId { assert PageOk(s, p); }
    }
  }

  lemma SlugStays(page: PageState, e: WikiEvent)
    requires !e.data.PageCreated? && Evolve(Some(page), e).Success?
    ensures Evolve(Some(page), e).value.slug == page.slug
  {
  }

  lemma SlugsKept(s: Store, c: Command, t: Store, e: WikiEvent)
    requires SlugsOk(s) && Grown(s, c, t, e)
    requires c.CreatePage? ==>
      c.pageId !in s.pages && e.data.PageCreated? && e.data.slug == c.slug && c.slug !in s.slugToId
    requires !c.CreatePage? ==> c.pageId in s.pages && !e.data.PageCreated?
    ensures SlugsOk(t)
  {
    if !c.CreatePage? { SlugStays(s.pages[c.pageId], e); }
  }

  /** The version of a projection is the length of its stream. */
  lemma VersionCounts(t: Store, p: string)
    requires p in t.pages && p in t.events && PageOk(t, p)
    ensures t.pages[p].streamVersion == |t.events[p]| && t.pages[p].pageId == p
    ensures t.pages[p].contentHash == ContentDigest(t.pages[p].content)
  {
    GrammarReplays(EventsOf(t.events[p]));
  }

  lemma ReceiptsKept(s: Store, c: Command, t: Store, e: WikiEvent)
    requires ReceiptsOk(s) && Grown(s, c, t, e) && c.base.commandId !in s.receipts
    requires t.pages[c.pageId].streamVersion == |t.events[c.pageId]|
    ensures ReceiptsOk(t)
  {
    NewSlots(s, c, t, e);
    forall p, i | At(t, p, i) ensures HasReceipt(t, p, i) {
      if At(s, p, i) { assert Ev(s, p, i) == Ev(t, p, i) && HasReceipt(s, p, i); }
    }
    forall k | k in t.receipts ensures HasEvent(t, k) {
      if k != c.base.commandId { assert HasEvent(s, k); }
    }
  }

  lemma IdsKept(s: Store, c: Command, t: Store, e: WikiEvent)
    requires IdsUnique(s) && Grown(s, c, t, e) && Fresh(s, c)
    ensures IdsUnique(t)
  {
    NewSlots(s, c, t, e);
    forall p, i, q, j | At(t, p, i) && At(t, q, j) && Ev(t, p, i).eventId == Ev(t, q, j).eventId
      ensures p == q && i == j {
      if At(s, p, i) { assert Ev(s, p, i) == Ev(t, p, i); }
      if At(s, q, j) { assert Ev(s, q, j) == Ev(t, q, j); }
    }
  }

  lemma PrefixesDiffer(a: string, b: string)
    ensures "review:" + a != "report:" + b
    ensures "review:" + a == "review:" + b ==> a == b
    ensures "report:" + a == "report:" + b ==> a == b
  {
    assert ("review:" + a)[2] == 'v' && ("report:" + b)[2] == 'p';
    assert ("review:" + a)[7..] == a && ("review:" + b)[7..] == b;
    assert ("report:" + a)[7..] == a && ("report:" + b)[7..] == b;
  }

  /** Different events ask under different keys. */
  lemma KeysSeparate(e1: WikiEvent, e2: WikiEvent)
    requires EffectKey(e1).Some? && EffectKey(e1) == EffectKey(e2)
    ensures DataId(e1.data) == DataId(e2.data) && EffectKind(e1) == EffectKind(e2)
  {
    PrefixesDiffer(DataId(e1.data), DataId(e2.data));
    PrefixesDiffer(DataId(e2.data), DataId(e1.data));
  }

  /** Each event repeats its id in its data. */
  lemma StoredIds(s: Store, p: string, i: int)
    requires PagesOk(s) && At(s, p, i)
    ensures Ev(s, p, i).eventId == DataId(Ev(s, p, i).data)
  {
    assert PageOk(s, p);
    GrammarAt(EventsOf(s.events[p]), i);
  }

  lemma OutboxKept(s: Store, c: Command, t: Store, e: WikiEvent)
    requires PagesOk(s) && OutboxOk(s) && Grown(s, c, t, e) && Fresh(s, c)
    ensures OutboxOk(t)
  {
    NewSlots(s, c, t, e);
    forall p, i | At(t, p, i) ensures HasEffect(t, p, i) {
      if At(s, p, i) { OldEffectKept(s, c, t, e, p, i); } else { NewEffectKept(s, c, t, e); }
    }
    forall k | k in t.outbox ensures HasCause(t, k) {
      if EffectKey(e) == Some(k) {
        assert At(t, c.pageId, |StreamOf(s, c.pageId)|);
      } else {
        assert HasCause(s, k);
        var p, i :| At(s, p, i) && EffectKey(Ev(s, p, i)) == Some(k);
        assert At(t, p, i) && Ev(t, p, i) == Ev(s, p, i);
      }
    }
  }

  lemma NewEffectKept(s: Store, c: Command, t: Store, e: WikiEvent)
    requires PagesOk(s) && Grown(s, c, t, e)
    requires At(t, c.pageId, |StreamOf(s, c.pageId)|) && Ev(t, c.pageId, |StreamOf(s, c.pageId)|) == e
    ensures HasEffect(t, c.pageId, |StreamOf(s, c.pageId)|)
  {
    if EffectKey(e).Some? {
      assert StateFor(s, c) == Some(s.pages[c.pageId]) && PageOk(s, c.pageId);
      VersionCounts(s, c.pageId);
      SlugStays(s.pages[c.pageId], e);
    }
  }

  lemma OldEffectKept(s: Store, c: Command, t: Store, e: WikiEvent, p: string, i: int)
    requires PagesOk(s) && OutboxOk(s) && Grown(s, c, t, e) && Fresh(s, c) && At(s, p, i) && At(t, p, i)
    requires Ev(t, p, i) == Ev(s, p, i)
    ensures HasEffect(t, p, i)
  {
    var earlier := Ev(s, p, i);
    assert HasEffect(s, p, i);
    StoredIds(s, p, i);
    if EffectKey(earlier).Some? && EffectKey(earlier) == EffectKey(e) {
      KeysSeparate(earlier, e);
    }
  }
}
