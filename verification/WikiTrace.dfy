/** Which event streams the wiki kernel can produce, stated on the streams themselves. */
module WikiTrace {
  import opened Common
  import opened WikiDomain

  predicate IsRevision(e: WikiEvent) {
    e.data.PageCreated? || e.data.RevisionCommitted?
  }

  predicate IsModeration(e: WikiEvent) {
    e.data.PageQuarantined? || e.data.PageReleased?
  }

  /** The id that the data of an event repeats. */
  function DataId(d: EventData): string {
    match d
    case PageCreated(_, _, _, _, revisionId, _) => revisionId
    case RevisionCommitted(revisionId, _, _, _, _, _, _) => revisionId
    case ReviewSubmitted(submissionId, _, _) => submissionId
    case PageReported(reportId, _, _, _) => reportId
    case PageQuarantined(moderationId, _, _, _, _) => moderationId
    case PageReleased(moderationId, _, _, _, _) => moderationId
    case OtherEvent(_) => ""
  }

  /** The place of the latest revision event. */
  function Head(es: seq<WikiEvent>): (i: nat)
    requires es != [] && es[0].data.PageCreated?
    ensures i < |es| && IsRevision(es[i]) && forall j :: i < j < |es| ==> !IsRevision(es[j])
  {
    if IsRevision(es[|es| - 1]) then |es| - 1 else Head(es[..|es| - 1])
  }

  predicate IsChange(e: WikiEvent) {
    IsRevision(e) || e.data.ReviewSubmitted?
  }

  /** The place of the latest event that counts as an update of the page: a revision or a submission. */
  function LastChange(es: seq<WikiEvent>): (i: nat)
    requires es != [] && es[0].data.PageCreated?
    ensures i < |es| && IsChange(es[i]) && forall j :: i < j < |es| ==> !IsChange(es[j])
  {
    if IsChange(es[|es| - 1]) then |es| - 1 else LastChange(es[..|es| - 1])
  }

  predicate InQuarantine(es: seq<WikiEvent>) {
    es != [] && es[|es| - 1].data.PageQuarantined?
  }

  /** A review of the latest revision has been asked for. */
  predicate ReviewPending(es: seq<WikiEvent>)
    requires es != [] && es[0].data.PageCreated?
  {
    exists j :: Head(es) < j < |es| && es[j].data.ReviewSubmitted?
  }

  function RevisionIdOf(e: WikiEvent): string
    requires IsRevision(e)
  {
    DataId(e.data)
  }

  function HashOf(e: WikiEvent): HashText
    requires IsRevision(e)
  {
    e.data.contentHash
  }

  /** What may follow a stream. */
  predicate NextOk(es: seq<WikiEvent>, e: WikiEvent)
    requires es != [] ==> es[0].data.PageCreated?
  {
    && e.eventId == DataId(e.data)
    && if es == [] then
         e.data.PageCreated? && e.data.contentHash == ContentDigest(e.data.content)
       else
         var head := es[Head(es)];
         && e.pageId == es[0].pageId
         && match e.data
            case RevisionCommitted(_, parentRevisionId, slug, _, content, contentHash, _) =>
              && !InQuarantine(es) && parentRevisionId == RevisionIdOf(head)
              && slug == es[0].data.slug && contentHash == ContentDigest(content)
            case ReviewSubmitted(_, revisionId, _) =>
              !InQuarantine(es) && !ReviewPending(es) && revisionId == RevisionIdOf(head)
            case PageReported(_, revisionId, contentHash, _) =>
              !InQuarantine(es) && revisionId == RevisionIdOf(head) && contentHash == HashOf(head)
            case PageQuarantined(_, revisionId, contentHash, _, status) =>
              && !InQuarantine(es) && e.actorId != head.actorId
              && revisionId == RevisionIdOf(head) && contentHash == HashOf(head) && status.Quarantined?
            case PageReleased(_, revisionId, contentHash, _, status) =>
              && InQuarantine(es) && e.actorId != head.actorId
              && revisionId == RevisionIdOf(head) && contentHash == HashOf(head) && status.Visible?
            case _ => false
  }

  /** The grammar of page streams. */
  predicate Grammar(es: seq<WikiEvent>) {
    es == [] ||
    (var before := es[..|es| - 1];
     Grammar(before) && (before != [] ==> before[0].data.PageCreated?) && NextOk(before, es[|es| - 1]))
  }

  lemma {:induction false} GrammarStarts(es: seq<WikiEvent>)
    requires Grammar(es) && es != []
    ensures es[0].data.PageCreated?
  {
    if |es| > 1 { GrammarStarts(es[..|es| - 1]); }
  }

  lemma {:induction false} GrammarPrefix(es: seq<WikiEvent>, n: nat)
    requires Grammar(es) && n <= |es|
    ensures Grammar(es[..n])
  {
    if n == |es| {
      assert es[..n] == es;
    } else {
      GrammarPrefix(es[..|es| - 1], n);
      assert es[..|es| - 1][..n] == es[..n];
    }
  }

  lemma GrammarAt(es: seq<WikiEvent>, i: nat)
    requires Grammar(es) && i < |es|
    ensures Grammar(es[..i]) && (i > 0 ==> es[..i][0].data.PageCreated?) && NextOk(es[..i], es[i])
  {
    GrammarPrefix(es, i + 1);
    assert es[..i + 1][..i] == es[..i];
  }

  // -------------------------------------------------------------------------
  // the projection reads off the stream
  // -------------------------------------------------------------------------

  /** The projection of a stream: its head is the latest revision event, its statuses say what followed that. */
  ghost predicate Projects(es: seq<WikiEvent>, page: PageState)
    requires es != [] && es[0].data.PageCreated?
  {
    var head := es[Head(es)];
    && page.pageId == es[0].pageId && page.slug == es[0].data.slug
    && page.title == head.data.title && page.content == head.data.content
    && page.headRevisionId == RevisionIdOf(head) && page.headActorId == head.actorId
    && page.contentHash == HashOf(head) == ContentDigest(page.content)
    && page.streamVersion == |es|
    && page.createdAt == es[0].occurredAt && page.updatedAt == es[LastChange(es)].occurredAt
    && (page.reviewStatus.Submitted? <==> ReviewPending(es))
    && (page.moderationStatus.Quarantined? <==> InQuarantine(es))
  }

  lemma HeadOfMore(es: seq<WikiEvent>, e: WikiEvent)
    requires es != [] && es[0].data.PageCreated?
    ensures Head(es + [e]) == if IsRevision(e) then |es| else Head(es)
    ensures LastChange(es + [e]) == if IsChange(e) then |es| else LastChange(es)
    ensures ReviewPending(es + [e]) <==> !IsRevision(e) && (e.data.ReviewSubmitted? || ReviewPending(es))
  {
    var more := es + [e];
    assert more[..|more| - 1] == es;
    if ReviewPending(es) && !IsRevision(e) {
      var j :| Head(es) < j < |es| && es[j].data.ReviewSubmitted?;
      assert more[j].data.ReviewSubmitted?;
    }
    if !IsRevision(e) && e.data.ReviewSubmitted? {
      assert more[|es|].data.ReviewSubmitted?;
    }
    if ReviewPending(more) && !IsRevision(e) && !e.data.ReviewSubmitted? {
      var j :| Head(es) < j < |more| && more[j].data.ReviewSubmitted?;
      assert es[j].data.ReviewSubmitted?;
    }
  }

  lemma ProjectsMore(es: seq<WikiEvent>, page: PageState, e: WikiEvent)
    requires es != [] && es[0].data.PageCreated? && Projects(es, page) && NextOk(es, e)
    ensures Evolve(Some(page), e).Success? && Projects(es + [e], Evolve(Some(page), e).value)
  {
    HeadOfMore(es, e);
    var more := es + [e];
    assert more[0] == es[0] && more[|es|] == e;
    assert more[Head(es)] == es[Head(es)] && more[LastChange(es)] == es[LastChange(es)];
  }

  lemma ProjectsFirst(e: WikiEvent)
    requires NextOk([], e)
    ensures Evolve(None, e).Success? && Projects([e], Evolve(None, e).value)
  {
  }

  /** Replaying a grammatical stream succeeds and yields the projection of the stream. */
  lemma {:induction false} GrammarReplays(es: seq<WikiEvent>)
    requires Grammar(es)
    ensures Replay(es).Success?
    ensures es == [] ==> Replay(es).value == None
    ensures es != [] ==> es[0].data.PageCreated? && Replay(es).value.Some? && Projects(es, Replay(es).value.value)
  {
    if es != [] {
      var before, e := es[..|es| - 1], es[|es| - 1];
      GrammarReplays(before);
      assert es == before + [e];
      if before == [] {
        ProjectsFirst(e);
      } else {
        ProjectsMore(before, Replay(before).value.value, e);
      }
    }
  }

  // -------------------------------------------------------------------------
  // grammatical streams are exactly the ones the kernel produces
  // -------------------------------------------------------------------------

  /** Some command, decided on the replayed state, causes exactly this event. */
  ghost predicate Producible(es: seq<WikiEvent>, e: WikiEvent) {
    && Replay(es).Success?
    && exists c: Command :: (Replay(es).value.Some? ==> c.pageId == Replay(es).value.value.pageId)
                && Decide(Replay(es).value, c).Success? && Decide(Replay(es).value, c).value.events == [e]
  }

  /** Every event was caused by a command on the state before it. */
  ghost predicate Produced(es: seq<WikiEvent>) {
    forall i :: 0 <= i < |es| ==> Producible(es[..i], es[i])
  }

  const ALL_SCOPES: set<string> := {"wiki:edit", "wiki:submit", "wiki:report", "wiki:moderate"}

  /** A command that causes a given event. */
  function CommandFor(state: Option<PageState>, e: WikiEvent): Command {
    var base := Base(e.commandId, e.actorId, ALL_SCOPES, e.occurredAt);
    var revision := if state.Some? then state.value.headRevisionId else "";
    var hash := if state.Some? then state.value.contentHash else OtherText("");
    match e.data
    case PageCreated(slug, title, content, _, revisionId, summary) =>
      CreatePage(base, e.pageId, revisionId, slug, title, content, summary)
    case RevisionCommitted(revisionId, _, _, title, content, _, summary) =>
      EditPage(base, e.pageId, revisionId, revision, title, content, summary)
    case ReviewSubmitted(submissionId, _, note) => SubmitReview(base, e.pageId, submissionId, revision, hash, note)
    case PageReported(reportId, _, _, reason) => ReportPage(base, e.pageId, reportId, reason)
    case PageQuarantined(moderationId, _, _, reason, _) =>
      QuarantinePage(base, e.pageId, moderationId, revision, hash, reason)
    case PageReleased(moderationId, _, _, note, _) => ReleasePage(base, e.pageId, moderationId, revision, hash, note)
    case OtherEvent(_) => ReportPage(base, e.pageId, "", "")
  }

  /** Whatever the kernel accepts on the projection of a stream may follow that stream. */
  lemma AcceptedIsNext(es: seq<WikiEvent>, page: PageState, c: Command)
    requires es != [] && es[0].data.PageCreated? && Projects(es, page) && c.pageId == page.pageId
    requires Decide(Some(page), c).Success?
    ensures |Decide(Some(page), c).value.events| == 1 && NextOk(es, Decide(Some(page), c).value.events[0])
  {
    assert !c.CreatePage?;
  }

  lemma NextIsAccepted(es: seq<WikiEvent>, page: PageState, e: WikiEvent)
    requires es != [] && es[0].data.PageCreated? && Projects(es, page) && NextOk(es, e)
    ensures var c := CommandFor(Some(page), e);
            c.pageId == page.pageId && Decide(Some(page), c).Success? && Decide(Some(page), c).value.events == [e]
  {
    var c := CommandFor(Some(page), e);
    assert !c.CreatePage?;
    assert DecideOn(page, c).Success?;
  }

  lemma NextIsProducible(es: seq<WikiEvent>, e: WikiEvent)
    requires Grammar(es) && (es != [] ==> es[0].data.PageCreated?)
    ensures NextOk(es, e) <==> Producible(es, e)
  {
    GrammarReplays(es);
    var state := Replay(es).value;
    if NextOk(es, e) {
      if es != [] { NextIsAccepted(es, state.value, e); }
      assert Decide(state, CommandFor(state, e)).value.events == [e];
    }
    if Producible(es, e) {
      var c: Command :| (state.Some? ==> c.pageId == state.value.pageId) && Decide(state, c).Success? &&
        Decide(state, c).value.events == [e];
      if es != [] { AcceptedIsNext(es, state.value, c); }
    }
  }

  /** A stream is grammatical if and only if a sequence of accepted commands produces it. */
  lemma {:induction false} GrammarIsExact(es: seq<WikiEvent>)
    ensures Grammar(es) <==> Produced(es)
  {
    if es != [] {
      var before, e := es[..|es| - 1], es[|es| - 1];
      GrammarIsExact(before);
      assert forall i :: 0 <= i < |before| ==> before[..i] == es[..i] && before[i] == es[i];
      if Grammar(before) {
        if before != [] { GrammarStarts(before); }
        NextIsProducible(before, e);
      }
      if Produced(es) {
        assert Producible(before, e);
        forall i | 0 <= i < |before| ensures Producible(before[..i], before[i]) {
          assert Producible(es[..i], es[i]);
        }
      }
      if Produced(before) && Producible(before, e) {
        forall i | 0 <= i < |es| ensures Producible(es[..i], es[i]) {
          if i < |before| { assert Producible(before[..i], before[i]); }
        }
      }
    }
  }

  // -------------------------------------------------------------------------
  // what the grammar says about a stream
  // -------------------------------------------------------------------------

  /** Quarantine is followed by nothing but release, and release follows nothing but quarantine. */
  lemma QuarantineThenRelease(es: seq<WikiEvent>, i: nat)
    requires Grammar(es) && i + 1 < |es|
    ensures es[i].data.PageQuarantined? <==> es[i + 1].data.PageReleased?
    ensures !es[0].data.PageReleased?
  {
    GrammarAt(es, i + 1);
    GrammarStarts(es);
  }

  /** Whoever moderates a page is not the author of its latest revision. */
  lemma ModeratorIsNotAuthor(es: seq<WikiEvent>, i: nat)
    requires Grammar(es) && i < |es| && IsModeration(es[i])
    ensures i > 0 && es[0].data.PageCreated? && es[i].actorId != es[Head(es[..i])].actorId
  {
    GrammarAt(es, i);
    GrammarStarts(es);
  }

  /** Between two review requests there is a new revision. */
  lemma OneReviewPerRevision(es: seq<WikiEvent>, i: nat, j: nat)
    requires Grammar(es) && i < j < |es| && es[i].data.ReviewSubmitted? && es[j].data.ReviewSubmitted?
    ensures exists k :: i < k < j && es[k].data.RevisionCommitted?
  {
    GrammarAt(es, j);
    GrammarStarts(es);
    LatestAfterReview(es[..j], i);
    var k := Head(es[..j]);
    assert es[k] == es[..j][k];
    GrammarAt(es, k);
  }

  lemma LatestAfterReview(es: seq<WikiEvent>, i: nat)
    requires es != [] && es[0].data.PageCreated? && !ReviewPending(es)
    requires i < |es| && es[i].data.ReviewSubmitted?
    ensures i < Head(es)
  {
  }

  /** No lost update: the revisions form one chain, each naming the one before it as its parent. */
  lemma RevisionsFormAChain(es: seq<WikiEvent>, i: nat)
    requires Grammar(es) && i < |es| && es[i].data.RevisionCommitted?
    ensures i > 0 && es[0].data.PageCreated?
    ensures var k := Head(es[..i]);
            && es[i].data.parentRevisionId == RevisionIdOf(es[k])
            && forall j :: k < j < i ==> !IsRevision(es[j])
  {
    GrammarAt(es, i);
    GrammarStarts(es);
    var k := Head(es[..i]);
    assert es[..i][k] == es[k];
    assert forall j :: k < j < i ==> es[..i][j] == es[j];
  }
}
