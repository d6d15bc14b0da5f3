/** The pure command-to-event kernel of `app/wiki/domain.py`. */
module WikiDomain {
  import opened Common

  datatype Result<+T> = Success(value: T) | Failure(error: WikiError)

  /** The stable codes of `WikiError`. */
  datatype WikiError =
    | InsufficientScope | PageExists | PageNotFound | PageIsQuarantined | RevisionConflict | ContentHashConflict
    | AlreadySubmitted | ModeratorIsHeadActor | AlreadyQuarantined | PageNotQuarantined
    | InvalidEventStream | UnknownEvent
    | IdempotencyConflict | SlugTaken | StreamConflict

  /** A text that may be a SHA-256 digest. The digest is abstract: equal digests come from equal contents. */
  datatype HashText = Sha256(preimage: string) | OtherText(text: string)

  datatype ReviewStatus = Unreviewed | Submitted
  datatype ModerationStatus = Visible | Quarantined

  datatype PageState = PageState(
    pageId: string, slug: string, title: string, content: string, headRevisionId: string, contentHash: HashText,
    headActorId: string, streamVersion: nat, reviewStatus: ReviewStatus, moderationStatus: ModerationStatus,
    createdAt: int, updatedAt: int)

  datatype Base = Base(commandId: string, actorId: string, scopes: set<string>, occurredAt: int)

  datatype Command =
    | CreatePage(base: Base, pageId: string, revisionId: string, slug: string, title: string, content: string,
      summary: string)
    | EditPage(base: Base, pageId: string, revisionId: string, expectedRevisionId: string, title: string,
      content: string, summary: string)
    | SubmitReview(base: Base, pageId: string, submissionId: string, expectedRevisionId: string,
      expectedContentHash: HashText, note: string)
    | ReportPage(base: Base, pageId: string, reportId: string, reason: string)
    | QuarantinePage(base: Base, pageId: string, moderationId: string, expectedRevisionId: string,
      expectedContentHash: HashText, reason: string)
    | ReleasePage(base: Base, pageId: string, moderationId: string, expectedRevisionId: string,
      expectedContentHash: HashText, note: string)

  datatype EventData =
    | PageCreated(slug: string, title: string, content: string, contentHash: HashText, revisionId: string,
      summary: string)
    | RevisionCommitted(revisionId: string, parentRevisionId: string, slug: string, title: string, content: string,
      contentHash: HashText, summary: string)
    | ReviewSubmitted(submissionId: string, revisionId: string, note: string)
    | PageReported(reportId: string, revisionId: string, contentHash: HashText, reason: string)
    | PageQuarantined(moderationId: string, revisionId: string, contentHash: HashText, reason: string,
      moderationStatus: ModerationStatus)
    | PageReleased(moderationId: string, revisionId: string, contentHash: HashText, note: string,
      moderationStatus: ModerationStatus)
    | OtherEvent(eventType: string)

  datatype WikiEvent = WikiEvent(eventId: string, commandId: string, pageId: string, occurredAt: int, actorId: string,
                                 data: EventData)

  datatype EffectType = ReviewRequested | ModerationReportRequested

  datatype Payload =
    | ReviewPayload(submissionId: string, pageId: string, slug: string, revisionId: string, actorId: string,
      note: string)
    | ReportPayload(reportId: string, pageId: string, slug: string, revisionId: string, contentHash: HashText,
      actorId: string, reason: string)

  datatype OutboxEffect = OutboxEffect(effectId: string, eventId: string, effectType: EffectType, payload: Payload)

  datatype Decision = Decision(events: seq<WikiEvent>, effects: seq<OutboxEffect>)

  function ContentDigest(content: string): HashText {
    Sha256(content)
  }

  function EventOf(c: Command, eventId: string, data: EventData): WikiEvent {
    WikiEvent(eventId, c.base.commandId, c.pageId, c.base.occurredAt, c.base.actorId, data)
  }

  /** `decide`: which events a command causes in a page state, or why it is rejected. */
  function Decide(state: Option<PageState>, c: Command): Result<Decision> {
    match c
    case CreatePage(base, pageId, revisionId, slug, title, content, summary) =>
      if "wiki:edit" !in base.scopes then Failure(InsufficientScope)
      else if state.Some? then Failure(PageExists)
      else Success(Decision([EventOf(c, revisionId,
        PageCreated(slug, title, content, ContentDigest(content), revisionId, summary))], []))
    case _ =>
      if state.None? then Failure(PageNotFound) else DecideOn(state.value, c)
  }

  function DecideOn(page: PageState, c: Command): Result<Decision>
    requires !c.CreatePage?
  {
    match c
    case EditPage(base, pageId, revisionId, expectedRevisionId, title, content, summary) =>
      if "wiki:edit" !in base.scopes then Failure(InsufficientScope)
      else if page.moderationStatus.Quarantined? then Failure(PageIsQuarantined)
      else if expectedRevisionId != page.headRevisionId then Failure(RevisionConflict)
      else Success(Decision([EventOf(c, revisionId,
        RevisionCommitted(revisionId, page.headRevisionId, page.slug, title, content, ContentDigest(content),
          summary))], []))
    case SubmitReview(base, pageId, submissionId, expectedRevisionId, expectedContentHash, note) =>
      if "wiki:submit" !in base.scopes then Failure(InsufficientScope)
      else if page.moderationStatus.Quarantined? then Failure(PageIsQuarantined)
      else if expectedRevisionId != page.headRevisionId then Failure(RevisionConflict)
      else if expectedContentHash != page.contentHash then Failure(ContentHashConflict)
      else if page.reviewStatus.Submitted? then Failure(AlreadySubmitted)
      else Success(Decision(
        [EventOf(c, submissionId, ReviewSubmitted(submissionId, page.headRevisionId, note))],
        [OutboxEffect("review:" + submissionId, submissionId, ReviewRequested,
           ReviewPayload(submissionId, page.pageId, page.slug, page.headRevisionId, base.actorId, note))]))
    case ReportPage(base, pageId, reportId, reason) =>
      if "wiki:report" !in base.scopes then Failure(InsufficientScope)
      else if page.moderationStatus.Quarantined? then Failure(PageIsQuarantined)
      else Success(Decision(
        [EventOf(c, reportId, PageReported(reportId, page.headRevisionId, page.contentHash, reason))],
        [OutboxEffect("report:" + reportId, reportId, ModerationReportRequested,
           ReportPayload(reportId, page.pageId, page.slug, page.headRevisionId, page.contentHash, base.actorId,
             reason))]))
    case QuarantinePage(base, pageId, moderationId, expectedRevisionId, expectedContentHash, reason) =>
      if "wiki:moderate" !in base.scopes then Failure(InsufficientScope)
      else if base.actorId == page.headActorId then Failure(ModeratorIsHeadActor)
      else if expectedRevisionId != page.headRevisionId then Failure(RevisionConflict)
      else if expectedContentHash != page.contentHash then Failure(ContentHashConflict)
      else if page.moderationStatus.Quarantined? then Failure(AlreadyQuarantined)
      else Success(Decision([EventOf(c, moderationId,
        PageQuarantined(moderationId, page.headRevisionId, page.contentHash, reason, Quarantined))], []))
    case ReleasePage(base, pageId, moderationId, expectedRevisionId, expectedContentHash, note) =>
      if "wiki:moderate" !in base.scopes then Failure(InsufficientScope)
      else if base.actorId == page.headActorId then Failure(ModeratorIsHeadActor)
      else if expectedRevisionId != page.headRevisionId then Failure(RevisionConflict)
      else if expectedContentHash != page.contentHash then Failure(ContentHashConflict)
      else if !page.moderationStatus.Quarantined? then Failure(PageNotQuarantined)
      else Success(Decision([EventOf(c, moderationId,
        PageReleased(moderationId, page.headRevisionId, page.contentHash, note, Visible))], []))
  }

  /** `evolve`: fold one recorded event into the projection. */
  function Evolve(state: Option<PageState>, e: WikiEvent): Result<PageState> {
    match e.data
    case PageCreated(slug, title, content, contentHash, revisionId, _) =>
      if state.Some? then Failure(InvalidEventStream)
      else Success(PageState(e.pageId, slug, title, content, revisionId, contentHash, e.actorId, 1,
                             Unreviewed, Visible, e.occurredAt, e.occurredAt))
    case _ =>
      if state.None? then Failure(InvalidEventStream) else EvolveOn(state.value, e)
  }

  function EvolveOn(page: PageState, e: WikiEvent): Result<PageState>
    requires !e.data.PageCreated?
  {
    var next := page.(streamVersion := page.streamVersion + 1);
    match e.data
    case RevisionCommitted(revisionId, _, _, title, content, contentHash, _) =>
      Success(next.(title := title, content := content, headRevisionId := revisionId, contentHash := contentHash,
                    headActorId := e.actorId, reviewStatus := Unreviewed, moderationStatus := Visible,
                      updatedAt := e.occurredAt))
    case ReviewSubmitted(_, _, _) => Success(next.(reviewStatus := Submitted, updatedAt := e.occurredAt))
    case PageReported(_, _, _, _) => Success(next)
    case PageQuarantined(_, _, _, _, status) => Success(next.(moderationStatus := status))
    case PageReleased(_, _, _, _, status) => Success(next.(moderationStatus := status))
    case OtherEvent(_) => Failure(UnknownEvent)
  }

  /** What `replay` computes: the fold of `evolve` over a stream. */
  function Replay(events: seq<WikiEvent>): Result<Option<PageState>> {
    if events == [] then Success(None)
    else
      match Replay(events[..|events| - 1])
      case Failure(error) => Failure(error)
      case Success(state) =>
        match Evolve(state, events[|events| - 1])
        case Failure(error) => Failure(error)
        case Success(page) => Success(Some(page))
  }

  lemma {:induction false} ReplayFails(events: seq<WikiEvent>, n: nat)
    requires n <= |events| && Replay(events[..n]).Failure?
    ensures Replay(events) == Replay(events[..n])
    decreases |events| - n
  {
    if n < |events| {
      assert events[..n + 1][..n] == events[..n];
      ReplayFails(events, n + 1);
    } else {
      assert events[..n] == events;
    }
  }

  /** `replay`: the loop over a state variable. */
  method ReplayLoop(events: seq<WikiEvent>) returns (r: Result<Option<PageState>>)
    ensures r == Replay(events)
  {
    var state: Option<PageState> := None;
    for i := 0 to |events|
      invariant Replay(events[..i]) == Success(state)
    {
      assert events[..i + 1][..i] == events[..i];
      var next := Evolve(state, events[i]);
      if next.Failure? {
        ReplayFails(events, i + 1);
        return Failure(next.error);
      }
      state := Some(next.value);
    }
    assert events[..|events|] == events;
    return Success(state);
  }

  // -------------------------------------------------------------------------
  // intent
  // -------------------------------------------------------------------------

  datatype IntentField = Text(s: string) | Hash(h: HashText)

  function Kind(c: Command): string {
    match c
    case CreatePage(_, _, _, _, _, _, _) => "CreatePage"
    case EditPage(_, _, _, _, _, _, _) => "EditPage"
    case SubmitReview(_, _, _, _, _, _) => "SubmitReview"
    case ReportPage(_, _, _, _) => "ReportPage"
    case QuarantinePage(_, _, _, _, _, _) => "QuarantinePage"
    case ReleasePage(_, _, _, _, _, _) => "ReleasePage"
  }

  function ClientFields(c: Command): map<string, IntentField> {
    match c
    case CreatePage(_, _, _, slug, title, content, summary) =>
      map["slug" := Text(slug), "title" := Text(title), "content" := Text(content), "summary" := Text(summary)]
    case EditPage(_, _, _, expectedRevisionId, title, content, summary) =>
      map["expected_revision_id" := Text(expectedRevisionId), "title" := Text(title), "content" := Text(content),
        "summary" := Text(summary)]
    case SubmitReview(_, _, _, expectedRevisionId, expectedContentHash, note) =>
      map["expected_revision_id" := Text(expectedRevisionId), "expected_content_hash" := Hash(expectedContentHash),
        "note" := Text(note)]
    case ReportPage(_, _, _, reason) =>
      map["reason" := Text(reason)]
    case QuarantinePage(_, _, _, expectedRevisionId, expectedContentHash, reason) =>
      map["expected_revision_id" := Text(expectedRevisionId), "expected_content_hash" := Hash(expectedContentHash),
        "reason" := Text(reason)]
    case ReleasePage(_, _, _, expectedRevisionId, expectedContentHash, note) =>
      map["expected_revision_id" := Text(expectedRevisionId), "expected_content_hash" := Hash(expectedContentHash),
        "note" := Text(note)]
  }

  /** `command_intent`: the common fields, updated with the ones of the command's kind. */
  function CommandIntent(c: Command): map<string, IntentField> {
    map["kind" := Text(Kind(c)), "actor_id" := Text(c.base.actorId), "page_id" := Text(c.pageId)] + ClientFields(c)
  }

  /** `intent_fingerprint`: the digest of the canonical JSON of the intent, abstract and injective. */
  datatype Fingerprint = FingerprintOf(intent: map<string, IntentField>)

  function IntentFingerprint(c: Command): Fingerprint {
    FingerprintOf(CommandIntent(c))
  }

  /**
    The command without what the server fills in: its id, the clock, the caller's scopes and the generated event id.
  */
  function ClientPart(c: Command): Command {
    var base := Base("", c.base.actorId, {}, 0);
    match c
    case CreatePage(_, pageId, _, slug, title, content, summary) =>
      CreatePage(base, pageId, "", slug, title, content, summary)
    case EditPage(_, pageId, _, expected, title, content, summary) =>
      EditPage(base, pageId, "", expected, title, content, summary)
    case SubmitReview(_, pageId, _, expected, hash, note) => SubmitReview(base, pageId, "", expected, hash, note)
    case ReportPage(_, pageId, _, reason) => ReportPage(base, pageId, "", reason)
    case QuarantinePage(_, pageId, _, expected, hash, reason) =>
      QuarantinePage(base, pageId, "", expected, hash, reason)
    case ReleasePage(_, pageId, _, expected, hash, note) => ReleasePage(base, pageId, "", expected, hash, note)
  }

  lemma KindsDiffer(a: Command, b: Command)
    requires Kind(a) == Kind(b)
    ensures a.CreatePage? == b.CreatePage? && a.EditPage? == b.EditPage? && a.SubmitReview? == b.SubmitReview?
    ensures a.ReportPage? == b.ReportPage? && a.QuarantinePage? == b.QuarantinePage? && a.ReleasePage? == b.ReleasePage?
  {
    assert |Kind(a)| == |Kind(b)|;
    assert Kind(a)[0] == Kind(b)[0] && Kind(a)[2] == Kind(b)[2];
  }

  lemma IntentHas(c: Command)
    ensures CommandIntent(c)["kind"] == Text(Kind(c))
    ensures CommandIntent(c)["actor_id"] == Text(c.base.actorId) && CommandIntent(c)["page_id"] == Text(c.pageId)
    ensures forall k :: k in ClientFields(c) ==> k in CommandIntent(c) && CommandIntent(c)[k] == ClientFields(c)[k]
  {
    assert |"kind"| == 4 && |"actor_id"| == 8 && |"page_id"| == 7;
    assert "content"[0] != "page_id"[0] && "summary"[0] != "page_id"[0];
  }

  lemma FieldsSeparate(a: Command, b: Command)
    requires Kind(a) == Kind(b) && a.base.actorId == b.base.actorId && a.pageId == b.pageId
    requires forall k :: k in ClientFields(a) && k in ClientFields(b) ==> ClientFields(a)[k] == ClientFields(b)[k]
    ensures ClientPart(a) == ClientPart(b)
  {
    KindsDiffer(a, b);
    match a {
      case CreatePage(_, _, _, _, _, _, _) =>
        assert ClientFields(a)["slug"] == ClientFields(b)["slug"] &&
          ClientFields(a)["title"] == ClientFields(b)["title"];
        assert ClientFields(a)["content"] == ClientFields(b)["content"] &&
          ClientFields(a)["summary"] == ClientFields(b)["summary"];
      case EditPage(_, _, _, _, _, _, _) =>
        assert ClientFields(a)["expected_revision_id"] == ClientFields(b)["expected_revision_id"];
        assert ClientFields(a)["title"] == ClientFields(b)["title"];
        assert ClientFields(a)["content"] == ClientFields(b)["content"] &&
          ClientFields(a)["summary"] == ClientFields(b)["summary"];
      case SubmitReview(_, _, _, _, _, _) =>
        assert ClientFields(a)["expected_revision_id"] == ClientFields(b)["expected_revision_id"];
        assert ClientFields(a)["expected_content_hash"] == ClientFields(b)["expected_content_hash"];
        assert ClientFields(a)["note"] == ClientFields(b)["note"];
      case ReportPage(_, _, _, _) =>
        assert ClientFields(a)["reason"] == ClientFields(b)["reason"];
      case QuarantinePage(_, _, _, _, _, _) =>
        assert ClientFields(a)["expected_revision_id"] == ClientFields(b)["expected_revision_id"];
        assert ClientFields(a)["expected_content_hash"] == ClientFields(b)["expected_content_hash"];
        assert ClientFields(a)["reason"] == ClientFields(b)["reason"];
      case ReleasePage(_, _, _, _, _, _) =>
        assert ClientFields(a)["expected_revision_id"] == ClientFields(b)["expected_revision_id"];
        assert ClientFields(a)["expected_content_hash"] == ClientFields(b)["expected_content_hash"];
        assert ClientFields(a)["note"] == ClientFields(b)["note"];
    }
  }

  /** Two commands have one fingerprint exactly when the client asked for the same thing. */
  lemma FingerprintIsIntent(a: Command, b: Command)
    ensures IntentFingerprint(a) == IntentFingerprint(b) <==> ClientPart(a) == ClientPart(b)
  {
    if IntentFingerprint(a) == IntentFingerprint(b) {
      IntentHas(a);
      IntentHas(b);
      FieldsSeparate(a, b);
    }
    if ClientPart(a) == ClientPart(b) {
      assert ClientFields(a) == ClientFields(b);
    }
  }
}
