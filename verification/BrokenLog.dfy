/** A log that the control plane accepts and the render filter cannot render. */
module BrokenLog {
  import opened Results
  import opened Text
  import opened Json
  import opened CanonicalIdentity
  import opened ProtocolShapes
  import opened EventFilter
  import opened RenderFilter
  import opened RenderTheorems
  import opened EscapingLibrary
  import opened SampleEvents
  import opened BrokenEvents
  import ReviewEvents
  import ReviewLog

  // ---------------------------------------------------------------- the log

  /** The id of the event whose reason is an unpaired surrogate, as the control plane computes it. */
  function BrokenId(h: HashFn): Text { Sha256ProtocolText(h, Escaped(Canon(Obj(SurrogateMembers())))) }

  /** The event as it is stored. */
  function BrokenDoc(h: HashFn): Json { SurrogateEvent(BrokenId(h)) }

  function BrokenBody(): ReviewEvents.Body {
    ReviewEvents.Body(PROTOCOL_VERSION, REVIEW_ID, 0, ReviewEvents.Other(IDEMPOTENCY_KEY),
                      ReviewEvents.KeyRotationRecorded,
                      ReviewEvents.Actor(ACTOR_TYPE, ACTOR_ID), TIMESTAMP, [ReviewEvents.Slug(ACTOR_ID)],
                      ReviewEvents.InternalOnly,
                      [EVENT_ID_KEY], None, Some(ReviewEvents.Prose([0xD800])), None, None, None, None, None)
  }

  function AcceptedLog(h: HashFn): ReviewEvents.Log {
    ReviewEvents.Log(PROTOCOL_VERSION, REVIEW_ID, [ReviewEvents.Event(BrokenId(h), BrokenBody())])
  }

  /** The control plane's checks, with no wording forbidden; one body is known and has its identity. */
  function BrokenRules(h: HashFn): ReviewEvents.Rules {
    ReviewEvents.Rules(
      schemaOk := (e: ReviewEvents.Event) => IsReviewId(e.body.reviewId) && IsPrefixedSha256(e.id) &&
        e.body.artifactRefs != [],
      identity := (b: ReviewEvents.Body) => if b == BrokenBody() then Some(BrokenId(h)) else None,
      nonBlank := (s: Text) => s != [],
      rawSourceText := (r: ReviewEvents.Reason) => false,
      claimUnsafeText := (r: ReviewEvents.Reason) => false,
      customerProseForbidden := (r: ReviewEvents.Reason) => false,
      verificationTextForbidden := (r: Option<ReviewEvents.Reason>) => false,
      carriesRiskEvidence := (r: Option<ReviewEvents.Reason>) => false,
      forbiddenMachine := (a: ReviewEvents.Actor) => false,
      pilotActorIdOk := (a: ReviewEvents.Actor) => false,
      parseNs := (s: Text) => None)
  }

  function EventSchema(): Json -> bool { (e: Json) => HasEventMembers(e) }

  function ReadKey(): Text -> ReviewEvents.Key { (t: Text) => ReviewEvents.Other(t) }

  // ---------------------------------------------------------------- it is accepted

  lemma OneEventIsValid(rules: ReviewEvents.Rules, log: ReviewEvents.Log, e: ReviewEvents.Event)
    requires log.protocolVersion == PROTOCOL_VERSION && rules.nonBlank(log.reviewId) && log.events == [e]
    requires rules.schemaOk(e) && e.body.protocolVersion == log.protocolVersion && e.body.reviewId == log.reviewId
    requires e.body.sequenceNumber == 0 && e.body.supersedes.None?
    requires ReviewEvents.SemanticRejection(rules, e).None? && rules.identity(e.body) == Some(e.id)
    ensures ReviewLog.LogIsValid(rules, log)
  {
    assert log.events == [] + [e];
    ReviewLog.StepwiseSnoc(ReviewLog.EntryFor(rules, log), [], e);
  }

  /** Of a key rotation only the common rules are asked. */
  lemma RotationPasses(rules: ReviewEvents.Rules, e: ReviewEvents.Event)
    requires e.body.eventType.KeyRotationRecorded? && e.body.key.Other? && |e.body.artifactRefs| == 1
    requires ReviewEvents.ActorPresent(rules, e) && ReviewEvents.ContentRule(rules, e.body).None?
    ensures ReviewEvents.SemanticRejection(rules, e).None?
  {
  }

  lemma BrokenTexts()
    ensures REVIEW_ID != [] && ACTOR_TYPE != [] && ACTOR_ID != [] && IsReviewId(REVIEW_ID)
  {
    assert REVIEW_ID[..7] == Lit("review:");
  }

  lemma BrokenLogIsValid(h: HashFn)
    ensures ReviewLog.LogIsValid(BrokenRules(h), AcceptedLog(h)) && BrokenRules(h).schemaOk(AcceptedLog(h).events[0])
  {
    var e := ReviewEvents.Event(BrokenId(h), BrokenBody());
    BrokenTexts();
    IdentityIsDigest(h, Escaped(Canon(Obj(SurrogateMembers()))));
    RotationPasses(BrokenRules(h), e);
    OneEventIsValid(BrokenRules(h), AcceptedLog(h), e);
  }

  // ---------------------------------------------------------------- it is the stored one

  lemma BrokenIdentity(h: HashFn)
    ensures WellFormed(BrokenDoc(h)) && LibraryIdentity(h, Escaping(), BrokenDoc(h)) == Some(BrokenId(h))
  {
    SurrogateMembersAreRead();
    WithIdFacts(BrokenId(h), SurrogateMembers());
  }

  lemma BrokenReads(h: HashFn)
    ensures ReadsAs(BrokenDoc(h), ReviewEvents.Event(BrokenId(h), BrokenBody()), ReadKey())
  {
    SurrogateMembersAreRead();
    EventIsShaped(BrokenId(h), SurrogateMembers());
  }

  lemma BrokenIsComplete(h: HashFn)
    ensures HasEventMembers(BrokenDoc(h))
  {
    BothAreComplete(h, BrokenId(h));
  }

  lemma OneRepresents(rules: ReviewEvents.Rules, render: RenderRules, library: Library,
                      readKey: Text -> ReviewEvents.Key,
                      e: ReviewEvents.Event, doc: Json)
    requires WellFormed(doc) && ReadsAs(doc, e, readKey) && render.schemaOk(doc)
    requires rules.identity(e.body) == LibraryIdentity(render.hash, library, doc)
    ensures Represents(rules, render, library, readKey, [e], [doc])
  {
  }

  lemma BrokenRepresents(h: HashFn)
    ensures Represents(BrokenRules(h), RenderRules(h, EventSchema()), Escaping(), ReadKey(), AcceptedLog(h).events,
                       [BrokenDoc(h)])
  {
    BrokenIdentity(h);
    BrokenReads(h);
    BrokenIsComplete(h);
    OneRepresents(BrokenRules(h), RenderRules(h, EventSchema()), Escaping(), ReadKey(), AcceptedLog(h).events[0],
                  BrokenDoc(h));
  }

  lemma BrokenHasNoIdentity(h: HashFn)
    ensures !HasIdentity(BrokenDoc(h))
  {
    SurrogateBreaks(RenderRules(h, (e: Json) => true), BrokenId(h));
  }

  /** An accepted log of one complete event, stored as it is, that makes the filter throw: its reason is an
      unpaired surrogate, which the control plane's library escapes and the strict canonicalizer refuses. */
  lemma AcceptedLogBreaks(h: HashFn)
    ensures var rules, render, log, doc := BrokenRules(h), RenderRules(h, EventSchema()), AcceptedLog(h), BrokenDoc(h);
      && FollowsRfc8785(Escaping()) && HasEventMembers(doc)
      && ReviewLog.LogIsValid(rules, log) && rules.schemaOk(log.events[0])
      && Represents(rules, render, Escaping(), ReadKey(), log.events, [doc])
      && StructurallyValidReviewEvents(render, StoredLog(Str(log.protocolVersion), Str(log.reviewId), [doc])) == Thrown
  {
    EscapingFollowsRfc8785();
    BrokenIsComplete(h);
    BrokenLogIsValid(h);
    BrokenRepresents(h);
    BrokenHasNoIdentity(h);
    ValidLogCanBreak(BrokenRules(h), RenderRules(h, EventSchema()), Escaping(), ReadKey(), AcceptedLog(h),
                     [BrokenDoc(h)], 0);
  }
}
