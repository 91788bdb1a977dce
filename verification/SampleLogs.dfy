/** Two logs that the weaker checks accept and that no run of appends builds. */
module SampleLogs {
  import opened Results
  import opened SafeIntegers
  import opened Sorting
  import opened Text
  import opened ProtocolShapes
  import opened ReviewEvents
  import opened ReviewLog
  import opened ReviewLogTheorems

  // ---------------------------------------------------------------- logs of two events

  /** An event that passes every check it has to pass by itself, and supersedes nothing. */
  predicate Admitted(rules: Rules, protocolVersion: Text, reviewId: Text, e: Event) {
    && rules.schemaOk(e) && e.body.protocolVersion == protocolVersion && e.body.reviewId == reviewId
    && IsSafeInteger(e.body.sequenceNumber) && e.body.sequenceNumber >= 0
    && SemanticRejection(rules, e).None? && rules.identity(e.body) == Some(e.id) && e.body.supersedes.None?
  }

  predicate Follows(a: Event, b: Event) {
    a.id != b.id && a.body.key != b.body.key && a.body.sequenceNumber < b.body.sequenceNumber
  }

  lemma TwoEntries(rules: Rules, protocolVersion: Text, reviewId: Text, a: Event, b: Event)
    requires protocolVersion == PROTOCOL_VERSION && rules.nonBlank(reviewId)
    requires Admitted(rules, protocolVersion, reviewId, a) && Admitted(rules, protocolVersion, reviewId, b) &&
      Follows(a, b)
    ensures LogIsValid(rules, Log(protocolVersion, reviewId, [a, b]))
  {
    var header, log := Log(protocolVersion, reviewId, []), Log(protocolVersion, reviewId, [a, b]);
    EntriesSnoc(rules, header, [], a);
    EntriesSnoc(rules, header, [a], b);
    assert [] + [a] == [a] && [a] + [b] == [a, b];
    EntriesOfLog(rules, header, log, [a, b]);
  }

  lemma FirstStep(rules: Rules, protocolVersion: Text, reviewId: Text, a: Event)
    requires Admitted(rules, protocolVersion, reviewId, a) && ChainRejection(rules, [], a).None?
    ensures StepOk(rules, protocolVersion, reviewId, [], a)
  {
    ChainRejectionIsTheRest(rules, [], a);
  }

  lemma SecondStep(rules: Rules, protocolVersion: Text, reviewId: Text, a: Event, b: Event)
    requires Admitted(rules, protocolVersion, reviewId, b) && Follows(a, b) && ChainRejection(rules, [a], b).None?
    ensures StepOk(rules, protocolVersion, reviewId, [a], b)
  {
    assert FindFirst([a], WithKey(b.body.key)).None?;
    ChainRejectionIsTheRest(rules, [a], b);
  }

  lemma TwoSteps(rules: Rules, protocolVersion: Text, reviewId: Text, a: Event, b: Event)
    requires Admitted(rules, protocolVersion, reviewId, a) && Admitted(rules, protocolVersion, reviewId, b) &&
      Follows(a, b)
    requires ChainRejection(rules, [], a).None? && ChainRejection(rules, [a], b).None?
    ensures ReplayOk(rules, protocolVersion, reviewId, [a, b])
  {
    FirstStep(rules, protocolVersion, reviewId, a);
    SecondStep(rules, protocolVersion, reviewId, a, b);
    StepsReplay(rules, protocolVersion, reviewId, a, b);
  }

  lemma StepsReplay(rules: Rules, protocolVersion: Text, reviewId: Text, a: Event, b: Event)
    requires StepOk(rules, protocolVersion, reviewId, [], a) && StepOk(rules, protocolVersion, reviewId, [a], b)
    ensures ReplayOk(rules, protocolVersion, reviewId, [a, b])
  {
    ReplaySnoc(rules, protocolVersion, reviewId, [], a);
    ReplaySnoc(rules, protocolVersion, reviewId, [a], b);
    assert [] + [a] == [a] && [a] + [b] == [a, b];
  }

  lemma BrokenSecond(rules: Rules, protocolVersion: Text, reviewId: Text, a: Event, b: Event)
    requires ScopeRule([a], b).Some?
    ensures !ReplayOk(rules, protocolVersion, reviewId, [a, b])
  {
    ChainRejectionIsTheRest(rules, [a], b);
    ReplaySnoc(rules, protocolVersion, reviewId, [a], b);
    assert [a] + [b] == [a, b];
  }

  // ---------------------------------------------------------------- the rules and the events

  const REVIEW: Text := Lit("review:abc")
  const NAME: Text := Lit("abc")
  const OTHER_NAME: Text := Lit("abd")
  const TIME: Text := Lit("2026-01-01T00:00:00Z")

  /** Two ids: `sha256:` and 64 times one digit. */
  function SampleId(n: int): Text { Lit("sha256:") + seq(64, i => if n == 0 then 97 else 98) }

  predicate SampleSchemaOk(e: Event) {
    e.body.protocolVersion == PROTOCOL_VERSION && IsReviewId(e.body.reviewId) && IsPrefixedSha256(e.id) &&
      e.body.artifactRefs != []
  }

  function SampleRules(): Rules {
    Rules(schemaOk := SampleSchemaOk,
          identity := (b: Body) => Some(SampleId(b.sequenceNumber)),
          nonBlank := (s: Text) => s != [],
          rawSourceText := (r: Reason) => false,
          claimUnsafeText := (r: Reason) => false,
          customerProseForbidden := (r: Reason) => false,
          verificationTextForbidden := (r: Option<Reason>) => false,
          carriesRiskEvidence := (r: Option<Reason>) => true,
          forbiddenMachine := (a: Actor) => false,
          pilotActorIdOk := (a: Actor) => true,
          parseNs := (s: Text) => None)
  }

  lemma SampleSchemaFacts()
    ensures SchemaFacts(SampleRules())
  {
    assert |Lit("review:")| == 7;
  }

  /** An event with a number, a key and an artifact. */
  function SampleOf(n: nat, key: Key, eventType: EventType, actorType: Text, record: Text,
                    reason: Option<Reason>): Event {
    Event(SampleId(n),
          Body(PROTOCOL_VERSION, REVIEW, n, key, eventType, Actor(actorType, NAME), TIME, [Slug(record)],
               InternalOnly, [EVENT_ID_KEY], None, reason, None, None, None, None, None))
  }

  lemma SampleTexts()
    ensures IsReviewId(REVIEW) && NAME != [] && REVIEW != [] && OTHER_NAME != NAME && CUSTOMER_USER != [] &&
      REVIEWER != []
  {
    assert REVIEW[..7] == Lit("review:");
    assert OTHER_NAME[2] != NAME[2];
  }

  lemma SampleIds()
    ensures SampleId(0) != SampleId(1) && IsPrefixedSha256(SampleId(0)) && IsPrefixedSha256(SampleId(1))
  {
    assert SampleId(0)[7] != SampleId(1)[7];
    assert SampleId(0)[..7] == Lit("sha256:") && SampleId(1)[..7] == Lit("sha256:");
  }

  /** What is left to ask of a sample event are the rules of its type. */
  lemma SampleAdmitted(n: nat, key: Key, eventType: EventType, actorType: Text, record: Text, reason: Option<Reason>)
    requires n <= 1
    requires SemanticRejection(SampleRules(), SampleOf(n, key, eventType, actorType, record, reason)).None?
    ensures Admitted(SampleRules(), PROTOCOL_VERSION, REVIEW, SampleOf(n, key, eventType, actorType, record, reason))
  {
    SampleTexts();
    SampleIds();
  }

  // ---------------------------------------------------------------- a valid log that does not replay

  /** The `n`th version of one verification pass scope, superseding nothing. */
  function SampleScope(n: nat): Event {
    SampleOf(n, ScopeKey(REVIEW, NAME, n + 1), VerificationScopeRecorded, CUSTOMER_USER, NAME, None)
  }

  lemma ScopePasses(rules: Rules, e: Event)
    requires e.body.eventType.VerificationScopeRecorded? && e.body.actor.actorType == CUSTOMER_USER &&
      !rules.forbiddenMachine(e.body.actor)
    requires !rules.verificationTextForbidden(e.body.reason)
    requires ActorPresent(rules, e) && ContentRule(rules, e.body).None? && TypedRefsMatch(e)
    ensures SemanticRejection(rules, e).None?
  {
  }

  lemma SampleScopeAdmitted(n: nat)
    requires n <= 1
    ensures Admitted(SampleRules(), PROTOCOL_VERSION, REVIEW, SampleScope(n))
  {
    SampleTexts();
    ScopePasses(SampleRules(), SampleScope(n));
    SampleAdmitted(n, ScopeKey(REVIEW, NAME, n + 1), VerificationScopeRecorded, CUSTOMER_USER, NAME, None);
  }

  lemma SampleScopesFollow()
    ensures Follows(SampleScope(0), SampleScope(1))
  {
    SampleIds();
  }

  lemma SampleBreaksScope()
    ensures ScopeRule([SampleScope(0)], SampleScope(1)) == Some(ScopeVersionInvalid)
  {
    var a, b := SampleScope(0), SampleScope(1);
    var f := ScopeFamily(REVIEW, NAME);
    assert MemberOf(a) == Some(Member(f, 1)) && MemberOf(b) == Some(Member(f, 2));
    assert [a][..0] == [];
    assert Members([a], f) == [] + [a];
    SortOfAscending([a], VersionLt);
    assert LatestVerification([a], f) == Some(a);
    assert ScopeRule([a], b) == Some(ScopeVersionInvalid);
  }

  /** The check of a preloaded log accepts logs that no run of appends can build: here the second
      version of a scope does not supersede the first. */
  lemma ValidNeedNotReplay()
    ensures SchemaFacts(SampleRules())
    ensures var log := Log(PROTOCOL_VERSION, REVIEW, [SampleScope(0), SampleScope(1)]);
      && LogIsValid(SampleRules(), log)
      && !ReplayOk(SampleRules(), log.protocolVersion, log.reviewId, log.events)
      && FoldAppends(SampleRules(), Log(PROTOCOL_VERSION, REVIEW, []), log.events).None?
  {
    var rules, a, b := SampleRules(), SampleScope(0), SampleScope(1);
    SampleScopeAdmitted(0);
    SampleScopeAdmitted(1);
    SampleScopesFollow();
    SampleTexts();
    TwoEntries(rules, PROTOCOL_VERSION, REVIEW, a, b);
    SampleBreaksScope();
    BrokenSecond(rules, PROTOCOL_VERSION, REVIEW, a, b);
    SampleSchemaFacts();
    ReplayIsFoldOfAppends(rules, PROTOCOL_VERSION, REVIEW, [a, b]);
  }

  // ---------------------------------------------------------------- what replay leaves out

  /** The `n`th validation script, in the first included slot. */
  function SampleScript(n: nat): Event {
    var record := if n == 0 then NAME else OTHER_NAME;
    SampleOf(n, ValidationScriptKey(REVIEW, record), ValidationRecorded, REVIEWER, record,
             Some(IncludedScriptReason(1)))
  }

  lemma ScriptPasses(rules: Rules, e: Event)
    requires e.body.eventType.ValidationRecorded? && e.body.actor.actorType == REVIEWER
    requires ActorPresent(rules, e) && ContentRule(rules, e.body).None? && TypedRefsMatch(e)
    ensures SemanticRejection(rules, e).None?
  {
  }

  lemma ScriptChain(rules: Rules, prior: seq<Event>, e: Event)
    requires e.body.eventType.ValidationRecorded? && e.body.supersedes.None? && e.body.supersedesClassification.None?
    ensures ChainRejection(rules, prior, e).None?
  {
  }

  lemma SampleScriptAdmitted(n: nat)
    requires n <= 1
    ensures Admitted(SampleRules(), PROTOCOL_VERSION, REVIEW, SampleScript(n))
  {
    var record := if n == 0 then NAME else OTHER_NAME;
    SampleTexts();
    ScriptPasses(SampleRules(), SampleScript(n));
    SampleAdmitted(n, ValidationScriptKey(REVIEW, record), ValidationRecorded, REVIEWER, record,
                   Some(IncludedScriptReason(1)));
  }

  lemma SampleScriptsFollow()
    ensures Follows(SampleScript(0), SampleScript(1))
  {
    SampleIds();
    SampleTexts();
  }

  lemma SampleScriptsReplay()
    ensures ReplayOk(SampleRules(), PROTOCOL_VERSION, REVIEW, [SampleScript(0), SampleScript(1)])
  {
    var rules, a, b := SampleRules(), SampleScript(0), SampleScript(1);
    SampleScriptAdmitted(0);
    SampleScriptAdmitted(1);
    SampleScriptsFollow();
    ScriptChain(rules, [], a);
    ScriptChain(rules, [a], b);
    TwoSteps(rules, PROTOCOL_VERSION, REVIEW, a, b);
  }

  lemma SameSlot()
    ensures SlotOf(SampleScript(0)) == [1] && SlotOf(SampleScript(1)) == [1]
  {
  }

  /** Replay accepts logs that no appends build: here two scripts in one included slot. */
  lemma ReplayedNeedNotAppend()
    ensures SchemaFacts(SampleRules())
    ensures var events := [SampleScript(0), SampleScript(1)];
      && ReplayOk(SampleRules(), PROTOCOL_VERSION, REVIEW, events) && !ScriptsOk(events)
      && FoldAppends(SampleRules(), Log(PROTOCOL_VERSION, REVIEW, []), events).None?
  {
    var rules, a, b := SampleRules(), SampleScript(0), SampleScript(1);
    SampleScriptsReplay();
    SameSlot();
    SlotTaken(a, b);
    SampleSchemaFacts();
    ReplayIsFoldOfAppends(rules, PROTOCOL_VERSION, REVIEW, [a, b]);
  }

  lemma SlotTaken(a: Event, b: Event)
    requires SlotOf(a) == SlotOf(b) == [1]
    ensures !ScriptsOk([a, b])
  {
    assert [a, b][..1] == [a] && [a][..0] == [];
    assert IncludedSlots([a]) == [] + SlotOf(a);
    assert IncludedSlots([a, b]) == IncludedSlots([a]) + SlotOf(b);
    var slots := IncludedSlots([a, b]);
    assert slots[0] == slots[1];
  }
}
