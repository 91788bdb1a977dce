/** Review events, what their idempotency keys parse to, and the event-local rules of
    `apps/control-plane/src/index.ts`. */
module ReviewEvents {
  import opened Results
  import opened SafeIntegers
  import opened Text
  import opened ProtocolShapes

  const REVIEWER: Text := Lit("reviewer")
  const CUSTOMER_USER: Text := Lit("customer_user")
  const VENDOR_SERVICE: Text := Lit("vendor_service")

  datatype EventType =
    | ReceiptIssued | SubmissionRejected | SubmissionQuarantined
    | ClassificationRecorded | RemediationGuidanceRecorded | ValidationRecorded
    | VerificationScopeRecorded | VerificationEvidenceRecorded | VerificationRecorded
    | CustomerRemediationRecorded | FalsePositiveRecorded | CustomerAcceptedRiskRecorded
    | AttestationGenerated | StaticBundleGenerated
    | AttestationPackageFinalized | AttestationPackageExported
    | PilotMetricRecorded | PilotFeedbackRecorded
    | EvidenceDeleted | RetentionStatusChanged | EvidenceAccessed | KeyRotationRecorded

  /** An idempotency key, as the anchored patterns of the source take it apart. A version is any
      decimal without a leading zero; `Other` is every key that no pattern matches whole, and
      `OtherScript` those of them that begin with `validation_script:`. */
  datatype Key =
    | ClassificationKey(review: Text, record: Text)
    | GuidanceKey(review: Text, record: Text)
    | CustomerRemediationKey(review: Text, record: Text)
    | ValidationPathKey(review: Text, record: Text)
    | ValidationScriptKey(review: Text, record: Text)
    | ScopeKey(review: Text, record: Text, version: nat)
    | EvidenceKey(review: Text, record: Text, version: nat)
    | DecisionKey(review: Text, record: Text, version: nat)
    | FalsePositiveKey(review: Text, record: Text)
    | AcceptedRiskKey(review: Text, record: Text)
    | AttestationKey(review: Text, artifact: Text, version: nat)
    | StaticBundleKey(review: Text, bundle: Text, version: nat, artifact: Text)
    | FinalizedKey(review: Text, bundle: Text, version: nat, record: Text, generated: Text, artifact: Text)
    | ExportedKey(review: Text, bundle: Text, version: nat, record: Text, generated: Text, artifact: Text)
    | PilotMetricKey(review: Text, record: Text, version: nat, artifact: Text)
    | PilotFeedbackKey(review: Text, record: Text, version: nat, artifact: Text)
    | OtherScript(text: Text)
    | Other(text: Text)

  /** `artifact_ref:` with a slug, or `sha256:` with a digest. */
  datatype ArtifactRef = Slug(slug: Text) | Sha256(hex: Text)

  /** The sentences that the validation-script pattern reads, and every other text. */
  datatype Reason = IncludedScriptReason(slot: int) | AdditionalScriptReason | Prose(text: Text)

  datatype Actor = Actor(actorType: Text, actorId: Text)

  datatype Visibility = CustomerFacing | InternalOnly

  /** An event without its id: what the id is computed from. */
  datatype Body = Body(
    protocolVersion: Text,
    reviewId: Text,
    sequenceNumber: int,
    key: Key,
    eventType: EventType,
    actor: Actor,
    timestamp: Text,
    artifactRefs: seq<ArtifactRef>,
    visibility: Visibility,
    identityExcludes: seq<Text>,
    sourceDerivedClass: Option<Text>,
    reason: Option<Reason>,
    customerActorRef: Option<Text>,
    customerSelectionRef: Option<Text>,
    internalNote: Option<Text>,
    supersedes: Option<Text>,
    supersedesClassification: Option<Text>)

  datatype Event = Event(id: Text, body: Body)

  datatype Log = Log(protocolVersion: Text, reviewId: Text, events: seq<Event>)

  datatype ScriptPackage = Included(slot: int) | AdditionalCandidate

  /** The parts of the source that the model leaves open: schema validation, the content hash,
      text filters and the timestamp parser. */
  datatype Rules = Rules(
    schemaOk: Event -> bool,
    identity: Body -> Option<Text>,
    nonBlank: Text -> bool,
    rawSourceText: Reason -> bool,
    claimUnsafeText: Reason -> bool,
    customerProseForbidden: Reason -> bool,
    verificationTextForbidden: Option<Reason> -> bool,
    carriesRiskEvidence: Option<Reason> -> bool,
    forbiddenMachine: Actor -> bool,
    pilotActorIdOk: Actor -> bool,
    parseNs: Text -> Option<int>)

  datatype Rejection =
    | SchemaInvalid | IdentityExcludesInvalid | IdentityMismatch
    | InternalNoteRequiresInternalOnly | ReasonRawSourceText | ReasonClaimUnsafeText
    | ClassificationReviewerRequired | GuidanceReviewerRequired | CustomerRemediationActorRequired
    | ValidationReviewerRequired | FalsePositiveReviewerRequired | RiskCustomerEvidenceRequired
    | ScopeActorRequired | ScopeCustomerBackingRequired | ScopeReasonUnsafe
    | EvidenceActorRequired | EvidenceCustomerBackingRequired | EvidenceReasonUnsafe
    | EvidenceFamilyMismatch | EvidenceVersionInvalid
    | DecisionReviewerRequired | DecisionReasonUnsafe | DecisionFamilyMismatch | DecisionVersionInvalid
    | Epic5AuthorityInvalid | PilotPiiForbidden | Epic5VersionInvalid | Epic5FamilyMismatch
    | OutcomeFamilyMismatch | ScopeFamilyMismatch | ScopeVersionInvalid
    | ScriptCapExceeded | MissingSourceDerivedClass | SequenceNumberInvalid
    | ProtocolVersionMismatch | ReviewIdMismatch | DuplicateEventId | IdempotencyKeyConflict
    | SequenceNotMonotonic | SupersedesUnknownEvent
    | CustomerCannotSupersedeClassification | CustomerCannotSupersedeExpertRecord

  // ---------------------------------------------------------------- versioned families

  /** What versions count along: one verification pass scope, evidence record or decision record,
      or one Epic 5 artifact family. */
  datatype Family =
    | ScopeFamily(review: Text, record: Text)
    | EvidenceFamily(review: Text, record: Text)
    | DecisionFamily(review: Text, record: Text)
    | Epic5Family(eventType: EventType, review: Text, family: Text)

  datatype Member = Member(family: Family, version: nat)

  /** A version segment is lost unless it is exact as a number. */
  function Versioned(family: Family, version: nat): Option<Member> {
    if 1 <= version <= MAX_SAFE_INTEGER then Some(Member(family, version)) else None
  }

  /** The family and version that an event of a versioned type has by its key. */
  function MemberOf(e: Event): (m: Option<Member>)
    ensures m.Some? ==> 1 <= m.value.version <= MAX_SAFE_INTEGER
    ensures m.Some? ==>
      (m.value.family.Epic5Family? ==> IsEpic5(e.body.eventType) && m.value.family.eventType == e.body.eventType)
  {
    match (e.body.eventType, e.body.key)
    case (VerificationScopeRecorded, ScopeKey(r, p, v)) => Versioned(ScopeFamily(r, p), v)
    case (VerificationEvidenceRecorded, EvidenceKey(r, p, v)) => Versioned(EvidenceFamily(r, p), v)
    case (VerificationRecorded, DecisionKey(r, p, v)) => Versioned(DecisionFamily(r, p), v)
    case (AttestationGenerated, AttestationKey(r, _, v)) => Versioned(Epic5Family(AttestationGenerated, r, r), v)
    case (StaticBundleGenerated, StaticBundleKey(r, b, v, _)) => Versioned(Epic5Family(StaticBundleGenerated, r, b), v)
    case (AttestationPackageFinalized,
          FinalizedKey(r, b, v, _, _, _)) => Versioned(Epic5Family(AttestationPackageFinalized, r, b), v)
    case (AttestationPackageExported,
          ExportedKey(r, b, v, _, _, _)) => Versioned(Epic5Family(AttestationPackageExported, r, b), v)
    case (PilotMetricRecorded, PilotMetricKey(r, p, v, _)) => Versioned(Epic5Family(PilotMetricRecorded, r, p), v)
    case (PilotFeedbackRecorded, PilotFeedbackKey(r, p, v, _)) => Versioned(Epic5Family(PilotFeedbackRecorded, r, p), v)
    case _ => None
  }

  predicate IsEpic5(t: EventType) {
    t.AttestationGenerated? || t.StaticBundleGenerated? || t.AttestationPackageFinalized? ||
      t.AttestationPackageExported? ||
    t.PilotMetricRecorded? || t.PilotFeedbackRecorded?
  }

  predicate InFamily(e: Event, f: Family) {
    MemberOf(e).Some? && MemberOf(e).value.family == f
  }

  function VersionOf(e: Event): nat {
    match MemberOf(e)
    case Some(m) => m.version
    case None => 0
  }

  // ---------------------------------------------------------------- event-local rules

  predicate IsValidationScriptEvent(e: Event) {
    e.body.eventType.ValidationRecorded? && (e.body.key.ValidationScriptKey? || e.body.key.OtherScript?)
  }

  function ScriptPackageOf(reason: Option<Reason>): (p: Option<ScriptPackage>)
    ensures p.Some? && p.value.Included? ==> 1 <= p.value.slot <= 3
  {
    match reason
    case Some(IncludedScriptReason(slot)) => if 1 <= slot <= 3 then Some(Included(slot)) else None
    case Some(AdditionalScriptReason) => Some(AdditionalCandidate)
    case _ => None
  }

  /** The one artifact an event is about must be the one its key names, in its own review. */
  predicate TypedRefsMatch(e: Event) {
    |e.body.artifactRefs| == 1 &&
    var ref := e.body.artifactRefs[0];
    var review := e.body.reviewId;
    match (e.body.eventType, e.body.key)
    case (ClassificationRecorded, ClassificationKey(r, p)) => r == review && ref == Slug(p)
    case (ClassificationRecorded, _) => false
    case (RemediationGuidanceRecorded, GuidanceKey(r, p)) => r == review && ref == Slug(p)
    case (RemediationGuidanceRecorded, _) => false
    case (CustomerRemediationRecorded, CustomerRemediationKey(r, p)) => r == review && ref == Slug(p)
    case (CustomerRemediationRecorded, _) => false
    case (ValidationRecorded, ValidationPathKey(r, p)) => r == review && ref == Slug(p)
    case (ValidationRecorded, ValidationScriptKey(r, p)) => r == review && ref == Slug(p)
    case (ValidationRecorded, _) => false
    case (VerificationScopeRecorded, ScopeKey(r, p, _)) => MemberOf(e).Some? && r == review && ref == Slug(p)
    case (VerificationScopeRecorded, _) => false
    case (VerificationEvidenceRecorded, EvidenceKey(r, p, _)) => MemberOf(e).Some? && r == review && ref == Slug(p)
    case (VerificationEvidenceRecorded, _) => false
    case (VerificationRecorded, DecisionKey(r, p, _)) => MemberOf(e).Some? && r == review && ref == Slug(p)
    case (VerificationRecorded, _) => false
    case (FalsePositiveRecorded, FalsePositiveKey(r, p)) => r == review && ref == Slug(p)
    case (FalsePositiveRecorded, _) => false
    case (CustomerAcceptedRiskRecorded, AcceptedRiskKey(r, p)) => r == review && ref == Slug(p)
    case (CustomerAcceptedRiskRecorded, _) => false
    case (AttestationGenerated, AttestationKey(r, a, _)) => MemberOf(e).Some? && r == review && ref == Slug(a)
    case (StaticBundleGenerated, StaticBundleKey(r, _, _, a)) => MemberOf(e).Some? && r == review && ref == Sha256(a)
    case (AttestationPackageFinalized, FinalizedKey(r, _, _, _, _, a)) => MemberOf(e).Some? && r == review &&
      ref == Sha256(a)
    case (AttestationPackageExported, ExportedKey(r, _, _, _, _, a)) => MemberOf(e).Some? && r == review &&
      ref == Sha256(a)
    case (PilotMetricRecorded, PilotMetricKey(r, _, _, a)) => MemberOf(e).Some? && r == review && ref == Sha256(a)
    case (PilotFeedbackRecorded, PilotFeedbackKey(r, _, _, a)) => MemberOf(e).Some? && r == review && ref == Sha256(a)
    case _ => !IsEpic5(e.body.eventType)
  }

  predicate ActorPresent(rules: Rules, e: Event) {
    rules.nonBlank(e.body.actor.actorType) && rules.nonBlank(e.body.actor.actorId)
  }

  predicate NonEmpty(rules: Rules, text: Option<Text>) {
    text.Some? && rules.nonBlank(text.value)
  }

  function ContentRule(rules: Rules, b: Body): Option<Rejection> {
    Or(When(b.identityExcludes != [EVENT_ID_KEY], IdentityExcludesInvalid),
    Or(When(b.internalNote.Some? && b.visibility != InternalOnly, InternalNoteRequiresInternalOnly),
    Or(When(b.reason.Some? && rules.rawSourceText(b.reason.value), ReasonRawSourceText),
       When(b.reason.Some? &&
            (rules.claimUnsafeText(b.reason.value) ||
             (b.visibility.CustomerFacing? && rules.customerProseForbidden(b.reason.value))), ReasonClaimUnsafeText))))
  }

  function AuthorityRule(rules: Rules, b: Body): Option<Rejection> {
    var actorType := b.actor.actorType;
    match b.eventType
    case ClassificationRecorded => When(actorType != REVIEWER, ClassificationReviewerRequired)
    case RemediationGuidanceRecorded => When(actorType != REVIEWER, GuidanceReviewerRequired)
    case ValidationRecorded => When(actorType != REVIEWER, ValidationReviewerRequired)
    case FalsePositiveRecorded =>
      Or(When(actorType != REVIEWER, FalsePositiveReviewerRequired),
         When(b.supersedesClassification.Some?, OutcomeFamilyMismatch))
    case CustomerAcceptedRiskRecorded =>
      Or(When(actorType != CUSTOMER_USER && actorType != REVIEWER && actorType != VENDOR_SERVICE,
              RiskCustomerEvidenceRequired),
      Or(When(!rules.carriesRiskEvidence(b.reason), RiskCustomerEvidenceRequired),
         When(b.supersedesClassification.Some?, OutcomeFamilyMismatch)))
    case VerificationScopeRecorded =>
      Or(When((actorType != CUSTOMER_USER && actorType != REVIEWER && actorType != VENDOR_SERVICE) ||
              rules.forbiddenMachine(b.actor), ScopeActorRequired),
      Or(When(actorType != CUSTOMER_USER && !NonEmpty(rules, b.customerActorRef) &&
              !NonEmpty(rules, b.customerSelectionRef), ScopeCustomerBackingRequired),
         When(rules.verificationTextForbidden(b.reason), ScopeReasonUnsafe)))
    case VerificationEvidenceRecorded =>
      Or(When(actorType != CUSTOMER_USER && actorType != VENDOR_SERVICE, EvidenceActorRequired),
      Or(When(actorType == VENDOR_SERVICE && !NonEmpty(rules, b.customerActorRef), EvidenceCustomerBackingRequired),
         When(rules.verificationTextForbidden(b.reason), EvidenceReasonUnsafe)))
    case VerificationRecorded =>
      Or(When(actorType != REVIEWER, DecisionReviewerRequired),
         When(rules.verificationTextForbidden(b.reason), DecisionReasonUnsafe))
    case AttestationGenerated =>
      When((actorType != REVIEWER && actorType != VENDOR_SERVICE) || b.visibility != CustomerFacing,
           Epic5AuthorityInvalid)
    case StaticBundleGenerated => When(actorType != VENDOR_SERVICE || b.visibility != CustomerFacing,
                                       Epic5AuthorityInvalid)
    case AttestationPackageFinalized => When(actorType != CUSTOMER_USER || b.visibility != CustomerFacing,
                                             Epic5AuthorityInvalid)
    case AttestationPackageExported => When(actorType != CUSTOMER_USER || b.visibility != CustomerFacing,
                                            Epic5AuthorityInvalid)
    case PilotMetricRecorded => PilotRule(rules, b)
    case PilotFeedbackRecorded => PilotRule(rules, b)
    case _ => None
  }

  function PilotRule(rules: Rules, b: Body): Option<Rejection> {
    Or(When((b.actor.actorType != REVIEWER && b.actor.actorType != VENDOR_SERVICE) || b.visibility != InternalOnly ||
            b.reason.Some?, Epic5AuthorityInvalid),
       When(!rules.pilotActorIdOk(b.actor), PilotPiiForbidden))
  }

  /** `rejectionForReviewEventSemantics`: everything decided from one event alone. */
  function SemanticRejection(rules: Rules, e: Event): (r: Option<Rejection>)
    ensures r.None? ==> ActorPresent(rules, e) && TypedRefsMatch(e)
  {
    Or(When(!ActorPresent(rules, e), SchemaInvalid),
    Or(When(e.body.eventType.CustomerRemediationRecorded? && e.body.actor.actorType != CUSTOMER_USER,
            CustomerRemediationActorRequired),
    Or(ContentRule(rules, e.body),
    Or(AuthorityRule(rules, e.body),
    Or(When(!TypedRefsMatch(e), SchemaInvalid),
       When((e.body.eventType.EvidenceDeleted? || e.body.eventType.RetentionStatusChanged?) &&
            e.body.sourceDerivedClass.None?, MissingSourceDerivedClass))))))
  }
}
