/** The evidence lifecycle log and scoped access of `apps/control-plane/src/index.ts`. */
module EvidenceLifecycle {
  import opened Results
  import opened SafeIntegers

  datatype EventType = EvidenceAccessed | EvidenceDeleted | RetentionStatusChanged

  datatype SourceClass = NeverCollected | RetainedReviewArtifact | TransientSourceDerived | CustomerOptInRetainedSource

  datatype Actor = Actor(actorType: string, actorId: string)

  datatype Scope = Scope(tenant: string, reviewScope: string)

  datatype Event = Event(
    id: string,
    reviewId: string,
    sequenceNumber: int,
    key: string,
    eventType: EventType,
    actor: Actor,
    timestamp: string,
    artifactRefs: seq<string>,
    sourceClass: Option<SourceClass>,
    accessScope: Option<Scope>,
    purpose: Option<string>,
    deletionEvidenceRef: Option<string>,
    retentionRecordRef: Option<string>,
    supersedes: Option<string>)

  datatype RetentionRecord = RetentionRecord(id: string, sourceClass: SourceClass, artifactRefs: seq<string>,
                                             start: string, end: string)

  datatype DeletionEvidence = DeletionEvidence(id: string, verified: bool, actor: Actor, timestamp: string)

  datatype Context = Context(retention: seq<RetentionRecord>, deletion: seq<DeletionEvidence>)

  /** Schema validation, blank-text tests and the timestamp parser are left open. */
  datatype Rules = Rules(
    schemaOk: Event -> bool,
    retentionSchemaOk: RetentionRecord -> bool,
    deletionSchemaOk: DeletionEvidence -> bool,
    nonBlank: string -> bool,
    parseNs: string -> Option<int>)

  datatype Rejection =
    | SchemaInvalid | NotAppendOnly | DeletionEvidenceMissing | DeletionEvidenceUnresolved | AccessScopeMissing
    | AccessScopeMismatch | SourceClassMissing | ReviewIdMismatch | RetentionRecordMissing | RetentionRecordUnresolved

  // ---------------------------------------------------------------- rules for one event

  function EventRule(e: Event): Option<Rejection> {
    Or(When(e.eventType.EvidenceDeleted? && e.deletionEvidenceRef.None?, DeletionEvidenceMissing),
    Or(When(e.eventType.EvidenceAccessed? && e.accessScope.None?, AccessScopeMissing),
    Or(When(e.eventType.EvidenceAccessed? && e.accessScope.Some? && e.accessScope.value.reviewScope != e.reviewId,
            AccessScopeMismatch),
       When(!e.eventType.EvidenceAccessed? && e.sourceClass.None?, SourceClassMissing))))
  }

  function RetentionMatches(rules: Rules, records: seq<RetentionRecord>, id: string): seq<RetentionRecord> {
    if records == [] then []
    else
      (if rules.retentionSchemaOk(records[0]) && records[0].id == id then [records[0]] else []) +
      RetentionMatches(rules, records[1..], id)
  }

  function DeletionMatches(rules: Rules, items: seq<DeletionEvidence>, id: string): seq<DeletionEvidence> {
    if items == [] then []
    else (if rules.deletionSchemaOk(items[0]) && items[0].id == id then [items[0]] else []) + DeletionMatches(rules,
        items[1..], id)
  }

  predicate RetentionCovers(rules: Rules, r: RetentionRecord, e: Event) {
    var start, end, at := rules.parseNs(r.start), rules.parseNs(r.end), rules.parseNs(e.timestamp);
    r.sourceClass.CustomerOptInRetainedSource? && (forall ref :: ref in e.artifactRefs ==> ref in r.artifactRefs) &&
    start.Some? && end.Some? && at.Some? && start.value <= at.value <= end.value
  }

  predicate DeletionConfirms(rules: Rules, d: DeletionEvidence, e: Event) {
    var deleted, at := rules.parseNs(d.timestamp), rules.parseNs(e.timestamp);
    d.verified && d.actor == e.actor && deleted.Some? && at.Some? && deleted.value == at.value
  }

  /** What an event refers to must resolve in the context of this very call. */
  function CompanionRule(rules: Rules, e: Event, context: Context): Option<Rejection> {
    Or(if !(e.eventType.RetentionStatusChanged? && e.sourceClass == Some(CustomerOptInRetainedSource)) then None
       else if e.retentionRecordRef.None? then Some(RetentionRecordMissing)
       else
         var found := RetentionMatches(rules, context.retention, e.retentionRecordRef.value);
         When(|found| != 1 || !RetentionCovers(rules, found[0], e), RetentionRecordUnresolved),
       if !(e.eventType.EvidenceDeleted? && e.deletionEvidenceRef.Some?) then None
       else
         var found := DeletionMatches(rules, context.deletion, e.deletionEvidenceRef.value);
         When(|found| != 1 || !DeletionConfirms(rules, found[0], e), DeletionEvidenceUnresolved))
  }

  // ---------------------------------------------------------------- histories

  function Ids(events: seq<Event>): set<string> { set e | e in events :: e.id }

  function Keys(events: seq<Event>): set<string> { set e | e in events :: e.key }

  function LastSequence(events: seq<Event>): int {
    if events == [] then -1 else events[|events| - 1].sequenceNumber
  }

  function EntryRejection(rules: Rules, prior: seq<Event>, e: Event): Option<Rejection> {
    Or(When(!rules.schemaOk(e), SchemaInvalid),
    Or(EventRule(e),
    Or(When(!IsSafeInteger(e.sequenceNumber) || e.sequenceNumber < 0 || e.sequenceNumber <= LastSequence(prior),
            NotAppendOnly),
    Or(When(e.id in Ids(prior) || e.key in Keys(prior), NotAppendOnly),
    Or(When(e.supersedes.Some? && (e.supersedes.value == e.id || e.supersedes.value !in Ids(prior)), NotAppendOnly),
       When(prior != [] && e.reviewId != prior[0].reviewId, ReviewIdMismatch))))))
  }

  /** `evidenceLifecycleHistoryRejection`: the first rejection of an event by those before it. */
  function HistoryRejection(rules: Rules, events: seq<Event>): Option<Rejection> {
    if events == [] then None
    else Or(HistoryRejection(rules, events[..|events| - 1]),
            EntryRejection(rules, events[..|events| - 1], events[|events| - 1]))
  }

  predicate Accepted(rules: Rules, events: seq<Event>) {
    HistoryRejection(rules, events).None?
  }

  lemma {:induction false} FirstRejectionStays(rules: Rules, events: seq<Event>, n: nat)
    requires n <= |events| && HistoryRejection(rules, events[..n]).Some?
    ensures HistoryRejection(rules, events) == HistoryRejection(rules, events[..n])
  {
    if n < |events| {
      assert events[..|events| - 1][..n] == events[..n];
      FirstRejectionStays(rules, events[..|events| - 1], n);
    } else {
      assert events[..n] == events;
    }
  }

  lemma HistorySnoc(rules: Rules, prior: seq<Event>, e: Event)
    ensures HistoryRejection(rules, prior + [e]) == Or(HistoryRejection(rules, prior), EntryRejection(rules, prior, e))
    ensures Ids(prior + [e]) == Ids(prior) + {e.id} && Keys(prior + [e]) == Keys(prior) + {e.key}
  {
    assert (prior + [e])[..|prior|] == prior;
  }

  method EvidenceLifecycleHistoryRejection(rules: Rules, events: seq<Event>) returns (r: Option<Rejection>)
    ensures r == HistoryRejection(rules, events)
  {
    var ids: set<string> := {};
    var keys: set<string> := {};
    var sequence := -1;
    var reviewId: Option<string> := None;
    for index := 0 to |events|
      invariant Accepted(rules, events[..index])
      invariant ids == Ids(events[..index]) && keys == Keys(events[..index])
      invariant sequence == LastSequence(events[..index])
      invariant reviewId == if index == 0 then None else Some(events[0].reviewId)
    {
      var event := events[index];
      assert events[..index + 1] == events[..index] + [event];
      HistorySnoc(rules, events[..index], event);
      var why := Or(When(!rules.schemaOk(event), SchemaInvalid), EventRule(event));
      if why.None? && (!IsSafeInteger(event.sequenceNumber) || event.sequenceNumber < 0 ||
                       event.sequenceNumber <= sequence) {
        why := Some(NotAppendOnly);
      }
      if why.None? && (event.id in ids || event.key in keys) {
        why := Some(NotAppendOnly);
      }
      if why.None? && event.supersedes.Some? && (event.supersedes.value == event.id || event.supersedes.value !in ids) {
        why := Some(NotAppendOnly);
      }
      if why.None? && reviewId.Some? && event.reviewId != reviewId.value {
        why := Some(ReviewIdMismatch);
      }
      if why.Some? {
        FirstRejectionStays(rules, events, index + 1);
        return why;
      }
      reviewId := Some(if reviewId.None? then event.reviewId else reviewId.value);
      ids := ids + {event.id};
      keys := keys + {event.key};
      sequence := event.sequenceNumber;
    }
    assert events[..|events|] == events;
    return None;
  }

  // ---------------------------------------------------------------- append

  datatype Outcome = Appended | IdempotentNoop | Rejected(reason: Rejection)

  datatype AppendResult = AppendResult(outcome: Outcome, events: seq<Event>)

  function FindByKey(events: seq<Event>, key: string): (r: Option<Event>)
    ensures r.Some? ==> r.value in events && r.value.key == key
    ensures r.None? <==> key !in Keys(events)
  {
    if events == [] then None
    else
      assert events == [events[0]] + events[1..];
      if events[0].key == key then Some(events[0]) else FindByKey(events[1..], key)
  }

  predicate SomeReaches(events: seq<Event>, sequence: int) {
    exists i :: 0 <= i < |events| && events[i].sequenceNumber >= sequence
  }

  function NewEventRejection(rules: Rules, events: seq<Event>, e: Event, context: Context): Option<Rejection> {
    Or(When(e.id in Ids(events), NotAppendOnly),
    Or(When(!IsSafeInteger(e.sequenceNumber) || e.sequenceNumber < 0, SchemaInvalid),
    Or(When(SomeReaches(events, e.sequenceNumber), NotAppendOnly),
    Or(When(e.supersedes.Some? && (e.supersedes.value == e.id || e.supersedes.value !in Ids(events)), NotAppendOnly),
    Or(EventRule(e),
    Or(When(!rules.schemaOk(e), SchemaInvalid),
       CompanionRule(rules, e, context)))))))
  }

  /** `appendEvidenceLifecycleEvent` */
  function Append(rules: Rules, events: seq<Event>, e: Event, context: Context): AppendResult {
    var history := HistoryRejection(rules, events);
    if history.Some? then AppendResult(Rejected(history.value), events)
    else if events != [] && e.reviewId != events[0].reviewId then AppendResult(Rejected(ReviewIdMismatch), events)
    else
      match FindByKey(events, e.key)
      case Some(sameKey) =>
        var companions := CompanionRule(rules, e, context);
        AppendResult(if sameKey != e then Rejected(NotAppendOnly) else if companions.Some? then
                     Rejected(companions.value) else IdempotentNoop, events)
      case None =>
        var why := NewEventRejection(rules, events, e, context);
        if why.Some? then AppendResult(Rejected(why.value), events) else AppendResult(Appended, events + [e])
  }

  /** Appending keeps a history acceptable and adds at most the one event. */
  lemma AppendKeepsAccepted(rules: Rules, events: seq<Event>, e: Event, context: Context)
    requires Accepted(rules, events)
    ensures var r := Append(rules, events, e, context);
      && Accepted(rules, r.events)
      && r.events == (if r.outcome.Appended? then events + [e] else events)
  {
    HistorySnoc(rules, events, e);
    if Append(rules, events, e, context).outcome.Appended? && events != [] {
      assert !(events[|events| - 1].sequenceNumber >= e.sequenceNumber);
    }
  }

  // ---------------------------------------------------------------- scoped access

  datatype Artifact = Artifact(ref: string, tenant: string, reviewScope: string, sourceClass: SourceClass)

  datatype Request = Request(actor: Actor, role: string, tenant: string, reviewScope: string, artifact: Artifact,
                             eventId: string, key: string, timestamp: string, purpose: Option<string>)

  datatype Denial = RequestInvalid | OutOfScope | RoleNotPermitted | EventNotAppendable

  datatype AccessResult = Allowed(event: Event, events: seq<Event>) | Denied(reason: Denial, events: seq<Event>)

  predicate IsAccessRole(role: string) {
    role == "customer_admin" || role == "customer_viewer" || role == "codeattest_reviewer" ||
      role == "codeattest_ops" || role == "evidence_consumer_static"
  }

  predicate IsSensitive(c: SourceClass) { c.TransientSourceDerived? || c.CustomerOptInRetainedSource? }

  function MaxSequence(events: seq<Event>): int {
    if events == [] then -1
    else
      var below := MaxSequence(events[..|events| - 1]);
      if below < events[|events| - 1].sequenceNumber then events[|events| - 1].sequenceNumber else below
  }

  predicate SequencesValid(events: seq<Event>) {
    forall i :: 0 <= i < |events| ==> IsSafeInteger(events[i].sequenceNumber) && events[i].sequenceNumber >= 0
  }

  /** `None` where the source throws. */
  method NextSequenceNumber(events: seq<Event>) returns (r: Option<int>)
    ensures r == if SequencesValid(events) && MaxSequence(events) < MAX_SAFE_INTEGER then Some(MaxSequence(events) + 1)
      else None
  {
    var highest := -1;
    for index := 0 to |events|
      invariant SequencesValid(events[..index])
      invariant highest == MaxSequence(events[..index]) && -1 <= highest <= MAX_SAFE_INTEGER
    {
      assert events[..index + 1][..index] == events[..index];
      if !IsSafeInteger(events[index].sequenceNumber) || events[index].sequenceNumber < 0 {
        return None;
      }
      highest := if highest < events[index].sequenceNumber then events[index].sequenceNumber else highest;
    }
    assert events[..|events|] == events;
    return if highest == MAX_SAFE_INTEGER then None else Some(highest + 1);
  }

  function AccessEvent(request: Request, sequence: int): Event {
    Event(request.eventId, request.reviewScope, sequence, request.key, EvidenceAccessed, request.actor,
          request.timestamp, [request.artifact.ref],
          Some(request.artifact.sourceClass), Some(Scope(request.tenant, request.reviewScope)), request.purpose, None,
          None, None)
  }

  /** The checks before the log is looked at. */
  function RequestDenial(rules: Rules, request: Request): Option<Denial> {
    if !IsAccessRole(request.role) then Some(RoleNotPermitted)
    else if !rules.nonBlank(request.tenant) || !rules.nonBlank(request.reviewScope) then Some(RequestInvalid)
    else if request.artifact.tenant != request.tenant || request.artifact.reviewScope != request.reviewScope then
            Some(OutOfScope)
    else if request.role == "evidence_consumer_static" && IsSensitive(request.artifact.sourceClass) then
            Some(RoleNotPermitted)
    else None
  }

  /** A recorded inspection keeps its number; a new one takes the next. */
  function SequenceFor(events: seq<Event>, request: Request): Option<int> {
    match FindByKey(events, request.key)
    case Some(recorded) => Some(recorded.sequenceNumber)
    case None => if SequencesValid(events) && MaxSequence(events) < MAX_SAFE_INTEGER then Some(MaxSequence(events) + 1)
      else None
  }

  /** What `enforceScopedAccess` decides. */
  function Access(rules: Rules, events: seq<Event>, request: Request): AccessResult {
    match RequestDenial(rules, request)
    case Some(reason) => Denied(reason, events)
    case None =>
      match SequenceFor(events, request)
      case None => Denied(EventNotAppendable, events)
      case Some(sequence) =>
        var e := AccessEvent(request, sequence);
        var r := Append(rules, events, e, Context([], []));
        if r.outcome.Rejected? then Denied(EventNotAppendable, events) else Allowed(e, r.events)
  }

  // ---------------------------------------------------------------- receipts

  function CountKey(events: seq<Event>, key: string): nat {
    if events == [] then 0 else CountKey(events[..|events| - 1], key) + if events[|events| - 1].key == key then 1 else 0
  }

  lemma {:induction false} CountOfAbsent(events: seq<Event>, key: string)
    requires key !in Keys(events)
    ensures CountKey(events, key) == 0
  {
    if events != [] {
      var prior, last := events[..|events| - 1], events[|events| - 1];
      assert events == prior + [last];
      assert last.key in Keys(events) && Keys(prior) <= Keys(events);
      CountOfAbsent(prior, key);
    }
  }

  lemma {:induction false} KeysOnce(rules: Rules, events: seq<Event>, e: Event)
    requires Accepted(rules, events) && e in events
    ensures CountKey(events, e.key) == 1
    ensures forall x :: x in events && x.key == e.key ==> x == e
  {
    var prior, last := events[..|events| - 1], events[|events| - 1];
    assert events == prior + [last];
    HistorySnoc(rules, prior, last);
    if e == last {
      CountOfAbsent(prior, e.key);
    } else {
      KeysOnce(rules, prior, e);
      assert e.key in Keys(prior);
    }
  }

  lemma {:induction false} SequencesOfAccepted(rules: Rules, events: seq<Event>)
    requires Accepted(rules, events)
    ensures SequencesValid(events) && MaxSequence(events) == LastSequence(events)
    ensures forall e :: e in events ==> e.sequenceNumber <= MaxSequence(events)
  {
    if events != [] {
      var prior, last := events[..|events| - 1], events[|events| - 1];
      assert events == prior + [last];
      HistorySnoc(rules, prior, last);
      SequencesOfAccepted(rules, prior);
    }
  }

  /** `e` is the one event of the log under its key, and a receipt of the request. */
  ghost predicate IsReceipt(events: seq<Event>, request: Request, e: Event) {
    && e in events && CountKey(events, request.key) == 1
    && e.key == request.key && e.eventType.EvidenceAccessed?
    && e.accessScope == Some(Scope(request.tenant, request.reviewScope)) && e.reviewId == request.reviewScope
    && e.artifactRefs == [request.artifact.ref] && e.actor == request.actor && e.timestamp == request.timestamp &&
       e.purpose == request.purpose
  }

  /** The log stays accepted; `r` denies and leaves it alone, or allows with one receipt under the
      request's key, recorded before or new and last, and decides so again. */
  ghost predicate LeavesReceipt(rules: Rules, events: seq<Event>, request: Request, r: AccessResult) {
    && Accepted(rules, r.events)
    && (r.Denied? ==> r.events == events)
    && (r.Allowed? ==> IsReceipt(r.events, request, r.event) && Access(rules, r.events, request) == r)
    && (r.Allowed? && request.key in Keys(events) ==> r.events == events)
    && (r.Allowed? && request.key !in Keys(events) ==>
          r.events == events + [r.event] && r.event.sequenceNumber == MaxSequence(events) + 1 == LastSequence(events) +
            1)
  }

  /** One decision on an accepted history: allowed leaves exactly one receipt, new ones numbered one
      above everything before; denied leaves the log alone; and asking again changes nothing. */
  lemma DecisionLeavesReceipt(rules: Rules, events: seq<Event>, request: Request)
    requires Accepted(rules, events)
    ensures LeavesReceipt(rules, events, request, Access(rules, events, request))
  {
    var r := Access(rules, events, request);
    SequencesOfAccepted(rules, events);
    if r.Allowed? {
      AppendKeepsAccepted(rules, events, r.event, Context([], []));
      assert r.event in r.events by {
        if request.key !in Keys(events) {
          assert (events + [r.event])[|events|] == r.event;
        }
      }
      KeysOnce(rules, r.events, r.event);
      AskAgain(rules, r.events, request, r.event);
    }
  }

  /** `enforceScopedAccess` */
  method EnforceScopedAccess(rules: Rules, events: seq<Event>, request: Request) returns (r: AccessResult)
    ensures r == Access(rules, events, request)
    ensures Accepted(rules, events) ==> LeavesReceipt(rules, events, request, r)
  {
    if Accepted(rules, events) {
      DecisionLeavesReceipt(rules, events, request);
    }
    var denial := RequestDenial(rules, request);
    if denial.Some? {
      return Denied(denial.value, events);
    }
    var recorded := FindByKey(events, request.key);
    var sequence: Option<int>;
    if recorded.Some? {
      sequence := Some(recorded.value.sequenceNumber);
    } else {
      sequence := NextSequenceNumber(events);
    }
    if sequence.None? {
      return Denied(EventNotAppendable, events);
    }
    var accessEvent := AccessEvent(request, sequence.value);
    var appended := Append(rules, events, accessEvent, Context([], []));
    if appended.outcome.Rejected? {
      return Denied(EventNotAppendable, events);
    }
    return Allowed(accessEvent, appended.events);
  }

  /** With its receipt in the log a permitted request is allowed again, and the log stays. */
  lemma AskAgain(rules: Rules, events: seq<Event>, request: Request, e: Event)
    requires Accepted(rules, events) && e in events && RequestDenial(rules, request).None?
    requires e == AccessEvent(request, e.sequenceNumber)
    ensures Access(rules, events, request) == Allowed(e, events)
  {
    KeysOnce(rules, events, e);
    assert e.key in Keys(events);
    assert FindByKey(events, request.key) == Some(e);
    SameReview(rules, events, e);
  }

  lemma {:induction false} SameReview(rules: Rules, events: seq<Event>, e: Event)
    requires Accepted(rules, events) && e in events
    ensures e.reviewId == events[0].reviewId
  {
    var prior, last := events[..|events| - 1], events[|events| - 1];
    assert events == prior + [last];
    HistorySnoc(rules, prior, last);
    if e != last {
      SameReview(rules, prior, e);
    }
  }

  /** Exactly when access is allowed on an accepted history. */
  lemma AllowedIff(rules: Rules, events: seq<Event>, request: Request)
    requires Accepted(rules, events)
    ensures var next := AccessEvent(request, LastSequence(events) + 1);
      Access(rules, events, request).Allowed? <==>
        && RequestDenial(rules, request).None?
        && (if request.key in Keys(events) then exists e :: e in events && e == AccessEvent(request, e.sequenceNumber)
            else rules.schemaOk(next) && request.eventId !in Ids(events) && LastSequence(events) < MAX_SAFE_INTEGER
                 && (events == [] || request.reviewScope == events[0].reviewId))
  {
    SequencesOfAccepted(rules, events);
    if RequestDenial(rules, request).None? {
      if request.key in Keys(events) {
        if e :| e in events && e == AccessEvent(request, e.sequenceNumber) {
          AskAgain(rules, events, request, e);
        }
      } else {
        assert !SomeReaches(events, LastSequence(events) + 1);
      }
    }
  }

  // ---------------------------------------------------------------- runs

  /** The log after a list of requests. */
  function Run(rules: Rules, events: seq<Event>, requests: seq<Request>): seq<Event> {
    if requests == [] then events
    else Access(rules, Run(rules, events, requests[..|requests| - 1]), requests[|requests| - 1]).events
  }

  /** The decision on the `i`th request left a receipt that `final` still has, and that answers the request again. */
  ghost predicate ReceiptHolds(rules: Rules, events: seq<Event>, requests: seq<Request>, i: nat, final: seq<Event>)
    requires i < |requests|
  {
    var r := Access(rules, Run(rules, events, requests[..i]), requests[i]);
    r.Allowed? ==>
      IsReceipt(final, requests[i], r.event) && Access(rules, final, requests[i]) == Allowed(r.event, final)
  }

  ghost predicate ReceiptsHold(rules: Rules, events: seq<Event>, requests: seq<Request>, final: seq<Event>) {
    forall i :: 0 <= i < |requests| ==> ReceiptHolds(rules, events, requests, i, final)
  }

  /** Over any run: the log stays accepted and only grows; after any further requests the receipt of
      each allowed one is still the only event under its key. */
  lemma {:induction false} RunKeepsReceipts(rules: Rules, events: seq<Event>, requests: seq<Request>)
    requires Accepted(rules, events)
    ensures var final := Run(rules, events, requests);
      Accepted(rules, final) && events <= final && ReceiptsHold(rules, events, requests, final)
  {
    if requests != [] {
      var n := |requests| - 1;
      var before, final := Run(rules, events, requests[..n]), Run(rules, events, requests);
      RunKeepsReceipts(rules, events, requests[..n]);
      NewReceipt(rules, events, requests, before, final);
      ReceiptsStay(rules, events, requests, before, final);
    }
  }

  lemma ReceiptsStay(rules: Rules, events: seq<Event>, requests: seq<Request>, before: seq<Event>, final: seq<Event>)
    requires requests != [] && Accepted(rules, final) && before <= final
    requires ReceiptsHold(rules, events, requests[..|requests| - 1], before)
    requires ReceiptHolds(rules, events, requests, |requests| - 1, final)
    ensures ReceiptsHold(rules, events, requests, final)
  {
    forall i | 0 <= i < |requests| ensures ReceiptHolds(rules, events, requests, i, final) {
      if i < |requests| - 1 {
        ReceiptStays(rules, events, requests, |requests| - 1, i, before, final);
      }
    }
  }

  lemma NewReceipt(rules: Rules, events: seq<Event>, requests: seq<Request>, before: seq<Event>, final: seq<Event>)
    requires requests != [] && before == Run(rules, events, requests[..|requests| - 1]) && Accepted(rules, before)
    requires final == Run(rules, events, requests)
    ensures Accepted(rules, final) && before <= final
    ensures ReceiptHolds(rules, events, requests, |requests| - 1, final)
  {
    DecisionLeavesReceipt(rules, before, requests[|requests| - 1]);
  }

  lemma ReceiptStays(rules: Rules, events: seq<Event>, requests: seq<Request>, n: nat, i: nat, before: seq<Event>,
                     final: seq<Event>)
    requires i < n <= |requests|
    requires Accepted(rules, final) && before <= final
    requires ReceiptHolds(rules, events, requests[..n], i, before)
    ensures ReceiptHolds(rules, events, requests, i, final)
  {
    assert requests[..n][..i] == requests[..i] && requests[..n][i] == requests[i];
    var r := Access(rules, Run(rules, events, requests[..i]), requests[i]);
    if r.Allowed? {
      assert r.event in final;
      KeysOnce(rules, final, r.event);
      AskAgain(rules, final, requests[i], r.event);
    }
  }
}
