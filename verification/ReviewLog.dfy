/** The append-only review event log of `apps/control-plane/src/index.ts`: one append, the check of
    a preloaded log, and the replay of a stored one. */
module ReviewLog {
  import opened Results
  import opened SafeIntegers
  import opened Sorting
  import opened Text
  import opened ProtocolShapes
  import opened ReviewEvents

  // ---------------------------------------------------------------- lookups

  /** `Array.prototype.find` */
  function FindFirst(events: seq<Event>, p: Event -> bool): (r: Option<Event>)
    ensures r.Some? ==> r.value in events && p(r.value)
    ensures r.None? ==> forall e :: e in events ==> !p(e)
  {
    if events == [] then None
    else if p(events[0]) then Some(events[0])
    else FindFirst(events[1..], p)
  }

  function WithId(id: Text): Event -> bool { (e: Event) => e.id == id }

  function WithKey(key: Key): Event -> bool { (e: Event) => e.body.key == key }

  function FindById(events: seq<Event>, id: Option<Text>): Option<Event> {
    if id.None? then None else FindFirst(events, WithId(id.value))
  }

  function Members(events: seq<Event>, f: Family): (r: seq<Event>)
    ensures forall e :: e in r <==> e in events && InFamily(e, f)
  {
    if events == [] then []
    else
      var last := events[|events| - 1];
      assert events == events[..|events| - 1] + [last];
      Members(events[..|events| - 1], f) + if InFamily(last, f) then [last] else []
  }

  /** Ascending by version, then by sequence number. */
  predicate VersionLt(a: Event, b: Event) {
    VersionOf(a) < VersionOf(b) || (VersionOf(a) == VersionOf(b) && a.body.sequenceNumber < b.body.sequenceNumber)
  }

  predicate VersionGt(a: Event, b: Event) { VersionOf(a) > VersionOf(b) }

  /** The active event of a scope, evidence or decision family: sort up, take the last. */
  function LatestVerification(events: seq<Event>, f: Family): Option<Event> {
    var sorted := Sort(Members(events, f), VersionLt);
    if sorted == [] then None else Some(sorted[|sorted| - 1])
  }

  /** The head of an Epic 5 family: sort down, take the first. */
  function LatestEpic5(events: seq<Event>, f: Family): Option<Event> {
    var sorted := Sort(Members(events, f), VersionGt);
    if sorted == [] then None else Some(sorted[0])
  }

  // ---------------------------------------------------------------- supersession chains

  function Ids(events: seq<Event>): set<Text> {
    set e | e in events :: e.id
  }

  function Keys(events: seq<Event>): set<Key> {
    set e | e in events :: e.body.key
  }

  /** The walk from an id along `supersedes`; `None` when a link is not in the log. */
  function ChainFrom(events: seq<Event>, id: Text, visited: set<Text>): Option<seq<Event>>
    decreases |Ids(events) - visited|
  {
    if id in visited then Some([])
    else
      match FindFirst(events, WithId(id))
      case None => None
      case Some(e) =>
        if e.body.supersedes.None? then Some([e])
        else
          assert id in Ids(events) - visited;
          assert Ids(events) - (visited + {id}) < Ids(events) - visited;
          StrictSubset(Ids(events) - (visited + {id}), Ids(events) - visited);
          Prepend([e], ChainFrom(events, e.body.supersedes.value, visited + {id}))
  }

  lemma StrictSubset<T>(a: set<T>, b: set<T>)
    requires a < b
    ensures |a| < |b|
  {
    assert b == a + (b - a);
  }

  function Prepend(chain: seq<Event>, rest: Option<seq<Event>>): Option<seq<Event>> {
    if rest.None? then None else Some(chain + rest.value)
  }

  /** The rest of a walk: nothing after an event that supersedes nothing. */
  function ChainOn(events: seq<Event>, next: Option<Text>, visited: set<Text>): Option<seq<Event>> {
    if next.None? then Some([]) else ChainFrom(events, next.value, visited)
  }

  lemma ChainStep(events: seq<Event>, id: Text, visited: set<Text>)
    requires id !in visited && FindFirst(events, WithId(id)).Some?
    ensures var e := FindFirst(events, WithId(id)).value;
      && ChainFrom(events, id, visited) == Prepend([e], ChainOn(events, e.body.supersedes, visited + {id}))
      && |Ids(events) - (visited + {id})| < |Ids(events) - visited|
  {
    var e := FindFirst(events, WithId(id)).value;
    assert id in Ids(events) - visited;
    assert Ids(events) - (visited + {id}) < Ids(events) - visited;
    StrictSubset(Ids(events) - (visited + {id}), Ids(events) - visited);
    assert [e] + [] == [e];
  }

  lemma PrependTwice(chain: seq<Event>, e: Event, rest: Option<seq<Event>>)
    ensures Prepend(chain, Prepend([e], rest)) == Prepend(chain + [e], rest)
  {
    if rest.Some? {
      assert chain + ([e] + rest.value) == chain + [e] + rest.value;
    }
  }

  method SupersedesChain(events: seq<Event>, firstSupersededId: Text) returns (r: Option<seq<Event>>)
    ensures r == ChainFrom(events, firstSupersededId, {})
  {
    var chain: seq<Event> := [];
    var visited: set<Text> := {};
    var nextId := Some(firstSupersededId);
    PrependNothing(ChainFrom(events, firstSupersededId, {}));
    while nextId.Some?
      invariant ChainFrom(events, firstSupersededId, {}) == Prepend(chain, ChainOn(events, nextId, visited))
      decreases |Ids(events) - visited|, if nextId.Some? then 1 else 0
    {
      if nextId.value in visited {
        break;
      }
      var superseded := FindFirst(events, WithId(nextId.value));
      if superseded.None? {
        return None;
      }
      ChainStep(events, nextId.value, visited);
      PrependTwice(chain, superseded.value,
                   ChainOn(events, superseded.value.body.supersedes, visited + {nextId.value}));
      visited := visited + {nextId.value};
      chain := chain + [superseded.value];
      nextId := superseded.value.body.supersedes;
    }
    assert chain + [] == chain;
    return Some(chain);
  }

  lemma PrependNothing(rest: Option<seq<Event>>)
    ensures Prepend([], rest) == rest
  {
    if rest.Some? {
      assert [] + rest.value == rest.value;
    }
  }

  // ---------------------------------------------------------------- version rules

  function ScopeRule(events: seq<Event>, e: Event): Option<Rejection> {
    if !e.body.eventType.VerificationScopeRecorded? then None
    else
      var active := if MemberOf(e).None? then None else LatestVerification(events, MemberOf(e).value.family);
      When(MemberOf(e).None? || (active.Some? && e.body.supersedes != Some(active.value.id)), ScopeVersionInvalid)
  }

  /** The active event an evidence or decision event is compared with. */
  function ActiveVerification(events: seq<Event>, e: Event): Option<Event> {
    if MemberOf(e).None? then None
    else
      var f := MemberOf(e).value.family;
      if f.review != e.body.reviewId then None else LatestVerification(events, f)
  }

  function VersionedRule(events: seq<Event>, e: Event, t: EventType, mismatch: Rejection,
                         invalid: Rejection): Option<Rejection> {
    if e.body.eventType != t then None
    else
      var superseded := FindById(events, e.body.supersedes);
      var active := ActiveVerification(events, e);
      Or(When(superseded.Some? && superseded.value.body.eventType != t, mismatch),
         When((active.None? && (MemberOf(e).None? || VersionOf(e) != 1 || e.body.supersedes.Some?)) ||
              (active.Some? && e.body.supersedes != Some(active.value.id)), invalid))
  }

  /** `<` on two parsed timestamps is false when either did not parse. */
  predicate Earlier(rules: Rules, a: Event, b: Event) {
    var x, y := rules.parseNs(a.body.timestamp), rules.parseNs(b.body.timestamp);
    x.Some? && y.Some? && x.value < y.value
  }

  /** `g` is the generated manifest that the finalization `e` names. */
  predicate Generated(g: Event, e: Event) {
    MemberOf(g).Some? && MemberOf(e).Some? &&
    match (g.body.key, e.body.key)
    case (StaticBundleKey(r, b, _, artifact), FinalizedKey(r', b', _, _, generated, _)) =>
      g.body.eventType.StaticBundleGenerated? && r == r' && b == b' && artifact == generated &&
      g.body.sequenceNumber < e.body.sequenceNumber
    case _ => false
  }

  /** `f` is the finalization that the export `e` names. */
  predicate Finalized(f: Event, e: Event) {
    MemberOf(f).Some? && MemberOf(e).Some? &&
    match (f.body.key, e.body.key)
    case (FinalizedKey(r, b, v, record, generated, artifact),
          ExportedKey(r', b', v', record', generated', artifact')) =>
      f.body.eventType.AttestationPackageFinalized? && r == r' && b == b' && v == v' && record == record' &&
      generated == generated' && artifact == artifact' && f.body.sequenceNumber < e.body.sequenceNumber
    case _ => false
  }

  function GeneratedFor(e: Event): Event -> bool { (g: Event) => Generated(g, e) }

  function FinalizedFor(e: Event): Event -> bool { (f: Event) => Finalized(f, e) }

  function LifecycleRule(rules: Rules, events: seq<Event>, e: Event): Option<Rejection> {
    if e.body.eventType.AttestationPackageFinalized? then
      var g := FindFirst(events, GeneratedFor(e));
      When(g.None? || Earlier(rules, e, g.value), Epic5VersionInvalid)
    else if e.body.eventType.AttestationPackageExported? then
      var f := FindFirst(events, FinalizedFor(e));
      When(f.None? || Earlier(rules, e, f.value), Epic5VersionInvalid)
    else None
  }

  function Epic5Rule(rules: Rules, events: seq<Event>, e: Event): Option<Rejection> {
    if !IsEpic5(e.body.eventType) then None
    else if MemberOf(e).None? then Some(Epic5VersionInvalid)
    else
      var head := LatestEpic5(events, MemberOf(e).value.family);
      var superseded := FindById(events, e.body.supersedes);
      Or(When(superseded.Some? && superseded.value.body.eventType != e.body.eventType, Epic5FamilyMismatch),
      Or(When((head.None? && (VersionOf(e) != 1 || e.body.supersedes.Some?)) ||
              (head.Some? && (VersionOf(e) <= VersionOf(head.value) || e.body.supersedes != Some(head.value.id))),
              Epic5VersionInvalid),
         LifecycleRule(rules, events, e)))
  }

  // ---------------------------------------------------------------- chain rules

  predicate IsCorrection(t: EventType) { t.CustomerRemediationRecorded? || t.CustomerAcceptedRiskRecorded? }

  /** A customer-correction type or a customer actor. */
  predicate FromCustomer(e: Event) {
    IsCorrection(e.body.eventType) || e.body.actor.actorType == CUSTOMER_USER
  }

  predicate Has(chain: seq<Event>, t: EventType) {
    exists i :: 0 <= i < |chain| && chain[i].body.eventType == t
  }

  predicate HasOtherThan(chain: seq<Event>, t: EventType) {
    exists i :: 0 <= i < |chain| && chain[i].body.eventType != t
  }

  /** `t` events may be superseded only by `t` events, and `t` events supersede only them. */
  function PureRule(e: Event, chain: seq<Event>, t: EventType, mismatch: Rejection): Option<Rejection> {
    When(if e.body.eventType == t then HasOtherThan(chain, t) else Has(chain, t), mismatch)
  }

  /** A correction stays in its family and goes above both the superseded and the active version.
      The default parameter of the scope check makes an absent active event the superseded one. */
  predicate CorrectionValid(e: Event, superseded: Option<Event>, active: Option<Event>) {
    MemberOf(e).Some? && superseded.Some? && active.Some? &&
    InFamily(superseded.value, MemberOf(e).value.family) && InFamily(active.value, MemberOf(e).value.family) &&
    VersionOf(e) > VersionOf(superseded.value) && VersionOf(e) > VersionOf(active.value)
  }

  function Head(chain: seq<Event>): Option<Event> {
    if chain == [] then None else Some(chain[0])
  }

  function ScopeCorrectionRule(events: seq<Event>, e: Event, chain: seq<Event>): Option<Rejection> {
    if !e.body.eventType.VerificationScopeRecorded? then None
    else
      var active := if MemberOf(e).None? then None else LatestVerification(events, MemberOf(e).value.family);
      When(!CorrectionValid(e, Head(chain), if active.None? then Head(chain) else active), ScopeVersionInvalid)
  }

  function VersionedCorrectionRule(events: seq<Event>, e: Event, chain: seq<Event>, t: EventType,
                                   invalid: Rejection): Option<Rejection> {
    When(e.body.eventType == t && !CorrectionValid(e, Head(chain), ActiveVerification(events, e)), invalid)
  }

  function ChainRules(events: seq<Event>, e: Event, chain: seq<Event>): Option<Rejection> {
    Or(When(FromCustomer(e) && Has(chain, ClassificationRecorded), CustomerCannotSupersedeClassification),
    Or(When(FromCustomer(e) && (Has(chain, RemediationGuidanceRecorded) || Has(chain, ValidationRecorded) ||
                                Has(chain, FalsePositiveRecorded)), CustomerCannotSupersedeExpertRecord),
    Or(PureRule(e, chain, VerificationScopeRecorded, ScopeFamilyMismatch),
    Or(ScopeCorrectionRule(events, e, chain),
    Or(PureRule(e, chain, VerificationEvidenceRecorded, EvidenceFamilyMismatch),
    Or(VersionedCorrectionRule(events, e, chain, VerificationEvidenceRecorded, EvidenceVersionInvalid),
    Or(PureRule(e, chain, VerificationRecorded, DecisionFamilyMismatch),
    Or(VersionedCorrectionRule(events, e, chain, VerificationRecorded, DecisionVersionInvalid),
    Or(PureRule(e, chain, FalsePositiveRecorded, OutcomeFamilyMismatch),
       PureRule(e, chain, CustomerAcceptedRiskRecorded, OutcomeFamilyMismatch))))))))))
  }

  function SupersessionRule(events: seq<Event>, e: Event): Option<Rejection> {
    if e.body.supersedes.None? then None
    else
      match ChainFrom(events, e.body.supersedes.value, {})
      case None => Some(SupersedesUnknownEvent)
      case Some(chain) => ChainRules(events, e, chain)
  }

  predicate Classifies(e: Event, record: Text) {
    e.body.eventType.ClassificationRecorded? && Slug(record) in e.body.artifactRefs
  }

  function ClassificationRefRule(events: seq<Event>, e: Event): Option<Rejection> {
    if e.body.supersedesClassification.None? then None
    else
      Or(When(e.body.eventType.FalsePositiveRecorded? || e.body.eventType.CustomerAcceptedRiskRecorded?,
              OutcomeFamilyMismatch),
      Or(When(FromCustomer(e), CustomerCannotSupersedeClassification),
         When(!exists i :: 0 <= i < |events| && Classifies(events[i], e.body.supersedesClassification.value),
              SupersedesUnknownEvent)))
  }

  /** `rejectionForEventVersionAndSupersedesChain` */
  function StructuralRejection(rules: Rules, events: seq<Event>, e: Event): Option<Rejection> {
    Or(When(e.id in Ids(events), DuplicateEventId),
    Or(When(exists i :: 0 <= i < |events| && events[i].body.sequenceNumber >= e.body.sequenceNumber,
            SequenceNotMonotonic),
    Or(ScopeRule(events, e),
    Or(VersionedRule(events, e, VerificationEvidenceRecorded, EvidenceFamilyMismatch, EvidenceVersionInvalid),
    Or(VersionedRule(events, e, VerificationRecorded, DecisionFamilyMismatch, DecisionVersionInvalid),
    Or(Epic5Rule(rules, events, e),
    Or(SupersessionRule(events, e),
       ClassificationRefRule(events, e))))))))
  }

  // ---------------------------------------------------------------- validation script cap

  function SlotOf(e: Event): seq<int> {
    if IsValidationScriptEvent(e) && ScriptPackageOf(e.body.reason).Some? &&
       ScriptPackageOf(e.body.reason).value.Included?
    then [ScriptPackageOf(e.body.reason).value.slot] else []
  }

  function IncludedSlots(events: seq<Event>): seq<int> {
    if events == [] then [] else IncludedSlots(events[..|events| - 1]) + SlotOf(events[|events| - 1])
  }

  predicate ScriptsParse(events: seq<Event>) {
    forall i :: 0 <= i < |events| && IsValidationScriptEvent(events[i]) ==> ScriptPackageOf(events[i].body.reason).Some?
  }

  /** `rejectionForValidationEventPackageAppend` */
  function ScriptRule(events: seq<Event>, e: Event): Option<Rejection> {
    if !IsValidationScriptEvent(e) then None
    else
      match ScriptPackageOf(e.body.reason)
      case None => Some(SchemaInvalid)
      case Some(AdditionalCandidate) => None
      case Some(Included(slot)) =>
        Or(When(!ScriptsParse(events), SchemaInvalid),
           When(|IncludedSlots(events)| >= 3 || slot in IncludedSlots(events), ScriptCapExceeded))
  }

  method CheckScriptCap(events: seq<Event>, e: Event) returns (r: Option<Rejection>)
    ensures r == ScriptRule(events, e)
  {
    if !IsValidationScriptEvent(e) {
      return None;
    }
    var current := ScriptPackageOf(e.body.reason);
    if current.None? {
      return Some(SchemaInvalid);
    }
    if current.value.AdditionalCandidate? {
      return None;
    }
    var count := 0;
    var slots: set<int> := {};
    for i := 0 to |events|
      invariant ScriptsParse(events[..i])
      invariant count == |IncludedSlots(events[..i])|
      invariant forall s :: s in slots <==> s in IncludedSlots(events[..i])
    {
      assert events[..i + 1][..i] == events[..i];
      if IsValidationScriptEvent(events[i]) {
        var package := ScriptPackageOf(events[i].body.reason);
        if package.None? {
          return Some(SchemaInvalid);
        }
        if package.value.Included? {
          count := count + 1;
          slots := slots + {package.value.slot};
        }
      }
    }
    assert events[..|events|] == events;
    return When(count >= 3 || current.value.slot in slots, ScriptCapExceeded);
  }

  // ---------------------------------------------------------------- preloaded logs

  function LastSequence(prior: seq<Event>): int {
    if prior == [] then -1 else prior[|prior| - 1].body.sequenceNumber
  }

  /** What the weak check asks of one event, given the ids, the keys and the last sequence number before it. */
  predicate EntryFits(rules: Rules, log: Log, ids: set<Text>, keys: set<Key>, sequence: int, e: Event) {
    && rules.schemaOk(e)
    && e.body.protocolVersion == log.protocolVersion
    && e.body.reviewId == log.reviewId
    && IsSafeInteger(e.body.sequenceNumber)
    && e.body.sequenceNumber > sequence
    && e.id !in ids && e.body.key !in keys
    && SemanticRejection(rules, e).None?
    && rules.identity(e.body) == Some(e.id)
    && (e.body.supersedes.Some? ==> e.body.supersedes.value in ids)
  }

  predicate EntryOk(rules: Rules, log: Log, prior: seq<Event>, e: Event) {
    EntryFits(rules, log, Ids(prior), Keys(prior), LastSequence(prior), e)
  }

  /** Every event of the list passes a step check against the events before it. */
  predicate Stepwise(step: (seq<Event>, Event) -> bool, events: seq<Event>) {
    events == [] ||
    (Stepwise(step, events[..|events| - 1]) && step(events[..|events| - 1], events[|events| - 1]))
  }

  lemma {:induction false} StepwiseAt(step: (seq<Event>, Event) -> bool, events: seq<Event>, i: nat)
    requires i < |events| && Stepwise(step, events)
    ensures Stepwise(step, events[..i]) && step(events[..i], events[i])
  {
    var n := |events| - 1;
    if i < n {
      StepwiseAt(step, events[..n], i);
      assert events[..n][..i] == events[..i];
    }
  }

  lemma StepwiseSnoc(step: (seq<Event>, Event) -> bool, prior: seq<Event>, e: Event)
    ensures Stepwise(step, prior + [e]) <==> Stepwise(step, prior) && step(prior, e)
  {
    assert (prior + [e])[..|prior|] == prior;
  }

  function EntryFor(rules: Rules, log: Log): (seq<Event>, Event) -> bool {
    (prior: seq<Event>, e: Event) => EntryOk(rules, log, prior, e)
  }

  predicate EntriesOk(rules: Rules, log: Log, events: seq<Event>) {
    Stepwise(EntryFor(rules, log), events)
  }

  /** `reviewEventLogIsValid` */
  predicate LogIsValid(rules: Rules, log: Log) {
    log.protocolVersion == PROTOCOL_VERSION && rules.nonBlank(log.reviewId) && EntriesOk(rules, log, log.events)
  }

  lemma EntryAt(rules: Rules, log: Log, events: seq<Event>, i: nat)
    requires i < |events| && EntriesOk(rules, log, events)
    ensures EntriesOk(rules, log, events[..i]) && EntryOk(rules, log, events[..i], events[i])
  {
    StepwiseAt(EntryFor(rules, log), events, i);
  }

  method CheckEntry(rules: Rules, log: Log, ids: set<Text>, keys: set<Key>, sequence: int, event: Event)
    returns (ok: bool)
    ensures ok == EntryFits(rules, log, ids, keys, sequence, event)
  {
    if !rules.schemaOk(event) || event.body.protocolVersion != log.protocolVersion ||
       event.body.reviewId != log.reviewId ||
       !IsSafeInteger(event.body.sequenceNumber) || event.body.sequenceNumber <= sequence || event.id in ids ||
         event.body.key in keys ||
       !ActorPresent(rules, event) || !TypedRefsMatch(event) || SemanticRejection(rules, event).Some? {
      return false;
    }
    return rules.identity(event.body) == Some(event.id) &&
      (event.body.supersedes.Some? ==> event.body.supersedes.value in ids);
  }

  method ReviewEventLogIsValid(rules: Rules, log: Log) returns (valid: bool)
    ensures valid == LogIsValid(rules, log)
  {
    if log.protocolVersion != PROTOCOL_VERSION || !rules.nonBlank(log.reviewId) {
      return false;
    }
    var ids: set<Text> := {};
    var keys: set<Key> := {};
    var sequence := -1;
    for index := 0 to |log.events|
      invariant EntriesOk(rules, log, log.events[..index])
      invariant ids == Ids(log.events[..index])
      invariant keys == Keys(log.events[..index])
      invariant sequence == LastSequence(log.events[..index])
    {
      var event := log.events[index];
      var ok := CheckEntry(rules, log, ids, keys, sequence, event);
      ghost var step := EntryFor(rules, log);
      assert ok == step(log.events[..index], event);
      if !ok {
        if Stepwise(step, log.events) {
          StepwiseAt(step, log.events, index);
        }
        return false;
      }
      StepwiseSnoc(step, log.events[..index], event);
      IdsSnoc(log.events[..index], event);
      assert log.events[..index + 1] == log.events[..index] + [event];
      ids := ids + {event.id};
      keys := keys + {event.body.key};
      sequence := event.body.sequenceNumber;
    }
    assert log.events[..|log.events|] == log.events;
    return true;
  }

  lemma EntriesSnoc(rules: Rules, log: Log, prior: seq<Event>, e: Event)
    ensures EntriesOk(rules, log, prior + [e]) <==> EntriesOk(rules, log, prior) && EntryOk(rules, log, prior, e)
  {
    StepwiseSnoc(EntryFor(rules, log), prior, e);
  }

  lemma IdsSnoc(prior: seq<Event>, e: Event)
    ensures Ids(prior + [e]) == Ids(prior) + {e.id}
    ensures Keys(prior + [e]) == Keys(prior) + {e.body.key}
  {
  }

  // ---------------------------------------------------------------- replay

  /** What the replay of a stored array asks of one event, given the log before it. */
  predicate StepOk(rules: Rules, protocolVersion: Text, reviewId: Text, prior: seq<Event>, e: Event) {
    && rules.schemaOk(e)
    && e.body.protocolVersion == protocolVersion
    && e.body.reviewId == reviewId
    && IsSafeInteger(e.body.sequenceNumber) && e.body.sequenceNumber >= 0
    && FindFirst(prior, WithKey(e.body.key)).None?
    && SemanticRejection(rules, e).None?
    && rules.identity(e.body) == Some(e.id)
    && StructuralRejection(rules, prior, e).None?
  }

  function StepFor(rules: Rules, protocolVersion: Text, reviewId: Text): (seq<Event>, Event) -> bool {
    (prior: seq<Event>, e: Event) => StepOk(rules, protocolVersion, reviewId, prior, e)
  }

  /** `storedReviewEventLogIsAppendValid` */
  predicate ReplayOk(rules: Rules, protocolVersion: Text, reviewId: Text, events: seq<Event>) {
    Stepwise(StepFor(rules, protocolVersion, reviewId), events)
  }

  lemma ReplayAt(rules: Rules, protocolVersion: Text, reviewId: Text, events: seq<Event>, i: nat)
    requires i < |events| && ReplayOk(rules, protocolVersion, reviewId, events)
    ensures ReplayOk(rules, protocolVersion, reviewId, events[..i])
    ensures StepOk(rules, protocolVersion, reviewId, events[..i], events[i])
  {
    StepwiseAt(StepFor(rules, protocolVersion, reviewId), events, i);
  }

  lemma ReplaySnoc(rules: Rules, protocolVersion: Text, reviewId: Text, prior: seq<Event>, e: Event)
    ensures ReplayOk(rules, protocolVersion, reviewId, prior + [e]) <==>
      ReplayOk(rules, protocolVersion, reviewId, prior) && StepOk(rules, protocolVersion, reviewId, prior, e)
  {
    StepwiseSnoc(StepFor(rules, protocolVersion, reviewId), prior, e);
  }

  method ReplayStep(rules: Rules, log: Log, event: Event) returns (ok: bool)
    ensures ok == StepOk(rules, log.protocolVersion, log.reviewId, log.events, event)
  {
    if !rules.schemaOk(event) {
      return false;
    }
    if event.body.protocolVersion != log.protocolVersion || event.body.reviewId != log.reviewId ||
       !IsSafeInteger(event.body.sequenceNumber) ||
       event.body.sequenceNumber < 0 || FindFirst(log.events, WithKey(event.body.key)).Some? ||
         !ActorPresent(rules, event) ||
       !TypedRefsMatch(event) || SemanticRejection(rules, event).Some? {
      return false;
    }
    if rules.identity(event.body) != Some(event.id) {
      return false;
    }
    return StructuralRejection(rules, log.events, event).None?;
  }

  method StoredReviewEventLogIsAppendValid(rules: Rules, events: seq<Event>, protocolVersion: Text, reviewId: Text)
    returns (r: Option<Log>)
    ensures r == if ReplayOk(rules, protocolVersion, reviewId, events) then Some(Log(protocolVersion, reviewId, events))
      else None
  {
    var log := Log(protocolVersion, reviewId, []);
    for i := 0 to |events|
      invariant log == Log(protocolVersion, reviewId, events[..i])
      invariant ReplayOk(rules, protocolVersion, reviewId, events[..i])
    {
      var ok := ReplayStep(rules, log, events[i]);
      ghost var step := StepFor(rules, protocolVersion, reviewId);
      assert ok == step(events[..i], events[i]);
      if !ok {
        if Stepwise(step, events) {
          StepwiseAt(step, events, i);
        }
        return None;
      }
      StepwiseSnoc(step, events[..i], events[i]);
      assert events[..i + 1] == events[..i] + [events[i]];
      log := log.(events := log.events + [events[i]]);
    }
    assert events[..|events|] == events;
    return Some(log);
  }

  // ---------------------------------------------------------------- append

  datatype Outcome = Appended | IdempotentNoop | Rejected(reason: Rejection)

  datatype AppendResult = AppendResult(outcome: Outcome, log: Log)

  function LocalRejection(rules: Rules, e: Event): Option<Rejection> {
    Or(SemanticRejection(rules, e), When(rules.identity(e.body) != Some(e.id), IdentityMismatch))
  }

  /** `appendReviewEvent` */
  function Append(rules: Rules, log: Log, e: Event): AppendResult {
    if !LogIsValid(rules, log) then AppendResult(Rejected(SchemaInvalid), log)
    else if e.body.protocolVersion != log.protocolVersion then AppendResult(Rejected(ProtocolVersionMismatch), log)
    else if e.body.reviewId != log.reviewId then AppendResult(Rejected(ReviewIdMismatch), log)
    else if !IsSafeInteger(e.body.sequenceNumber) || e.body.sequenceNumber < 0 then
            AppendResult(Rejected(SequenceNumberInvalid), log)
    else
      match FindFirst(log.events, WithKey(e.body.key))
      case Some(sameKey) => AppendResult(if sameKey == e then IdempotentNoop else Rejected(IdempotencyKeyConflict), log)
      case None =>
        var why := Or(StructuralRejection(rules, log.events, e),
                   Or(LocalRejection(rules, e),
                   Or(ScriptRule(log.events, e),
                      When(!rules.schemaOk(e), SchemaInvalid))));
        match why
        case Some(reason) => AppendResult(Rejected(reason), log)
        case None => AppendResult(Appended, log.(events := log.events + [e]))
  }

  // ---------------------------------------------------------------- customer-facing history

  datatype Entry = Entry(id: Text, eventType: EventType, timestamp: Text, actorCategory: Text,
                         artifactRefs: seq<ArtifactRef>, reason: Option<Reason>)

  datatype Projection = Projection(protocolVersion: Text, reviewId: Text, entries: seq<Entry>)

  predicate SequenceLt(a: Event, b: Event) { a.body.sequenceNumber < b.body.sequenceNumber }

  predicate ShownToCustomer(e: Event) {
    e.body.visibility.CustomerFacing? && !e.body.eventType.PilotMetricRecorded? &&
      !e.body.eventType.PilotFeedbackRecorded?
  }

  function EntryOf(e: Event): Entry {
    Entry(e.id, e.body.eventType, e.body.timestamp, e.body.actor.actorType, e.body.artifactRefs, e.body.reason)
  }

  function ShownEntries(events: seq<Event>): seq<Entry> {
    if events == [] then []
    else
      var last := events[|events| - 1];
      ShownEntries(events[..|events| - 1]) + if ShownToCustomer(last) then [EntryOf(last)] else []
  }

  /** `projectCustomerFacingHistory` */
  function CustomerHistory(rules: Rules, log: Log): Projection {
    if !LogIsValid(rules, log) then Projection(PROTOCOL_VERSION, Lit("review:invalid"), [])
    else Projection(log.protocolVersion, log.reviewId, ShownEntries(Sort(log.events, SequenceLt)))
  }
}
