/** `packages/protocol-ts/src/review-event-log.ts`: which stored events may be rendered. */
module RenderFilter {
  import opened Results
  import opened Sorting
  import opened Text
  import opened Json
  import opened CanonicalIdentity
  import opened ProtocolShapes
  import opened EventFilter

  /** `schemaOk` stands for validation against the review-event schema. */
  datatype RenderRules = RenderRules(hash: HashFn, schemaOk: Json -> bool)

  /** A value of log shape: its header, whatever that is, and its array of events, whatever they are. */
  datatype StoredLog = StoredLog(protocolVersion: Json, reviewId: Json, events: seq<Json>)

  // ---------------------------------------------------------------- reading an event

  const EXCLUDES_KEY: Text := Lit("identity_input_excludes")
  const SEQUENCE_KEY: Text := Lit("sequence_number")
  const KEY_KEY: Text := Lit("idempotency_key")
  const PROTOCOL_KEY: Text := Lit("protocol_version")
  const REVIEW_KEY: Text := Lit("review_id")
  const SUPERSEDES_KEY: Text := Lit("supersedes_event_id")
  const TIMESTAMP_KEY: Text := Lit("event_timestamp")
  const PLACEHOLDER: Json := Str(Lit("2026-01-01T00:00:00Z"))

  function Member(e: Json, key: Text): Option<Json> {
    if e.Obj? then Lookup(e.fields, key) else None
  }

  function TextOf(e: Json, key: Text): Text {
    match Member(e, key)
    case Some(Str(s)) => s
    case _ => []
  }

  function IdOf(e: Json): Text { TextOf(e, EVENT_ID_KEY) }

  function KeyOf(e: Json): Text { TextOf(e, KEY_KEY) }

  function SequenceOf(e: Json): int {
    match Member(e, SEQUENCE_KEY)
    case Some(Num(n)) => n
    case _ => 0
  }

  function SupersedesOf(e: Json): Option<Text> {
    match Member(e, SUPERSEDES_KEY)
    case Some(Str(s)) => Some(s)
    case _ => None
  }

  predicate IsText(v: Option<Json>) { v.Some? && v.value.Str? }

  /** The members that the filter reads have the types that the schema gives them. */
  predicate HasShape(e: Json) {
    && e.Obj? && IsText(Member(e, EVENT_ID_KEY)) && IsText(Member(e, KEY_KEY))
    && IsText(Member(e, PROTOCOL_KEY)) && IsText(Member(e, REVIEW_KEY))
    && Member(e, SEQUENCE_KEY).Some? && Member(e, SEQUENCE_KEY).value.Num?
    && Member(e, EXCLUDES_KEY).Some? && Member(e, EXCLUDES_KEY).value.Arr?
    && (Member(e, SUPERSEDES_KEY).Some? ==> IsText(Member(e, SUPERSEDES_KEY)))
  }

  /** `identity_input_excludes` is just the event id. */
  predicate ExcludesOk(e: Json) {
    Member(e, EXCLUDES_KEY) == Some(Arr([Str(EVENT_ID_KEY)]))
  }

  /** An object with one member set. */
  function WithMember(e: Json, key: Text, value: Json): Json {
    if e.Obj? then Obj(Without(e.fields, [key]) + [Field(key, value)]) else e
  }

  /** Of review-event shape, whatever its timestamp says. */
  predicate Shaped(rules: RenderRules, e: Json) {
    HasShape(e) && (rules.schemaOk(e) || rules.schemaOk(WithMember(e, TIMESTAMP_KEY, PLACEHOLDER)))
  }

  /** The id of the event can be computed: its members but the id, as assignment keeps them, canonicalize. */
  predicate HasIdentity(e: Json) {
    e.Obj? && !ReplacesPrototype(e.fields, [EVENT_ID_KEY]) && Canonicalizable(Obj(Assigned(e.fields, [EVENT_ID_KEY])))
  }

  /** Checking this event throws. */
  predicate Throws(e: Json) {
    ExcludesOk(e) && Member(e, EVENT_ID_KEY).Some? && !HasIdentity(e)
  }

  function Identity(rules: RenderRules, e: Json): Result<Option<Text>, ()> {
    ExcludedFieldsIdentity(rules.hash, e, [EVENT_ID_KEY], None)
  }

  /** It throws exactly when the identity recomputed for it does. */
  lemma ThrowsIsErr(rules: RenderRules, e: Json)
    ensures Throws(e) <==> ExcludesOk(e) && Identity(rules, e).Err?
    ensures Identity(rules, e).Ok? && Identity(rules, e).value.Some? ==> HasIdentity(e)
  {
  }

  // ---------------------------------------------------------------- what the filter reads of an event

  function ShapedBy(rules: RenderRules): Json -> bool { (e: Json) => Shaped(rules, e) }

  /** The issues an event has by itself, in a log with this header. */
  function OwnIssues(rules: RenderRules, protocolVersion: Json, reviewId: Json, e: Json): seq<Issue> {
    Flag(Member(e, PROTOCOL_KEY) != Some(protocolVersion), ProtocolMismatch) +
      Flag(Member(e, REVIEW_KEY) != Some(reviewId), ReviewMismatch) +
    (if !ExcludesOk(e) then [ExcludesInvalid] else Flag(Identity(rules, e) != Ok(Some(IdOf(e))), IdentityMismatched))
  }

  function OwnBy(rules: RenderRules, protocolVersion: Json, reviewId: Json): Json -> seq<Issue> {
    (e: Json) => OwnIssues(rules, protocolVersion, reviewId, e)
  }

  function ReadingBy(rules: RenderRules, protocolVersion: Json, reviewId: Json): Reading {
    Reading(ShapedBy(rules), SequenceOf, IdOf, KeyOf, SupersedesOf, OwnBy(rules, protocolVersion, reviewId), Throws)
  }

  function ReadingOf(rules: RenderRules, log: StoredLog): Reading {
    ReadingBy(rules, log.protocolVersion, log.reviewId)
  }

  /** `structurallyValidReviewEvents`, on a value of log shape. */
  function StructurallyValidReviewEvents(rules: RenderRules, log: StoredLog): Filtered {
    Filter(ReadingOf(rules, log), log.events)
  }

  // ---------------------------------------------------------------- the loop

  /** The checks of an event by itself; `None` where recomputing its identity throws. */
  method CheckOwn(rules: RenderRules, log: StoredLog, event: Json) returns (r: Option<seq<Issue>>)
    ensures r == if Throws(event) then None else Some(OwnIssues(rules, log.protocolVersion, log.reviewId, event))
  {
    var issues := Flag(Member(event, PROTOCOL_KEY) != Some(log.protocolVersion), ProtocolMismatch);
    issues := issues + Flag(Member(event, REVIEW_KEY) != Some(log.reviewId), ReviewMismatch);
    ThrowsIsErr(rules, event);
    if !ExcludesOk(event) {
      return Some(issues + [ExcludesInvalid]);
    }
    var recomputed := RecomputeExcludedFieldsIdentity(rules.hash, event, [EVENT_ID_KEY], None);
    if recomputed.Err? {
      return None;
    }
    return Some(issues + Flag(recomputed.value != Some(IdOf(event)), IdentityMismatched));
  }

  /** What the loop carries from event to event. */
  datatype Carried = Carried(previousSequence: Option<int>, seenEventIds: set<Text>, seenIdempotencyKeys: set<Text>,
                             priorEventIds: set<Text>)

  ghost predicate CarriedAfter(read: Reading, c: Carried, prior: seq<Json>, results: seq<Judged>) {
    && Judge(read, prior) == Some(results)
    && c.previousSequence == (if prior == [] then None else Some(read.sequence(prior[|prior| - 1])))
    && c.seenEventIds == c.priorEventIds == Ids(read, Good(results)) &&
       c.seenIdempotencyKeys == Keys(read, Good(results))
  }

  /** The checks of one turn; `None` where they throw. */
  method CheckEvent(rules: RenderRules, log: StoredLog, c: Carried, event: Json, ghost prior: seq<Json>,
                    ghost results: seq<Judged>)
    returns (r: Option<seq<Issue>>)
    requires CarriedAfter(ReadingOf(rules, log), c, prior, results)
    ensures Judge(ReadingOf(rules, log), prior + [event]) == if r.None? then None
      else Some(results + [Judged(event, r.value)])
  {
    JudgeSnoc(ReadingOf(rules, log), prior, event);
    var sequence := Flag(c.previousSequence.Some? && SequenceOf(event) <= c.previousSequence.value,
                         SequenceNotIncreasing);
    var id := Flag(IdOf(event) in c.seenEventIds, DuplicateId);
    var key := Flag(KeyOf(event) in c.seenIdempotencyKeys, DuplicateKey);
    var own := CheckOwn(rules, log, event);
    if own.None? {
      return None;
    }
    var supersedes := Flag(SupersedesOf(event).Some? && SupersedesOf(event).value !in c.priorEventIds,
                           SupersedesUnresolved);
    return Some(sequence + id + key + own.value + supersedes);
  }

  /** What one turn leaves for the next: only an event without issues establishes its id and key. */
  method Carry(rules: RenderRules, log: StoredLog, c: Carried, event: Json, issues: seq<Issue>, ghost prior: seq<Json>,
               ghost results: seq<Judged>)
    returns (c': Carried)
    requires CarriedAfter(ReadingOf(rules, log), c, prior, results)
    requires Judge(ReadingOf(rules, log), prior + [event]) == Some(results + [Judged(event, issues)])
    ensures CarriedAfter(ReadingOf(rules, log), c', prior + [event], results + [Judged(event, issues)])
  {
    GoodIds(ReadingOf(rules, log), results, Judged(event, issues));
    c' := c.(previousSequence := Some(SequenceOf(event)));
    if issues == [] {
      c' := c'.(seenEventIds := c.seenEventIds + {IdOf(event)},
                seenIdempotencyKeys := c.seenIdempotencyKeys + {KeyOf(event)},
                priorEventIds := c.priorEventIds + {IdOf(event)});
    }
  }

  /** `orderedEventsWithIssues` */
  method OrderedEventsWithIssues(rules: RenderRules, log: StoredLog) returns (r: Option<seq<Judged>>)
    ensures r == Judge(ReadingOf(rules, log), Ordered(ReadingOf(rules, log), log.events))
  {
    r := JudgeAll(rules, log, Ordered(ReadingOf(rules, log), log.events));
  }

  /** The loop over the ordered events. */
  method JudgeAll(rules: RenderRules, log: StoredLog, ordered: seq<Json>) returns (r: Option<seq<Judged>>)
    ensures r == Judge(ReadingOf(rules, log), ordered)
  {
    var c := Carried(None, {}, {}, {});
    var results: seq<Judged> := [];
    for index := 0 to |ordered|
      invariant CarriedAfter(ReadingOf(rules, log), c, ordered[..index], results)
    {
      var event := ordered[index];
      assert ordered[..index + 1] == ordered[..index] + [event];
      var issues := CheckEvent(rules, log, c, event, ordered[..index], results);
      if issues.None? {
        JudgePrefix(ReadingOf(rules, log), ordered, index + 1);
        return None;
      }
      c := Carry(rules, log, c, event, issues.value, ordered[..index], results);
      results := results + [Judged(event, issues.value)];
    }
    assert ordered[..|ordered|] == ordered;
    return Some(results);
  }

  // ---------------------------------------------------------------- what the filter keeps

  /** An event that passes the checks it has to pass by itself. */
  predicate Sound(rules: RenderRules, log: StoredLog, e: Json) {
    && Member(e, PROTOCOL_KEY) == Some(log.protocolVersion) && Member(e, REVIEW_KEY) == Some(log.reviewId)
    && ExcludesOk(e) && Identity(rules, e) == Ok(Some(IdOf(e)))
  }

  lemma OwnIssuesIff(rules: RenderRules, log: StoredLog, e: Json)
    ensures ReadingOf(rules, log).own(e) == [] <==> Sound(rules, log, e)
  {
  }

  /** Idempotence: what survives, filtered again, survives whole and in the same order. */
  lemma SurvivorsSurviveAgain(rules: RenderRules, log: StoredLog)
    requires StructurallyValidReviewEvents(rules, log).Kept?
    ensures var kept := StructurallyValidReviewEvents(rules, log);
      StructurallyValidReviewEvents(rules, log.(events := kept.events)) == kept
  {
    SurvivorsSurvive(ReadingOf(rules, log), log.events);
  }

  /** Array order does not matter when the sequence numbers of the shaped events are distinct. */
  lemma FilterIgnoresArrayOrder(rules: RenderRules, log: StoredLog, events: seq<Json>)
    requires multiset(events) == multiset(log.events)
    requires var shaped := Keep(ShapedBy(rules), log.events);
      forall i, j :: 0 <= i < j < |shaped| ==> SequenceOf(shaped[i]) != SequenceOf(shaped[j])
    ensures StructurallyValidReviewEvents(rules, log.(events := events)) == StructurallyValidReviewEvents(rules, log)
  {
    var read := ReadingOf(rules, log);
    assert Separated(Keep(read.shaped, log.events), SequenceLt(read));
    FilterIgnoresOrder(read, log.events, events);
  }

  /** Inserting an event that is not of event shape, or fails one of its own checks but has an identity
      to recompute, changes no other event's fate, if no event of event shape has its sequence number. */
  lemma BadEventChangesNothing(rules: RenderRules, log: StoredLog, before: seq<Json>, x: Json, after: seq<Json>)
    requires log.events == before + after
    requires forall e :: e in log.events && Shaped(rules, e) ==> SequenceOf(e) != SequenceOf(x)
    requires Shaped(rules, x) ==> !Sound(rules, log, x) && (ExcludesOk(x) ==> HasIdentity(x))
    ensures StructurallyValidReviewEvents(rules, log.(events := before + [x] + after)) ==
      StructurallyValidReviewEvents(rules, log)
  {
    OwnIssuesIff(rules, log, x);
    BadEventIsAlone(ReadingOf(rules, log), before, x, after);
  }

  // ---------------------------------------------------------------- what makes it throw

  /** An event of event shape that asks for an identity that cannot be recomputed. */
  predicate Breaks(rules: RenderRules, e: Json) {
    Shaped(rules, e) && ExcludesOk(e) && !HasIdentity(e)
  }

  /** Such an event takes every other event with it: the documented promise that a bad event never
      makes a sibling disappear fails for it. */
  lemma ThrowingEventTakesAll(rules: RenderRules, log: StoredLog, x: Json)
    requires x in log.events && Breaks(rules, x)
    ensures StructurallyValidReviewEvents(rules, log) == Thrown
  {
    ThrowingEventThrows(ReadingOf(rules, log), log.events, x);
  }

  /** The filter throws exactly when some event of event shape has just its id excluded from its
      identity, and the rest of it has an object or array as own `__proto__` member or does not
      canonicalize: too many nodes, too deep, an unsafe number or an unpaired surrogate. */
  lemma ThrowsIff(rules: RenderRules, log: StoredLog)
    ensures StructurallyValidReviewEvents(rules, log) == Thrown <==> exists e :: e in log.events && Breaks(rules, e)
  {
    var read := ReadingOf(rules, log);
    FilterThrowsIff(read, log.events);
    forall e ensures Breaks(rules, e) <==> read.shaped(e) && read.throws(e) {
    }
  }
}
