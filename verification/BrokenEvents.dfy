/** Events that the schema lets through and that break the render filter. */
module BrokenEvents {
  import opened Results
  import opened Text
  import opened Json
  import opened CanonicalIdentity
  import opened Members
  import opened ProtocolShapes
  import opened EventFilter
  import opened RenderFilter
  import opened RenderTheorems
  import opened SampleEvents
  import ReviewEvents
  import ReviewLog

  // ---------------------------------------------------------------- members that have no canonical text

  lemma {:induction false} MemberCounts(fields: seq<Field>, f: Field)
    requires f in fields
    ensures FieldsNodes(fields) >= 1 + Nodes(f.value) && FieldsHeight(fields) >= 1 + Height(f.value)
    ensures FieldsClean(fields) ==> Paired(f.key) && Clean(f.value)
  {
    if fields[0] != f {
      MemberCounts(fields[1..], f);
    }
  }

  /** The member alone puts an object beyond canonicalization. */
  predicate IsUncanonical(f: Field) {
    !Paired(f.key) || !Clean(f.value) || Height(f.value) >= MAX_DEPTH || Nodes(f.value) >= MAX_NODES - 1
  }

  /** Any such member, but the id and `__proto__`, makes the identity impossible to recompute. */
  lemma UncanonicalMember(e: Json, f: Field)
    requires e.Obj? && f in e.fields && f.key != EVENT_ID_KEY && f.key != PROTO_KEY && IsUncanonical(f)
    ensures !HasIdentity(e)
  {
    WithoutKeeps(e.fields, [EVENT_ID_KEY] + [PROTO_KEY]);
    assert f.key !in [EVENT_ID_KEY] + [PROTO_KEY];
    MemberCounts(Assigned(e.fields, [EVENT_ID_KEY]), f);
  }

  /** A log that the control plane accepts breaks the filter if it holds such an event. */
  lemma ValidLogCanBreak(rules: ReviewEvents.Rules, render: RenderRules, library: Library,
                         readKey: Text -> ReviewEvents.Key,
                         log: ReviewEvents.Log, docs: seq<Json>, i: nat)
    requires Represents(rules, render, library, readKey, log.events, docs) && i < |docs|
    requires ReviewLog.LogIsValid(rules, log) && !HasIdentity(docs[i])
    ensures StructurallyValidReviewEvents(render, StoredLog(Str(log.protocolVersion), Str(log.reviewId), docs)) ==
      Thrown
  {
    ReviewLog.EntryAt(rules, log, log.events, i);
    assert ReviewEvents.SemanticRejection(rules, log.events[i]).None?;
    assert ReviewEvents.ContentRule(rules, log.events[i].body).None?;
    ThrowingEventTakesAll(render, StoredLog(Str(log.protocolVersion), Str(log.reviewId), docs), docs[i]);
  }

  // ---------------------------------------------------------------- a sibling disappears

  /** A sound event that supersedes nothing is rendered when it is alone. */
  lemma SoundIsRenderedAlone(rules: RenderRules, log: StoredLog, good: Json)
    requires Shaped(rules, good) && Sound(rules, log, good) && SupersedesOf(good).None?
    ensures StructurallyValidReviewEvents(rules, log.(events := [good])) == Kept([good])
  {
    var read := ReadingOf(rules, log);
    OwnIssuesIff(rules, log, good);
    ThrowsIsErr(rules, good);
    assert [good][..0] == [];
    FitsThroughout(read, [good]);
    FittingLogKept(read, [good]);
  }

  /** The documented promise fails whenever some member of a shaped event has no canonical text: a sound
      event, rendered when it is alone, disappears beside it. */
  lemma UncanonicalTakesSibling(rules: RenderRules, log: StoredLog, good: Json, bad: Json, f: Field)
    requires Shaped(rules, good) && Sound(rules, log, good) && SupersedesOf(good).None?
    requires Shaped(rules, bad) && ExcludesOk(bad)
    requires f in bad.fields && f.key != EVENT_ID_KEY && f.key != PROTO_KEY && IsUncanonical(f)
    ensures StructurallyValidReviewEvents(rules, log.(events := [good])) == Kept([good])
    ensures StructurallyValidReviewEvents(rules, log.(events := [good, bad])) == Thrown
  {
    SoundIsRenderedAlone(rules, log, good);
    UncanonicalMember(bad, f);
    ThrowingEventTakesAll(rules, log.(events := [good, bad]), bad);
  }

  // ---------------------------------------------------------------- a lone surrogate in the reason

  lemma KeysApart()
    ensures |EVENT_ID_KEY| == 8 && |KEY_KEY| == 15 && |PROTOCOL_KEY| == 16 && |REVIEW_KEY| == 9 && |SEQUENCE_KEY| == 15
    ensures |EXCLUDES_KEY| == 23 && |SUPERSEDES_KEY| == 19 && |PROTO_KEY| == 9 && |TIMESTAMP_KEY| == 15
  {
  }

  lemma TimestampKeyApart()
    ensures KEY_KEY != TIMESTAMP_KEY && SEQUENCE_KEY != TIMESTAMP_KEY
  {
    assert KEY_KEY[0] == 105 && SEQUENCE_KEY[0] == 115 && TIMESTAMP_KEY[0] == 101;
  }

  /** A complete event as the filter reads it. */
  lemma EventIsShaped(id: Text, members: seq<Field>)
    requires EventMembers(members)
    ensures var e := WithId(id, members);
      && HasShape(e) && ExcludesOk(e) && IdOf(e) == id && KeyOf(e) == IDEMPOTENCY_KEY && SequenceOf(e) == 0
      && Member(e, PROTOCOL_KEY) == Some(Str(PROTOCOL_VERSION)) && Member(e, REVIEW_KEY) == Some(Str(REVIEW_ID))
      && SupersedesOf(e) == None
  {
    KeysApart();
    WithIdLookup(id, members, EVENT_ID_KEY);
    WithIdLookup(id, members, KEY_KEY);
    WithIdLookup(id, members, PROTOCOL_KEY);
    WithIdLookup(id, members, REVIEW_KEY);
    WithIdLookup(id, members, SEQUENCE_KEY);
    WithIdLookup(id, members, EXCLUDES_KEY);
    WithIdLookup(id, members, SUPERSEDES_KEY);
  }

  /** One unpaired surrogate: a string of length one to the schema. */
  const LONE_SURROGATE: Field := Named("reason", Str([0xD800]))

  function SurrogateMembers(): seq<Field> { SampleMembers() + [LONE_SURROGATE] }

  /** A complete event whose reason is one unpaired surrogate. */
  function SurrogateEvent(id: Text): Json { WithId(id, SurrogateMembers()) }

  lemma SurrogateMembersAreRead()
    ensures EventMembers(SurrogateMembers())
  {
    SampleIsRead();
    SampleKeys();
    OtherTags();
    OneMore(SampleMembers(), LONE_SURROGATE);
  }

  lemma SurrogateIsUncanonical()
    ensures IsUncanonical(LONE_SURROGATE) && |LONE_SURROGATE.key| == 6
  {
    assert !Paired([0xD800]);
  }

  /** Both events hold what the schema requires, and nothing that it does not know. */
  lemma BothAreComplete(h: HashFn, id: Text)
    ensures HasEventMembers(SampleEvent(h)) && HasEventMembers(SurrogateEvent(id))
  {
    SampleIsComplete(SampleId(h), []);
    NothingMore(SampleId(h), SampleMembers());
    assert Lit("reason") in OPTIONAL;
    SampleIsComplete(id, [LONE_SURROGATE]);
  }

  lemma NothingMore(id: Text, members: seq<Field>)
    ensures WithId(id, members + []) == WithId(id, members)
  {
    assert members + [] == members;
  }

  lemma SampleIsSound(rules: RenderRules, log: StoredLog)
    requires log.protocolVersion == Str(PROTOCOL_VERSION) && log.reviewId == Str(REVIEW_ID)
    ensures HasShape(SampleEvent(rules.hash)) && Sound(rules, log, SampleEvent(rules.hash)) &&
      SupersedesOf(SampleEvent(rules.hash)).None?
  {
    SampleIsRead();
    EventIsShaped(SampleId(rules.hash), SampleMembers());
    SampleHasItsIdentity(rules.hash);
  }

  lemma SurrogateBreaks(rules: RenderRules, id: Text)
    requires rules.schemaOk(SurrogateEvent(id))
    ensures Breaks(rules, SurrogateEvent(id)) && LONE_SURROGATE in SurrogateEvent(id).fields
  {
    SurrogateMembersAreRead();
    EventIsShaped(id, SurrogateMembers());
    KeysApart();
    SurrogateIsUncanonical();
    LastOf(Field(EVENT_ID_KEY, Str(id)), SampleMembers(), LONE_SURROGATE);
    UncanonicalMember(SurrogateEvent(id), LONE_SURROGATE);
  }

  lemma LastOf(a: Field, members: seq<Field>, f: Field)
    ensures f in [a] + (members + [f])
  {
    assert ([a] + (members + [f]))[1 + |members|] == f;
  }

  /** The same at complete events: a sound one, and one whose reason is an unpaired surrogate. */
  lemma SurrogateTakesSibling(rules: RenderRules, id: Text)
    requires rules.schemaOk(SampleEvent(rules.hash)) && rules.schemaOk(SurrogateEvent(id))
    ensures var good, bad := SampleEvent(rules.hash), SurrogateEvent(id);
      && HasEventMembers(good) && HasEventMembers(bad)
      && StructurallyValidReviewEvents(rules, StoredLog(Str(PROTOCOL_VERSION), Str(REVIEW_ID), [good])) == Kept([good])
      && StructurallyValidReviewEvents(rules, StoredLog(Str(PROTOCOL_VERSION), Str(REVIEW_ID), [good, bad])) == Thrown
  {
    var good, log := SampleEvent(rules.hash), StoredLog(Str(PROTOCOL_VERSION), Str(REVIEW_ID), []);
    BothAreComplete(rules.hash, id);
    SampleIsSound(rules, log);
    SurrogateBreaks(rules, id);
    KeysApart();
    SurrogateIsUncanonical();
    UncanonicalTakesSibling(rules, log, good, SurrogateEvent(id), LONE_SURROGATE);
  }

  // ---------------------------------------------------------------- a deep timestamp

  lemma SetTwice(e: Json, key: Text, a: Json, b: Json)
    requires e.Obj?
    ensures WithMember(WithMember(e, key, a), key, b) == WithMember(e, key, b)
  {
    var kept := Without(e.fields, [key]);
    assert (kept + [Field(key, a)])[..|kept|] == kept;
    WithoutAgain(e.fields, key);
  }

  lemma OtherMembersStay(e: Json, key: Text, value: Json, other: Text)
    requires other != key
    ensures Member(WithMember(e, key, value), other) == Member(e, other)
  {
    if e.Obj? {
      LookupWithout(e.fields, other, key);
      LookupSnoc(Without(e.fields, [key]), Field(key, value), other);
    }
  }

  /** The placeholder that spares a bad timestamp from the schema does not spare it from the identity:
      any event with a timestamp nested 64 deep breaks the filter. */
  lemma DeepTimestampBreaks(rules: RenderRules, e: Json, timestamp: Json)
    requires HasShape(e) && ExcludesOk(e) && rules.schemaOk(WithMember(e, TIMESTAMP_KEY, PLACEHOLDER))
    requires Height(timestamp) >= MAX_DEPTH
    ensures Breaks(rules, WithMember(e, TIMESTAMP_KEY, timestamp))
  {
    var bad, f := WithMember(e, TIMESTAMP_KEY, timestamp), Field(TIMESTAMP_KEY, timestamp);
    KeysApart();
    TimestampKeyApart();
    SetTwice(e, TIMESTAMP_KEY, timestamp, PLACEHOLDER);
    forall key: Text | key != TIMESTAMP_KEY ensures Member(bad, key) == Member(e, key) {
      OtherMembersStay(e, TIMESTAMP_KEY, timestamp, key);
    }
    assert bad.fields[|bad.fields| - 1] == f;
    UncanonicalMember(bad, f);
  }
}
