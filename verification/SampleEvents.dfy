/** A complete review event: every member that `protocol/schemas/review-event.schema.json` requires. */
module SampleEvents {
  import opened Results
  import opened Sorting
  import opened Text
  import opened Json
  import opened CanonicalIdentity
  import opened Members
  import opened SmallValues
  import opened ProtocolShapes

  const REVIEW_ID: Text := Lit("review:abc")
  const IDEMPOTENCY_KEY: Text := Lit("key_rotation:abc")
  const ACTOR_TYPE: Text := Lit("vendor_service")
  const ACTOR_ID: Text := Lit("abc")
  const TIMESTAMP: Text := Lit("2026-01-01T00:00:00Z")

  // ---------------------------------------------------------------- the members

  function ActorMembers(): seq<Field> {
    [Named("actor_type", Str(ACTOR_TYPE)), Named("actor_id", Str(ACTOR_ID))]
  }

  function FirstMembers(): seq<Field> {
    [Named("protocol_version", Str(PROTOCOL_VERSION)), Named("review_id", Str(REVIEW_ID)),
     Named("sequence_number", Num(0)),
     Named("idempotency_key", Str(IDEMPOTENCY_KEY))]
  }

  function MiddleMembers(): seq<Field> {
    [Named("event_type", Str(Lit("key_rotation_recorded"))), Named("actor", Obj(ActorMembers())),
     Named("event_timestamp", Str(TIMESTAMP)), Named("artifact_refs", Arr([Str(Lit("artifact_ref:abc"))]))]
  }

  function LastMembers(): seq<Field> {
    [Named("visibility", Str(Lit("internal_only"))), Named("canonicalization", Str(Lit("rfc8785"))),
     Named("identity_hash_algorithm", Str(Lit("sha256"))), Named("identity_input_excludes", Arr([Str(EVENT_ID_KEY)]))]
  }

  /** The members of the sample event, but its id. */
  function SampleMembers(): seq<Field> { FirstMembers() + MiddleMembers() + LastMembers() }

  /** The event with this id and these members. */
  function WithId(id: Text, members: seq<Field>): Json { Obj([Field(EVENT_ID_KEY, Str(id))] + members) }

  const REQUIRED: seq<Text> :=
    [Lit("event_id"), Lit("protocol_version"), Lit("review_id"), Lit("sequence_number"), Lit("idempotency_key"),
     Lit("event_type"), Lit("actor"), Lit("event_timestamp"), Lit("artifact_refs"),
     Lit("visibility"), Lit("canonicalization"), Lit("identity_hash_algorithm"), Lit("identity_input_excludes")]

  const OPTIONAL: seq<Text> :=
    [Lit("reason"), Lit("source_derived_class"), Lit("customer_actor_ref"), Lit("customer_selection_evidence_ref"),
     Lit("internal_note"),
     Lit("supersedes_event_id"), Lit("supersedes_classification_record_ref")]

  /** Every member that the schema requires is there, and none that it does not know. Validation does
      not see an own `__proto__` member. */
  predicate HasEventMembers(e: Json) {
    e.Obj? && (forall k :: k in REQUIRED ==> Lookup(e.fields, k).Some?) &&
    forall f :: f in e.fields ==> f.key in REQUIRED || f.key in OPTIONAL || f.key == PROTO_KEY
  }

  // ---------------------------------------------------------------- their keys

  const MEMBER_TAGS: seq<KeyShape> := [
    Shape(16, 'p', 'v'),  // protocol_version
    Shape(9, 'r', ' '),  // review_id
    Shape(15, 's', 'n'),  // sequence_number
    Shape(15, 'i', 'c'),  // idempotency_key
    Shape(10, 'e', 'e'),  // event_type
    Shape(5, 'a', ' '),  // actor
    Shape(15, 'e', 'e'),  // event_timestamp
    Shape(13, 'a', 'r'),  // artifact_refs
    Shape(10, 'v', 'y'),  // visibility
    Shape(16, 'c', 'i'),  // canonicalization
    Shape(23, 'i', 'h'),  // identity_hash_algorithm
    Shape(23, 'i', 'i')  // identity_input_excludes
  ]

  lemma FirstTags()
    ensures Map(TagOf, FirstMembers()) == MEMBER_TAGS[..4]
  {
    LitTag("protocol_version");
    LitTag("review_id");
    LitTag("sequence_number");
    LitTag("idempotency_key");
  }

  lemma MiddleTags()
    ensures Map(TagOf, MiddleMembers()) == MEMBER_TAGS[4..8]
  {
    LitTag("event_type");
    LitTag("actor");
    LitTag("event_timestamp");
    LitTag("artifact_refs");
  }

  lemma LastTags()
    ensures Map(TagOf, LastMembers()) == MEMBER_TAGS[8..]
  {
    LitTag("visibility");
    LitTag("canonicalization");
    LitTag("identity_hash_algorithm");
    LitTag("identity_input_excludes");
  }

  lemma SampleTags()
    ensures Map(TagOf, SampleMembers()) == MEMBER_TAGS
  {
    FirstTags();
    MiddleTags();
    LastTags();
    MapConcat(TagOf, FirstMembers(), MiddleMembers());
    MapConcat(TagOf, FirstMembers() + MiddleMembers(), LastMembers());
  }

  /** The keys of an event that the sample does not have among its members. */
  lemma OtherTags()
    ensures Tag(EVENT_ID_KEY) == Shape(8, 'e', ' ') && Tag(PROTO_KEY) == Shape(9, '_', ' ')
    ensures Tag(Lit("supersedes_event_id")) == Shape(19, 's', 's') && Tag(Lit("reason")) == Shape(6, 'r', ' ')
  {
    LitTag("event_id");
    LitTag("__proto__");
    LitTag("supersedes_event_id");
    LitTag("reason");
  }

  lemma TagsDiffer()
    ensures NoDuplicates(MEMBER_TAGS)
    ensures Shape(8, 'e', ' ') !in MEMBER_TAGS && Shape(9, '_', ' ') !in MEMBER_TAGS
    ensures Shape(19, 's', 's') !in MEMBER_TAGS && Shape(6, 'r', ' ') !in MEMBER_TAGS
  {
  }

  lemma TagAbsent(fields: seq<Field>, key: Text)
    requires Tag(key) !in Map(TagOf, fields)
    ensures forall f :: f in fields ==> f.key != key
  {
    var tags := Map(TagOf, fields);
    forall f | f in fields ensures f.key != key {
      assert tags[Position(fields, f)] == Tag(f.key);
    }
  }

  lemma SampleKeys()
    ensures DistinctKeys(SampleMembers())
    ensures forall f :: f in SampleMembers() ==>
      f.key != EVENT_ID_KEY && f.key != PROTO_KEY && f.key != Lit("supersedes_event_id") && f.key != Lit("reason")
  {
    SampleTags();
    OtherTags();
    TagsDiffer();
    TagsTellApart(SampleMembers());
    TagAbsent(SampleMembers(), EVENT_ID_KEY);
    TagAbsent(SampleMembers(), PROTO_KEY);
    TagAbsent(SampleMembers(), Lit("supersedes_event_id"));
    TagAbsent(SampleMembers(), Lit("reason"));
  }

  // ---------------------------------------------------------------- what is read of them

  /** Members of an event, but its id, with the values of the sample where they are read. */
  ghost predicate EventMembers(members: seq<Field>) {
    && DistinctKeys(members) &&
       (forall f :: f in members ==> WellFormed(f.value) && f.key != EVENT_ID_KEY && f.key != PROTO_KEY)
    && Lookup(members, Lit("protocol_version")) == Some(Str(PROTOCOL_VERSION))
    && Lookup(members, Lit("review_id")) == Some(Str(REVIEW_ID))
    && Lookup(members, Lit("sequence_number")) == Some(Num(0))
    && Lookup(members, Lit("idempotency_key")) == Some(Str(IDEMPOTENCY_KEY))
    && Lookup(members, Lit("identity_input_excludes")) == Some(Arr([Str(EVENT_ID_KEY)]))
    && Lookup(members, Lit("supersedes_event_id")).None?
  }

  lemma AbsentLookup(fields: seq<Field>, key: Text)
    requires forall f :: f in fields ==> f.key != key
    ensures Lookup(fields, key).None?
  {
    LookupFound(fields, key);
  }

  lemma MemberAt(i: nat, key: string, value: Json)
    requires i < |SampleMembers()| && SampleMembers()[i] == Named(key, value)
    ensures Lookup(SampleMembers(), Lit(key)) == Some(value)
  {
    SampleKeys();
    LookupAt(SampleMembers(), i);
  }

  lemma ActorIsWellFormed()
    ensures WellFormed(Obj(ActorMembers()))
  {
    assert |Lit("actor_type")| != |Lit("actor_id")|;
  }

  lemma FourWellFormed(fields: seq<Field>)
    requires |fields| == 4 && WellFormed(fields[0].value) && WellFormed(fields[1].value)
    requires WellFormed(fields[2].value) && WellFormed(fields[3].value)
    ensures forall f :: f in fields ==> WellFormed(f.value)
  {
  }

  lemma OneTextWellFormed(t: Text)
    ensures WellFormed(Arr([Str(t)]))
  {
  }

  lemma MiddleValues()
    ensures forall f :: f in MiddleMembers() ==> WellFormed(f.value)
  {
    ActorIsWellFormed();
    OneTextWellFormed(Lit("artifact_ref:abc"));
    FourWellFormed(MiddleMembers());
  }

  lemma LastValues()
    ensures forall f :: f in LastMembers() ==> WellFormed(f.value)
  {
    OneTextWellFormed(EVENT_ID_KEY);
    FourWellFormed(LastMembers());
  }

  lemma SampleValues()
    ensures forall f :: f in SampleMembers() ==> WellFormed(f.value)
  {
    FourWellFormed(FirstMembers());
    MiddleValues();
    LastValues();
  }

  lemma HeaderIsRead()
    ensures Lookup(SampleMembers(), Lit("protocol_version")) == Some(Str(PROTOCOL_VERSION))
    ensures Lookup(SampleMembers(), Lit("review_id")) == Some(Str(REVIEW_ID))
  {
    MemberAt(0, "protocol_version", Str(PROTOCOL_VERSION));
    MemberAt(1, "review_id", Str(REVIEW_ID));
  }

  lemma PlaceIsRead()
    ensures Lookup(SampleMembers(), Lit("sequence_number")) == Some(Num(0))
    ensures Lookup(SampleMembers(), Lit("idempotency_key")) == Some(Str(IDEMPOTENCY_KEY))
  {
    MemberAt(2, "sequence_number", Num(0));
    MemberAt(3, "idempotency_key", Str(IDEMPOTENCY_KEY));
  }

  lemma ExcludesIsRead()
    ensures Lookup(SampleMembers(), Lit("identity_input_excludes")) == Some(Arr([Str(EVENT_ID_KEY)]))
  {
    MemberAt(11, "identity_input_excludes", Arr([Str(EVENT_ID_KEY)]));
  }

  lemma SampleIsRead()
    ensures EventMembers(SampleMembers())
  {
    SampleKeys();
    SampleValues();
    HeaderIsRead();
    PlaceIsRead();
    ExcludesIsRead();
    AbsentLookup(SampleMembers(), Lit("supersedes_event_id"));
  }

  /** One optional member more. */
  lemma OneMore(members: seq<Field>, f: Field)
    requires EventMembers(members) && WellFormed(f.value) && f.key != EVENT_ID_KEY && f.key != PROTO_KEY
    requires f.key != Lit("supersedes_event_id") && forall g :: g in members ==> g.key != f.key
    ensures EventMembers(members + [f])
  {
    forall key: Text ensures Lookup(members, key).Some? ==> Lookup(members + [f], key) == Lookup(members, key) {
      LookupSnoc(members, f, key);
    }
    LookupSnoc(members, f, Lit("supersedes_event_id"));
  }

  /** The id is the one member that is left out of the identity. */
  lemma WithIdFacts(id: Text, members: seq<Field>)
    requires EventMembers(members)
    ensures WellFormed(WithId(id, members)) && Lookup(WithId(id, members).fields, PROTO_KEY).None?
    ensures Without(WithId(id, members).fields, [EVENT_ID_KEY]) == members
    ensures Assigned(WithId(id, members).fields, [EVENT_ID_KEY]) == members
    ensures !ReplacesPrototype(WithId(id, members).fields, [EVENT_ID_KEY])
  {
    var first := Field(EVENT_ID_KEY, Str(id));
    assert |EVENT_ID_KEY| != |PROTO_KEY|;
    DropFirst(first, members, [EVENT_ID_KEY]);
    DropFirst(first, members, [EVENT_ID_KEY] + [PROTO_KEY]);
    AbsentLookup([first] + members, PROTO_KEY);
    WithIdWellFormed(first, members);
  }

  lemma WithIdWellFormed(first: Field, members: seq<Field>)
    requires DistinctKeys(members) && WellFormed(first.value)
    requires forall f :: f in members ==> WellFormed(f.value) && f.key != first.key
    ensures WellFormed(Obj([first] + members))
  {
    var all := [first] + members;
    forall i | 0 <= i < |all| ensures WellFormed(all[i].value) && (i > 0 ==> all[i].key != first.key) {
      assert i > 0 ==> all[i] in members;
    }
  }

  lemma WithIdLookup(id: Text, members: seq<Field>, key: Text)
    ensures Lookup(WithId(id, members).fields, key) == if key == EVENT_ID_KEY then Some(Str(id))
      else Lookup(members, key)
  {
    LookupCons(Field(EVENT_ID_KEY, Str(id)), members, key);
  }

  // ---------------------------------------------------------------- they are few and small

  lemma FirstAreSmall()
    ensures AllWithin(FirstMembers(), 5, 1)
  {
    LitText("codeattest.v0");
    LitText("review:abc");
    LitText("key_rotation:abc");
    FourFields("protocol_version", Str(PROTOCOL_VERSION), "review_id", Str(REVIEW_ID), "sequence_number", Num(0),
               "idempotency_key", Str(IDEMPOTENCY_KEY), 5, 1);
  }

  lemma ActorIsSmall()
    ensures Within(Obj(ActorMembers()), 5, 1)
  {
    LitText("vendor_service");
    LitText("abc");
    TwoFields("actor_type", Str(ACTOR_TYPE), "actor_id", Str(ACTOR_ID), 1, 0);
    ObjectWithin(ActorMembers(), 1, 0);
  }

  lemma OneText(s: string)
    ensures Within(Arr([Str(Lit(s))]), 5, 1)
  {
    LitText(s);
    ArrayWithin([Str(Lit(s))], 1, 0);
  }

  lemma MiddleAreSmall()
    ensures AllWithin(MiddleMembers(), 5, 1)
  {
    LitText("key_rotation_recorded");
    ActorIsSmall();
    LitText("2026-01-01T00:00:00Z");
    OneText("artifact_ref:abc");
    FourFields("event_type", Str(Lit("key_rotation_recorded")), "actor", Obj(ActorMembers()), "event_timestamp",
               Str(TIMESTAMP),
               "artifact_refs", Arr([Str(Lit("artifact_ref:abc"))]), 5, 1);
  }

  lemma LastAreSmall()
    ensures AllWithin(LastMembers(), 5, 1)
  {
    LitText("internal_only");
    LitText("rfc8785");
    LitText("sha256");
    OneText("event_id");
    FourFields("visibility", Str(Lit("internal_only")), "canonicalization", Str(Lit("rfc8785")),
               "identity_hash_algorithm", Str(Lit("sha256")), "identity_input_excludes", Arr([Str(EVENT_ID_KEY)]),
               5, 1);
  }

  lemma SampleCanonicalizes()
    ensures Canonicalizable(Obj(SampleMembers()))
  {
    FirstAreSmall();
    MiddleAreSmall();
    LastAreSmall();
    AllConcat(FirstMembers(), MiddleMembers(), 5, 1);
    AllConcat(FirstMembers() + MiddleMembers(), LastMembers(), 5, 1);
    ObjectWithin(SampleMembers(), 5, 1);
  }

  // ---------------------------------------------------------------- they are complete

  lemma SampleKeyAt(i: nat)
    requires i < 12
    ensures SampleMembers()[i].key == REQUIRED[i + 1]
  {
  }

  lemma SampleIsComplete(id: Text, more: seq<Field>)
    requires forall f :: f in more ==> f.key in OPTIONAL || f.key == PROTO_KEY
    ensures HasEventMembers(WithId(id, SampleMembers() + more))
  {
    var all := [Field(EVENT_ID_KEY, Str(id))] + (SampleMembers() + more);
    forall i | 0 <= i < 13 ensures Lookup(all, REQUIRED[i]).Some? && all[i].key == REQUIRED[i] {
      if i > 0 {
        SampleKeyAt(i - 1);
        assert all[i] == SampleMembers()[i - 1];
      }
      LookupFound(all, REQUIRED[i]);
    }
    forall f | f in all ensures f.key in REQUIRED || f.key in OPTIONAL || f.key == PROTO_KEY {
      var k := Position(all, f);
      if k < 13 {
        assert REQUIRED[k] in REQUIRED;
      } else {
        assert all[k] == more[k - 13];
      }
    }
  }

  // ---------------------------------------------------------------- the event

  function SampleId(h: HashFn): Text { Sha256ProtocolText(h, Canon(Obj(SampleMembers()))) }

  /** A sound event. */
  function SampleEvent(h: HashFn): Json { WithId(SampleId(h), SampleMembers()) }

  lemma SampleHasItsIdentity(h: HashFn)
    ensures ExcludedFieldsIdentity(h, SampleEvent(h), [EVENT_ID_KEY], None) == Ok(Some(SampleId(h)))
  {
    var members := SampleMembers();
    SampleIsRead();
    WithIdFacts(SampleId(h), members);
    WithIdLookup(SampleId(h), members, EVENT_ID_KEY);
    SampleCanonicalizes();
    IdentityOf(h, SampleEvent(h), members);
  }

  lemma IdentityOf(h: HashFn, e: Json, members: seq<Field>)
    requires e.Obj? && Lookup(e.fields, EVENT_ID_KEY).Some?
    requires Assigned(e.fields, [EVENT_ID_KEY]) == members && !ReplacesPrototype(e.fields, [EVENT_ID_KEY]) &&
      Canonicalizable(Obj(members))
    ensures ExcludedFieldsIdentity(h, e, [EVENT_ID_KEY], None) == Ok(Some(Sha256ProtocolText(h, Canon(Obj(members)))))
  {
  }
}
