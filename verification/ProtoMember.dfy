/** What an event id leaves out: an own `__proto__` member, lost when the members of an event are
    assigned to a fresh object. */
module ProtoMember {
  import opened Results
  import opened Sorting
  import opened Text
  import opened Json
  import opened CanonicalIdentity
  import opened Members
  import opened ProtocolShapes
  import opened EventIdentity
  import opened ReviewChain
  import opened SampleEvents

  /** An event with one own `__proto__` member more. */
  function Twin(a: Json, value: Json): Json
    requires a.Obj?
  {
    Obj(a.fields + [Field(PROTO_KEY, value)])
  }

  lemma TwinDiffers(a: Json, value: Json)
    requires a.Obj? && WellFormed(a) && Lookup(a.fields, PROTO_KEY).None? && IsLeaf(value)
    ensures WellFormed(Twin(a, value)) && !Same(a, Twin(a, value))
  {
    LookupFound(a.fields, PROTO_KEY);
  }

  lemma TwinIdentity(h: HashFn, a: Json, value: Json)
    requires a.Obj? && Lookup(a.fields, PROTO_KEY).None? && IsLeaf(value)
    ensures ExcludedFieldsIdentity(h, Twin(a, value), [EVENT_ID_KEY], None) ==
      ExcludedFieldsIdentity(h, a, [EVENT_ID_KEY], None)
  {
    var proto := Field(PROTO_KEY, value);
    var all := a.fields + [proto];
    assert |PROTO_KEY| != |EVENT_ID_KEY|;
    LookupFound(a.fields, PROTO_KEY);
    LookupSnoc(a.fields, proto, EVENT_ID_KEY);
    assert all[..|a.fields|] == a.fields;
    assert Assigned(all, [EVENT_ID_KEY]) == Assigned(a.fields, [EVENT_ID_KEY]);
    assert !ReplacesPrototype(all, [EVENT_ID_KEY]) && !ReplacesPrototype(a.fields, [EVENT_ID_KEY]);
    assert ExcludableFields(Twin(a, value), [EVENT_ID_KEY]) == ExcludableFields(a, [EVENT_ID_KEY]);
  }

  /** Every readable event has a twin that is a different event and reads the same: the one with a
      primitive `__proto__` member more, which validation does not see either. */
  lemma ProtoMemberIsNotBound(h: HashFn, schemaOk: Json -> bool, a: Json, value: Json)
    requires WellFormed(a) && ReadOne(h, schemaOk, a).Some? && Lookup(a.fields, PROTO_KEY).None? && IsLeaf(value)
    requires schemaOk(Twin(a, value))
    ensures WellFormed(Twin(a, value)) && !Same(a, Twin(a, value))
    ensures ReadOne(h, schemaOk, Twin(a, value)) == ReadOne(h, schemaOk, a)
  {
    var proto := Field(PROTO_KEY, value);
    assert |PROTO_KEY| == 9 && |Lit("sequence_number")| != 9;
    TwinDiffers(a, value);
    TwinIdentity(h, a, value);
    LookupSnoc(a.fields, proto, Lit("sequence_number"));
    LookupSnoc(a.fields, proto, Lit("event_id"));
    ReviewIdKeyDiffers();
    LookupSnoc(a.fields, proto, Lit("review_id"));
  }

  lemma ReviewIdKeyDiffers()
    ensures Lit("review_id") != PROTO_KEY
  {
    assert Lit("review_id")[0] != PROTO_KEY[0];
  }

  // ---------------------------------------------------------------- at a complete event

  lemma SampleReads(h: HashFn, schemaOk: Json -> bool)
    requires schemaOk(SampleEvent(h))
    ensures WellFormed(SampleEvent(h)) && Lookup(SampleEvent(h).fields, PROTO_KEY).None?
    ensures ReadOne(h, schemaOk, SampleEvent(h)) == Some(ReadEvent(Link(0, SampleId(h)), REVIEW_ID))
  {
    var id, members := SampleId(h), SampleMembers();
    SampleIsRead();
    WithIdFacts(id, members);
    SampleHasItsIdentity(h);
    ReviewIdIsOne();
    IdentityIsDigest(h, Canon(Obj(members)));
    NamesApart();
    ReadsWithId(h, schemaOk, id, members);
  }

  lemma NamesApart()
    ensures |EVENT_ID_KEY| == 8 && |Lit("sequence_number")| == 15 && |Lit("review_id")| == 9
  {
  }

  lemma ReadsWithId(h: HashFn, schemaOk: Json -> bool, id: Text, members: seq<Field>)
    requires EventMembers(members) && schemaOk(WithId(id, members)) && IsPrefixedSha256(id) && IsReviewId(REVIEW_ID)
    requires |EVENT_ID_KEY| == 8 && |Lit("sequence_number")| == 15 && |Lit("review_id")| == 9
    requires ExcludedFieldsIdentity(h, WithId(id, members), [EVENT_ID_KEY], None) == Ok(Some(id))
    ensures ReadOne(h, schemaOk, WithId(id, members)) == Some(ReadEvent(Link(0, id), REVIEW_ID))
  {
    WithIdLookup(id, members, Lit("sequence_number"));
    WithIdLookup(id, members, EVENT_ID_KEY);
    WithIdLookup(id, members, Lit("review_id"));
  }

  lemma ReviewIdIsOne()
    ensures IsReviewId(REVIEW_ID)
  {
    assert REVIEW_ID[..7] == Lit("review:");
  }

  lemma OneEventCommits(read: Reader, v: Json)
    requires read(v).Some?
    ensures Committed(read, Arr([v])) == Some([read(v).value.link])
  {
    var links := Links(read, [v]);
    assert links == [read(v).value.link];
    SortOfAscending(links, LinkLt);
  }

  lemma OneEventVerifies(h: HashFn, schemaOk: Json -> bool, v: Json, event: ReadEvent)
    requires ReadOne(h, schemaOk, v) == Some(event)
    ensures ReviewChainVerdict(h, schemaOk, Arr([v]), Str(HexEncode(ChainHead(h, [event.link])))) == Verified
  {
    OneEventCommits(EventReader(h, schemaOk), v);
    HexRoundTrip(ChainHead(h, [event.link]));
  }

  lemma TwinOf(id: Text, members: seq<Field>, value: Json)
    ensures WithId(id, members + []) == WithId(id, members)
    ensures WithId(id, members + [Field(PROTO_KEY, value)]) == Twin(WithId(id, members), value)
  {
    assert members + [] == members;
  }

  /** The twin has the members that the schema asks for, and none more that validation sees. */
  lemma TwinIsComplete(h: HashFn)
    ensures HasEventMembers(SampleEvent(h)) && HasEventMembers(Twin(SampleEvent(h), Num(1)))
  {
    TwinOf(SampleId(h), SampleMembers(), Num(1));
    SampleIsComplete(SampleId(h), []);
    SampleIsComplete(SampleId(h), [Field(PROTO_KEY, Num(1))]);
  }

  /** Two different complete events, each verified against the same head. */
  lemma HeadDoesNotBindProto(h: HashFn, schemaOk: Json -> bool)
    requires schemaOk(SampleEvent(h)) && schemaOk(Twin(SampleEvent(h), Num(1)))
    ensures var a, head := SampleEvent(h), Str(HexEncode(ChainHead(h, [Link(0, SampleId(h))])));
      && HasEventMembers(a) && HasEventMembers(Twin(a, Num(1)))
      && ReviewChainVerdict(h, schemaOk, Arr([a]), head) == Verified
      && ReviewChainVerdict(h, schemaOk, Arr([Twin(a, Num(1))]), head) == Verified
      && WellFormed(a) && WellFormed(Twin(a, Num(1))) && !Same(a, Twin(a, Num(1)))
  {
    var a, event := SampleEvent(h), ReadEvent(Link(0, SampleId(h)), REVIEW_ID);
    TwinIsComplete(h);
    SampleReads(h, schemaOk);
    ProtoMemberIsNotBound(h, schemaOk, a, Num(1));
    OneEventVerifies(h, schemaOk, a, event);
    OneEventVerifies(h, schemaOk, Twin(a, Num(1)), event);
  }
}
