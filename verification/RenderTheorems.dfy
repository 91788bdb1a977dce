/** The render filter against the control plane's log check, and events that break it. */
module RenderTheorems {
  import opened Results
  import opened Sorting
  import opened Text
  import opened Json
  import opened JsonRoundTrip
  import opened CanonicalIdentity
  import opened Members
  import opened ProtocolShapes
  import opened EventIdentity
  import opened EventFilter
  import opened RenderFilter
  import ReviewEvents
  import ReviewLog

  // ---------------------------------------------------------------- the control plane's view of a stored event

  /** The canonicalizer that the control plane calls: a library that sets no limits. `None` where it throws. */
  type Library = Json -> Option<Text>

  /** It prints what RFC 8785 says: the canonical text where there is one, well-formed text always, and
      one text for one value only. */
  ghost predicate FollowsRfc8785(library: Library) {
    && (forall v :: WellFormed(v) && Canonicalizable(v) ==> library(v) == Some(Canon(v)))
    && (forall v :: library(v).Some? ==> Paired(library(v).value))
    && (forall v, w :: WellFormed(v) && WellFormed(w) && library(v).Some? && library(v) == library(w) ==> Same(v, w))
  }

  /** There are such libraries: the strict canonicalizer is one. */
  function StrictLibrary(): Library {
    (v: Json) => if Canonicalizable(v) then Some(Canon(v)) else None
  }

  lemma StrictFollowsRfc8785()
    ensures FollowsRfc8785(StrictLibrary())
  {
    var library := StrictLibrary();
    forall v | library(v).Some? ensures Paired(library(v).value) {
      NormKeepsCounts(v);
      PrintPaired(Norm(v));
    }
    forall v, w | WellFormed(v) && WellFormed(w) && library(v).Some? && library(v) == library(w) ensures Same(v, w) {
      CanonInjective(v, w);
    }
  }

  /** The event without its id, own `__proto__` member included, as the control plane hashes it. */
  function Unidentified(v: Json): Json
    requires v.Obj?
  {
    Obj(Without(v.fields, [EVENT_ID_KEY]))
  }

  function LibraryIdentity(h: HashFn, library: Library, v: Json): Option<Text>
    requires v.Obj?
  {
    match library(Unidentified(v))
    case None => None
    case Some(text) => Some(Sha256ProtocolText(h, text))
  }

  /** The control plane reads the stored event `v` as `e`. */
  predicate ReadsAs(v: Json, e: ReviewEvents.Event, readKey: Text -> ReviewEvents.Key) {
    && HasShape(v) && e.id == IdOf(v) && e.body.key == readKey(KeyOf(v)) && e.body.sequenceNumber == SequenceOf(v)
    && Member(v, PROTOCOL_KEY) == Some(Str(e.body.protocolVersion)) &&
       Member(v, REVIEW_KEY) == Some(Str(e.body.reviewId))
    && (e.body.identityExcludes == [EVENT_ID_KEY] <==> ExcludesOk(v))
    && e.body.supersedes == SupersedesOf(v)
  }

  /** The log and the stored events are one: read alike, validated alike, and identified by the library. */
  ghost predicate Represents(rules: ReviewEvents.Rules, render: RenderRules, library: Library,
                             readKey: Text -> ReviewEvents.Key,
                             events: seq<ReviewEvents.Event>, docs: seq<Json>) {
    |events| == |docs| &&
    forall i :: 0 <= i < |docs| ==>
      && WellFormed(docs[i]) && ReadsAs(docs[i], events[i], readKey)
      && (rules.schemaOk(events[i]) ==> render.schemaOk(docs[i]))
      && rules.identity(events[i].body) == LibraryIdentity(render.hash, library, docs[i])
  }

  /** The strict canonicalizer takes the event as it is: no own `__proto__` member, and within the limits. */
  predicate Faithful(v: Json) {
    v.Obj? && Lookup(v.fields, PROTO_KEY).None? && Canonicalizable(Unidentified(v))
  }

  lemma {:induction false} LeaveOutAbsent(fields: seq<Field>, a: Text, b: Text)
    requires forall i :: 0 <= i < |fields| ==> fields[i].key != b
    ensures Without(fields, [a] + [b]) == Without(fields, [a])
  {
    if fields != [] {
      LeaveOutAbsent(fields[..|fields| - 1], a, b);
    }
  }

  lemma FaithfulInput(v: Json)
    requires v.Obj? && Lookup(v.fields, PROTO_KEY).None?
    ensures Obj(Assigned(v.fields, [EVENT_ID_KEY])) == Unidentified(v) && !ReplacesPrototype(v.fields, [EVENT_ID_KEY])
  {
    LookupFound(v.fields, PROTO_KEY);
    LeaveOutAbsent(v.fields, EVENT_ID_KEY, PROTO_KEY);
  }

  lemma FaithfulIdentity(render: RenderRules, library: Library, v: Json)
    requires FollowsRfc8785(library) && WellFormed(v) && HasShape(v) && Faithful(v)
    ensures HasIdentity(v) && Identity(render, v) == Ok(LibraryIdentity(render.hash, library, v))
  {
    WithoutWellFormed(v.fields, [EVENT_ID_KEY]);
    FaithfulInput(v);
  }

  lemma ValidEventSurvives(rules: ReviewEvents.Rules, render: RenderRules, library: Library,
                           readKey: Text -> ReviewEvents.Key,
                           log: ReviewEvents.Log, docs: seq<Json>, n: nat)
    requires FollowsRfc8785(library) && Represents(rules, render, library, readKey, log.events, docs) && n < |docs|
    requires ReviewLog.EntriesOk(rules, log, log.events) && Faithful(docs[n])
    ensures Survives(ReadingBy(render, Str(log.protocolVersion), Str(log.reviewId)), docs[..n], docs[..n], docs[n])
  {
    var read := ReadingBy(render, Str(log.protocolVersion), Str(log.reviewId));
    var e, v := log.events[n], docs[n];
    ReviewLog.EntryAt(rules, log, log.events, n);
    FaithfulIdentity(render, library, v);
    ValidEventIsSound(rules, render, log, readKey, v, e, log.events[..n]);
    OwnIssuesIff(render, StoredLog(Str(log.protocolVersion), Str(log.reviewId), docs), v);
    ApartFromPrior(rules, log, readKey, log.events[..n], docs[..n], e, v);
  }

  lemma ValidEventIsSound(rules: ReviewEvents.Rules, render: RenderRules, log: ReviewEvents.Log,
                          readKey: Text -> ReviewEvents.Key,
                          v: Json, e: ReviewEvents.Event, prior: seq<ReviewEvents.Event>)
    requires ReviewLog.EntryOk(rules, log, prior, e) && ReadsAs(v, e, readKey)
    requires Identity(render, v) == Ok(rules.identity(e.body))
    ensures Sound(render, StoredLog(Str(log.protocolVersion), Str(log.reviewId), []), v)
  {
    assert ReviewEvents.SemanticRejection(rules, e).None?;
    assert ReviewEvents.ContentRule(rules, e.body).None?;
  }

  lemma ApartFromPrior(rules: ReviewEvents.Rules, log: ReviewEvents.Log, readKey: Text -> ReviewEvents.Key,
                       prior: seq<ReviewEvents.Event>, docs: seq<Json>, e: ReviewEvents.Event, v: Json)
    requires ReviewLog.EntryOk(rules, log, prior, e) && ReadsAs(v, e, readKey)
    requires |prior| == |docs| && forall i :: 0 <= i < |docs| ==> ReadsAs(docs[i], prior[i], readKey)
    ensures docs != [] ==> SequenceOf(docs[|docs| - 1]) < SequenceOf(v)
    ensures forall d :: d in docs ==> IdOf(d) != IdOf(v) && KeyOf(d) != KeyOf(v)
    ensures SupersedesOf(v).Some? ==> exists d :: d in docs && IdOf(d) == SupersedesOf(v).value
  {
    forall d | d in docs ensures IdOf(d) != IdOf(v) && KeyOf(d) != KeyOf(v) {
      var i := Position(docs, d);
      assert prior[i] in prior;
      assert prior[i].id in ReviewLog.Ids(prior) && prior[i].body.key in ReviewLog.Keys(prior);
    }
    if SupersedesOf(v).Some? {
      var x :| x in prior && x.id == SupersedesOf(v).value;
      assert docs[Position(prior, x)] in docs;
    }
  }

  lemma FaithfulLogKept(rules: ReviewEvents.Rules, render: RenderRules, library: Library,
                        readKey: Text -> ReviewEvents.Key,
                        log: ReviewEvents.Log, docs: seq<Json>)
    requires FollowsRfc8785(library) && Represents(rules, render, library, readKey, log.events, docs)
    requires ReviewLog.EntriesOk(rules, log, log.events)
    requires forall v :: v in docs ==> Faithful(v)
    ensures StructurallyValidReviewEvents(render, StoredLog(Str(log.protocolVersion), Str(log.reviewId), docs)) ==
      Kept(docs)
  {
    var read := ReadingBy(render, Str(log.protocolVersion), Str(log.reviewId));
    forall n | 0 <= n < |docs| ensures Survives(read, docs[..n], docs[..n], docs[n]) {
      ValidEventSurvives(rules, render, library, readKey, log, docs, n);
    }
    FitsThroughout(read, docs);
    forall v | v in docs ensures read.shaped(v) {
      ReviewLog.EntryAt(rules, log, log.events, Position(docs, v));
    }
    FittingLogKept(read, docs);
  }

  lemma KeptLogFaithful(rules: ReviewEvents.Rules, render: RenderRules, library: Library,
                        readKey: Text -> ReviewEvents.Key,
                        log: ReviewEvents.Log, docs: seq<Json>, i: nat)
    requires FollowsRfc8785(library) && Represents(rules, render, library, readKey, log.events, docs)
    requires ReviewLog.EntriesOk(rules, log, log.events) && i < |docs|
    requires StructurallyValidReviewEvents(render, StoredLog(Str(log.protocolVersion), Str(log.reviewId), docs)) ==
      Kept(docs)
    ensures Faithful(docs[i]) || InputsCollide(render.hash, library, docs[i])
  {
    var stored := StoredLog(Str(log.protocolVersion), Str(log.reviewId), docs);
    KeptAreSound(render, stored);
    ReviewLog.EntryAt(rules, log, log.events, i);
    SoundIsFaithful(render, library, stored, docs[i]);
  }

  /** A log that the control plane accepts is rendered whole if the strict canonicalizer takes each of
      its events as it is, and only then, but for events whose two identity inputs collide. */
  lemma ValidLogRenderedWhole(rules: ReviewEvents.Rules, render: RenderRules, library: Library,
                              readKey: Text -> ReviewEvents.Key,
                              log: ReviewEvents.Log, docs: seq<Json>)
    requires FollowsRfc8785(library) && Represents(rules, render, library, readKey, log.events, docs)
    requires ReviewLog.LogIsValid(rules, log)
    ensures var stored := StoredLog(Str(log.protocolVersion), Str(log.reviewId), docs);
      && ((forall v :: v in docs ==> Faithful(v)) ==> StructurallyValidReviewEvents(render, stored) == Kept(docs))
      && (StructurallyValidReviewEvents(render, stored) == Kept(docs) ==>
            forall v :: v in docs ==> Faithful(v) || InputsCollide(render.hash, library, v))
  {
    if forall v :: v in docs ==> Faithful(v) {
      FaithfulLogKept(rules, render, library, readKey, log, docs);
    }
    if StructurallyValidReviewEvents(render, StoredLog(Str(log.protocolVersion), Str(log.reviewId), docs)) ==
       Kept(docs) {
      forall v | v in docs ensures Faithful(v) || InputsCollide(render.hash, library, v) {
        KeptLogFaithful(rules, render, library, readKey, log, docs, Position(docs, v));
      }
    }
  }

  lemma KeptAreSound(render: RenderRules, stored: StoredLog)
    requires StructurallyValidReviewEvents(render, stored).Kept?
    ensures forall v :: v in StructurallyValidReviewEvents(render, stored).events ==> Sound(render, stored, v)
  {
    var read := ReadingOf(render, stored);
    FilterIsSurvivors(read, stored.events);
    SurvivorsAreSound(read, Ordered(read, stored.events));
    forall v | v in StructurallyValidReviewEvents(render, stored).events ensures Sound(render, stored, v) {
      OwnIssuesIff(render, stored, v);
    }
  }

  /** What the library prints of an event and what the strict canonicalizer prints of it are different
      inputs with one hash. */
  ghost predicate InputsCollide(h: HashFn, library: Library, v: Json) {
    v.Obj? && library(Unidentified(v)).Some? && Collision(h, Utf8(library(Unidentified(v)).value), EventInput(v))
  }

  lemma SoundIsFaithful(render: RenderRules, library: Library, stored: StoredLog, v: Json)
    requires FollowsRfc8785(library) && WellFormed(v) && HasShape(v)
    requires Sound(render, stored, v) && LibraryIdentity(render.hash, library, v) == Some(IdOf(v))
    ensures Faithful(v) || InputsCollide(render.hash, library, v)
  {
    ThrowsIsErr(render, v);
    if Lookup(v.fields, PROTO_KEY).None? {
      FaithfulInput(v);
    } else {
      InputsDiffer(library, v);
      SameDigest(render.hash, library(Unidentified(v)).value, Canon(Obj(Assigned(v.fields, [EVENT_ID_KEY]))));
    }
  }

  lemma SameDigest(h: HashFn, a: Text, b: Text)
    requires Sha256ProtocolText(h, a) == Sha256ProtocolText(h, b)
    ensures h(Utf8(a)) == h(Utf8(b))
  {
    var p := Lit("sha256:");
    var x, y := h(Utf8(a)), h(Utf8(b));
    assert (p + HexEncode(x))[|p|..] == HexEncode(x);
    assert (p + HexEncode(y))[|p|..] == HexEncode(y);
    HexRoundTrip(x);
    HexRoundTrip(y);
  }

  lemma AssignedLosesOne(fields: seq<Field>)
    requires DistinctKeys(fields) && Lookup(fields, PROTO_KEY).Some?
    ensures |Assigned(fields, [EVENT_ID_KEY])| == |Without(fields, [EVENT_ID_KEY])| - 1
  {
    var whole := Without(fields, [EVENT_ID_KEY]);
    assert |PROTO_KEY| != |EVENT_ID_KEY|;
    WithoutKeeps(fields, [EVENT_ID_KEY]);
    LookupWithout(fields, PROTO_KEY, EVENT_ID_KEY);
    LookupFound(whole, PROTO_KEY);
    WithoutSwap(fields);
    WithoutOne(whole, PROTO_KEY);
  }

  /** With an own `__proto__` member the two inputs are different. */
  lemma InputsDiffer(library: Library, v: Json)
    requires FollowsRfc8785(library) && v.Obj? && WellFormed(v) && Lookup(v.fields, PROTO_KEY).Some?
    requires library(Unidentified(v)).Some? && Canonicalizable(Obj(Assigned(v.fields, [EVENT_ID_KEY])))
    ensures Utf8(library(Unidentified(v)).value) != EventInput(v)
  {
    AssignedLosesOne(v.fields);
    WithoutWellFormed(v.fields, [EVENT_ID_KEY]);
    WithoutWellFormed(v.fields, [EVENT_ID_KEY] + [PROTO_KEY]);
    TextsDiffer(library, Without(v.fields, [EVENT_ID_KEY]), Assigned(v.fields, [EVENT_ID_KEY]));
  }

  lemma TextsDiffer(library: Library, whole: seq<Field>, reduced: seq<Field>)
    requires FollowsRfc8785(library) && WellFormed(Obj(whole)) && WellFormed(Obj(reduced)) && |whole| != |reduced|
    requires library(Obj(whole)).Some? && Canonicalizable(Obj(reduced))
    ensures Utf8(library(Obj(whole)).value) != Utf8(Canon(Obj(reduced)))
  {
    assert !Same(Obj(whole), Obj(reduced));
    DifferentValues(library, Obj(whole), Obj(reduced));
  }

  lemma DifferentValues(library: Library, v: Json, w: Json)
    requires FollowsRfc8785(library) && WellFormed(v) && WellFormed(w) && !Same(v, w)
    requires library(v).Some? && Canonicalizable(w)
    ensures Utf8(library(v).value) != Utf8(Canon(w))
  {
    assert library(w) == Some(Canon(w));
    if Utf8(library(v).value) == Utf8(Canon(w)) {
      Utf8Injective(library(v).value, Canon(w));
    }
  }

  lemma {:induction false} WithoutSwap(fields: seq<Field>)
    ensures Without(Without(fields, [EVENT_ID_KEY]), [PROTO_KEY]) == Without(fields, [EVENT_ID_KEY] + [PROTO_KEY])
  {
    WithoutBoth(fields, EVENT_ID_KEY, PROTO_KEY);
    SameExclusions(fields, [PROTO_KEY] + [EVENT_ID_KEY], [EVENT_ID_KEY] + [PROTO_KEY]);
  }

}
