/** Inputs that generation accepts, whatever wording their inclusion reasons carry. */
module BundleWitness {
  import opened Results
  import opened Sorting
  import opened Text
  import opened Json
  import opened CanonicalIdentity
  import opened Members
  import opened SmallValues
  import opened ProtocolShapes
  import opened StaticBundle
  import opened BundleSemantics
  import opened BundleGuarantees
  import opened SampleDocuments
  import opened SampleBundle

  // ---------------------------------------------------------------- names, roles and references

  lemma RefsDistinct(h: HashFn, reason: Text)
    ensures Map(RefOf, SampleFiles(h, reason)) == SampleRefs() && NoDuplicates(SampleRefs())
    ensures forall k :: 0 <= k < 10 ==> |SampleRefs()[k]| == 16 + k
  {
  }

  lemma PathLengths()
    ensures |INDEX_PATH| == 17 && |STYLES_PATH| == 17 && |SCRIPT_PATH| == 16 && |VERIFY_PATH| == 10
    ensures INDEX_PATH != STYLES_PATH && |SIGNATURE_PATH| == 41 && |SIGNING_INPUT_PATH| == 45
    ensures |SIGNATURE_REF| == 36 && |SIGNING_INPUT_REF| == 40
  {
    assert INDEX_PATH[7] != STYLES_PATH[7];
  }

  lemma PathsApart(j: nat, k: nat)
    requires j < k < 10
    ensures SamplePath(j) != SamplePath(k)
  {
    PathLengths();
  }

  lemma PathsDistinct(h: HashFn, reason: Text)
    ensures NoDuplicates(Map(PathOf, SampleFiles(h, reason)))
  {
    var paths := Map(PathOf, SampleFiles(h, reason));
    forall j, k | 0 <= j < k < 10 ensures paths[j] != paths[k] {
      PathsApart(j, k);
    }
  }

  lemma SampleNames(h: HashFn, reason: Text, learning: Text -> bool, forbidden: Text -> bool)
    ensures NamesAreDistinct(SampleInput(h, reason), PermissiveRules(h, learning, forbidden))
  {
    var rules, files := PermissiveRules(h, learning, forbidden), SampleFiles(h, reason);
    PathsDistinct(h, reason);
    RefsDistinct(h, reason);
    assert Map(NormalPath(rules), files) == Map(PathOf, files);
    Distinct(Map(NormalPath(rules), files));
    Distinct(Map(RefOf, files));
  }

  lemma FileAt(h: HashFn, reason: Text, f: FileInput) returns (k: nat)
    requires f in SampleFiles(h, reason)
    ensures k < 10 && f == SampleFile(h, reason, k)
  {
    k := Position(SampleFiles(h, reason), f);
  }

  lemma FileIn(h: HashFn, reason: Text, k: nat)
    requires k < 10
    ensures SampleFile(h, reason, k) in SampleFiles(h, reason)
  {
    assert SampleFiles(h, reason)[k] == SampleFile(h, reason, k);
  }

  lemma SampleFileIsSafe(h: HashFn, reason: Text, k: nat, rules: Rules)
    requires k < 10 && rules.meaningful == PermissiveRules(h, rules.internalLearning, rules.forbiddenText).meaningful
    ensures FileInputIsSafe(SampleFile(h, reason, k), rules)
  {
    RefShape(k + 3);
    ContentFacts(h, k);
    DigestLength(h, SampleContent(h, k));
  }

  lemma BundleIdShape()
    ensures IsId("static_bundle:", SAMPLE_BUNDLE)
  {
    SlugAbc("static_bundle:");
    assert Lit("static_bundle:") + Lit("abc") == SAMPLE_BUNDLE;
  }

  lemma ReviewIdShape()
    ensures IsId("review:", REVIEW)
  {
    SlugAbc("review:");
    assert Lit("review:") + Lit("abc") == REVIEW;
  }

  lemma ProjectionIdShape()
    ensures IsId("static_portal_projection:", SAMPLE_PROJECTION)
  {
    SlugAbc("static_portal_projection:");
    assert Lit("static_portal_projection:") + Lit("abc") == SAMPLE_PROJECTION;
  }

  lemma SampleIdentities(h: HashFn, reason: Text, learning: Text -> bool, forbidden: Text -> bool)
    ensures RequiredIdentities(SampleInput(h, reason), PermissiveRules(h, learning, forbidden))
  {
    AttestationRefShape(h);
    DigestLength(h, Canon(Obj([])));
    BundleIdShape();
    ReviewIdShape();
    ProjectionIdShape();
  }

  lemma SlugAbc(prefix: string)
    ensures IsId(prefix, Lit(prefix) + Lit("abc"))
  {
    assert (Lit(prefix) + Lit("abc"))[|prefix|..] == Lit("abc");
  }

  lemma ThreeLengthsApart(a: Text, b: Text, c: Text)
    requires |a| != |b| && |a| != |c| && |b| != |c|
    ensures AllDistinct([a, b, c])
  {
    Distinct([a, b, c]);
  }

  lemma ThreeRefsAreSafe(r: Representation)
    requires r.payloadRefs == [] && IsPrefixedSha256(r.evidenceBundleId)
    requires IsArtifactRef(r.bundleManifestRef) && IsArtifactRef(r.signatureRef) && IsArtifactRef(r.identityRef)
    requires |r.bundleManifestRef| != |r.signatureRef| && |r.bundleManifestRef| != |r.identityRef| &&
      |r.signatureRef| != |r.identityRef|
    ensures RepresentationIsSafe(r)
  {
    assert RequiredRefs(r) == [r.bundleManifestRef, r.signatureRef, r.identityRef];
    ThreeLengthsApart(r.bundleManifestRef, r.signatureRef, r.identityRef);
  }

  lemma SampleRepresentationIsSafe(h: HashFn)
    ensures RepresentationIsSafe(SampleRepresentation(h))
  {
    DigestLength(h, Canon(Obj([])));
    RefShape(10);
    RefShape(11);
    RefShape(12);
    ThreeRefsAreSafe(SampleRepresentation(h));
  }

  lemma SampleFilesPermitted(h: HashFn, reason: Text, learning: Text -> bool, forbidden: Text -> bool)
    ensures FilesArePermitted(SampleInput(h, reason), PermissiveRules(h, learning, forbidden))
  {
    forall f | f in SampleFiles(h, reason)
      ensures FileRefusal(f, SampleInput(h, reason), PermissiveRules(h, learning, forbidden)).None?
    {
      var k := FileAt(h, reason, f);
    }
  }

  lemma SampleRoles(h: HashFn, reason: Text)
    ensures forall role :: role in REQUIRED_ROLES ==> role in Map(RoleOf, SampleFiles(h, reason))
  {
    var roles := Map(RoleOf, SampleFiles(h, reason));
    forall role | role in REQUIRED_ROLES ensures role in roles {
      var k := RolePlace(role);
      assert roles[k] == role;
    }
  }

  function RolePlace(role: Role): (k: nat)
    requires role in REQUIRED_ROLES
    ensures k < 10 && SampleRole(k) == role
  {
    match role
    case Portal => 0
    case PortalAsset => 1
    case VerificationFile => 3
    case Attestation => 4
    case VendorReceipt => 5
    case BundleRepresentation => 6
  }

  lemma SamplePortal(h: HashFn, reason: Text)
    ensures PortalIsComplete(SampleInput(h, reason))
  {
    SampleRoles(h, reason);
    FileIn(h, reason, 0);
    FileIn(h, reason, 1);
    FileIn(h, reason, 2);
    FileIn(h, reason, 3);
  }

  lemma SampleAttachments(h: HashFn, reason: Text)
    ensures NoOuterAttachment(SampleInput(h, reason))
  {
    PathLengths();
    forall f | f in SampleFiles(h, reason) ensures !IsOuterAttachment(f, SampleHeader(h).metadata) {
      var k := FileAt(h, reason, f);
      NameLengths(h, reason, k);
      ShortNamesAreInner(f, SampleHeader(h).metadata);
    }
  }

  lemma NameLengths(h: HashFn, reason: Text, k: nat)
    requires k < 10
    ensures |SampleFile(h, reason, k).file.artifactRef| == 16 + k && |SampleFile(h, reason, k).file.relativePath| <= 17
  {
    PathLengths();
  }

  lemma ShortNamesAreInner(f: FileInput, m: Metadata)
    requires |f.file.relativePath| <= 17 && |SIGNATURE_PATH| > 17 && |SIGNING_INPUT_PATH| > 17
    requires |f.file.artifactRef| < |m.manifestSignatureRef| && |f.file.artifactRef| < |m.signingInputRef|
    ensures !IsOuterAttachment(f, m)
  {
  }

  /** The three references resolve, if each is the reference of one file and no payload is approved. */
  lemma ThreeRefsResolve(i: GenerationInput, r: Representation)
    requires i.header.representation == r && r.payloadRefs == []
    requires RefOnce(i.files, r.bundleManifestRef) && RefOnce(i.files, r.signatureRef) &&
      RefOnce(i.files, r.identityRef)
    ensures PayloadRefsResolve(i)
  {
    assert RequiredRefs(r) == [r.bundleManifestRef, r.signatureRef, r.identityRef];
  }

  predicate RefOnce(files: seq<FileInput>, ref: Text) {
    multiset(Map(RefOf, files))[ref] == 1
  }

  lemma SampleRefOnce(h: HashFn, reason: Text, k: nat)
    requires k < 10
    ensures RefOnce(SampleFiles(h, reason), Ref(k + 3))
  {
    RefsDistinct(h, reason);
    var refs := SampleRefs();
    OnceEach(refs, refs[k]);
    assert refs[k] in refs;
  }

  lemma SampleRefsResolve(h: HashFn, reason: Text)
    ensures PayloadRefsResolve(SampleInput(h, reason))
  {
    SampleRefOnce(h, reason, 7);
    SampleRefOnce(h, reason, 8);
    SampleRefOnce(h, reason, 9);
    ThreeRefsResolve(SampleInput(h, reason), SampleRepresentation(h));
  }

  lemma SampleMinimization(h: HashFn, reason: Text, learning: Text -> bool, forbidden: Text -> bool)
    ensures MinimizationIsSafe(SampleHeader(h).minimization, PermissiveRules(h, learning, forbidden)) &&
      FilesAreCovered(SampleInput(h, reason))
  {
    RefsDistinct(h, reason);
    var m := SampleHeader(h).minimization;
    Distinct(SampleRefs());
    Distinct<Text>([]);
    assert Dispositions(m) == SampleRefs();
    forall f | f in SampleFiles(h, reason) ensures f.file.artifactRef in SampleRefs() {
      var k := FileAt(h, reason, f);
      assert SampleRefs()[k] == Ref(k + 3);
    }
  }

  // ---------------------------------------------------------------- the contents match

  lemma TextMatches(f: FileInput, hd: Header, rules: Rules)
    requires !rules.forbiddenContent(f.content) && f.file.sourceClass == RetainedReviewArtifact &&
      !rules.remoteChannel(f.content)
    requires Lit("text/") <= f.file.mediaType && rules.namesProcedure(f.content)
    requires f.file.relativePath == VERIFY_PATH || f.file.role == Portal || f.file.role == PortalAsset
    ensures FileContentMatchesRole(f, hd, rules).Matches?
  {
  }

  lemma PortalFileMatches(h: HashFn, reason: Text, k: nat, learning: Text -> bool, forbidden: Text -> bool)
    requires k < 4
    ensures FileContentMatchesRole(SampleFile(h, reason, k), SampleHeader(h),
                                   PermissiveRules(h, learning, forbidden)).Matches?
  {
    HtmlIsText();
    TextMatches(SampleFile(h, reason, k), SampleHeader(h), PermissiveRules(h, learning, forbidden));
  }

  lemma HtmlIsText()
    ensures Lit("text/") <= HTML
  {
    assert HTML[..5] == Lit("text/");
  }

  /** A document's verdict is that of its role. */
  lemma DocumentJudged(f: FileInput, parsed: Json, hd: Header, rules: Rules)
    requires !rules.forbiddenContent(f.content) && f.file.sourceClass == RetainedReviewArtifact &&
      f.file.mediaType == Lit("application/json")
    requires f.file.relativePath != VERIFY_PATH && f.file.role != Portal && f.file.role != PortalAsset
    requires rules.parseJson(f.content) == Some(parsed) && Canonicalizable(parsed) && Canon(parsed) == f.content
    requires DocumentMatchesRole(f.file, parsed, hd, rules).Matches?
    ensures FileContentMatchesRole(f, hd, rules).Matches?
  {
  }

  /** The document is the one that the file's role asks for. */
  predicate Suits(h: HashFn, file: ManifestFile, parsed: Json) {
    || (file.role == Attestation && parsed == Doc(h, 2))
    || (file.role == VendorReceipt && parsed == Doc(h, 4))
    || (file.role == BundleRepresentation && parsed == Doc(h, 5))
    || (file.role == SupportingEvidence && file.artifactRef == Ref(10) && parsed == Doc(h, 1))
    || (file.role == SupportingEvidence && (file.artifactRef == Ref(11) || file.artifactRef == Ref(12)) &&
        parsed == Doc(h, 4))
  }

  lemma DocumentShape(k: nat, f: ManifestFile)
    requires 4 <= k < 10 && f.relativePath == SamplePath(k) && f.role == SampleRole(k) && f.mediaType == JSON_TYPE
    ensures f.mediaType == Lit("application/json")
    ensures f.relativePath != VERIFY_PATH && f.role != Portal && f.role != PortalAsset
  {
    PathLengths();
  }

  lemma ParsedDoc(h: HashFn, n: nat, content: Text)
    requires IsDoc(n) && content == Canon(Doc(h, n))
    ensures ParseDoc(h, content) == Some(Doc(h, n)) && Canonicalizable(Doc(h, n))
  {
    DocFacts(h, n);
    ParsesDoc(h, n);
  }

  lemma DocumentSuits(h: HashFn, k: nat, f: ManifestFile)
    requires 4 <= k < 10 && f.role == SampleRole(k) && f.artifactRef == Ref(k + 3)
    ensures Suits(h, f, Doc(h, DocOf(k)))
  {
  }

  lemma DocumentOf(h: HashFn, k: nat, f: FileInput) returns (parsed: Json)
    requires 4 <= k < 10 && f.content == Canon(Doc(h, DocOf(k)))
    requires f.file.relativePath == SamplePath(k) && f.file.role == SampleRole(k) && f.file.mediaType == JSON_TYPE &&
      f.file.artifactRef == Ref(k + 3)
    ensures f.file.mediaType == Lit("application/json")
    ensures f.file.relativePath != VERIFY_PATH && f.file.role != Portal && f.file.role != PortalAsset
    ensures ParseDoc(h, f.content) == Some(parsed) && Canonicalizable(parsed) && Canon(parsed) == f.content
    ensures Suits(h, f.file, parsed)
  {
    DocumentShape(k, f.file);
    ParsedDoc(h, DocOf(k), f.content);
    DocumentSuits(h, k, f.file);
    parsed := Doc(h, DocOf(k));
  }

  lemma AssignedWithoutFirst(key: Text, value: Json, rest: seq<Field>)
    requires |key| != |PROTO_KEY| && (forall f :: f in rest ==> f.key != key && f.key != PROTO_KEY)
    ensures Assigned([Field(key, value)] + rest, [key]) == rest && !ReplacesPrototype([Field(key, value)] + rest, [key])
  {
    var fields := [Field(key, value)] + rest;
    DropFirst(Field(key, value), rest, [key] + [PROTO_KEY]);
    assert forall f :: f in fields ==> f.key != PROTO_KEY;
  }

  lemma IdentityWithoutFirst(h: HashFn, key: Text, value: Json, rest: seq<Field>)
    requires |key| != |PROTO_KEY| && (forall f :: f in rest ==> f.key != key && f.key != PROTO_KEY)
    requires Canonicalizable(Obj(rest))
    ensures ExcludedFieldsIdentity(h, Obj([Field(key, value)] + rest), [key], None) ==
      Ok(Some(Sha256ProtocolText(h, Canon(Obj(rest)))))
    ensures ExcludedFieldsIdentity(h, Obj([Field(key, value)] + rest), [key], Some(Lit("attestation")))
      == Ok(Some(Lit("attestation") + [COLON] + Sha256ProtocolText(h, Canon(Obj(rest)))[|Lit("sha256:")|..]))
  {
    LookupCons(Field(key, value), rest, key);
    AssignedWithoutFirst(key, value, rest);
  }

  lemma AttestationIdentity(h: HashFn)
    ensures ExcludedFieldsIdentity(h, Doc(h, 2), [Lit("attestation_id")], Some(Lit("attestation"))) ==
      Ok(Some(AttestationRef(h)))
  {
    ReviewFieldCanonicalizes();
    ReviewKeyApart();
    assert AttestationFields(h) == [Field(Lit("attestation_id"), Str(AttestationRef(h)))] + [ReviewField()];
    IdentityWithoutFirst(h, Lit("attestation_id"), Str(AttestationRef(h)), [ReviewField()]);
  }

  lemma ReviewKeyApart()
    ensures |Lit("attestation_id")| == 14 && |ReviewField().key| == 9 && |PROTO_KEY| == 9 &&
      ReviewField().key != PROTO_KEY
  {
    assert ReviewField().key[0] != PROTO_KEY[0];
  }

  lemma ReviewFieldCanonicalizes()
    ensures Canonicalizable(Obj([ReviewField()]))
  {
    LitsPaired();
    SimpleText("review_id", REVIEW);
    ObjectWithin([ReviewField()], 1, 0);
  }

  lemma AttestationMatches(h: HashFn, file: ManifestFile, learning: Text -> bool, forbidden: Text -> bool)
    requires file.role == Attestation
    ensures DocumentMatchesRole(file, Doc(h, 2), SampleHeader(h), PermissiveRules(h, learning, forbidden)).Matches?
  {
    AttestationIdentity(h);
    ReviewKeyApart();
    assert AttestationFields(h) == [Field(Lit("attestation_id"), Str(AttestationRef(h)))] + ([ReviewField()] + []);
    LookupCons(Field(Lit("attestation_id"), Str(AttestationRef(h))), [ReviewField()] + [], Lit("attestation_id"));
    LookupCons(Field(Lit("attestation_id"), Str(AttestationRef(h))), [ReviewField()] + [], Lit("review_id"));
    LookupCons(ReviewField(), [], Lit("review_id"));
  }

  lemma ManifestDocMatches(h: HashFn, file: ManifestFile, learning: Text -> bool, forbidden: Text -> bool)
    requires file.role == SupportingEvidence && file.artifactRef == Ref(10)
    ensures DocumentMatchesRole(file, Doc(h, 1), SampleHeader(h), PermissiveRules(h, learning, forbidden)).Matches?
  {
    assert Canonicalizable(Obj([]));
    assert ManifestDocFields(h) == [Field(Lit("evidence_bundle_id"), Str(BundleId(h)))] + [];
    assert |Lit("evidence_bundle_id")| == 18 && |PROTO_KEY| == 9;
    IdentityWithoutFirst(h, Lit("evidence_bundle_id"), Str(BundleId(h)), []);
  }

  lemma CommonLookups(h: HashFn)
    ensures Lookup(CommonFields(h), Lit("vendor_receipt_id")) == Some(Str(BundleId(h)))
    ensures Lookup(CommonFields(h), Lit("signing_input_type")) == Some(Str(INPUT_TYPE))
    ensures Lookup(CommonFields(h), Lit("signed_identity_type")) == Some(Str(BUNDLE_TYPE))
    ensures Lookup(CommonFields(h), Lit("signed_identity")) == Some(Str(BundleId(h)))
  {
    CommonShape(h);
    var f := CommonFields(h);
    LookupFour(f[0], f[1], f[2], f[3]);
  }

  lemma CommonDocMatches(h: HashFn, file: ManifestFile, learning: Text -> bool, forbidden: Text -> bool)
    requires file.role == VendorReceipt ||
      (file.role == SupportingEvidence && (file.artifactRef == Ref(11) || file.artifactRef == Ref(12)))
    ensures DocumentMatchesRole(file, Doc(h, 4), SampleHeader(h), PermissiveRules(h, learning, forbidden)).Matches?
  {
    CommonLookups(h);
    assert |Ref(10)| == 23 && |Ref(11)| == 24 && |Ref(12)| == 25;
  }

  lemma SuitsMatches(h: HashFn, file: ManifestFile, parsed: Json, hd: Header, rules: Rules, learning: Text -> bool,
                     forbidden: Text -> bool)
    requires Suits(h, file, parsed) && hd == SampleHeader(h) && rules == PermissiveRules(h, learning, forbidden)
    ensures DocumentMatchesRole(file, parsed, hd, rules).Matches?
  {
    if file.role == Attestation {
      AttestationMatches(h, file, learning, forbidden);
    } else if file.role == BundleRepresentation {
      RepresentationMatches(file, parsed, hd, rules);
    } else if file.role == SupportingEvidence && file.artifactRef == Ref(10) && parsed == Doc(h, 1) {
      ManifestDocMatches(h, file, learning, forbidden);
    } else {
      CommonDocMatches(h, file, learning, forbidden);
    }
  }

  lemma RepresentationMatches(file: ManifestFile, parsed: Json, hd: Header, rules: Rules)
    requires file.role == BundleRepresentation && parsed == RepresentationJson(hd.representation)
    ensures DocumentMatchesRole(file, parsed, hd, rules).Matches?
  {
  }

  lemma DocumentFileMatches(h: HashFn, f: FileInput, parsed: Json, hd: Header, rules: Rules, learning: Text -> bool,
                            forbidden: Text -> bool)
    requires f.file.sourceClass == RetainedReviewArtifact && f.file.mediaType == Lit("application/json")
    requires f.file.relativePath != VERIFY_PATH && f.file.role != Portal && f.file.role != PortalAsset
    requires ParseDoc(h, f.content) == Some(parsed) && Canonicalizable(parsed) && Canon(parsed) == f.content
    requires hd == SampleHeader(h) && rules == PermissiveRules(h, learning, forbidden) && Suits(h, f.file, parsed)
    ensures FileContentMatchesRole(f, hd, rules).Matches?
  {
    SuitsMatches(h, f.file, parsed, hd, rules, learning, forbidden);
    assert rules.parseJson(f.content) == Some(parsed);
    DocumentJudged(f, parsed, hd, rules);
  }

  lemma SampleContentsMatch(h: HashFn, reason: Text, learning: Text -> bool, forbidden: Text -> bool)
    ensures ContentsMatch(SampleInput(h, reason), PermissiveRules(h, learning, forbidden))
  {
    forall f | f in SampleFiles(h, reason)
      ensures FileContentMatchesRole(f, SampleHeader(h), PermissiveRules(h, learning, forbidden)).Matches?
    {
      SampleFileMatches(h, reason, f, learning, forbidden);
    }
  }

  lemma SampleFileMatches(h: HashFn, reason: Text, f: FileInput, learning: Text -> bool, forbidden: Text -> bool)
    requires f in SampleFiles(h, reason)
    ensures FileContentMatchesRole(f, SampleHeader(h), PermissiveRules(h, learning, forbidden)).Matches?
  {
    var k := FileAt(h, reason, f);
    if k < 4 {
      PortalFileMatches(h, reason, k, learning, forbidden);
    } else {
      var parsed := DocumentOf(h, k, f);
      DocumentFileMatches(h, f, parsed, SampleHeader(h), PermissiveRules(h, learning, forbidden), learning, forbidden);
    }
  }

  // ---------------------------------------------------------------- the main result

  lemma SampleIsBound(h: HashFn, reason: Text, learning: Text -> bool, forbidden: Text -> bool)
    requires Paired(reason)
    ensures IdentitiesAreBound(SampleInput(h, reason), PermissiveRules(h, learning, forbidden))
  {
    var i, rules := SampleInput(h, reason), PermissiveRules(h, learning, forbidden);
    SampleStrictJson(h, reason);
    SampleIdentities(h, reason, learning, forbidden);
    SampleRepresentationIsSafe(h);
    SampleNames(h, reason, learning, forbidden);
    forall f | f in i.files ensures FileInputIsSafe(f, rules) {
      var k := FileAt(h, reason, f);
      SampleFileIsSafe(h, reason, k, rules);
    }
  }

  lemma SampleIsComplete(h: HashFn, reason: Text, learning: Text -> bool, forbidden: Text -> bool)
    ensures FilesAreComplete(SampleInput(h, reason), PermissiveRules(h, learning, forbidden))
  {
    SamplePortal(h, reason);
    SampleAttachments(h, reason);
    SampleRefsResolve(h, reason);
    SampleMinimization(h, reason, learning, forbidden);
  }

  lemma SampleIsSettled(h: HashFn, reason: Text, learning: Text -> bool, forbidden: Text -> bool)
    ensures DeletionsAreSettled(SampleInput(h, reason), PermissiveRules(h, learning, forbidden))
  {
    Distinct(Map(EvidenceIdOf, []));
  }

  lemma SampleIsAcceptable(h: HashFn, reason: Text, learning: Text -> bool, forbidden: Text -> bool)
    requires Paired(reason)
    ensures Acceptable(SampleInput(h, reason), PermissiveRules(h, learning, forbidden))
  {
    SampleIsBound(h, reason, learning, forbidden);
    SampleFilesPermitted(h, reason, learning, forbidden);
    SampleIsComplete(h, reason, learning, forbidden);
    SampleContentsMatch(h, reason, learning, forbidden);
    SampleIsSettled(h, reason, learning, forbidden);
  }

  /** For every wording that an inclusion reason can carry there is an accepted input that carries it,
      so the producer screens neither internal-learning references nor forbidden text: whatever the
      checker looks for in a reason, it can find it in a manifest that was prepared. */
  lemma ReasonsAreNotScreened(h: HashFn, reason: Text, learning: Text -> bool, forbidden: Text -> bool)
    requires Paired(reason)
    ensures var i, rules := SampleInput(h, reason), PermissiveRules(h, learning, forbidden);
      && Acceptable(i, rules)
      && (forbidden(reason) ==> InputHasForbiddenText(i, rules))
      && (learning(INDEX_PATH + [32] + reason) ==> InputMentionsLearning(i, rules))
  {
    SampleIsAcceptable(h, reason, learning, forbidden);
    SampleWording(h, reason, learning, forbidden);
  }

  lemma SampleWording(h: HashFn, reason: Text, learning: Text -> bool, forbidden: Text -> bool)
    ensures var i, rules := SampleInput(h, reason), PermissiveRules(h, learning, forbidden);
      && (forbidden(reason) ==> InputHasForbiddenText(i, rules))
      && (learning(INDEX_PATH + [32] + reason) ==> InputMentionsLearning(i, rules))
  {
    var f := SampleFile(h, reason, 0);
    FileIn(h, reason, 0);
    assert f.file.inclusionReason == reason && LearningText(f.file) == INDEX_PATH + [32] + reason;
  }
}
