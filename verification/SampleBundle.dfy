/** A sample generation input, whose files all carry one inclusion reason, and that it canonicalizes. */
module SampleBundle {
  import opened SafeIntegers
  import opened Sorting
  import opened Text
  import opened Json
  import opened CanonicalIdentity
  import opened SmallValues
  import opened ProtocolShapes
  import opened StaticBundle
  import opened SampleDocuments

  // ---------------------------------------------------------------- the input

  const SAMPLE_BUNDLE: Text := Lit("static_bundle:abc")
  const SAMPLE_PROJECTION: Text := Lit("static_portal_projection:abc")
  const HTML: Text := Lit("text/html")
  const JSON_TYPE: Text := Lit("application/json")
  const CREATED_AT: Text := Lit("2026-01-01T00:00:00Z")
  const VENDOR: Text := Lit("vendor_service")
  const NAME: Text := Lit("abc")

  /** All that the model leaves open is permissive; which wording the checker looks for is arbitrary. */
  function PermissiveRules(h: HashFn, learning: Text -> bool, forbidden: Text -> bool): Rules {
    Rules(h, (t: Text) => true, (t: Text) => true, (t: Text) => true, (t: Text) => t, (t: Text) => t,
          (v: Json) => true, (v: Json) => false, (a: Json, b: Json) => true, (d: seq<Field>) => true,
          (t: Text) => false, (t: Text) => false, (t: Text) => true, (t: Text) => ParseDoc(h, t),
          (s: Schema, v: Json) => true, (v: Json) => true, (v: Json) => true, learning, forbidden)
  }

  /** Four portal files and six documents. */
  function SampleRole(k: nat): Role {
    match k
    case 0 => Portal
    case 1 => PortalAsset
    case 2 => PortalAsset
    case 3 => VerificationFile
    case 4 => Attestation
    case 5 => VendorReceipt
    case 6 => BundleRepresentation
    case _ => SupportingEvidence
  }

  /** The documents' paths differ in length, from each other and from the four fixed paths. */
  function SamplePath(k: nat): Text {
    match k
    case 0 => INDEX_PATH
    case 1 => STYLES_PATH
    case 2 => SCRIPT_PATH
    case 3 => VERIFY_PATH
    case _ => seq(k, i => 97)
  }

  function DocOf(k: nat): nat {
    match k
    case 4 => 2
    case 6 => 5
    case 7 => 1
    case _ => 4
  }

  function SampleContent(h: HashFn, k: nat): Text {
    if k < 4 then [120] else Canon(Doc(h, DocOf(k)))
  }

  function SampleFile(h: HashFn, reason: Text, k: nat): FileInput {
    var content := SampleContent(h, k);
    FileInput(ManifestFile(SamplePath(k), Ref(k + 3), if k < 4 then HTML else JSON_TYPE, Sha256ProtocolText(h, content),
                           |Utf8(content)|,
                           SampleRole(k), RetainedReviewArtifact, reason), true, content)
  }

  function SampleFiles(h: HashFn, reason: Text): (files: seq<FileInput>)
    ensures |files| == 10 && forall k :: 0 <= k < 10 ==> files[k] == SampleFile(h, reason, k)
  {
    seq(10, k requires 0 <= k < 10 => SampleFile(h, reason, k))
  }

  function SampleRefs(): (refs: seq<Text>)
    ensures |refs| == 10 && forall k :: 0 <= k < 10 ==> refs[k] == Ref(k + 3)
  {
    seq(10, k requires 0 <= k < 10 => Ref(k + 3))
  }

  function SampleHeader(h: HashFn): Header {
    Header(PROTOCOL_VERSION, SAMPLE_BUNDLE, 1, REVIEW, CREATED_AT, AttestationRef(h), BundleId(h),
           SampleRepresentation(h), SAMPLE_PROJECTION,
           Minimization(SampleRefs(), [], [], []), Metadata(SIGNATURE_REF, SIGNING_INPUT_REF, VERIFY_PATH, true, true))
  }

  /** An input whose files all carry `reason`. */
  function SampleInput(h: HashFn, reason: Text): GenerationInput {
    GenerationInput(SampleHeader(h), SampleFiles(h, reason), [], VENDOR, NAME, 0, NAME, NAME, [], Null, Null)
  }

  lemma ContentFacts(h: HashFn, k: nat)
    requires k < 10
    ensures |SampleContent(h, k)| <= 20_000 && Paired(SampleContent(h, k))
    ensures IsSafeInteger(|Utf8(SampleContent(h, k))|)
  {
    if k < 4 {
      PairedPlain([120]);
    } else {
      DocFacts(h, DocOf(k));
    }
    Utf8Length(SampleContent(h, k));
  }

  // ---------------------------------------------------------------- the input canonicalizes

  lemma RoleText(role: Role)
    ensures Paired(RoleName(role))
  {
    LitsPaired();
  }

  lemma {:induction false} RunPaired(n: nat)
    ensures Paired(seq(n, i => 97 as unit))
  {
    PairedPlain(seq(n, i => 97 as unit));
  }

  lemma SamplePathPaired(k: nat)
    requires k < 10
    ensures Paired(SamplePath(k))
  {
    LitsPaired();
    RunPaired(k);
  }

  function FirstOfFile(f: ManifestFile): seq<Field> {
    [Named("relative_path", Str(f.relativePath)), Named("artifact_ref", Str(f.artifactRef)),
     Named("media_type", Str(f.mediaType)), Named("digest", Str(f.digest))]
  }

  function LastOfFile(f: ManifestFile): seq<Field> {
    [Named("size_bytes", Num(f.sizeBytes)), Named("artifact_role", Str(RoleName(f.role))),
     Named("source_derived_class", Str(ClassName(f.sourceClass))),
     Named("inclusion_reason", Str(f.inclusionReason))]
  }

  lemma FileInTwo(f: ManifestFile)
    ensures FileFields(f) == FirstOfFile(f) + LastOfFile(f)
  {
  }

  lemma FirstFileFields(f: ManifestFile)
    requires Paired(f.relativePath) && Paired(f.artifactRef) && Paired(f.mediaType) && Paired(f.digest)
    ensures AllWithin(FirstOfFile(f), 1, 0)
  {
    TextsWithin(f.relativePath, f.artifactRef);
    TextsWithin(f.mediaType, f.digest);
    FourFields("relative_path", Str(f.relativePath), "artifact_ref", Str(f.artifactRef), "media_type", Str(f.mediaType),
               "digest", Str(f.digest), 1, 0);
  }

  lemma LastFileFields(f: ManifestFile)
    requires IsSafeInteger(f.sizeBytes) && Paired(RoleName(f.role)) && Paired(ClassName(f.sourceClass)) &&
      Paired(f.inclusionReason)
    ensures AllWithin(LastOfFile(f), 1, 0)
  {
    TextsWithin(RoleName(f.role), ClassName(f.sourceClass));
    TextsWithin(f.inclusionReason, f.inclusionReason);
    FourFields("size_bytes", Num(f.sizeBytes), "artifact_role", Str(RoleName(f.role)), "source_derived_class",
               Str(ClassName(f.sourceClass)),
               "inclusion_reason", Str(f.inclusionReason), 1, 0);
  }

  lemma ContentFields(content: Text)
    requires Paired(content)
    ensures AllWithin([Named("export_approved", Bool(true)), Named("content", Str(content))], 1, 0)
  {
    TextsWithin(content, content);
    TwoFields("export_approved", Bool(true), "content", Str(content), 1, 0);
  }

  lemma MediaTypes()
    ensures Paired(HTML) && Paired(JSON_TYPE) && Paired(ClassName(RetainedReviewArtifact))
  {
    LitPaired("text/html");
    LitPaired("application/json");
    LitPaired("retained_review_artifact");
  }

  lemma FileTexts(h: HashFn, reason: Text, k: nat)
    requires k < 10
    ensures var f := SampleFile(h, reason, k).file;
      && Paired(f.relativePath) && Paired(f.artifactRef) && Paired(f.mediaType) && Paired(f.digest)
      && IsSafeInteger(f.sizeBytes) && Paired(RoleName(f.role)) && Paired(ClassName(f.sourceClass))
  {
    ContentFacts(h, k);
    DigestLength(h, SampleContent(h, k));
    RefShape(k + 3);
    SamplePathPaired(k);
    MediaTypes();
    RoleText(SampleRole(k));
  }

  lemma SampleFileFields(h: HashFn, reason: Text, k: nat)
    requires k < 10 && Paired(reason)
    ensures AllWithin(FileFields(SampleFile(h, reason, k).file), 1, 0)
    ensures |FileFields(SampleFile(h, reason, k).file)| == 8
  {
    var f := SampleFile(h, reason, k).file;
    FileTexts(h, reason, k);
    FirstFileFields(f);
    LastFileFields(f);
    FileInTwo(f);
    AllConcat(FirstOfFile(f), LastOfFile(f), 1, 0);
  }

  lemma SampleFileWithin(h: HashFn, reason: Text, k: nat)
    requires k < 10 && Paired(reason)
    ensures Within(FileInputJson(SampleFile(h, reason, k)), 21, 1)
  {
    var f := SampleFile(h, reason, k);
    var more := [Named("export_approved", Bool(true)), Named("content", Str(f.content))];
    ContentFacts(h, k);
    SampleFileFields(h, reason, k);
    ContentFields(f.content);
    AllConcat(FileFields(f.file), more, 1, 0);
    ObjectWithin(FileFields(f.file) + more, 1, 0);
  }

  lemma SampleFilesWithin(h: HashFn, reason: Text)
    requires Paired(reason)
    ensures Within(Arr(Map(FileInputJson, SampleFiles(h, reason))), 211, 2)
  {
    var items := Map(FileInputJson, SampleFiles(h, reason));
    forall v | v in items ensures Within(v, 21, 1) {
      var k := Position(items, v);
      SampleFileWithin(h, reason, k);
    }
    ArrayWithin(items, 21, 1);
  }

  lemma SampleMetadataWithin(m: Metadata)
    requires Paired(m.manifestSignatureRef) && Paired(m.signingInputRef) && Paired(m.instructionsPath)
    ensures Within(Obj(MetadataFields(m)), 11, 1)
  {
    TextsWithin(m.manifestSignatureRef, m.signingInputRef);
    TextsWithin(m.instructionsPath, m.instructionsPath);
    FourFields("signing_input_ref", Str(m.signingInputRef), "verification_instructions_path", Str(m.instructionsPath),
               "offline_verification_supported", Bool(m.offline), "all_file_digests_verified",
               Bool(m.digestsVerified), 1, 0);
    FieldAnd("manifest_signature_ref", Str(m.manifestSignatureRef), MetadataFields(m)[1..], 1, 0);
    assert MetadataFields(m) == [MetadataFields(m)[0]] + MetadataFields(m)[1..];
    ObjectWithin(MetadataFields(m), 1, 0);
  }

  lemma FirstPlainFields(hd: Header)
    requires Paired(hd.protocolVersion) && Paired(hd.staticBundleId) && hd.manifestVersion == 1 && Paired(hd.reviewId)
    ensures AllWithin(PlainFields(hd)[..4], 11, 1)
  {
    TextsWithin(hd.protocolVersion, hd.staticBundleId);
    TextsWithin(hd.reviewId, hd.reviewId);
    FourFields("protocol_version", Str(hd.protocolVersion), "static_bundle_id", Str(hd.staticBundleId),
               "manifest_version", Num(hd.manifestVersion), "review_id", Str(hd.reviewId), 11, 1);
  }

  lemma LastPlainFields(hd: Header)
    requires Paired(hd.createdAt) && Paired(hd.attestationRef) && Paired(hd.vendorReceiptRef) &&
      Paired(hd.portalProjectionRef)
    ensures AllWithin(PlainFields(hd)[4..8], 11, 1)
  {
    TextsWithin(hd.createdAt, hd.attestationRef);
    TextsWithin(hd.vendorReceiptRef, hd.portalProjectionRef);
    FourFields("created_at", Str(hd.createdAt), "attestation_ref", Str(hd.attestationRef),
               "vendor_receipt_ref", Str(hd.vendorReceiptRef),
               "portal_projection_ref", Str(hd.portalProjectionRef), 11, 1);
  }

  lemma MetadataField(m: Metadata)
    requires Paired(m.manifestSignatureRef) && Paired(m.signingInputRef) && Paired(m.instructionsPath)
    ensures AllWithin([Named("verification_metadata", Obj(MetadataFields(m)))], 11, 1)
  {
    SampleMetadataWithin(m);
    FieldAnd("verification_metadata", Obj(MetadataFields(m)), [], 11, 1);
  }

  lemma PlainWithin(hd: Header)
    requires AllWithin(PlainFields(hd)[..4], 11, 1) && AllWithin(PlainFields(hd)[4..8], 11, 1)
    requires AllWithin([Named("verification_metadata", Obj(MetadataFields(hd.metadata)))], 11, 1)
    ensures AllWithin(PlainFields(hd), 11, 1) && |PlainFields(hd)| == 9
  {
    var all, last := PlainFields(hd), [Named("verification_metadata", Obj(MetadataFields(hd.metadata)))];
    AllConcat(all[..4], all[4..8], 11, 1);
    AllConcat(all[..4] + all[4..8], last, 11, 1);
    assert all == all[..4] + all[4..8] + last;
  }

  lemma SampleTexts()
    ensures Paired(PROTOCOL_VERSION) && Paired(SAMPLE_BUNDLE) && Paired(CREATED_AT) && Paired(SAMPLE_PROJECTION)
  {
    LitPaired("codeattest.v0");
    LitPaired("static_bundle:abc");
    LitPaired("2026-01-01T00:00:00Z");
    LitPaired("static_portal_projection:abc");
  }

  lemma AttachmentTexts()
    ensures Paired(SIGNATURE_REF) && Paired(SIGNING_INPUT_REF) && Paired(VERIFY_PATH)
  {
    LitPaired("artifact_ref:static_bundle_signature");
    LitPaired("artifact_ref:static_bundle_signing_input");
    LitPaired("VERIFY.txt");
  }

  lemma SamplePlainWithin(h: HashFn)
    ensures AllWithin(PlainFields(SampleHeader(h)), 11, 1) && |PlainFields(SampleHeader(h))| == 9
  {
    SampleTexts();
    AttachmentTexts();
    AttestationRefShape(h);
    FixedTexts(h);
    FirstPlainFields(SampleHeader(h));
    LastPlainFields(SampleHeader(h));
    MetadataField(SampleHeader(h).metadata);
    PlainWithin(SampleHeader(h));
  }

  lemma SampleRefsWithin()
    ensures Within(Texts(SampleRefs()), 11, 1)
  {
    var items := Map(TextJson, SampleRefs());
    forall v | v in items ensures Within(v, 1, 0) {
      RefShape(Position(items, v) + 3);
    }
    ArrayWithin(items, 1, 0);
  }

  lemma SampleMinimizationWithin(h: HashFn)
    ensures Within(MinimizationJson(SampleHeader(h).minimization), 49, 2)
  {
    var none := Texts([]);
    SampleRefsWithin();
    assert Map(TextJson, []) == [];
    FourFields("included_retained_refs", Texts(SampleRefs()), "excluded_refs", none, "deleted_refs", none,
               "never_collected_refs", none, 11, 1);
    ObjectWithin(MinimizationFields(SampleHeader(h).minimization), 11, 1);
  }

  lemma SampleRepresentationWithin(h: HashFn)
    ensures Within(RepresentationJson(SampleRepresentation(h)), 11, 1)
  {
    RepresentationShape(h);
    ObjectWithin(RepresentationFields(SampleRepresentation(h)), 1, 0);
  }

  lemma HeaderWithin(hd: Header)
    requires AllWithin(PlainFields(hd), 11, 1) && |PlainFields(hd)| == 9
    requires Within(RepresentationJson(hd.representation), 211, 2) && Within(MinimizationJson(hd.minimization), 211, 2)
    ensures AllWithin(HeaderFields(hd), 211, 2) && |HeaderFields(hd)| == 11
  {
    var plain, r, m := PlainFields(hd), RepresentationJson(hd.representation), MinimizationJson(hd.minimization);
    LitField("evidence_bundle_representation", r, 211, 2);
    LitField("minimization_disposition", m, 211, 2);
    AllGrow(plain, 11, 1, 211, 2);
    AllConcat(plain, [Named("evidence_bundle_representation", r)], 211, 2);
    AllConcat(plain + [Named("evidence_bundle_representation", r)], [Named("minimization_disposition", m)], 211, 2);
  }

  lemma SampleHeaderWithin(h: HashFn)
    ensures AllWithin(HeaderFields(SampleHeader(h)), 211, 2) && |HeaderFields(SampleHeader(h))| == 11
  {
    SamplePlainWithin(h);
    SampleRepresentationWithin(h);
    SampleMinimizationWithin(h);
    HeaderWithin(SampleHeader(h));
  }

  lemma TwoTexts(a: string, s: string, b: string, t: string)
    ensures Within(Obj([Named(a, Str(Lit(s))), Named(b, Str(Lit(t)))]), 5, 1)
  {
    LitText(s);
    LitText(t);
    TwoFields(a, Str(Lit(s)), b, Str(Lit(t)), 1, 0);
    ObjectWithin([Named(a, Str(Lit(s))), Named(b, Str(Lit(t)))], 1, 0);
  }

  lemma EventWithin()
    ensures Within(Obj([Named("sequence_number", Num(0))]), 3, 1)
  {
    FieldAnd("sequence_number", Num(0), [], 1, 0);
    ObjectWithin([Named("sequence_number", Num(0))] + [], 1, 0);
    assert [Named("sequence_number", Num(0))] + [] == [Named("sequence_number", Num(0))];
  }

  lemma RestFields(actor: Json, event: Json, signer: Json)
    requires Within(actor, 211, 2) && Within(event, 211, 2) && Within(signer, 211, 2)
    ensures AllWithin([Named("actor", actor), Named("event", event), Named("signing_key", signer),
                       Named("disclosure_policy", Null),
                       Named("customer_approval", Null)], 211, 2)
  {
    FourFields("event", event, "signing_key", signer, "disclosure_policy", Null, "customer_approval", Null, 211, 2);
    LitField("actor", actor, 211, 2);
  }

  lemma SampleRestWithin(h: HashFn, reason: Text)
    ensures AllWithin(InputOnlyFields(SampleInput(h, reason)), 211, 2) && |InputOnlyFields(SampleInput(h, reason))| == 5
  {
    var key := [Named("key_id", Str(NAME)), Named("key_version", Str(NAME))];
    TwoTexts("actor_type", "vendor_service", "actor_id", "abc");
    TwoTexts("key_id", "abc", "key_version", "abc");
    EventWithin();
    assert key + [] == key;
    RestFields(Obj([Named("actor_type", Str(VENDOR)), Named("actor_id", Str(NAME))]),
               Obj([Named("sequence_number", Num(0))]), Obj(key + []));
  }

  lemma PartsWithin(header: seq<Field>, files: seq<Field>, deletions: seq<Field>, rest: seq<Field>)
    requires AllWithin(header, 211, 2) && AllWithin(files, 211, 2) && AllWithin(deletions, 211, 2) &&
      AllWithin(rest, 211, 2)
    requires |header| == 11 && |files| == 1 && |deletions| == 1 && |rest| == 5
    ensures Canonicalizable(Obj(header + files + deletions + rest))
  {
    AllConcat(header, files, 211, 2);
    AllConcat(header + files, deletions, 211, 2);
    AllConcat(header + files + deletions, rest, 211, 2);
    ObjectWithin(header + files + deletions + rest, 211, 2);
  }

  lemma ListParts(files: Json, deletions: Json)
    requires Within(files, 211, 2) && Within(deletions, 211, 2)
    ensures AllWithin([Named("files", files)], 211, 2) && AllWithin([Named("deletion_records", deletions)], 211, 2)
  {
    LitField("files", files, 211, 2);
    LitField("deletion_records", deletions, 211, 2);
  }

  lemma SampleStrictJson(h: HashFn, reason: Text)
    requires Paired(reason)
    ensures StrictJson(SampleInput(h, reason))
  {
    var files, deletions := Arr(Map(FileInputJson, SampleFiles(h, reason))), Arr(Map(DeletionJson, []));
    SampleHeaderWithin(h);
    SampleFilesWithin(h, reason);
    SampleRestWithin(h, reason);
    assert Map(DeletionJson, []) == [];
    ListParts(files, deletions);
    PartsWithin(HeaderFields(SampleHeader(h)), [Named("files", files)], [Named("deletion_records", deletions)],
                InputOnlyFields(SampleInput(h, reason)));
  }
}
