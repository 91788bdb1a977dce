/** `signed-static-bundle.ts`: what a static bundle is generated from, the admission checks, and the
    manifest with its content-addressed identity. */
module StaticBundle {
  import opened Results
  import opened SafeIntegers
  import opened Sorting
  import opened Text
  import opened Json
  import opened CanonicalIdentity
  import opened ProtocolShapes

  datatype Role =
    | Attestation | VendorReceipt | BundleRepresentation | SupportingEvidence | Portal | PortalAsset | VerificationFile

  datatype SourceClass = NeverCollected | RetainedReviewArtifact | OptInRetainedSource

  datatype ManifestFile = ManifestFile(
    relativePath: Text, artifactRef: Text, mediaType: Text, digest: Text, sizeBytes: int,
    role: Role, sourceClass: SourceClass, inclusionReason: Text)

  datatype FileInput = FileInput(file: ManifestFile, exportApproved: bool, content: Text)

  datatype Representation = Representation(
    evidenceBundleId: Text, bundleManifestRef: Text, signatureRef: Text, identityRef: Text, payloadRefs: seq<Text>)

  datatype Minimization = Minimization(included: seq<Text>, excluded: seq<Text>, deleted: seq<Text>,
                                       neverCollected: seq<Text>)

  datatype Metadata = Metadata(
    manifestSignatureRef: Text, signingInputRef: Text, instructionsPath: Text, offline: bool, digestsVerified: bool)

  /** `details` are the fields whose values are only tested for their shape. */
  datatype DeletionRecord = DeletionRecord(evidenceId: Text, digests: seq<Text>, details: seq<Field>)

  /** What the manifest takes over from the input besides the files. */
  datatype Header = Header(
    protocolVersion: Text, staticBundleId: Text, manifestVersion: int, reviewId: Text, createdAt: Text,
    attestationRef: Text, vendorReceiptRef: Text, representation: Representation, portalProjectionRef: Text,
    minimization: Minimization, metadata: Metadata)

  datatype GenerationInput = GenerationInput(
    header: Header, files: seq<FileInput>, deletionRecords: seq<DeletionRecord>,
    actorType: Text, actorId: Text, sequenceNumber: int,
    keyId: Text, keyVersion: Text, keyDetails: seq<Field>,
    disclosurePolicy: Json, customerApproval: Json)

  datatype PackageState = Generated | Finalized

  datatype Manifest = Manifest(
    id: Text, header: Header, state: PackageState, supersedes: Option<Text>, files: seq<ManifestFile>,
    canonicalization: Text, hashAlgorithm: Text, identityExcludes: seq<Text>)

  datatype Schema = AttestationSchema | BundleManifestSchema | SigningInputSchema | SignatureEnvelopeSchema

  /** The parts of the producer and of the checker that the model leaves open. */
  datatype Rules = Rules(
    hash: HashFn,
    meaningful: Text -> bool,
    utcTimestamp: Text -> bool,
    safePath: Text -> bool,
    nfkc: Text -> Text,
    lower: Text -> Text,
    policyIsSafe: Json -> bool,
    metadataOnly: Json -> bool,
    approvalIsSafe: (Json, Json) -> bool,
    detailsAreSafe: seq<Field> -> bool,
    forbiddenContent: Text -> bool,
    remoteChannel: Text -> bool,
    namesProcedure: Text -> bool,
    parseJson: Text -> Option<Json>,
    schemaAccepts: (Schema, Json) -> bool,
    receiptVerified: Json -> bool,
    signatureCovered: Json -> bool,
    internalLearning: Text -> bool,
    forbiddenText: Text -> bool)

  const INDEX_PATH: Text := Lit("portal/index.html")
  const STYLES_PATH: Text := Lit("portal/styles.css")
  const SCRIPT_PATH: Text := Lit("portal/portal.js")
  const VERIFY_PATH: Text := Lit("VERIFY.txt")
  const SIGNATURE_PATH: Text := Lit("verification/static-bundle-signature.json")
  const SIGNING_INPUT_PATH: Text := Lit("verification/static-bundle-signing-input.json")
  const SIGNATURE_REF: Text := Lit("artifact_ref:static_bundle_signature")
  const SIGNING_INPUT_REF: Text := Lit("artifact_ref:static_bundle_signing_input")
  const ID_KEY: Text := Lit("static_bundle_manifest_id")

  // ---------------------------------------------------------------- as JSON

  function RoleName(role: Role): Text {
    match role
    case Attestation => Lit("attestation")
    case VendorReceipt => Lit("vendor_receipt")
    case BundleRepresentation => Lit("evidence_bundle_representation")
    case SupportingEvidence => Lit("supporting_evidence")
    case Portal => Lit("portal")
    case PortalAsset => Lit("portal_asset")
    case VerificationFile => Lit("verification_metadata")
  }

  function ClassName(c: SourceClass): Text {
    match c
    case NeverCollected => Lit("never_collected")
    case RetainedReviewArtifact => Lit("retained_review_artifact")
    case OptInRetainedSource => Lit("customer_opt_in_retained_source")
  }

  function TextJson(t: Text): Json { Str(t) }

  function Texts(ts: seq<Text>): Json { Arr(Map(TextJson, ts)) }

  function FileFields(f: ManifestFile): seq<Field> {
    [Named("relative_path", Str(f.relativePath)), Named("artifact_ref", Str(f.artifactRef)),
     Named("media_type", Str(f.mediaType)), Named("digest", Str(f.digest)), Named("size_bytes", Num(f.sizeBytes)),
     Named("artifact_role", Str(RoleName(f.role))), Named("source_derived_class", Str(ClassName(f.sourceClass))),
     Named("inclusion_reason", Str(f.inclusionReason))]
  }

  function FileJson(f: ManifestFile): Json { Obj(FileFields(f)) }

  function FileInputJson(f: FileInput): Json {
    Obj(FileFields(f.file) + [Named("export_approved", Bool(f.exportApproved)), Named("content", Str(f.content))])
  }

  function RepresentationFields(r: Representation): seq<Field> {
    [Named("evidence_bundle_id", Str(r.evidenceBundleId)), Named("bundle_manifest_ref", Str(r.bundleManifestRef)),
     Named("signature_ref", Str(r.signatureRef)), Named("identity_ref", Str(r.identityRef)),
     Named("retained_export_approved_payload_refs", Texts(r.payloadRefs))]
  }

  function RepresentationJson(r: Representation): Json { Obj(RepresentationFields(r)) }

  function MinimizationFields(m: Minimization): seq<Field> {
    [Named("included_retained_refs", Texts(m.included)), Named("excluded_refs", Texts(m.excluded)),
     Named("deleted_refs", Texts(m.deleted)), Named("never_collected_refs", Texts(m.neverCollected))]
  }

  function MinimizationJson(m: Minimization): Json { Obj(MinimizationFields(m)) }

  function MetadataFields(m: Metadata): seq<Field> {
    [Named("manifest_signature_ref", Str(m.manifestSignatureRef)), Named("signing_input_ref", Str(m.signingInputRef)),
     Named("verification_instructions_path", Str(m.instructionsPath)),
     Named("offline_verification_supported", Bool(m.offline)),
     Named("all_file_digests_verified", Bool(m.digestsVerified))]
  }

  function DeletionJson(d: DeletionRecord): Json {
    Obj([Named("deletion_evidence_id", Str(d.evidenceId)), Named("deleted_artifact_digests", Texts(d.digests))] +
        d.details)
  }

  /** The header fields that the producer copies as they are. */
  function PlainFields(h: Header): seq<Field> {
    [Named("protocol_version", Str(h.protocolVersion)), Named("static_bundle_id", Str(h.staticBundleId)),
     Named("manifest_version", Num(h.manifestVersion)), Named("review_id", Str(h.reviewId)),
     Named("created_at", Str(h.createdAt)), Named("attestation_ref", Str(h.attestationRef)),
     Named("vendor_receipt_ref", Str(h.vendorReceiptRef)), Named("portal_projection_ref", Str(h.portalProjectionRef)),
     Named("verification_metadata", Obj(MetadataFields(h.metadata)))]
  }

  function HeaderFields(h: Header): seq<Field> {
    PlainFields(h)
    + [Named("evidence_bundle_representation", RepresentationJson(h.representation))]
    + [Named("minimization_disposition", MinimizationJson(h.minimization))]
  }

  /** The generation input as the JSON object that its first check canonicalizes. */
  function InputJson(i: GenerationInput): Json {
    Obj(HeaderFields(i.header)
        + [Named("files", Arr(Map(FileInputJson, i.files)))]
        + [Named("deletion_records", Arr(Map(DeletionJson, i.deletionRecords)))]
        + InputOnlyFields(i))
  }

  function InputOnlyFields(i: GenerationInput): seq<Field> {
    [Named("actor", Obj([Named("actor_type", Str(i.actorType)), Named("actor_id", Str(i.actorId))])),
     Named("event", Obj([Named("sequence_number", Num(i.sequenceNumber))])),
     Named("signing_key", Obj([Named("key_id", Str(i.keyId)), Named("key_version", Str(i.keyVersion))] + i.keyDetails)),
     Named("disclosure_policy", i.disclosurePolicy), Named("customer_approval", i.customerApproval)]
  }

  function StateName(s: PackageState): Text {
    if s.Generated? then Lit("generated") else Lit("finalized")
  }

  /** The manifest fields that neither come from the header nor are files. */
  function StateFields(m: Manifest): seq<Field> {
    [Named("package_state", Str(StateName(m.state))), Named("canonicalization", Str(m.canonicalization)),
     Named("identity_hash_algorithm", Str(m.hashAlgorithm)),
     Named("identity_input_excludes", Texts(m.identityExcludes))]
  }

  function SupersedesFields(m: Manifest): seq<Field> {
    if m.supersedes.None? then [] else [Named("supersedes_static_bundle_manifest_id", Str(m.supersedes.value))]
  }

  /** The manifest without its identity. */
  function IdentityFields(m: Manifest): seq<Field> {
    HeaderFields(m.header) + [Named("files", Arr(Map(FileJson, m.files)))] + StateFields(m) + SupersedesFields(m)
  }

  function ManifestFields(m: Manifest): seq<Field> {
    [Field(ID_KEY, Str(m.id))] + IdentityFields(m)
  }

  // ---------------------------------------------------------------- shapes

  /** A prefix and a slug of the protocol. */
  predicate IsId(prefix: string, t: Text) {
    Lit(prefix) <= t && IsSlug(t[|prefix|..])
  }

  predicate IsArtifactRef(t: Text) { IsId("artifact_ref:", t) }

  /** `new Set(xs).size === xs.length` */
  predicate AllDistinct<T(==)>(xs: seq<T>) {
    |set x | x in xs| == |xs|
  }

  predicate ManifestFileIsSafe(f: ManifestFile, rules: Rules) {
    && rules.meaningful(f.relativePath) && IsArtifactRef(f.artifactRef) && rules.meaningful(f.mediaType)
    && IsPrefixedSha256(f.digest) && IsSafeInteger(f.sizeBytes) && f.sizeBytes >= 0 &&
       rules.meaningful(f.inclusionReason)
  }

  predicate FileInputIsSafe(f: FileInput, rules: Rules) {
    IsArtifactRef(f.file.artifactRef) && f.exportApproved && ManifestFileIsSafe(f.file, rules)
  }

  predicate RepresentationIsSafe(r: Representation) {
    && IsPrefixedSha256(r.evidenceBundleId)
    && IsArtifactRef(r.bundleManifestRef) && IsArtifactRef(r.signatureRef) && IsArtifactRef(r.identityRef)
    && (forall ref :: ref in r.payloadRefs ==> IsArtifactRef(ref))
    && AllDistinct(RequiredRefs(r))
  }

  function RequiredRefs(r: Representation): seq<Text> {
    [r.bundleManifestRef, r.signatureRef, r.identityRef] + r.payloadRefs
  }

  function Dispositions(m: Minimization): seq<Text> {
    m.included + m.excluded + m.deleted + m.neverCollected
  }

  predicate MinimizationIsSafe(m: Minimization, rules: Rules) {
    && (forall list :: list in [m.included, m.excluded, m.deleted, m.neverCollected] ==>
          (forall ref :: ref in list ==> rules.meaningful(ref)) && AllDistinct(list))
    && AllDistinct(Dispositions(m))
  }

  predicate MetadataIsSafe(m: Metadata) {
    m == Metadata(SIGNATURE_REF, SIGNING_INPUT_REF, VERIFY_PATH, true, true)
  }

  predicate IdentitiesAreSafe(h: Header, rules: Rules) {
    && IsId("static_bundle:", h.staticBundleId) && IsId("review:", h.reviewId) && IsId("attestation:", h.attestationRef)
    && IsPrefixedSha256(h.vendorReceiptRef) && IsId("static_portal_projection:", h.portalProjectionRef)
    && IsSafeInteger(h.manifestVersion) && h.manifestVersion >= 1 && rules.utcTimestamp(h.createdAt)
  }

  predicate DeletionRecordIsSafe(d: DeletionRecord, rules: Rules) {
    && IsId("deletion_evidence:", d.evidenceId) && d.digests != []
    && (forall digest :: digest in d.digests ==> IsPrefixedSha256(digest)) && AllDistinct(d.digests)
    && rules.detailsAreSafe(d.details)
  }

  // ---------------------------------------------------------------- file contents

  datatype ContentVerdict = Matches | Differs | Throws

  function MatchesIf(b: bool): ContentVerdict { if b then Matches else Differs }

  predicate HasText(v: Json, key: string, t: Text) {
    v.Obj? && Lookup(v.fields, Lit(key)) == Some(Str(t))
  }

  /** `fileContentMatchesRole`; it throws on a document that parses but cannot be canonicalized. */
  function FileContentMatchesRole(f: FileInput, h: Header, rules: Rules): ContentVerdict {
    var text := Lit("text/") <= f.file.mediaType && !rules.remoteChannel(f.content);
    if rules.forbiddenContent(f.content) || f.file.sourceClass != RetainedReviewArtifact then Differs
    else if f.file.relativePath == VERIFY_PATH then MatchesIf(text && rules.namesProcedure(f.content))
    else if f.file.role == Portal || f.file.role == PortalAsset then MatchesIf(text)
    else if f.file.mediaType != Lit("application/json") then Differs
    else
      match rules.parseJson(f.content)
      case None => Differs
      case Some(parsed) =>
        if !Canonicalizable(parsed) then Throws
        else if Canon(parsed) != f.content then Differs
        else DocumentMatchesRole(f.file, parsed, h, rules)
  }

  function DocumentMatchesRole(file: ManifestFile, parsed: Json, h: Header, rules: Rules): ContentVerdict {
    var r := h.representation;
    match file.role
    case Attestation =>
      if !rules.schemaAccepts(AttestationSchema, parsed) then Differs
      else
        (match ExcludedFieldsIdentity(rules.hash, parsed, [Lit("attestation_id")], Some(Lit("attestation")))
         case Err(_) => Throws
         case Ok(id) =>
           MatchesIf(id == Some(h.attestationRef) && HasText(parsed, "attestation_id", h.attestationRef) &&
                     HasText(parsed, "review_id", h.reviewId)))
    case VendorReceipt =>
      MatchesIf(rules.receiptVerified(parsed) && HasText(parsed, "vendor_receipt_id", h.vendorReceiptRef))
    case BundleRepresentation =>
      MatchesIf(Canon(parsed) == Canon(RepresentationJson(r)))
    case SupportingEvidence =>
      if file.artifactRef == r.bundleManifestRef then
        if !rules.schemaAccepts(BundleManifestSchema, parsed) then Differs
        else
          match ExcludedFieldsIdentity(rules.hash, parsed, [Lit("evidence_bundle_id")], None)
          case Err(_) => Throws
          case Ok(id) => MatchesIf(id == Some(r.evidenceBundleId))
      else if file.artifactRef == r.identityRef then
        MatchesIf(rules.schemaAccepts(SigningInputSchema, parsed)
             && HasText(parsed, "signing_input_type", Lit("bundle_manifest_identity"))
             && HasText(parsed, "signed_identity_type", Lit("evidence_bundle"))
             && HasText(parsed, "signed_identity", r.evidenceBundleId))
      else if file.artifactRef == r.signatureRef then
        MatchesIf(rules.schemaAccepts(SignatureEnvelopeSchema, parsed)
             && HasText(parsed, "signed_identity_type", Lit("evidence_bundle"))
             && HasText(parsed, "signed_identity", r.evidenceBundleId)
             && rules.signatureCovered(parsed))
      else
        MatchesIf(file.artifactRef in r.payloadRefs)
    case _ => Differs
  }

  // ---------------------------------------------------------------- the admission checks, in order

  function RefOf(f: FileInput): Text { f.file.artifactRef }

  function PathOf(f: FileInput): Text { f.file.relativePath }

  function RoleOf(f: FileInput): Role { f.file.role }

  function EvidenceIdOf(d: DeletionRecord): Text { d.evidenceId }

  function NormalPath(rules: Rules): FileInput -> Text {
    (f: FileInput) => rules.lower(rules.nfkc(f.file.relativePath))
  }

  predicate StrictJson(i: GenerationInput) { Canonicalizable(InputJson(i)) }

  predicate ActorIsVendorService(i: GenerationInput) {
    i.header.protocolVersion == PROTOCOL_VERSION && i.actorType == Lit("vendor_service")
  }

  predicate RequiredIdentities(i: GenerationInput, rules: Rules) {
    && IdentitiesAreSafe(i.header, rules) && rules.meaningful(i.actorId)
    && IsSafeInteger(i.sequenceNumber) && i.sequenceNumber >= 0
  }

  predicate SignerIsNamed(i: GenerationInput, rules: Rules) {
    rules.meaningful(i.keyId) && rules.meaningful(i.keyVersion)
  }

  predicate FilesAreSafe(i: GenerationInput, rules: Rules) {
    |i.files| >= 6 && forall f :: f in i.files ==> FileInputIsSafe(f, rules)
  }

  predicate NamesAreDistinct(i: GenerationInput, rules: Rules) {
    && AllDistinct(Map(NormalPath(rules), i.files))
    && (forall f :: f in i.files ==> f.file.relativePath == rules.nfkc(f.file.relativePath))
    && AllDistinct(Map(RefOf, i.files))
  }

  /** Why one file is refused before its content is looked at. */
  function FileRefusal(f: FileInput, i: GenerationInput, rules: Rules): Option<FailureCode> {
    if !rules.safePath(f.file.relativePath) then Some(UnsafePath)
    else if !f.exportApproved then Some(UnapprovedExport)
    else if f.file.role == SupportingEvidence && rules.metadataOnly(i.disclosurePolicy) then Some(UnapprovedExport)
    else if f.file.sourceClass == OptInRetainedSource then Some(DeletedContentReintroduced)
    else if |Utf8(f.content)| != f.file.sizeBytes || Sha256ProtocolText(rules.hash, f.content) != f.file.digest then
            Some(DigestMismatch)
    else None
  }

  predicate FilesArePermitted(i: GenerationInput, rules: Rules) {
    forall f :: f in i.files ==> FileRefusal(f, i, rules).None?
  }

  predicate HasFile(files: seq<FileInput>, path: Text, role: Role) {
    exists f :: f in files && f.file.relativePath == path && f.file.role == role
  }

  const REQUIRED_ROLES: set<Role> := {Attestation, VendorReceipt, BundleRepresentation, Portal, PortalAsset,
      VerificationFile}

  predicate PortalIsComplete(i: GenerationInput) {
    && (forall role :: role in REQUIRED_ROLES ==> role in Map(RoleOf, i.files))
    && HasFile(i.files, INDEX_PATH, Portal) && HasFile(i.files, STYLES_PATH, PortalAsset) &&
       HasFile(i.files, SCRIPT_PATH, PortalAsset)
    && HasFile(i.files, i.header.metadata.instructionsPath, VerificationFile)
  }

  predicate IsOuterAttachment(f: FileInput, m: Metadata) {
    || f.file.relativePath == SIGNATURE_PATH || f.file.relativePath == SIGNING_INPUT_PATH
    || f.file.artifactRef == m.manifestSignatureRef || f.file.artifactRef == m.signingInputRef
  }

  predicate NoOuterAttachment(i: GenerationInput) {
    forall f :: f in i.files ==> !IsOuterAttachment(f, i.header.metadata)
  }

  predicate PayloadRefsResolve(i: GenerationInput) {
    forall ref :: ref in RequiredRefs(i.header.representation) ==> multiset(Map(RefOf, i.files))[ref] == 1
  }

  predicate FilesAreCovered(i: GenerationInput) {
    var included := set ref | ref in i.header.minimization.included;
    (forall f :: f in i.files ==> f.file.artifactRef in included) && |included| == |i.files|
  }

  predicate ContentsMatch(i: GenerationInput, rules: Rules) {
    forall f :: f in i.files ==> FileContentMatchesRole(f, i.header, rules).Matches?
  }

  predicate DeletionRecordsAreSafe(i: GenerationInput, rules: Rules) {
    forall d :: d in i.deletionRecords ==> DeletionRecordIsSafe(d, rules)
  }

  predicate DeletionsAreCovered(i: GenerationInput) {
    var declared := set ref | ref in i.header.minimization.deleted;
    var ids := Map(EvidenceIdOf, i.deletionRecords);
    AllDistinct(ids) && |i.deletionRecords| == |declared| && forall id :: id in ids ==> id in declared
  }

  predicate NothingReintroduced(i: GenerationInput) {
    && (forall ref :: ref in i.header.minimization.excluded ==> ref !in Map(RefOf, i.files))
    && (forall ref :: ref in i.header.minimization.neverCollected ==> ref !in Map(RefOf, i.files))
    && (forall d, digest, f :: d in i.deletionRecords && digest in d.digests && f in i.files ==>
        digest != f.file.digest)
  }

  /** The conditions that come before the first loop over the files. */
  predicate IdentitiesAreBound(i: GenerationInput, rules: Rules) {
    && StrictJson(i)
    && ActorIsVendorService(i)
    && RequiredIdentities(i, rules)
    && RepresentationIsSafe(i.header.representation)
    && SignerIsNamed(i, rules)
    && rules.policyIsSafe(i.disclosurePolicy)
    && rules.approvalIsSafe(i.customerApproval, i.disclosurePolicy)
    && FilesAreSafe(i, rules)
    && NamesAreDistinct(i, rules)
  }

  /** The conditions between the two loops. */
  predicate FilesAreComplete(i: GenerationInput, rules: Rules) {
    && MetadataIsSafe(i.header.metadata)
    && PortalIsComplete(i)
    && NoOuterAttachment(i)
    && PayloadRefsResolve(i)
    && MinimizationIsSafe(i.header.minimization, rules)
    && FilesAreCovered(i)
  }

  predicate DeletionsAreSettled(i: GenerationInput, rules: Rules) {
    DeletionRecordsAreSafe(i, rules) && DeletionsAreCovered(i) && NothingReintroduced(i)
  }

  /** The inputs that generation admits. */
  predicate Acceptable(i: GenerationInput, rules: Rules) {
    IdentitiesAreBound(i, rules) && FilesAreAccepted(i, rules)
  }

  predicate FilesAreAccepted(i: GenerationInput, rules: Rules) {
    FilesArePermitted(i, rules) && FilesAreComplete(i, rules) && ContentsMatch(i, rules) &&
      DeletionsAreSettled(i, rules)
  }

  datatype FailureCode =
    | InvalidInput | RequiredArtifactMissing | UnverifiableFile | DigestMismatch
    | UnsafePath | UnapprovedExport | DeletedContentReintroduced | PortalIncomplete

  /** The source's fixed labels, or the reference of a file or of a bound record. */
  datatype Affected =
    | BundleUnavailable | EvidenceBundleUnavailable | PolicyUnavailable | ApprovalUnavailable
    | FileUnavailable | FileDuplicate | OuterAttachments | RefUnresolved
    | MinimizationUnavailable | MinimizationCoverage | DeletionUnavailable | DeletionUnresolved | MinimizationExcluded
    | Record(ref: Text)

  datatype Outcome = Accepted | Refused(code: FailureCode, affected: Affected) | Threw

  /** `f` is the first file without `good`. */
  ghost predicate FirstWithout(files: seq<FileInput>, f: FileInput, good: FileInput -> bool) {
    exists k :: 0 <= k < |files| && files[k] == f && !good(f) && forall j :: 0 <= j < k ==> good(files[j])
  }

  function Permitted(i: GenerationInput, rules: Rules): FileInput -> bool {
    (f: FileInput) => FileRefusal(f, i, rules).None?
  }

  function ContentMatches(h: Header, rules: Rules): FileInput -> bool {
    (f: FileInput) => FileContentMatchesRole(f, h, rules).Matches?
  }

  function ContentRefusal(f: FileInput, h: Header, rules: Rules): Outcome {
    if FileContentMatchesRole(f, h, rules).Throws? then Threw else Refused(UnverifiableFile, Record(f.file.artifactRef))
  }

  /** What the checks before the files report, in the source's order. */
  function EarlyReport(i: GenerationInput, rules: Rules): (r: Option<Outcome>)
    ensures r.None? <==> IdentitiesAreBound(i, rules)
  {
    if !StrictJson(i) then Some(Refused(InvalidInput, BundleUnavailable))
    else if !ActorIsVendorService(i) then Some(Refused(InvalidInput, BundleUnavailable))
    else if !RequiredIdentities(i, rules) then Some(Refused(RequiredArtifactMissing, BundleUnavailable))
    else if !RepresentationIsSafe(i.header.representation) then
            Some(Refused(RequiredArtifactMissing, EvidenceBundleUnavailable))
    else if !SignerIsNamed(i, rules) then Some(Refused(UnverifiableFile, Record(i.header.attestationRef)))
    else if !rules.policyIsSafe(i.disclosurePolicy) then Some(Refused(RequiredArtifactMissing, PolicyUnavailable))
    else if !rules.approvalIsSafe(i.customerApproval, i.disclosurePolicy) then
            Some(Refused(RequiredArtifactMissing, ApprovalUnavailable))
    else if !FilesAreSafe(i, rules) then Some(Refused(UnverifiableFile, FileUnavailable))
    else if !NamesAreDistinct(i, rules) then Some(Refused(InvalidInput, FileDuplicate))
    else None
  }

  /** What the checks between the two loops over the files report. */
  function MiddleReport(i: GenerationInput, rules: Rules): (r: Option<Outcome>)
    ensures r.None? <==> FilesAreComplete(i, rules)
  {
    if !MetadataIsSafe(i.header.metadata) then Some(Refused(PortalIncomplete, Record(i.header.portalProjectionRef)))
    else if !PortalIsComplete(i) then Some(Refused(PortalIncomplete, Record(i.header.portalProjectionRef)))
    else if !NoOuterAttachment(i) then Some(Refused(InvalidInput, OuterAttachments))
    else if !PayloadRefsResolve(i) then Some(Refused(RequiredArtifactMissing, RefUnresolved))
    else if !MinimizationIsSafe(i.header.minimization, rules) then Some(Refused(InvalidInput, MinimizationUnavailable))
    else if !FilesAreCovered(i) then Some(Refused(InvalidInput, MinimizationCoverage))
    else None
  }

  /** What the checks of the deletion records report. */
  function LateReport(i: GenerationInput, rules: Rules): (r: Option<Outcome>)
    ensures r.None? <==> DeletionsAreSettled(i, rules)
  {
    if !DeletionRecordsAreSafe(i, rules) then Some(Refused(InvalidInput, DeletionUnavailable))
    else if !DeletionsAreCovered(i) then Some(Refused(RequiredArtifactMissing, DeletionUnresolved))
    else if !NothingReintroduced(i) then Some(Refused(DeletedContentReintroduced, MinimizationExcluded))
    else None
  }

  /** The first file refused before its content is looked at, and why. */
  ghost predicate ReportsFile(i: GenerationInput, rules: Rules, outcome: Outcome) {
    exists f :: FirstWithout(i.files, f, Permitted(i, rules)) &&
      outcome == Refused(FileRefusal(f, i, rules).value, Record(f.file.artifactRef))
  }

  /** The first file whose content does not match its role, or makes canonicalization throw. */
  ghost predicate ReportsContent(i: GenerationInput, rules: Rules, outcome: Outcome) {
    exists f :: FirstWithout(i.files, f, ContentMatches(i.header, rules)) &&
      outcome == ContentRefusal(f, i.header, rules)
  }

  /** `outcome` is what the first failed check reports. */
  ghost predicate ReportsFirstFailure(i: GenerationInput, rules: Rules, outcome: Outcome) {
    if EarlyReport(i, rules).Some? then outcome == EarlyReport(i, rules).value
    else ReportsFirstFileFailure(i, rules, outcome)
  }

  ghost predicate ReportsFirstFileFailure(i: GenerationInput, rules: Rules, outcome: Outcome) {
    if !FilesArePermitted(i, rules) then ReportsFile(i, rules, outcome)
    else ReportsRest(i, rules, outcome)
  }

  ghost predicate ReportsRest(i: GenerationInput, rules: Rules, outcome: Outcome) {
    if MiddleReport(i, rules).Some? then outcome == MiddleReport(i, rules).value
    else if !ContentsMatch(i, rules) then ReportsContent(i, rules, outcome)
    else LateReport(i, rules) == Some(outcome)
  }

  // ---------------------------------------------------------------- validateGenerationInput

  /** The first loop over the files. */
  method RefuseFile(i: GenerationInput, rules: Rules) returns (r: Option<Outcome>)
    ensures r.None? <==> FilesArePermitted(i, rules)
    ensures r.Some? ==> ReportsFile(i, rules, r.value)
  {
    var index := 0;
    while index < |i.files|
      invariant 0 <= index <= |i.files|
      invariant forall j :: 0 <= j < index ==> FileRefusal(i.files[j], i, rules).None?
    {
      var f := i.files[index];
      var code := None;
      if !rules.safePath(f.file.relativePath) {
        code := Some(UnsafePath);
      } else if !f.exportApproved {
        code := Some(UnapprovedExport);
      } else if f.file.role == SupportingEvidence && rules.metadataOnly(i.disclosurePolicy) {
        code := Some(UnapprovedExport);
      } else if f.file.sourceClass == OptInRetainedSource {
        code := Some(DeletedContentReintroduced);
      } else {
        var bytes := Utf8(f.content);
        if |bytes| != f.file.sizeBytes || Sha256ProtocolText(rules.hash, f.content) != f.file.digest {
          code := Some(DigestMismatch);
        }
      }
      if code.Some? {
        assert FirstWithout(i.files, f, Permitted(i, rules));
        return Some(Refused(code.value, Record(f.file.artifactRef)));
      }
      index := index + 1;
    }
    return None;
  }

  /** The files by their path; a later file replaces an earlier one at the same path. */
  method FileByPath(files: seq<FileInput>) returns (byPath: map<Text, FileInput>)
    ensures forall p :: p in byPath <==> p in Map(PathOf, files)
    ensures forall p :: p in byPath ==> byPath[p] in files && byPath[p].file.relativePath == p
  {
    byPath := map[];
    var index := 0;
    while index < |files|
      invariant 0 <= index <= |files|
      invariant forall p :: p in byPath <==> exists j :: 0 <= j < index && files[j].file.relativePath == p
      invariant forall p :: p in byPath ==> byPath[p] in files && byPath[p].file.relativePath == p
    {
      byPath := byPath[files[index].file.relativePath := files[index]];
      index := index + 1;
    }
  }

  method FileRefCounts(files: seq<FileInput>) returns (counts: map<Text, nat>)
    ensures forall ref :: (if ref in counts then counts[ref] else 0) == multiset(Map(RefOf, files))[ref]
  {
    counts := map[];
    var index := 0;
    assert Map(RefOf, files[..0]) == [];
    while index < |files|
      invariant 0 <= index <= |files|
      invariant forall ref :: (if ref in counts then counts[ref] else 0) == multiset(Map(RefOf, files[..index]))[ref]
    {
      var ref := files[index].file.artifactRef;
      assert Map(RefOf, files[..index + 1]) == Map(RefOf, files[..index]) + [ref];
      counts := counts[ref := (if ref in counts then counts[ref] else 0) + 1];
      index := index + 1;
    }
    assert files[..index] == files;
  }

  /** The second loop over the files. */
  method RefuseContent(i: GenerationInput, rules: Rules) returns (r: Option<Outcome>)
    ensures r.None? <==> ContentsMatch(i, rules)
    ensures r.Some? ==> ReportsContent(i, rules, r.value)
  {
    var index := 0;
    while index < |i.files|
      invariant 0 <= index <= |i.files|
      invariant forall j :: 0 <= j < index ==> FileContentMatchesRole(i.files[j], i.header, rules).Matches?
    {
      var f := i.files[index];
      var verdict := FileContentMatchesRole(f, i.header, rules);
      if !verdict.Matches? {
        assert FirstWithout(i.files, f, ContentMatches(i.header, rules));
        return Some(if verdict.Throws? then Threw else Refused(UnverifiableFile, Record(f.file.artifactRef)));
      }
      index := index + 1;
    }
    return None;
  }

  lemma Distinct<T(!new)>(xs: seq<T>)
    ensures AllDistinct(xs) <==> NoDuplicates(xs)
  {
    DistinctSize(xs);
  }

  lemma {:induction false} DistinctSize<T(!new)>(xs: seq<T>)
    ensures var elements := set x | x in xs; |elements| <= |xs| && (|elements| == |xs| <==> NoDuplicates(xs))
  {
    if xs != [] {
      var last := |xs| - 1;
      var rest := xs[..last];
      DistinctSize(rest);
      var all, before := set x | x in xs, set x | x in rest;
      assert all == before + {xs[last]};
      if xs[last] in rest {
        assert all == before;
        assert !NoDuplicates(xs);
      } else {
        assert |all| == |before| + 1;
        assert NoDuplicates(rest) <==> NoDuplicates(xs);
      }
    }
  }

  /** With distinct paths, the file that the map holds is the only one at its path. */
  lemma OnlyFileAtPath(i: GenerationInput, rules: Rules, a: FileInput, b: FileInput)
    requires NamesAreDistinct(i, rules)
    requires a in i.files && b in i.files && a.file.relativePath == b.file.relativePath
    ensures a == b
  {
    var paths := Map(NormalPath(rules), i.files);
    Distinct(paths);
    var j, k := Position(i.files, a), Position(i.files, b);
    assert paths[j] == paths[k];
  }

  lemma RolesAsSet(files: seq<FileInput>)
    ensures forall role :: role in Map(RoleOf, files) <==> role in set f | f in files :: f.file.role
  {
    forall role ensures role in Map(RoleOf, files) <==> role in set f | f in files :: f.file.role {
      if f :| f in files && f.file.role == role {
        assert Map(RoleOf, files)[Position(files, f)] == role;
      }
      if role in Map(RoleOf, files) {
        assert files[Position(Map(RoleOf, files), role)] in files;
      }
    }
  }

  method RequiredRolesCheck(files: seq<FileInput>) returns (ok: bool)
    ensures ok <==> forall role :: role in REQUIRED_ROLES ==> role in Map(RoleOf, files)
  {
    var roles := set f | f in files :: f.file.role;
    ok := forall role :: role in REQUIRED_ROLES ==> role in roles;
    RolesAsSet(files);
  }

  lemma MapFindsFile(i: GenerationInput, rules: Rules, byPath: map<Text, FileInput>, path: Text, role: Role)
    requires NamesAreDistinct(i, rules)
    requires path in byPath <==> path in Map(PathOf, i.files)
    requires path in byPath ==> byPath[path] in i.files && byPath[path].file.relativePath == path
    ensures HasFile(i.files, path, role) <==> path in byPath && byPath[path].file.role == role
  {
    if HasFile(i.files, path, role) {
      var f :| f in i.files && f.file.relativePath == path && f.file.role == role;
      assert Map(PathOf, i.files)[Position(i.files, f)] == path;
      OnlyFileAtPath(i, rules, f, byPath[path]);
    }
  }

  method PortalCheck(i: GenerationInput, rules: Rules) returns (ok: bool)
    requires NamesAreDistinct(i, rules)
    ensures ok == PortalIsComplete(i)
  {
    var roles := RequiredRolesCheck(i.files);
    var byPath := FileByPath(i.files);
    var instructions := i.header.metadata.instructionsPath;
    ok := roles
      && INDEX_PATH in byPath && byPath[INDEX_PATH].file.role == Portal
      && STYLES_PATH in byPath && byPath[STYLES_PATH].file.role == PortalAsset
      && SCRIPT_PATH in byPath && byPath[SCRIPT_PATH].file.role == PortalAsset
      && instructions in byPath && byPath[instructions].file.role == VerificationFile;
    MapFindsFile(i, rules, byPath, INDEX_PATH, Portal);
    MapFindsFile(i, rules, byPath, STYLES_PATH, PortalAsset);
    MapFindsFile(i, rules, byPath, SCRIPT_PATH, PortalAsset);
    MapFindsFile(i, rules, byPath, instructions, VerificationFile);
  }

  /** The set tests of the source decide the two membership conditions. */
  lemma RefsAsSets(files: seq<FileInput>)
    ensures forall ref :: ref in Map(RefOf, files) <==> ref in set f | f in files :: f.file.artifactRef
  {
    forall ref ensures ref in Map(RefOf, files) <==> ref in set f | f in files :: f.file.artifactRef {
      if f :| f in files && f.file.artifactRef == ref {
        assert Map(RefOf, files)[Position(files, f)] == ref;
      }
      if ref in Map(RefOf, files) {
        assert files[Position(Map(RefOf, files), ref)] in files;
      }
    }
  }

  /** The checks between the two loops over the files. */
  method CheckMiddle(i: GenerationInput, rules: Rules) returns (r: Option<Outcome>)
    requires NamesAreDistinct(i, rules)
    ensures r == MiddleReport(i, rules)
  {
    if !MetadataIsSafe(i.header.metadata) {
      return Some(Refused(PortalIncomplete, Record(i.header.portalProjectionRef)));
    }
    var complete := PortalCheck(i, rules);
    if !complete {
      return Some(Refused(PortalIncomplete, Record(i.header.portalProjectionRef)));
    }
    if !NoOuterAttachment(i) {
      return Some(Refused(InvalidInput, OuterAttachments));
    }
    var resolved := RefsCheck(i);
    return
      if !resolved then Some(Refused(RequiredArtifactMissing, RefUnresolved))
      else if !MinimizationIsSafe(i.header.minimization, rules) then
              Some(Refused(InvalidInput, MinimizationUnavailable))
      else if !FilesAreCovered(i) then Some(Refused(InvalidInput, MinimizationCoverage))
      else None;
  }

  method RefsCheck(i: GenerationInput) returns (ok: bool)
    ensures ok == PayloadRefsResolve(i)
  {
    var counts := FileRefCounts(i.files);
    ok := forall ref :: ref in RequiredRefs(i.header.representation) ==> ref in counts && counts[ref] == 1;
  }

  /** The checks of the deletion records. */
  method CheckDeletions(i: GenerationInput, rules: Rules) returns (r: Option<Outcome>)
    ensures r == LateReport(i, rules)
  {
    if !DeletionRecordsAreSafe(i, rules) {
      return Some(Refused(InvalidInput, DeletionUnavailable));
    }
    if !DeletionsAreCovered(i) {
      return Some(Refused(RequiredArtifactMissing, DeletionUnresolved));
    }
    var clear := ReintroductionCheck(i);
    return if clear then None else Some(Refused(DeletedContentReintroduced, MinimizationExcluded));
  }

  method ReintroductionCheck(i: GenerationInput) returns (ok: bool)
    ensures ok == NothingReintroduced(i)
  {
    var includedRefs := set f | f in i.files :: f.file.artifactRef;
    var includedDigests := set f | f in i.files :: f.file.digest;
    var deletedDigests := set d, digest | d in i.deletionRecords && digest in d.digests :: digest;
    RefsAsSets(i.files);
    ok := (forall ref :: ref in i.header.minimization.excluded ==> ref !in includedRefs)
      && (forall ref :: ref in i.header.minimization.neverCollected ==> ref !in includedRefs)
      && (forall digest :: digest in deletedDigests ==> digest !in includedDigests);
    assert forall f :: f in i.files ==> f.file.digest in includedDigests;
    assert forall d, digest :: d in i.deletionRecords && digest in d.digests ==> digest in deletedDigests;
  }

  /** The checks from the first loop over the files on. */
  method ValidateFiles(i: GenerationInput, rules: Rules) returns (r: Outcome)
    requires NamesAreDistinct(i, rules)
    ensures r.Accepted? <==> FilesAreAccepted(i, rules)
    ensures !r.Accepted? ==> ReportsFirstFileFailure(i, rules, r)
  {
    var refused := RefuseFile(i, rules);
    if refused.Some? {
      return refused.value;
    }
    r := ValidateRest(i, rules);
  }

  /** The checks after the first loop over the files. */
  method ValidateRest(i: GenerationInput, rules: Rules) returns (r: Outcome)
    requires NamesAreDistinct(i, rules)
    ensures r.Accepted? <==> FilesAreComplete(i, rules) && ContentsMatch(i, rules) && DeletionsAreSettled(i, rules)
    ensures !r.Accepted? ==> ReportsRest(i, rules, r)
  {
    var refused := CheckMiddle(i, rules);
    if refused.Some? {
      return refused.value;
    }
    r := ValidateContents(i, rules);
  }

  /** The checks from the second loop over the files on. */
  method ValidateContents(i: GenerationInput, rules: Rules) returns (r: Outcome)
    ensures r.Accepted? <==> ContentsMatch(i, rules) && DeletionsAreSettled(i, rules)
    ensures !r.Accepted? ==>
      if !ContentsMatch(i, rules) then ReportsContent(i, rules, r) else LateReport(i, rules) == Some(r)
  {
    var refused := RefuseContent(i, rules);
    if refused.Some? {
      return refused.value;
    }
    refused := CheckDeletions(i, rules);
    return if refused.Some? then refused.value else Accepted;
  }

  /** `validateGenerationInput`: admits exactly the acceptable inputs, and otherwise reports the first
      failed check. */
  method ValidateGenerationInput(i: GenerationInput, rules: Rules) returns (r: Outcome)
    ensures r.Accepted? <==> Acceptable(i, rules)
    ensures !r.Accepted? ==> ReportsFirstFailure(i, rules, r)
  {
    var refused := EarlyReport(i, rules);
    if refused.Some? {
      return refused.value;
    }
    r := ValidateFiles(i, rules);
  }

  // ---------------------------------------------------------------- the manifest

  predicate PathLt(a: ManifestFile, b: ManifestFile) { TextLt(a.relativePath, b.relativePath) }

  function FileOf(f: FileInput): ManifestFile { f.file }

  function SortedUnique(values: seq<Text>): seq<Text> { Sort(values, TextLt) }

  function CloneRepresentation(r: Representation): Representation {
    r.(payloadRefs := SortedUnique(r.payloadRefs))
  }

  function CloneMinimization(m: Minimization): Minimization {
    Minimization(SortedUnique(m.included), SortedUnique(m.excluded), SortedUnique(m.deleted),
                 SortedUnique(m.neverCollected))
  }

  /** The manifest of an input, still without identity. */
  function IdentityDocument(i: GenerationInput): Manifest {
    Manifest([],
      i.header.(representation := CloneRepresentation(i.header.representation),
                minimization := CloneMinimization(i.header.minimization)),
      Generated, None, Sort(Map(FileOf, i.files), PathLt), Lit("rfc8785"), Lit("sha256"), [ID_KEY])
  }

  /** `None` where canonicalization throws. */
  function RecomputeManifestId(h: HashFn, m: Manifest): Option<Text> {
    CanonicalSha256Id(h, Obj(IdentityFields(m)))
  }

  function PreparedManifest(i: GenerationInput, h: HashFn): Option<Manifest> {
    match RecomputeManifestId(h, IdentityDocument(i))
    case None => None
    case Some(id) => Some(IdentityDocument(i).(id := id))
  }

  /** `isProtocolManifest`, on values of the declared shape. */
  predicate IsProtocolManifest(m: Manifest, rules: Rules) {
    && m.header.protocolVersion == PROTOCOL_VERSION && IsPrefixedSha256(m.id) && IdentitiesAreSafe(m.header, rules)
    && (m.state.Generated? ==> m.supersedes.None?)
    && (m.state.Finalized? ==>
        m.header.manifestVersion >= 2 && m.supersedes.Some? && IsPrefixedSha256(m.supersedes.value))
    && |m.files| >= 6 && (forall f :: f in m.files ==> ManifestFileIsSafe(f, rules))
    && LastRole(m.files, INDEX_PATH) == Some(Portal)
    && LastRole(m.files, STYLES_PATH) == Some(PortalAsset)
    && LastRole(m.files, SCRIPT_PATH) == Some(PortalAsset)
    && RepresentationIsSafe(m.header.representation) && MinimizationIsSafe(m.header.minimization, rules)
    && MetadataIsSafe(m.header.metadata)
    && m.canonicalization == Lit("rfc8785") && m.hashAlgorithm == Lit("sha256") && m.identityExcludes == [ID_KEY]
  }

  /** What `new Map` from paths to roles returns for a path. */
  function LastRole(files: seq<ManifestFile>, path: Text): Option<Role> {
    if files == [] then None
    else if files[|files| - 1].relativePath == path then Some(files[|files| - 1].role)
    else LastRole(files[..|files| - 1], path)
  }
}
