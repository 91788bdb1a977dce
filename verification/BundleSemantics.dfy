/** `epic-5-semantics.ts`: the semantic check of a static bundle manifest, written apart from its producer. */
module BundleSemantics {
  import opened Results
  import opened Sorting
  import opened Text
  import opened Json
  import opened CanonicalIdentity
  import opened Members
  import opened StaticBundle

  datatype Issue =
    | IdentityExcludesInvalid | IdentityMismatch | FinalizationVersionInvalid | DuplicateFile | RequiredFilesMissing
    | ReferenceUnresolved | SigningAttachmentCircular | CoverageInvalid | InternalLearningForbidden | TextForbidden

  function PathIn(f: ManifestFile): Text { f.relativePath }

  function RefIn(f: ManifestFile): Text { f.artifactRef }

  function RoleIn(f: ManifestFile): Role { f.role }

  function LearningText(f: ManifestFile): Text { f.relativePath + [32] + f.inclusionReason }

  const CHECKED_ROLES: seq<Role> := [Attestation, VendorReceipt, BundleRepresentation, Portal]

  /** When each issue is due, by what the manifest says rather than by how it is checked. */
  ghost predicate HasIssue(m: Manifest, rules: Rules, issue: Issue) {
    if IsIdentityIssue(issue) then HasIdentityIssue(m, rules.hash, issue) else HasFileIssue(m, rules, issue)
  }

  predicate IsIdentityIssue(issue: Issue) {
    issue.IdentityExcludesInvalid? || issue.IdentityMismatch? || issue.FinalizationVersionInvalid?
  }

  ghost predicate HasIdentityIssue(m: Manifest, h: HashFn, issue: Issue) {
    match issue
    case IdentityExcludesInvalid => m.identityExcludes != [ID_KEY]
    case IdentityMismatch => RecomputeManifestId(h, m) != Some(m.id)
    case FinalizationVersionInvalid => FinalizationFails(m)
    case _ => false
  }

  predicate FinalizationFails(m: Manifest) {
    m.state.Finalized? && (m.header.manifestVersion < 2 || m.supersedes.None? || m.supersedes == Some(m.id))
  }

  ghost predicate HasFileIssue(m: Manifest, rules: Rules, issue: Issue) {
    Selected(issue, Repeats(m), !RolesPresent(m) || !PathsPresent(m), !RefsResolve(m), IsCircular(m),
             !IncludesItsFiles(m), MentionsLearning(m, rules), HasForbiddenText(m, rules))
  }

  predicate Selected(issue: Issue, repeated: bool, missing: bool, unresolved: bool, circular: bool, uncovered: bool,
                     learning: bool, text: bool) {
    match issue
    case DuplicateFile => repeated
    case RequiredFilesMissing => missing
    case ReferenceUnresolved => unresolved
    case SigningAttachmentCircular => circular
    case CoverageInvalid => uncovered
    case InternalLearningForbidden => learning
    case TextForbidden => text
    case _ => false
  }

  ghost predicate Repeats(m: Manifest) {
    !NoDuplicates(Map(PathIn, m.files)) || !NoDuplicates(Map(RefIn, m.files))
  }

  ghost predicate RefsResolve(m: Manifest) {
    forall ref :: ref in RequiredRefs(m.header.representation) ==> multiset(Map(RefIn, m.files))[ref] == 1
  }

  predicate IsCircular(m: Manifest) {
    var refs := Map(RefIn, m.files);
    m.header.metadata.manifestSignatureRef in refs || m.header.metadata.signingInputRef in refs
  }

  /** The included references are those of the files, each once. */
  ghost predicate IncludesItsFiles(m: Manifest) {
    NoDuplicates(Map(RefIn, m.files)) && multiset(Map(RefIn, m.files)) == multiset(m.header.minimization.included)
  }

  predicate MentionsLearning(m: Manifest, rules: Rules) {
    || (exists f :: f in m.files && rules.internalLearning(LearningText(f)))
    || (exists ref :: ref in m.header.minimization.included && rules.internalLearning(ref))
  }

  predicate HasForbiddenText(m: Manifest, rules: Rules) {
    exists f :: f in m.files && rules.forbiddenText(f.inclusionReason)
  }

  ghost predicate RequiredFilesPresent(m: Manifest) {
    RolesPresent(m) && PathsPresent(m)
  }

  ghost predicate RolesPresent(m: Manifest) {
    var roles := Map(RoleIn, m.files);
    && Attestation in roles && VendorReceipt in roles && BundleRepresentation in roles && Portal in roles
    && multiset(roles)[PortalAsset] >= 2
  }

  ghost predicate PathsPresent(m: Manifest) {
    var paths := Map(PathIn, m.files);
    INDEX_PATH in paths && STYLES_PATH in paths && SCRIPT_PATH in paths &&
      m.header.metadata.instructionsPath == VERIFY_PATH
  }

  function Is<T(==)>(x: T): T -> bool { (y: T) => y == x }

  /** `xs.filter((y) => y === x).length` */
  function Count<T(==,!new)>(xs: seq<T>, x: T): (n: nat)
    ensures n == multiset(xs)[x]
  {
    CountIs(xs, x);
    |Keep(Is(x), xs)|
  }

  lemma {:induction false} CountIs<T(!new)>(xs: seq<T>, x: T)
    ensures |Keep(Is(x), xs)| == multiset(xs)[x]
  {
    if xs != [] {
      CountIs(xs[1..], x);
      assert xs == [xs[0]] + xs[1..];
    }
  }

  /** Four tests of the source settle that two lists hold the same references, each once. */
  lemma CoverageTests(included: seq<Text>, refs: seq<Text>)
    ensures |included| == |refs| && AllDistinct(included) && (forall r :: r in refs ==> r in included) &&
      (forall r :: r in included ==> r in refs)
      <==> NoDuplicates(refs) && multiset(refs) == multiset(included)
  {
    Distinct(included);
    Distinct(refs);
    var a, b := set r | r in included, set r | r in refs;
    if |included| == |refs| && AllDistinct(included) && (forall r :: r in refs ==> r in included) &&
       (forall r :: r in included ==> r in refs) {
      assert a == b;
      InclusionIsPermutation(included, refs);
    }
    if NoDuplicates(refs) && multiset(refs) == multiset(included) {
      SameElements(refs, included);
      assert a == b;
    }
  }

  predicate LacksId(fields: seq<Field>) {
    forall f :: f in fields ==> |f.key| != |ID_KEY|
  }

  lemma PlainLacksId(h: Header)
    ensures LacksId(PlainFields(h))
  {
  }

  lemma StateLacksId(m: Manifest)
    ensures LacksId(StateFields(m)) && LacksId(SupersedesFields(m))
  {
  }

  lemma LacksIdConcat(a: seq<Field>, b: seq<Field>)
    requires LacksId(a) && LacksId(b)
    ensures LacksId(a + b)
  {
  }

  /** The identity field is the only one that its key takes out. */
  lemma WithoutIdentity(m: Manifest)
    ensures Without(ManifestFields(m), [ID_KEY]) == IdentityFields(m)
  {
    IdentityFieldsLackId(m);
    DropId(m.id, IdentityFields(m));
  }

  lemma DropId(id: Text, fields: seq<Field>)
    requires LacksId(fields)
    ensures Without([Field(ID_KEY, Str(id))] + fields, [ID_KEY]) == fields
  {
    DropFirst(Field(ID_KEY, Str(id)), fields, [ID_KEY]);
  }

  lemma IdentityFieldsLackId(m: Manifest)
    ensures LacksId(IdentityFields(m))
  {
    PlainLacksId(m.header);
    StateLacksId(m);
    var h, files, state := HeaderFields(m.header), [Named("files", Arr(Map(FileJson, m.files)))], StateFields(m);
    LacksIdConcat(PlainFields(m.header),
                  [Named("evidence_bundle_representation", RepresentationJson(m.header.representation))]);
    assert LacksId(h);
    LacksIdConcat(h, files);
    LacksIdConcat(h + files, state);
    LacksIdConcat(h + files + state, SupersedesFields(m));
  }

  predicate FilesRepeat(m: Manifest) {
    !AllDistinct(Map(PathIn, m.files)) || !AllDistinct(Map(RefIn, m.files))
  }

  predicate RolesMissing(m: Manifest) {
    var roles := Map(RoleIn, m.files);
    (exists role :: role in CHECKED_ROLES && role !in roles) || Count(roles, PortalAsset) < 2
  }

  predicate PathsMissing(m: Manifest) {
    var paths := Map(PathIn, m.files);
    INDEX_PATH !in paths || STYLES_PATH !in paths || SCRIPT_PATH !in paths ||
      m.header.metadata.instructionsPath != VERIFY_PATH
  }

  predicate RefsUnresolved(m: Manifest) {
    exists ref :: ref in RequiredRefs(m.header.representation) && Count(Map(RefIn, m.files), ref) != 1
  }

  predicate CoverageFails(m: Manifest) {
    var included := m.header.minimization.included;
    var refs := Map(RefIn, m.files);
    || |included| != |refs| || !AllDistinct(included)
    || (exists ref :: ref in refs && ref !in included) || (exists ref :: ref in included && ref !in refs)
  }

  /** A check of the report and the issue it pushes. */
  datatype Check = Check(due: bool, issue: Issue)

  /** The issues pushed by a list of checks, in order. */
  function Reported(checks: seq<Check>): seq<Issue> {
    if checks == [] then []
    else
      var last := checks[|checks| - 1];
      var before := Reported(checks[..|checks| - 1]);
      if last.due then before + [last.issue] else before
  }

  lemma {:induction false} ReportedIff(checks: seq<Check>, issue: Issue)
    ensures issue in Reported(checks) <==> Check(true, issue) in checks
  {
    if checks != [] {
      var n := |checks| - 1;
      ReportedIff(checks[..n], issue);
      assert checks == checks[..n] + [checks[n]];
    }
  }

  lemma {:induction false} ReportedConcat(a: seq<Check>, b: seq<Check>)
    ensures Reported(a + b) == Reported(a) + Reported(b)
  {
    if b == [] {
      assert a + b == a;
    } else {
      var n := |b| - 1;
      assert (a + b)[..|a + b| - 1] == a + b[..n];
      ReportedConcat(a, b[..n]);
    }
  }

  /** What the checks of the identity and the checks of the files are about; missing roles and missing
      paths are two checks of one issue. */
  function IdentityChecks(excludes: bool, mismatch: bool, version: bool): seq<Check> {
    [Check(excludes, IdentityExcludesInvalid), Check(mismatch, IdentityMismatch),
     Check(version, FinalizationVersionInvalid)]
  }

  function FileChecks(repeated: bool, roles: bool, paths: bool, unresolved: bool, circular: bool, uncovered: bool,
                      learning: bool, text: bool): seq<Check> {
    [Check(repeated, DuplicateFile), Check(roles, RequiredFilesMissing), Check(paths, RequiredFilesMissing),
     Check(unresolved, ReferenceUnresolved),
     Check(circular, SigningAttachmentCircular), Check(uncovered, CoverageInvalid),
     Check(learning, InternalLearningForbidden), Check(text, TextForbidden)]
  }

  ghost function DueIdentityChecks(m: Manifest, h: HashFn): seq<Check> {
    IdentityChecks(m.identityExcludes != [ID_KEY], RecomputeManifestId(h, m) != Some(m.id), FinalizationFails(m))
  }

  ghost function DueFileChecks(m: Manifest, rules: Rules): seq<Check> {
    FileChecks(Repeats(m), !RolesPresent(m), !PathsPresent(m), !RefsResolve(m), IsCircular(m), !IncludesItsFiles(m),
               MentionsLearning(m, rules), HasForbiddenText(m, rules))
  }

  /** `staticBundleManifestSemanticIssues`: reports exactly the issues that are due, in order. */
  method StaticBundleManifestSemanticIssues(m: Manifest, rules: Rules) returns (issues: seq<Issue>)
    ensures issues == Reported(DueIdentityChecks(m, rules.hash) + DueFileChecks(m, rules))
    ensures forall issue :: issue in issues <==> HasIssue(m, rules, issue)
  {
    var mismatch := IdentityDiffers(m, rules.hash);
    issues := Reported(IdentityChecks(m.identityExcludes != [ID_KEY], mismatch, FinalizationFails(m)));
    var fileIssues := FileIssues(m, rules);
    issues := issues + fileIssues;
    ReportedConcat(DueIdentityChecks(m, rules.hash), DueFileChecks(m, rules));
    forall issue ensures issue in issues <==> HasIssue(m, rules, issue) {
      DueIsHas(m, rules, issue);
    }
  }

  lemma DueIsHas(m: Manifest, rules: Rules, issue: Issue)
    ensures issue in Reported(DueIdentityChecks(m, rules.hash)) + Reported(DueFileChecks(m, rules)) <==>
      HasIssue(m, rules, issue)
  {
    DueIdentityIssue(m, rules.hash, issue);
    DueFileIssue(m, rules, issue);
  }

  lemma DueIdentityIssue(m: Manifest, h: HashFn, issue: Issue)
    ensures issue in Reported(DueIdentityChecks(m, h)) <==> IsIdentityIssue(issue) && HasIdentityIssue(m, h, issue)
  {
    ReportedIff(DueIdentityChecks(m, h), issue);
    IdentityChecksSelect(m.identityExcludes != [ID_KEY], RecomputeManifestId(h, m) != Some(m.id), FinalizationFails(m),
                         issue);
  }

  lemma DueFileIssue(m: Manifest, rules: Rules, issue: Issue)
    ensures issue in Reported(DueFileChecks(m, rules)) <==> HasFileIssue(m, rules, issue)
  {
    ReportedIff(DueFileChecks(m, rules), issue);
    FileChecksSelect(Repeats(m), !RolesPresent(m), !PathsPresent(m), !RefsResolve(m), IsCircular(m),
                     !IncludesItsFiles(m), MentionsLearning(m, rules), HasForbiddenText(m, rules), issue);
  }

  lemma IdentityChecksSelect(excludes: bool, mismatch: bool, version: bool, issue: Issue)
    ensures Check(true, issue) in IdentityChecks(excludes, mismatch, version) <==>
      (excludes && issue.IdentityExcludesInvalid?) || (mismatch && issue.IdentityMismatch?) ||
        (version && issue.FinalizationVersionInvalid?)
  {
  }

  lemma FileChecksSelect(repeated: bool, roles: bool, paths: bool, unresolved: bool, circular: bool, uncovered: bool,
                         learning: bool, text: bool, issue: Issue)
    ensures Check(true, issue) in FileChecks(repeated, roles, paths, unresolved, circular, uncovered, learning, text)
      <==> Selected(issue, repeated, roles || paths, unresolved, circular, uncovered, learning, text)
  {
  }

  method IdentityDiffers(m: Manifest, h: HashFn) returns (differs: bool)
    ensures differs == (RecomputeManifestId(h, m) != Some(m.id))
  {
    var identityInput := Without(ManifestFields(m), [ID_KEY]);
    WithoutIdentity(m);
    var identity := ComputeCanonicalSha256Id(h, Obj(identityInput));
    return identity.Err? || identity.value != m.id;
  }

  /** The checks of the files and of what refers to them. */
  method FileIssues(m: Manifest, rules: Rules) returns (issues: seq<Issue>)
    ensures issues == Reported(DueFileChecks(m, rules))
  {
    DuplicateTest(m);
    RequiredFilesTest(m);
    UnresolvedTest(m);
    CoverageTest(m);
    issues := Reported(FileChecks(FilesRepeat(m), RolesMissing(m), PathsMissing(m), RefsUnresolved(m), IsCircular(m),
                                  CoverageFails(m), MentionsLearning(m, rules), HasForbiddenText(m, rules)));
  }

  // The tests of the source decide the conditions of the issues.

  lemma DuplicateTest(m: Manifest)
    ensures FilesRepeat(m) == Repeats(m)
  {
    Distinct(Map(PathIn, m.files));
    Distinct(Map(RefIn, m.files));
  }

  lemma RequiredFilesTest(m: Manifest)
    ensures RolesMissing(m) == !RolesPresent(m) && PathsMissing(m) == !PathsPresent(m)
  {
    var roles := Map(RoleIn, m.files);
    assert CHECKED_ROLES[0] == Attestation && CHECKED_ROLES[1] == VendorReceipt &&
      CHECKED_ROLES[2] == BundleRepresentation && CHECKED_ROLES[3] == Portal;
    assert forall role :: role in CHECKED_ROLES <==> role in {Attestation, VendorReceipt, BundleRepresentation, Portal};
  }

  lemma UnresolvedTest(m: Manifest)
    ensures RefsUnresolved(m) == !RefsResolve(m)
  {
  }

  lemma CoverageTest(m: Manifest)
    ensures CoverageFails(m) == !IncludesItsFiles(m)
  {
    CoverageTests(m.header.minimization.included, Map(RefIn, m.files));
  }
}
