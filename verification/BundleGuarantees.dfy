/** The producer against the independent checker, and what does not matter to a manifest. */
module BundleGuarantees {
  import opened Results
  import opened Sorting
  import opened Text
  import opened Json
  import opened CanonicalIdentity
  import opened ProtocolShapes
  import opened StaticBundle
  import opened BundleSemantics
  import opened BundleTheorems

  /** `prepareSignedStaticBundle`, up to the signing request: it prepares a manifest exactly for the
      acceptable inputs, and never throws on those. */
  method PrepareSignedStaticBundle(i: GenerationInput, rules: Rules) returns (r: Result<Manifest, Outcome>)
    ensures r.Ok? <==> Acceptable(i, rules)
    ensures r.Ok? ==> PreparedManifest(i, rules.hash) == Some(r.value)
    ensures r.Err? ==> ReportsFirstFailure(i, rules, r.error)
  {
    var outcome := ValidateGenerationInput(i, rules);
    if !outcome.Accepted? {
      return Err(outcome);
    }
    var m := IdentityDocument(i);
    AcceptedIsPrepared(i, rules);
    var id := Identify(rules.hash, m);
    return Ok(m.(id := id));
  }

  method Identify(h: HashFn, m: Manifest) returns (id: Text)
    requires RecomputeManifestId(h, m).Some?
    ensures RecomputeManifestId(h, m) == Some(id)
  {
    var digest := ComputeCanonicalSha256Id(h, Obj(IdentityFields(m)));
    id := digest.value;
  }

  lemma AcceptedIsPrepared(i: GenerationInput, rules: Rules)
    requires Acceptable(i, rules)
    ensures PreparedManifest(i, rules.hash).Some?
  {
    DocumentCanonicalizes(i);
  }

  // ---------------------------------------------------------------- duplicates and permutations

  lemma {:induction false} OnceEach<T(!new)>(xs: seq<T>, x: T)
    requires NoDuplicates(xs)
    ensures multiset(xs)[x] <= 1
  {
    if xs != [] {
      OnceEach(xs[1..], x);
      assert xs == [xs[0]] + xs[1..];
    }
  }

  lemma PermutedDistinct<T(!new)>(xs: seq<T>, ys: seq<T>)
    requires multiset(xs) == multiset(ys) && NoDuplicates(xs)
    ensures NoDuplicates(ys)
  {
    forall i, j | 0 <= i < j < |ys| ensures ys[i] != ys[j] {
      OnceEach(xs, ys[i]);
      if ys[i] == ys[j] {
        TwiceInMultiset(ys, i, j);
      }
    }
  }

  lemma PermutedAllDistinct<T(!new)>(xs: seq<T>, ys: seq<T>)
    requires multiset(xs) == multiset(ys)
    ensures AllDistinct(xs) <==> AllDistinct(ys)
  {
    Distinct(xs);
    Distinct(ys);
    if NoDuplicates(xs) { PermutedDistinct(xs, ys); }
    if NoDuplicates(ys) { PermutedDistinct(ys, xs); }
  }

  lemma PermutedSet<T(!new)>(xs: seq<T>, ys: seq<T>)
    requires multiset(xs) == multiset(ys)
    ensures (set x | x in xs) == (set x | x in ys)
  {
    SameElements(xs, ys);
  }

  lemma PartsDisjoint<T(!new)>(a: seq<T>, b: seq<T>, c: seq<T>, d: seq<T>, e: seq<T>)
    requires NoDuplicates(a + b + c + d + e)
    ensures forall x :: x in b ==> x !in d
  {
    var all := a + b + c + d + e;
    forall j, k | 0 <= j < |b| && 0 <= k < |d| ensures b[j] != d[k] {
      assert all[|a| + j] == b[j];
      assert all[|a| + |b| + |c| + k] == d[k];
    }
  }

  // ---------------------------------------------------------------- the files of the manifest

  lemma FilesAsGiven(i: GenerationInput)
    ensures var files := IdentityDocument(i).files;
      && multiset(files) == multiset(Map(FileOf, i.files))
      && multiset(Map(RefIn, files)) == multiset(Map(RefOf, i.files))
      && multiset(Map(PathIn, files)) == multiset(Map(PathOf, i.files))
      && multiset(Map(RoleIn, files)) == multiset(Map(RoleOf, i.files))
  {
    var files, plain := Sort(Map(FileOf, i.files), PathLt), Map(FileOf, i.files);
    MapPermutation(RefIn, files, plain);
    MapPermutation(PathIn, files, plain);
    MapPermutation(RoleIn, files, plain);
    assert Map(RefIn, plain) == Map(RefOf, i.files);
    assert Map(PathIn, plain) == Map(PathOf, i.files);
    assert Map(RoleIn, plain) == Map(RoleOf, i.files);
  }

  /** A file of the manifest is a file of the input, and conversely. */
  lemma FileMembers(i: GenerationInput)
    ensures forall f :: f in IdentityDocument(i).files ==> exists g :: g in i.files && g.file == f
    ensures forall g :: g in i.files ==> g.file in IdentityDocument(i).files
  {
    FilesAsGiven(i);
    var files, plain := IdentityDocument(i).files, Map(FileOf, i.files);
    SameElements(files, plain);
    forall f | f in files ensures exists g :: g in i.files && g.file == f {
      assert f in plain;
      assert i.files[Position(plain, f)].file == f;
    }
    forall g | g in i.files ensures g.file in files {
      assert plain[Position(i.files, g)] == g.file;
    }
  }

  lemma PathsDistinct(i: GenerationInput, rules: Rules)
    requires NamesAreDistinct(i, rules)
    ensures NoDuplicates(Map(PathOf, i.files)) && NoDuplicates(Map(RefOf, i.files))
    ensures NoDuplicates(Map(PathIn, IdentityDocument(i).files)) && NoDuplicates(Map(RefIn, IdentityDocument(i).files))
  {
    var normal, paths := Map(NormalPath(rules), i.files), Map(PathOf, i.files);
    Distinct(normal);
    Distinct(Map(RefOf, i.files));
    forall j, k | 0 <= j < k < |paths| ensures paths[j] != paths[k] {
      assert normal[j] != normal[k];
    }
    FilesAsGiven(i);
    PermutedDistinct(paths, Map(PathIn, IdentityDocument(i).files));
    PermutedDistinct(Map(RefOf, i.files), Map(RefIn, IdentityDocument(i).files));
  }

  lemma {:induction false} RoleAtPath(files: seq<ManifestFile>, f: ManifestFile)
    requires NoDuplicates(Map(PathIn, files)) && f in files
    ensures LastRole(files, f.relativePath) == Some(f.role)
  {
    var last := |files| - 1;
    var paths := Map(PathIn, files);
    if files[last].relativePath == f.relativePath {
      assert paths[Position(files, f)] == paths[last];
    } else {
      var rest := files[..last];
      forall j, k | 0 <= j < k < |rest| ensures Map(PathIn, rest)[j] != Map(PathIn, rest)[k] {
        assert paths[j] != paths[k];
      }
      RoleAtPath(rest, f);
    }
  }

  lemma HasFileRole(i: GenerationInput, rules: Rules, path: Text, role: Role)
    requires NamesAreDistinct(i, rules) && HasFile(i.files, path, role)
    ensures LastRole(IdentityDocument(i).files, path) == Some(role)
    ensures path in Map(PathIn, IdentityDocument(i).files)
  {
    var g :| g in i.files && g.file.relativePath == path && g.file.role == role;
    var files := IdentityDocument(i).files;
    FileMembers(i);
    PathsDistinct(i, rules);
    RoleAtPath(files, g.file);
    assert Map(PathIn, files)[Position(files, g.file)] == path;
  }

  // ---------------------------------------------------------------- the manifest is a protocol manifest

  lemma ClonesAreSafe(h: Header, rules: Rules)
    requires RepresentationIsSafe(h.representation) && MinimizationIsSafe(h.minimization, rules)
    ensures RepresentationIsSafe(CloneRepresentation(h.representation)) &&
      MinimizationIsSafe(CloneMinimization(h.minimization), rules)
  {
    ClonedRefsAreSafe(h.representation);
    ClonedListsAreSafe(h.minimization, rules);
  }

  lemma ClonedRefs(r: Representation)
    ensures multiset(RequiredRefs(CloneRepresentation(r))) == multiset(RequiredRefs(r))
  {
    var core := [r.bundleManifestRef, r.signatureRef, r.identityRef];
    assert RequiredRefs(CloneRepresentation(r)) == core + SortedUnique(r.payloadRefs);
    assert RequiredRefs(r) == core + r.payloadRefs;
  }

  lemma ClonedRefsAreSafe(r: Representation)
    requires RepresentationIsSafe(r)
    ensures RepresentationIsSafe(CloneRepresentation(r))
  {
    ClonedRefs(r);
    SameElements(SortedUnique(r.payloadRefs), r.payloadRefs);
    PermutedAllDistinct(RequiredRefs(CloneRepresentation(r)), RequiredRefs(r));
  }

  lemma ListSafe(a: seq<Text>, b: seq<Text>, rules: Rules)
    requires multiset(a) == multiset(b) && (forall ref :: ref in a ==> rules.meaningful(ref)) && AllDistinct(a)
    ensures (forall ref :: ref in b ==> rules.meaningful(ref)) && AllDistinct(b)
  {
    SameElements(a, b);
    PermutedAllDistinct(a, b);
  }

  lemma SameListsSafe(a: Minimization, b: Minimization, rules: Rules)
    requires SameLists(a, b) && MinimizationIsSafe(a, rules)
    ensures MinimizationIsSafe(b, rules)
  {
    assert a.included in [a.included, a.excluded, a.deleted, a.neverCollected] &&
      a.excluded in [a.included, a.excluded, a.deleted, a.neverCollected];
    assert a.deleted in [a.included, a.excluded, a.deleted, a.neverCollected] &&
      a.neverCollected in [a.included, a.excluded, a.deleted, a.neverCollected];
    ListSafe(a.included, b.included, rules);
    ListSafe(a.excluded, b.excluded, rules);
    ListSafe(a.deleted, b.deleted, rules);
    ListSafe(a.neverCollected, b.neverCollected, rules);
    PermutedAllDistinct(Dispositions(a), Dispositions(b));
  }

  lemma ClonedListsAreSafe(m: Minimization, rules: Rules)
    requires MinimizationIsSafe(m, rules)
    ensures MinimizationIsSafe(CloneMinimization(m), rules)
  {
    SameListsSafe(m, CloneMinimization(m), rules);
  }

  lemma ManifestFilesAreSafe(i: GenerationInput, rules: Rules)
    requires NamesAreDistinct(i, rules) && FilesAreSafe(i, rules) && PortalIsComplete(i)
    ensures var files := IdentityDocument(i).files;
      && |files| >= 6 && (forall f :: f in files ==> ManifestFileIsSafe(f, rules))
      && LastRole(files, INDEX_PATH) == Some(Portal) && LastRole(files, STYLES_PATH) == Some(PortalAsset)
      && LastRole(files, SCRIPT_PATH) == Some(PortalAsset)
  {
    FileMembers(i);
    FilesAsGiven(i);
    HasFileRole(i, rules, INDEX_PATH, Portal);
    HasFileRole(i, rules, STYLES_PATH, PortalAsset);
    HasFileRole(i, rules, SCRIPT_PATH, PortalAsset);
    forall f | f in IdentityDocument(i).files ensures ManifestFileIsSafe(f, rules) {
      var g :| g in i.files && g.file == f;
      assert FileInputIsSafe(g, rules);
    }
  }

  lemma DocumentIsProtocolManifest(i: GenerationInput, rules: Rules, id: Text)
    requires IdentitiesAreBound(i, rules) && FilesAreComplete(i, rules) && IsPrefixedSha256(id)
    ensures IsProtocolManifest(IdentityDocument(i).(id := id), rules)
  {
    ClonesAreSafe(i.header, rules);
    ManifestFilesAreSafe(i, rules);
  }

  /** What generation prepares passes the protocol test of a manifest. */
  lemma PreparedIsProtocolManifest(i: GenerationInput, rules: Rules)
    requires Acceptable(i, rules)
    ensures PreparedManifest(i, rules.hash).Some? && IsProtocolManifest(PreparedManifest(i, rules.hash).value, rules)
  {
    AcceptedIsPrepared(i, rules);
    IdentityIsDigest(rules.hash, Canon(Obj(IdentityFields(IdentityDocument(i)))));
    DocumentIsProtocolManifest(i, rules, PreparedManifest(i, rules.hash).value.id);
  }

  // ---------------------------------------------------------------- the producer satisfies the checker

  lemma PortalAssetsTwice(i: GenerationInput, rules: Rules)
    requires NamesAreDistinct(i, rules)
    requires HasFile(i.files, STYLES_PATH, PortalAsset) && HasFile(i.files, SCRIPT_PATH, PortalAsset)
    ensures multiset(Map(RoleOf, i.files))[PortalAsset] >= 2
  {
    var a :| a in i.files && a.file.relativePath == STYLES_PATH && a.file.role == PortalAsset;
    var b :| b in i.files && b.file.relativePath == SCRIPT_PATH && b.file.role == PortalAsset;
    var j, k := Position(i.files, a), Position(i.files, b);
    assert |STYLES_PATH| != |SCRIPT_PATH|;
    TwiceInMultiset(Map(RoleOf, i.files), if j < k then j else k, if j < k then k else j);
  }

  lemma AcceptedFilesPresent(i: GenerationInput, rules: Rules)
    requires NamesAreDistinct(i, rules) && PortalIsComplete(i) && MetadataIsSafe(i.header.metadata)
    ensures RequiredFilesPresent(IdentityDocument(i))
  {
    var m := IdentityDocument(i);
    FilesAsGiven(i);
    SameElements(Map(RoleIn, m.files), Map(RoleOf, i.files));
    PortalAssetsTwice(i, rules);
    HasFileRole(i, rules, INDEX_PATH, Portal);
    HasFileRole(i, rules, STYLES_PATH, PortalAsset);
    HasFileRole(i, rules, SCRIPT_PATH, PortalAsset);
  }

  lemma AcceptedRefsResolve(i: GenerationInput)
    requires PayloadRefsResolve(i)
    ensures RefsResolve(IdentityDocument(i))
  {
    FilesAsGiven(i);
    ClonedRefs(i.header.representation);
    SameElements(RequiredRefs(IdentityDocument(i).header.representation), RequiredRefs(i.header.representation));
  }

  /** The included references are the references of the files, each once. */
  lemma IncludedAreFiles(i: GenerationInput, rules: Rules)
    requires NamesAreDistinct(i, rules) && MinimizationIsSafe(i.header.minimization, rules) && FilesAreCovered(i)
    ensures multiset(i.header.minimization.included) == multiset(Map(RefOf, i.files))
  {
    var m := i.header.minimization;
    PathsDistinct(i, rules);
    assert m.included in [m.included, m.excluded, m.deleted, m.neverCollected];
    var refs := Map(RefOf, i.files);
    forall ref | ref in refs ensures ref in m.included {
      var f := i.files[Position(refs, ref)];
      assert f in i.files;
    }
    InclusionIsPermutation(refs, m.included);
  }

  lemma AcceptedIncludesItsFiles(i: GenerationInput, rules: Rules)
    requires NamesAreDistinct(i, rules) && MinimizationIsSafe(i.header.minimization, rules) && FilesAreCovered(i)
    ensures IncludesItsFiles(IdentityDocument(i))
  {
    IncludedAreFiles(i, rules);
    FilesAsGiven(i);
    PathsDistinct(i, rules);
  }

  lemma AcceptedIsNotCircular(i: GenerationInput)
    requires NoOuterAttachment(i)
    ensures !IsCircular(IdentityDocument(i))
  {
    var m := IdentityDocument(i);
    FileMembers(i);
    var refs := Map(RefIn, m.files);
    forall ref | ref in refs ensures ref != m.header.metadata.manifestSignatureRef &&
      ref != m.header.metadata.signingInputRef {
      var f := m.files[Position(refs, ref)];
      assert f in m.files;
      var g :| g in i.files && g.file == f;
      assert !IsOuterAttachment(g, i.header.metadata);
    }
  }

  predicate InputMentionsLearning(i: GenerationInput, rules: Rules) {
    || (exists f :: f in i.files && rules.internalLearning(LearningText(f.file)))
    || (exists ref :: ref in i.header.minimization.included && rules.internalLearning(ref))
  }

  predicate InputHasForbiddenText(i: GenerationInput, rules: Rules) {
    exists f :: f in i.files && rules.forbiddenText(f.file.inclusionReason)
  }

  lemma LearningAsGiven(i: GenerationInput, rules: Rules)
    ensures MentionsLearning(IdentityDocument(i), rules) == InputMentionsLearning(i, rules)
    ensures HasForbiddenText(IdentityDocument(i), rules) == InputHasForbiddenText(i, rules)
  {
    FileMembers(i);
    SameElements(SortedUnique(i.header.minimization.included), i.header.minimization.included);
    var m := IdentityDocument(i);
    if f :| f in m.files && rules.internalLearning(LearningText(f)) {
      var g :| g in i.files && g.file == f;
    }
    if f :| f in m.files && rules.forbiddenText(f.inclusionReason) {
      var g :| g in i.files && g.file == f;
    }
  }

  /** The issues of a file list do not look at the identity. */
  lemma IdentityIsNoFileIssue(m: Manifest, id: Text, rules: Rules, issue: Issue)
    ensures HasFileIssue(m.(id := id), rules, issue) == HasFileIssue(m, rules, issue)
  {
    assert RequiredFilesPresent(m.(id := id)) == RequiredFilesPresent(m);
    assert RefsResolve(m.(id := id)) == RefsResolve(m);
    assert IncludesItsFiles(m.(id := id)) == IncludesItsFiles(m);
    assert MentionsLearning(m.(id := id), rules) == MentionsLearning(m, rules);
    assert HasForbiddenText(m.(id := id), rules) == HasForbiddenText(m, rules);
  }

  lemma AcceptedFileIssues(i: GenerationInput, rules: Rules, issue: Issue)
    requires NamesAreDistinct(i, rules) && FilesAreComplete(i, rules)
    ensures HasFileIssue(IdentityDocument(i), rules, issue) <==>
      (issue.InternalLearningForbidden? && InputMentionsLearning(i, rules)) ||
        (issue.TextForbidden? && InputHasForbiddenText(i, rules))
  {
    AcceptedFileFacts(i, rules);
    LearningAsGiven(i, rules);
    OnlyTextIssues(IdentityDocument(i), rules, issue);
  }

  lemma OnlyTextIssues(m: Manifest, rules: Rules, issue: Issue)
    requires !Repeats(m) && RequiredFilesPresent(m) && RefsResolve(m) && !IsCircular(m) && IncludesItsFiles(m)
    ensures HasFileIssue(m, rules, issue) <==>
      (issue.InternalLearningForbidden? && MentionsLearning(m, rules)) ||
        (issue.TextForbidden? && HasForbiddenText(m, rules))
  {
    OnlyLastTwo(issue, MentionsLearning(m, rules), HasForbiddenText(m, rules));
  }

  lemma OnlyLastTwo(issue: Issue, learning: bool, text: bool)
    ensures Selected(issue, false, false, false, false, false, learning, text) <==>
      (issue.InternalLearningForbidden? && learning) || (issue.TextForbidden? && text)
  {
  }

  lemma AcceptedFileFacts(i: GenerationInput, rules: Rules)
    requires NamesAreDistinct(i, rules) && FilesAreComplete(i, rules)
    ensures var m := IdentityDocument(i);
      !Repeats(m) && RequiredFilesPresent(m) && RefsResolve(m) && !IsCircular(m) && IncludesItsFiles(m)
  {
    PathsDistinct(i, rules);
    AcceptedFilesPresent(i, rules);
    AcceptedRefsResolve(i);
    AcceptedIsNotCircular(i);
    AcceptedIncludesItsFiles(i, rules);
  }

  lemma IdentityIsNotHashed(m: Manifest, id: Text)
    ensures IdentityFields(m.(id := id)) == IdentityFields(m)
  {
  }

  lemma PreparedHasItsIdentity(i: GenerationInput, h: HashFn)
    requires PreparedManifest(i, h).Some?
    ensures var m := PreparedManifest(i, h).value; RecomputeManifestId(h, m) == Some(m.id)
  {
    IdentityIsNotHashed(IdentityDocument(i), PreparedManifest(i, h).value.id);
  }

  lemma PreparedIdentityIssues(i: GenerationInput, h: HashFn, issue: Issue)
    requires PreparedManifest(i, h).Some?
    ensures !HasIdentityIssue(PreparedManifest(i, h).value, h, issue)
  {
    PreparedHasItsIdentity(i, h);
  }

  /** Whatever generation accepts, the checker has nothing to say about the manifest but internal-learning
      references and forbidden reasons, and it reports these exactly when the input has them. */
  lemma ProducerSatisfiesChecker(i: GenerationInput, rules: Rules, issue: Issue)
    requires Acceptable(i, rules)
    ensures PreparedManifest(i, rules.hash).Some?
    ensures HasIssue(PreparedManifest(i, rules.hash).value, rules, issue) <==>
      (issue.InternalLearningForbidden? && InputMentionsLearning(i, rules)) ||
        (issue.TextForbidden? && InputHasForbiddenText(i, rules))
  {
    AcceptedIsPrepared(i, rules);
    PreparedIssues(i, rules, issue);
  }

  lemma PreparedIssues(i: GenerationInput, rules: Rules, issue: Issue)
    requires PreparedManifest(i, rules.hash).Some? && NamesAreDistinct(i, rules) && FilesAreComplete(i, rules)
    ensures HasIssue(PreparedManifest(i, rules.hash).value, rules, issue) <==>
      (issue.InternalLearningForbidden? && InputMentionsLearning(i, rules)) ||
        (issue.TextForbidden? && InputHasForbiddenText(i, rules))
  {
    if IsIdentityIssue(issue) {
      PreparedIdentityIssues(i, rules.hash, issue);
    } else {
      AcceptedFileIssues(i, rules, issue);
      IdentityIsNoFileIssue(IdentityDocument(i), PreparedManifest(i, rules.hash).value.id, rules, issue);
    }
  }

  // ---------------------------------------------------------------- dispositions

  /** In an accepted input: the file references are the included ones, no reference has two dispositions,
      each deleted reference has exactly one deletion record, and no file has a deleted digest. */
  lemma AcceptedDispositions(i: GenerationInput, rules: Rules)
    requires Acceptable(i, rules)
    ensures var m := i.header.minimization;
      && (forall ref :: ref in m.included <==> ref in Map(RefOf, i.files))
      && (forall ref :: ref in m.included ==> ref !in m.excluded && ref !in m.deleted && ref !in m.neverCollected)
      && (forall ref :: ref in m.excluded ==> ref !in m.deleted && ref !in m.neverCollected)
      && (forall ref :: ref in m.deleted ==> ref !in m.neverCollected)
    ensures multiset(i.header.minimization.deleted) == multiset(Map(EvidenceIdOf, i.deletionRecords))
    ensures forall d, digest, f :: d in i.deletionRecords && digest in d.digests && f in i.files ==>
      digest != f.file.digest
  {
    IncludedAreFiles(i, rules);
    SameElements(i.header.minimization.included, Map(RefOf, i.files));
    ListsDisjoint(i.header.minimization, rules);
    DeletionsMatch(i, rules);
  }

  lemma ListsDisjoint(m: Minimization, rules: Rules)
    requires MinimizationIsSafe(m, rules)
    ensures forall ref :: ref in m.included ==> ref !in m.excluded && ref !in m.deleted && ref !in m.neverCollected
    ensures forall ref :: ref in m.excluded ==> ref !in m.deleted && ref !in m.neverCollected
    ensures forall ref :: ref in m.deleted ==> ref !in m.neverCollected
  {
    var a, b, c, d := m.included, m.excluded, m.deleted, m.neverCollected;
    Distinct(Dispositions(m));
    assert Dispositions(m) == [] + a + [] + b + (c + d) == [] + a + b + c + d == [] + a + (b + c) + d + [];
    assert Dispositions(m) == a + b + [] + c + d == a + b + c + d + [] == a + b + c + [] + d;
    assert Dispositions(m) == (a + b) + c + [] + d + [];
    PartsDisjoint([], a, [], b, c + d);
    PartsDisjoint([], a, b, c, d);
    PartsDisjoint([], a, b + c, d, []);
    PartsDisjoint(a, b, [], c, d);
    PartsDisjoint(a, b, c, d, []);
    PartsDisjoint(a + b, c, [], d, []);
  }

  lemma DeletionsMatch(i: GenerationInput, rules: Rules)
    requires MinimizationIsSafe(i.header.minimization, rules) && DeletionsAreCovered(i)
    ensures multiset(i.header.minimization.deleted) == multiset(Map(EvidenceIdOf, i.deletionRecords))
  {
    var m := i.header.minimization;
    assert m.deleted in [m.included, m.excluded, m.deleted, m.neverCollected];
    var ids := Map(EvidenceIdOf, i.deletionRecords);
    Distinct(ids);
    InclusionIsPermutation(ids, m.deleted);
  }
}
