/** Lists that stand for sets: their order changes neither acceptance nor the manifest. */
module BundleOrder {
  import opened Sorting
  import opened Text
  import opened Json
  import opened StaticBundle
  import opened BundleTheorems
  import opened BundleGuarantees

  /** The inputs differ at most in the order of the files, of the deletion records and of the four
      minimization lists. */
  ghost predicate Reordered(i: GenerationInput, j: GenerationInput) {
    && j == i.(files := j.files, deletionRecords := j.deletionRecords,
               header := i.header.(minimization := j.header.minimization))
    && multiset(i.files) == multiset(j.files)
    && multiset(i.deletionRecords) == multiset(j.deletionRecords)
    && SameLists(i.header.minimization, j.header.minimization)
  }

  lemma ReorderedBack(i: GenerationInput, j: GenerationInput)
    requires Reordered(i, j)
    ensures Reordered(j, i)
  {
  }

  lemma HeaderIsAsLarge(i: GenerationInput, j: GenerationInput)
    requires Reordered(i, j)
    ensures Smaller(HeaderFields(j.header), HeaderFields(i.header))
  {
    var r := [Named("evidence_bundle_representation", RepresentationJson(i.header.representation))];
    var m, n := [Named("minimization_disposition", MinimizationJson(j.header.minimization))],
      [Named("minimization_disposition", MinimizationJson(i.header.minimization))];
    PermutedMinimization(j.header.minimization, i.header.minimization);
    SmallerObject("minimization_disposition", MinimizationFields(j.header.minimization),
                  MinimizationFields(i.header.minimization));
    SamePlain(i, j);
    SmallerItself(PlainFields(i.header) + r);
    SmallerConcat(PlainFields(i.header) + r, PlainFields(i.header) + r, m, n);
  }

  lemma SamePlain(i: GenerationInput, j: GenerationInput)
    requires Reordered(i, j)
    ensures PlainFields(j.header) == PlainFields(i.header) && InputOnlyFields(j) == InputOnlyFields(i)
  {
  }

  lemma ListIsAsLarge<T>(key: string, f: T -> Json, xs: seq<T>, ys: seq<T>)
    requires multiset(xs) == multiset(ys)
    ensures Smaller([Named(key, Arr(Map(f, xs)))], [Named(key, Arr(Map(f, ys)))])
  {
    MapPermutation(f, xs, ys);
    CountsIgnoreOrder(Map(f, xs), Map(f, ys));
    SmallerArray(key, Map(f, xs), Map(f, ys));
  }

  lemma StillStrictJson(i: GenerationInput, j: GenerationInput)
    requires Reordered(i, j) && StrictJson(i)
    ensures StrictJson(j)
  {
    var a, b := [Named("files", Arr(Map(FileInputJson, j.files)))], [Named("files", Arr(Map(FileInputJson, i.files)))];
    var c, d := [Named("deletion_records", Arr(Map(DeletionJson, j.deletionRecords)))],
      [Named("deletion_records", Arr(Map(DeletionJson, i.deletionRecords)))];
    HeaderIsAsLarge(i, j);
    ListIsAsLarge("files", FileInputJson, j.files, i.files);
    ListIsAsLarge("deletion_records", DeletionJson, j.deletionRecords, i.deletionRecords);
    SamePlain(i, j);
    SmallerItself(InputOnlyFields(i));
    SmallerConcat(HeaderFields(j.header), HeaderFields(i.header), a, b);
    SmallerConcat(HeaderFields(j.header) + a, HeaderFields(i.header) + b, c, d);
    SmallerConcat(HeaderFields(j.header) + a + c, HeaderFields(i.header) + b + d, InputOnlyFields(j),
                  InputOnlyFields(i));
    SmallerCanonicalizes(HeaderFields(j.header) + a + c + InputOnlyFields(j),
                         HeaderFields(i.header) + b + d + InputOnlyFields(i));
  }

  lemma StillDistinctNames(i: GenerationInput, j: GenerationInput, rules: Rules)
    requires Reordered(i, j) && NamesAreDistinct(i, rules)
    ensures NamesAreDistinct(j, rules)
  {
    MapPermutation(NormalPath(rules), i.files, j.files);
    MapPermutation(RefOf, i.files, j.files);
    PermutedAllDistinct(Map(NormalPath(rules), i.files), Map(NormalPath(rules), j.files));
    PermutedAllDistinct(Map(RefOf, i.files), Map(RefOf, j.files));
    SameElements(i.files, j.files);
  }

  lemma StillBound(i: GenerationInput, j: GenerationInput, rules: Rules)
    requires Reordered(i, j) && IdentitiesAreBound(i, rules)
    ensures IdentitiesAreBound(j, rules)
  {
    StillStrictJson(i, j);
    StillDistinctNames(i, j, rules);
    SameElements(i.files, j.files);
  }

  lemma StillPermitted(i: GenerationInput, j: GenerationInput, rules: Rules)
    requires Reordered(i, j) && FilesArePermitted(i, rules)
    ensures FilesArePermitted(j, rules)
  {
    SameElements(i.files, j.files);
    assert forall f :: FileRefusal(f, i, rules) == FileRefusal(f, j, rules);
  }

  lemma StillCompletePortal(i: GenerationInput, j: GenerationInput)
    requires Reordered(i, j) && PortalIsComplete(i)
    ensures PortalIsComplete(j)
  {
    SameElements(i.files, j.files);
    MapPermutation(RoleOf, i.files, j.files);
    SameElements(Map(RoleOf, i.files), Map(RoleOf, j.files));
  }

  lemma StillCovered(i: GenerationInput, j: GenerationInput)
    requires Reordered(i, j) && FilesAreCovered(i)
    ensures FilesAreCovered(j)
  {
    SameElements(i.files, j.files);
    PermutedSet(i.header.minimization.included, j.header.minimization.included);
  }

  lemma StillComplete(i: GenerationInput, j: GenerationInput, rules: Rules)
    requires Reordered(i, j) && FilesAreComplete(i, rules)
    ensures FilesAreComplete(j, rules)
  {
    StillCompletePortal(i, j);
    SameElements(i.files, j.files);
    MapPermutation(RefOf, i.files, j.files);
    SameListsSafe(i.header.minimization, j.header.minimization, rules);
    StillCovered(i, j);
  }

  /** The content of a file is not compared with the minimization. */
  lemma ContentIgnoresLists(f: FileInput, h: Header, m: Minimization, rules: Rules)
    ensures FileContentMatchesRole(f, h.(minimization := m), rules) == FileContentMatchesRole(f, h, rules)
  {
  }

  lemma StillMatching(i: GenerationInput, j: GenerationInput, rules: Rules)
    requires Reordered(i, j) && ContentsMatch(i, rules)
    ensures ContentsMatch(j, rules)
  {
    SameElements(i.files, j.files);
    forall f | f in j.files ensures FileContentMatchesRole(f, j.header, rules).Matches? {
      ContentIgnoresLists(f, i.header, j.header.minimization, rules);
    }
  }

  lemma StillSettled(i: GenerationInput, j: GenerationInput, rules: Rules)
    requires Reordered(i, j) && DeletionsAreSettled(i, rules)
    ensures DeletionsAreSettled(j, rules)
  {
    var m, n := i.header.minimization, j.header.minimization;
    SameElements(i.deletionRecords, j.deletionRecords);
    SameElements(i.files, j.files);
    MapPermutation(EvidenceIdOf, i.deletionRecords, j.deletionRecords);
    PermutedAllDistinct(Map(EvidenceIdOf, i.deletionRecords), Map(EvidenceIdOf, j.deletionRecords));
    SameElements(Map(EvidenceIdOf, i.deletionRecords), Map(EvidenceIdOf, j.deletionRecords));
    PermutedSet(m.deleted, n.deleted);
    MapPermutation(RefOf, i.files, j.files);
    SameElements(Map(RefOf, i.files), Map(RefOf, j.files));
    SameElements(m.excluded, n.excluded);
    SameElements(m.neverCollected, n.neverCollected);
  }

  lemma StillAcceptable(i: GenerationInput, j: GenerationInput, rules: Rules)
    requires Reordered(i, j) && Acceptable(i, rules)
    ensures Acceptable(j, rules)
  {
    StillBound(i, j, rules);
    StillPermitted(i, j, rules);
    StillComplete(i, j, rules);
    StillMatching(i, j, rules);
    StillSettled(i, j, rules);
  }

  /** Reordering changes nothing about acceptance. */
  lemma AcceptanceIgnoresOrder(i: GenerationInput, j: GenerationInput, rules: Rules)
    requires Reordered(i, j)
    ensures Acceptable(i, rules) <==> Acceptable(j, rules)
  {
    ReorderedBack(i, j);
    if Acceptable(i, rules) {
      StillAcceptable(i, j, rules);
    } else if Acceptable(j, rules) {
      StillAcceptable(j, i, rules);
    }
  }

  // ---------------------------------------------------------------- the manifest

  lemma SortedTextsIgnoreOrder(xs: seq<Text>, ys: seq<Text>)
    requires multiset(xs) == multiset(ys) && AllDistinct(xs)
    ensures SortedUnique(xs) == SortedUnique(ys)
  {
    Distinct(xs);
    TextOrder();
    forall i, j | 0 <= i < j < |xs| ensures TextLt(xs[i], xs[j]) || TextLt(xs[j], xs[i]) {
      TextLtTotal(xs[i], xs[j]);
    }
    SortIgnoresOrder(xs, ys, TextLt);
  }

  lemma PathOrder()
    ensures StrictWeakOrder(PathLt)
  {
    TextOrder();
    forall a, b: ManifestFile ensures !PathLt(a, a) && (PathLt(a, b) ==> !PathLt(b, a)) {
      TextLtTotal(a.relativePath, b.relativePath);
    }
    forall a, b, c: ManifestFile | !PathLt(a, b) && !PathLt(b, c) ensures !PathLt(a, c) {
      TextLtNegativeTransitive(a.relativePath, b.relativePath, c.relativePath);
    }
  }

  lemma SortedFilesIgnoreOrder(i: GenerationInput, j: GenerationInput, rules: Rules)
    requires NamesAreDistinct(i, rules) && multiset(i.files) == multiset(j.files)
    ensures Sort(Map(FileOf, i.files), PathLt) == Sort(Map(FileOf, j.files), PathLt)
  {
    var xs, ys := Map(FileOf, i.files), Map(FileOf, j.files);
    PathsDistinct(i, rules);
    PathOrder();
    MapPermutation(FileOf, i.files, j.files);
    var paths := Map(PathOf, i.files);
    forall a, b | 0 <= a < b < |xs| ensures PathLt(xs[a], xs[b]) || PathLt(xs[b], xs[a]) {
      assert paths[a] != paths[b];
      TextLtTotal(paths[a], paths[b]);
    }
    SortIgnoresOrder(xs, ys, PathLt);
  }

  lemma ClonesIgnoreOrder(a: Minimization, b: Minimization, rules: Rules)
    requires SameLists(a, b) && MinimizationIsSafe(a, rules)
    ensures CloneMinimization(a) == CloneMinimization(b)
  {
    var lists := [a.included, a.excluded, a.deleted, a.neverCollected];
    assert a.included in lists && a.excluded in lists && a.deleted in lists && a.neverCollected in lists;
    SortedTextsIgnoreOrder(a.included, b.included);
    SortedTextsIgnoreOrder(a.excluded, b.excluded);
    SortedTextsIgnoreOrder(a.deleted, b.deleted);
    SortedTextsIgnoreOrder(a.neverCollected, b.neverCollected);
  }

  /** Reordering an acceptable input prepares the very same manifest, identity included. */
  lemma ManifestIgnoresOrder(i: GenerationInput, j: GenerationInput, rules: Rules)
    requires Reordered(i, j) && Acceptable(i, rules)
    ensures Acceptable(j, rules) && PreparedManifest(i, rules.hash) == PreparedManifest(j, rules.hash)
  {
    AcceptanceIgnoresOrder(i, j, rules);
    PreparedIgnoresOrder(i, j, rules);
  }

  lemma PreparedIgnoresOrder(i: GenerationInput, j: GenerationInput, rules: Rules)
    requires Reordered(i, j) && NamesAreDistinct(i, rules) && MinimizationIsSafe(i.header.minimization, rules)
    ensures PreparedManifest(i, rules.hash) == PreparedManifest(j, rules.hash)
  {
    DocumentIgnoresOrder(i, j, rules);
  }

  lemma DocumentIgnoresOrder(i: GenerationInput, j: GenerationInput, rules: Rules)
    requires Reordered(i, j) && NamesAreDistinct(i, rules) && MinimizationIsSafe(i.header.minimization, rules)
    ensures IdentityDocument(i) == IdentityDocument(j)
  {
    SortedFilesIgnoreOrder(i, j, rules);
    ClonesIgnoreOrder(i.header.minimization, j.header.minimization, rules);
  }
}
