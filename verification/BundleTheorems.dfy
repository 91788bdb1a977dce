/** What generation guarantees about the manifests it prepares. */
module BundleTheorems {
  import opened Sorting
  import opened Text
  import opened Json
  import opened CanonicalIdentity
  import opened StaticBundle

  // ---------------------------------------------------------------- the manifest of such an input canonicalizes

  /** `a` counts no more than `b`, is no deeper, and is clean if `b` is. */
  ghost predicate Smaller(a: seq<Field>, b: seq<Field>) {
    FieldsNodes(a) <= FieldsNodes(b) && FieldsHeight(a) <= FieldsHeight(b) && (FieldsClean(b) ==> FieldsClean(a))
  }

  ghost predicate SmallerItems(a: seq<Json>, b: seq<Json>) {
    ItemsNodes(a) <= ItemsNodes(b) && ItemsHeight(a) <= ItemsHeight(b) && (ItemsClean(b) ==> ItemsClean(a))
  }

  lemma {:induction false} FieldsConcat(a: seq<Field>, b: seq<Field>)
    ensures FieldsNodes(a + b) == FieldsNodes(a) + FieldsNodes(b)
    ensures FieldsHeight(a + b) == Max(FieldsHeight(a), FieldsHeight(b))
    ensures FieldsClean(a + b) <==> FieldsClean(a) && FieldsClean(b)
  {
    if a == [] {
      assert a + b == b;
    } else {
      assert (a + b)[1..] == a[1..] + b;
      FieldsConcat(a[1..], b);
    }
  }

  lemma {:induction false} ItemsConcat(a: seq<Json>, b: seq<Json>)
    ensures ItemsNodes(a + b) == ItemsNodes(a) + ItemsNodes(b)
    ensures ItemsHeight(a + b) == Max(ItemsHeight(a), ItemsHeight(b))
    ensures ItemsClean(a + b) <==> ItemsClean(a) && ItemsClean(b)
  {
    if a == [] {
      assert a + b == b;
    } else {
      assert (a + b)[1..] == a[1..] + b;
      ItemsConcat(a[1..], b);
    }
  }

  lemma SmallerConcat(a: seq<Field>, b: seq<Field>, c: seq<Field>, d: seq<Field>)
    requires Smaller(a, b) && Smaller(c, d)
    ensures Smaller(a + c, b + d)
  {
    FieldsConcat(a, c);
    FieldsConcat(b, d);
  }

  lemma OneField(f: Field)
    ensures FieldsNodes([f]) == 1 + Nodes(f.value)
    ensures FieldsHeight([f]) == 1 + Height(f.value)
    ensures FieldsClean([f]) <==> Paired(f.key) && Clean(f.value)
  {
    assert [f][1..] == [];
  }

  lemma OneItem(v: Json)
    ensures ItemsNodes([v]) == Nodes(v) && ItemsHeight([v]) == 1 + Height(v) && (ItemsClean([v]) <==> Clean(v))
  {
    assert [v][1..] == [];
  }

  /** The counts of a list do not depend on its order. */
  lemma {:induction false} CountsIgnoreOrder(xs: seq<Json>, ys: seq<Json>)
    requires multiset(xs) == multiset(ys)
    ensures SmallerItems(xs, ys)
    decreases |xs|
  {
    SameElements(xs, ys);
    if xs != [] {
      var x := xs[0];
      assert x in xs;
      var k := Position(ys, x);
      var before, after := ys[..k], ys[k + 1..];
      assert xs == [x] + xs[1..];
      assert ys == before + [x] + after;
      assert multiset(xs) == multiset{x} + multiset(xs[1..]);
      assert multiset(before + [x] + after) == multiset(before) + multiset{x} + multiset(after);
      assert multiset(xs[1..]) == multiset(xs) - multiset{x};
      assert multiset(before + after) == multiset(ys) - multiset{x};
      CountsIgnoreOrder(xs[1..], before + after);
      ItemsConcat([x], xs[1..]);
      ItemsConcat(before, [x]);
      ItemsConcat(before + [x], after);
      ItemsConcat(before, after);
    }
  }

  /** A list of smaller items is smaller. */
  lemma {:induction false} FewerItems(xs: seq<Json>, ys: seq<Json>)
    requires |xs| == |ys|
    requires forall i :: 0 <= i < |xs| ==>
      Nodes(xs[i]) <= Nodes(ys[i]) && Height(xs[i]) <= Height(ys[i]) && (Clean(ys[i]) ==> Clean(xs[i]))
    ensures SmallerItems(xs, ys)
  {
    if xs != [] {
      FewerItems(xs[1..], ys[1..]);
    }
  }

  lemma SmallerArray(key: string, xs: seq<Json>, ys: seq<Json>)
    requires SmallerItems(xs, ys)
    ensures Smaller([Named(key, Arr(xs))], [Named(key, Arr(ys))])
  {
    OneField(Named(key, Arr(xs)));
    OneField(Named(key, Arr(ys)));
  }

  lemma SmallerObject(key: string, a: seq<Field>, b: seq<Field>)
    requires Smaller(a, b)
    ensures Smaller([Named(key, Obj(a))], [Named(key, Obj(b))])
  {
    OneField(Named(key, Obj(a)));
    OneField(Named(key, Obj(b)));
  }

  lemma PermutedTexts(key: string, xs: seq<Text>, ys: seq<Text>)
    requires multiset(xs) == multiset(ys)
    ensures Smaller([Named(key, Texts(xs))], [Named(key, Texts(ys))])
  {
    MapPermutation(TextJson, xs, ys);
    CountsIgnoreOrder(Map(TextJson, xs), Map(TextJson, ys));
    SmallerArray(key, Map(TextJson, xs), Map(TextJson, ys));
  }

  lemma SmallerItself(a: seq<Field>)
    ensures Smaller(a, a)
  {
  }

  lemma ClonedRepresentation(r: Representation)
    ensures Smaller(RepresentationFields(CloneRepresentation(r)), RepresentationFields(r))
  {
    var c := CloneRepresentation(r);
    var kept := RepresentationFields(r)[..4];
    assert RepresentationFields(c) == kept + [Named("retained_export_approved_payload_refs", Texts(c.payloadRefs))];
    assert RepresentationFields(r) == kept + [Named("retained_export_approved_payload_refs", Texts(r.payloadRefs))];
    PermutedTexts("retained_export_approved_payload_refs", c.payloadRefs, r.payloadRefs);
    SmallerItself(kept);
    SmallerConcat(kept, kept, [Named("retained_export_approved_payload_refs", Texts(c.payloadRefs))],
                  [Named("retained_export_approved_payload_refs", Texts(r.payloadRefs))]);
  }

  /** Two minimizations with the same lists up to order. */
  ghost predicate SameLists(a: Minimization, b: Minimization) {
    && multiset(a.included) == multiset(b.included) && multiset(a.excluded) == multiset(b.excluded)
    && multiset(a.deleted) == multiset(b.deleted) && multiset(a.neverCollected) == multiset(b.neverCollected)
  }

  lemma PermutedMinimization(c: Minimization, m: Minimization)
    requires SameLists(c, m)
    ensures Smaller(MinimizationFields(c), MinimizationFields(m))
  {
    var a1, b1 := [Named("included_retained_refs", Texts(c.included))],
      [Named("included_retained_refs", Texts(m.included))];
    var a2, b2 := [Named("excluded_refs", Texts(c.excluded))], [Named("excluded_refs", Texts(m.excluded))];
    var a3, b3 := [Named("deleted_refs", Texts(c.deleted))], [Named("deleted_refs", Texts(m.deleted))];
    var a4, b4 := [Named("never_collected_refs", Texts(c.neverCollected))],
      [Named("never_collected_refs", Texts(m.neverCollected))];
    PermutedTexts("included_retained_refs", c.included, m.included);
    PermutedTexts("excluded_refs", c.excluded, m.excluded);
    PermutedTexts("deleted_refs", c.deleted, m.deleted);
    PermutedTexts("never_collected_refs", c.neverCollected, m.neverCollected);
    SmallerConcat(a1, b1, a2, b2);
    SmallerConcat(a1 + a2, b1 + b2, a3, b3);
    SmallerConcat(a1 + a2 + a3, b1 + b2 + b3, a4, b4);
    assert MinimizationFields(c) == a1 + a2 + a3 + a4;
    assert MinimizationFields(m) == b1 + b2 + b3 + b4;
  }

  /** The header as the manifest holds it. */
  function CloneHeader(h: Header): Header {
    h.(representation := CloneRepresentation(h.representation), minimization := CloneMinimization(h.minimization))
  }

  lemma ClonedHeader(h: Header)
    ensures Smaller(HeaderFields(CloneHeader(h)), HeaderFields(h))
  {
    var c := CloneHeader(h);
    ClonedRepresentation(h.representation);
    PermutedMinimization(c.minimization, h.minimization);
    SmallerObject("evidence_bundle_representation", RepresentationFields(c.representation),
                  RepresentationFields(h.representation));
    SmallerObject("minimization_disposition", MinimizationFields(c.minimization), MinimizationFields(h.minimization));
    PlainIsKept(h);
    SmallerItself(PlainFields(h));
    var r, s := [Named("evidence_bundle_representation", RepresentationJson(c.representation))],
      [Named("evidence_bundle_representation", RepresentationJson(h.representation))];
    var m, n := [Named("minimization_disposition", MinimizationJson(c.minimization))],
      [Named("minimization_disposition", MinimizationJson(h.minimization))];
    SmallerConcat(PlainFields(c), PlainFields(h), r, s);
    SmallerConcat(PlainFields(c) + r, PlainFields(h) + s, m, n);
  }

  lemma PlainIsKept(h: Header)
    ensures PlainFields(CloneHeader(h)) == PlainFields(h)
  {
  }

  /** The files of the manifest, sorted and without content, against those of the input. */
  lemma ManifestFilesAreSmaller(files: seq<FileInput>)
    ensures SmallerItems(Map(FileJson, Sort(Map(FileOf, files), PathLt)), Map(FileInputJson, files))
  {
    var plain := Map(FileOf, files);
    var sorted := Sort(plain, PathLt);
    MapPermutation(FileJson, sorted, plain);
    CountsIgnoreOrder(Map(FileJson, sorted), Map(FileJson, plain));
    forall i | 0 <= i < |files|
      ensures var a, b := Map(FileJson, plain)[i], Map(FileInputJson, files)[i];
        Nodes(a) <= Nodes(b) && Height(a) <= Height(b) && (Clean(b) ==> Clean(a))
    {
      ContentAdds(files[i]);
    }
    FewerItems(Map(FileJson, plain), Map(FileInputJson, files));
  }

  lemma ContentAdds(f: FileInput)
    ensures Nodes(FileJson(f.file)) <= Nodes(FileInputJson(f)) && Height(FileJson(f.file)) <= Height(FileInputJson(f))
    ensures Clean(FileInputJson(f)) ==> Clean(FileJson(f.file))
  {
    FieldsConcat(FileFields(f.file),
                 [Named("export_approved", Bool(f.exportApproved)), Named("content", Str(f.content))]);
  }

  predicate Counted(fields: seq<Field>, nodes: nat, height: nat) {
    FieldsNodes(fields) == nodes && FieldsHeight(fields) == height && FieldsClean(fields)
  }

  lemma CountedConcat(a: seq<Field>, n: nat, x: nat, b: seq<Field>, k: nat, y: nat)
    requires Counted(a, n, x) && Counted(b, k, y)
    ensures Counted(a + b, n + k, Max(x, y))
  {
    FieldsConcat(a, b);
  }

  lemma ConstantField(key: string, value: string)
    ensures Counted([Named(key, Str(Lit(value)))], 2, 1)
  {
    LitsPaired();
    OneField(Named(key, Str(Lit(value))));
  }

  lemma ExcludesField()
    ensures Counted([Named("identity_input_excludes", Texts([ID_KEY]))], 3, 2)
  {
    LitsPaired();
    assert Map(TextJson, [ID_KEY]) == [Str(ID_KEY)];
    OneItem(Str(ID_KEY));
    OneField(Named("identity_input_excludes", Texts([ID_KEY])));
  }

  lemma ConstantFields()
    ensures Counted([Named("package_state", Str(Lit("generated")))], 2, 1)
    ensures Counted([Named("canonicalization", Str(Lit("rfc8785")))], 2, 1)
    ensures Counted([Named("identity_hash_algorithm", Str(Lit("sha256")))], 2, 1)
  {
    ConstantField("package_state", "generated");
    ConstantField("canonicalization", "rfc8785");
    ConstantField("identity_hash_algorithm", "sha256");
  }

  /** The constant fields of the manifest: nine nodes, two deep. */
  lemma StateCounts(m: Manifest)
    requires m.state == Generated && m.canonicalization == Lit("rfc8785") && m.hashAlgorithm == Lit("sha256") &&
      m.identityExcludes == [ID_KEY]
    ensures Counted(StateFields(m), 9, 2)
  {
    var a, b := [Named("package_state", Str(Lit("generated")))], [Named("canonicalization", Str(Lit("rfc8785")))];
    var c, d := [Named("identity_hash_algorithm", Str(Lit("sha256")))],
      [Named("identity_input_excludes", Texts([ID_KEY]))];
    ConstantFields();
    ExcludesField();
    StateIsFour(m, a, b, c, d);
    FourCounted(a, b, c, d);
  }

  lemma FourCounted(a: seq<Field>, b: seq<Field>, c: seq<Field>, d: seq<Field>)
    requires Counted(a, 2, 1) && Counted(b, 2, 1) && Counted(c, 2, 1) && Counted(d, 3, 2)
    ensures Counted(a + b + c + d, 9, 2)
  {
    CountedConcat(a, 2, 1, b, 2, 1);
    CountedConcat(a + b, 4, 1, c, 2, 1);
    CountedConcat(a + b + c, 6, 1, d, 3, 2);
  }

  lemma StateIsFour(m: Manifest, a: seq<Field>, b: seq<Field>, c: seq<Field>, d: seq<Field>)
    requires m.state == Generated && m.canonicalization == Lit("rfc8785") && m.hashAlgorithm == Lit("sha256") &&
      m.identityExcludes == [ID_KEY]
    requires a == [Named("package_state", Str(Lit("generated")))] &&
      b == [Named("canonicalization", Str(Lit("rfc8785")))]
    requires c == [Named("identity_hash_algorithm", Str(Lit("sha256")))] &&
      d == [Named("identity_input_excludes", Texts([ID_KEY]))]
    ensures StateFields(m) == a + b + c + d
  {
  }

  /** The input's actor and event alone make up for the constant fields. */
  lemma InputOnlyCounts(i: GenerationInput)
    ensures FieldsNodes(InputOnlyFields(i)) >= 10 && FieldsHeight(InputOnlyFields(i)) >= 2
  {
    var type0, id0, number := Named("actor_type", Str(i.actorType)), Named("actor_id", Str(i.actorId)),
      Named("sequence_number", Num(i.sequenceNumber));
    var actor, event := Named("actor", Obj([type0, id0])), Named("event", Obj([number]));
    var rest := InputOnlyFields(i)[2..];
    OneField(id0);
    FieldsCons(type0, [id0]);
    assert [type0, id0] == [type0] + [id0];
    OneField(number);
    assert InputOnlyFields(i) == [actor] + ([event] + rest);
    FieldsCons(event, rest);
    FieldsCons(actor, [event] + rest);
  }

  /** The check that the input canonicalizes is enough: the manifest's identity never throws. */
  lemma DocumentCanonicalizes(i: GenerationInput)
    requires StrictJson(i)
    ensures Canonicalizable(Obj(IdentityFields(IdentityDocument(i))))
  {
    var m := IdentityDocument(i);
    var files, inputs := [Named("files", Arr(Map(FileJson, m.files)))],
      [Named("files", Arr(Map(FileInputJson, i.files)))];
    var deletions := [Named("deletion_records", Arr(Map(DeletionJson, i.deletionRecords)))];
    HeaderAndFiles(i);
    StateIsSmaller(i);
    SmallerWithExtra(HeaderFields(m.header) + files, HeaderFields(i.header) + inputs, StateFields(m), deletions,
                     InputOnlyFields(i));
    SmallerCanonicalizes(HeaderFields(m.header) + files + StateFields(m), HeaderFields(i.header) + inputs + deletions +
                         InputOnlyFields(i));
    NothingSuperseded(m);
  }

  lemma NothingSuperseded(m: Manifest)
    requires m.supersedes.None?
    ensures IdentityFields(m) == HeaderFields(m.header) + [Named("files", Arr(Map(FileJson, m.files)))] + StateFields(m)
  {
  }

  lemma StateIsSmaller(i: GenerationInput)
    ensures Smaller(StateFields(IdentityDocument(i)), InputOnlyFields(i))
  {
    StateCounts(IdentityDocument(i));
    InputOnlyCounts(i);
  }

  lemma HeaderAndFiles(i: GenerationInput)
    ensures var m := IdentityDocument(i);
      Smaller(HeaderFields(m.header) + [Named("files", Arr(Map(FileJson, m.files)))],
              HeaderFields(i.header) + [Named("files", Arr(Map(FileInputJson, i.files)))])
  {
    var m := IdentityDocument(i);
    assert m.header == CloneHeader(i.header);
    ClonedHeader(i.header);
    ManifestFilesAreSmaller(i.files);
    SmallerArray("files", Map(FileJson, m.files), Map(FileInputJson, i.files));
    SmallerConcat(HeaderFields(m.header), HeaderFields(i.header),
      [Named("files", Arr(Map(FileJson, m.files)))], [Named("files", Arr(Map(FileInputJson, i.files)))]);
  }

  lemma SmallerWithExtra(a: seq<Field>, b: seq<Field>, c: seq<Field>, d: seq<Field>, e: seq<Field>)
    requires Smaller(a, b) && Smaller(c, e)
    ensures Smaller(a + c, b + d + e)
  {
    FieldsConcat(a, c);
    FieldsConcat(b, d);
    FieldsConcat(b + d, e);
  }

  lemma SmallerCanonicalizes(a: seq<Field>, b: seq<Field>)
    requires Smaller(a, b) && Canonicalizable(Obj(b))
    ensures Canonicalizable(Obj(a))
  {
  }
}
