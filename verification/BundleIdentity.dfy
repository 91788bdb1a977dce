/** A manifest identity binds every field of the manifest. */
module BundleIdentity {
  import opened Results
  import opened Sorting
  import opened Text
  import opened Json
  import opened CanonicalIdentity
  import opened Members
  import opened StaticBundle
  import opened BundleGuarantees

  // ---------------------------------------------------------------- distinct keys

  /** The keys of a file, in the order of `FileFields`. */
  const FILE_TAGS: seq<KeyShape> := [
    Shape(13, 'r', 'p'),  // relative_path
    Shape(12, 'a', 'r'),  // artifact_ref
    Shape(10, 'm', 'e'),  // media_type
    Shape(6, 'd', ' '),  // digest
    Shape(10, 's', 's'),  // size_bytes
    Shape(13, 'a', 'r'),  // artifact_role
    Shape(20, 's', 'r'),  // source_derived_class
    Shape(16, 'i', '_')  // inclusion_reason
  ]

  lemma FileTags(f: ManifestFile)
    ensures Map(TagOf, FileFields(f)) == FILE_TAGS
  {
    LitTag("relative_path");
    LitTag("artifact_ref");
    LitTag("media_type");
    LitTag("digest");
    LitTag("size_bytes");
    LitTag("artifact_role");
    LitTag("source_derived_class");
    LitTag("inclusion_reason");
  }

  lemma FileTagsDiffer()
    ensures NoDuplicates(FILE_TAGS)
  {
  }

  lemma FileKeys(f: ManifestFile)
    ensures DistinctKeys(FileFields(f))
  {
    FileTags(f);
    FileTagsDiffer();
    TagsTellApart(FileFields(f));
  }

  lemma RepresentationKeys(r: Representation)
    ensures DistinctKeys(RepresentationFields(r))
  {
    LitTag("evidence_bundle_id");
    LitTag("bundle_manifest_ref");
    LitTag("signature_ref");
    LitTag("identity_ref");
    LitTag("retained_export_approved_payload_refs");
    TagsTellApart(RepresentationFields(r));
  }

  lemma MinimizationKeys(m: Minimization)
    ensures DistinctKeys(MinimizationFields(m))
  {
    LitTag("included_retained_refs");
    LitTag("excluded_refs");
    LitTag("deleted_refs");
    LitTag("never_collected_refs");
    TagsTellApart(MinimizationFields(m));
  }

  /** The keys of the verification metadata, in the order of `MetadataFields`. */
  const METADATA_TAGS: seq<KeyShape> := [
    Shape(22, 'm', 's'),  // manifest_signature_ref
    Shape(17, 's', 'n'),  // signing_input_ref
    Shape(30, 'v', 'i'),  // verification_instructions_path
    Shape(30, 'o', 'e'),  // offline_verification_supported
    Shape(25, 'a', 'd')  // all_file_digests_verified
  ]

  lemma MetadataTags(m: Metadata)
    ensures Map(TagOf, MetadataFields(m)) == METADATA_TAGS
  {
    LitTag("manifest_signature_ref");
    LitTag("signing_input_ref");
    LitTag("verification_instructions_path");
    LitTag("offline_verification_supported");
    LitTag("all_file_digests_verified");
  }

  lemma MetadataKeys(m: Metadata)
    ensures DistinctKeys(MetadataFields(m))
  {
    MetadataTags(m);
    assert NoDuplicates(METADATA_TAGS);
    TagsTellApart(MetadataFields(m));
  }

  /** The keys of a manifest header, in the order of `HeaderFields`. */
  const HEADER_TAGS: seq<KeyShape> := [
    Shape(16, 'p', 'v'),  // protocol_version
    Shape(16, 's', 'n'),  // static_bundle_id
    Shape(16, 'm', 'v'),  // manifest_version
    Shape(9, 'r', ' '),  // review_id
    Shape(10, 'c', 't'),  // created_at
    Shape(15, 'a', 'o'),  // attestation_ref
    Shape(18, 'v', 'c'),  // vendor_receipt_ref
    Shape(21, 'p', 'o'),  // portal_projection_ref
    Shape(21, 'v', 'i'),  // verification_metadata
    Shape(30, 'e', 'b'),  // evidence_bundle_representation
    Shape(24, 'm', 'i')  // minimization_disposition
  ]

  /** The other keys of a manifest, in the order of `IdentityFields`. */
  const REST_TAGS: seq<KeyShape> := [
    Shape(5, 'f', ' '),  // files
    Shape(13, 'p', 't'),  // package_state
    Shape(16, 'c', 'i'),  // canonicalization
    Shape(23, 'i', 'h'),  // identity_hash_algorithm
    Shape(23, 'i', 'i'),  // identity_input_excludes
    Shape(36, 's', 's')  // supersedes_static_bundle_manifest_id
  ]

  lemma PlainTags(h: Header)
    ensures Map(TagOf, PlainFields(h)) == HEADER_TAGS[..9]
  {
    LitTag("protocol_version");
    LitTag("static_bundle_id");
    LitTag("manifest_version");
    LitTag("review_id");
    LitTag("created_at");
    LitTag("attestation_ref");
    LitTag("vendor_receipt_ref");
    LitTag("portal_projection_ref");
    LitTag("verification_metadata");
  }

  lemma HeaderTags(h: Header)
    ensures Map(TagOf, HeaderFields(h)) == HEADER_TAGS
  {
    PlainTags(h);
    LitTag("evidence_bundle_representation");
    LitTag("minimization_disposition");
  }

  lemma StateTags(m: Manifest)
    ensures Map(TagOf, StateFields(m)) == REST_TAGS[1..5]
  {
    LitTag("package_state");
    LitTag("canonicalization");
    LitTag("identity_hash_algorithm");
    LitTag("identity_input_excludes");
  }

  lemma RestTags(m: Manifest)
    ensures Map(TagOf, [Named("files", Arr(Map(FileJson, m.files)))] + StateFields(m) +
                SupersedesFields(m)) <= REST_TAGS
  {
    StateTags(m);
    LitTag("files");
    LitTag("supersedes_static_bundle_manifest_id");
  }

  lemma TagsDiffer()
    ensures NoDuplicates(HEADER_TAGS) && NoDuplicates(REST_TAGS)
    ensures forall t :: t in HEADER_TAGS ==> t !in REST_TAGS
  {
  }

  lemma NoDuplicatesConcat<T(!new)>(a: seq<T>, b: seq<T>)
    requires NoDuplicates(a) && NoDuplicates(b) && forall x :: x in a ==> x !in b
    ensures NoDuplicates(a + b)
  {
    forall i, j | 0 <= i < j < |a + b| ensures (a + b)[i] != (a + b)[j] {
      if i < |a| <= j {
        assert a[i] in a && b[j - |a|] in b;
      }
    }
  }

  lemma IdentityKeys(m: Manifest)
    ensures DistinctKeys(IdentityFields(m))
  {
    var h, rest := HeaderFields(m.header), [Named("files", Arr(Map(FileJson, m.files)))] + StateFields(m) +
      SupersedesFields(m);
    HeaderTags(m.header);
    RestTags(m);
    TagsDiffer();
    NoDuplicatesConcat(Map(TagOf, h), Map(TagOf, rest));
    MapConcat(TagOf, h, rest);
    TagsTellApart(h + rest);
    assert IdentityFields(m) == h + rest;
  }

  // ---------------------------------------------------------------- well-formed documents

  lemma FilesWellFormed(files: seq<ManifestFile>)
    ensures WellFormed(Arr(Map(FileJson, files)))
  {
    forall k | 0 <= k < |files| ensures WellFormed(FileJson(files[k])) {
      FileKeys(files[k]);
      FileValuesWellFormed(files[k]);
    }
  }

  lemma FileValuesWellFormed(f: ManifestFile)
    ensures forall k :: 0 <= k < |FileFields(f)| ==> WellFormed(FileFields(f)[k].value)
  {
  }

  lemma TextsWellFormed(ts: seq<Text>)
    ensures WellFormed(Texts(ts))
  {
  }

  lemma RepresentationWellFormed(r: Representation)
    ensures WellFormed(RepresentationJson(r))
  {
    RepresentationKeys(r);
    TextsWellFormed(r.payloadRefs);
  }

  lemma MinimizationWellFormed(m: Minimization)
    ensures WellFormed(MinimizationJson(m))
  {
    MinimizationKeys(m);
    TextsWellFormed(m.included);
    TextsWellFormed(m.excluded);
    TextsWellFormed(m.deleted);
    TextsWellFormed(m.neverCollected);
  }

  ghost predicate ValuesWellFormed(fields: seq<Field>) {
    forall k :: 0 <= k < |fields| ==> WellFormed(fields[k].value)
  }

  lemma ValuesConcat(a: seq<Field>, b: seq<Field>)
    requires ValuesWellFormed(a) && ValuesWellFormed(b)
    ensures ValuesWellFormed(a + b)
  {
  }

  lemma PlainWellFormed(h: Header)
    ensures ValuesWellFormed(PlainFields(h))
  {
    MetadataKeys(h.metadata);
    assert ValuesWellFormed(MetadataFields(h.metadata));
    assert WellFormed(Obj(MetadataFields(h.metadata)));
  }

  lemma StateWellFormed(m: Manifest)
    ensures ValuesWellFormed(StateFields(m)) && ValuesWellFormed(SupersedesFields(m))
  {
    TextsWellFormed(m.identityExcludes);
  }

  lemma DocumentWellFormed(m: Manifest)
    ensures WellFormed(Obj(IdentityFields(m)))
  {
    var r, n := [Named("evidence_bundle_representation", RepresentationJson(m.header.representation))],
      [Named("minimization_disposition", MinimizationJson(m.header.minimization))];
    var files := [Named("files", Arr(Map(FileJson, m.files)))];
    IdentityKeys(m);
    PlainWellFormed(m.header);
    RepresentationWellFormed(m.header.representation);
    MinimizationWellFormed(m.header.minimization);
    FilesWellFormed(m.files);
    StateWellFormed(m);
    ValuesConcat(PlainFields(m.header), r);
    ValuesConcat(PlainFields(m.header) + r, n);
    ValuesConcat(HeaderFields(m.header), files);
    ValuesConcat(HeaderFields(m.header) + files, StateFields(m));
    ValuesConcat(HeaderFields(m.header) + files + StateFields(m), SupersedesFields(m));
  }

  // ---------------------------------------------------------------- the same document is the same manifest

  predicate SameKeys(a: seq<Field>, b: seq<Field>) {
    |a| == |b| && forall k :: 0 <= k < |a| ==> a[k].key == b[k].key
  }

  ghost predicate SameValues(a: seq<Field>, b: seq<Field>) {
    |a| == |b| && forall k :: 0 <= k < |a| ==> Same(a[k].value, b[k].value)
  }

  /** Objects laid out alike are the same only field by field. */
  lemma SameFieldByField(a: seq<Field>, b: seq<Field>)
    requires SameKeys(a, b) && DistinctKeys(b) && Same(Obj(a), Obj(b))
    ensures SameValues(a, b)
  {
    forall k | 0 <= k < |a| ensures Same(a[k].value, b[k].value) {
      assert HasSame(a[k], b);
      var j :| 0 <= j < |b| && b[j].key == a[k].key && Same(a[k].value, b[j].value);
      assert j == k;
    }
  }

  lemma SplitValues(a: seq<Field>, b: seq<Field>, c: seq<Field>, d: seq<Field>)
    requires SameValues(a + b, c + d) && |a| == |c|
    ensures SameValues(a, c) && SameValues(b, d)
  {
    forall k | 0 <= k < |a| ensures Same(a[k].value, c[k].value) {
      assert (a + b)[k] == a[k] && (c + d)[k] == c[k];
    }
    forall k | 0 <= k < |b| ensures Same(b[k].value, d[k].value) {
      assert (a + b)[|a| + k] == b[k] && (c + d)[|a| + k] == d[k];
    }
  }

  lemma JoinKeys(a: seq<Field>, b: seq<Field>, c: seq<Field>, d: seq<Field>)
    requires SameKeys(a, c) && SameKeys(b, d)
    ensures SameKeys(a + b, c + d)
  {
  }

  lemma TextsAreEqual(a: seq<Text>, b: seq<Text>)
    requires Same(Texts(a), Texts(b))
    ensures a == b
  {
    forall k | 0 <= k < |a| ensures a[k] == b[k] {
      assert Same(Map(TextJson, a)[k], Map(TextJson, b)[k]);
    }
  }

  lemma NamesDiffer()
    ensures forall a: Role, b: Role :: |RoleName(a)| == |RoleName(b)| ==> a == b
    ensures forall a: SourceClass, b: SourceClass :: |ClassName(a)| == |ClassName(b)| ==> a == b
  {
  }

  lemma FilesValues(f: ManifestFile, g: ManifestFile)
    requires SameValues(FileFields(f), FileFields(g))
    ensures f == g
  {
    var a, b := FileFields(f), FileFields(g);
    assert Same(a[0].value, b[0].value) && Same(a[1].value, b[1].value) && Same(a[2].value, b[2].value) &&
      Same(a[3].value, b[3].value);
    assert Same(a[4].value, b[4].value) && Same(a[5].value, b[5].value) && Same(a[6].value, b[6].value) &&
      Same(a[7].value, b[7].value);
    NamesDiffer();
  }

  lemma FilesValuesAlike(f: ManifestFile, g: ManifestFile)
    ensures SameKeys(FileFields(f), FileFields(g))
  {
  }

  lemma FilesAreEqual(f: ManifestFile, g: ManifestFile)
    requires Same(Obj(FileFields(f)), Obj(FileFields(g)))
    ensures f == g
  {
    FilesValuesAlike(f, g);
    FileKeys(g);
    SameFieldByField(FileFields(f), FileFields(g));
    FilesValues(f, g);
  }

  lemma FileListsAreEqual(fs: seq<ManifestFile>, gs: seq<ManifestFile>)
    requires Same(Arr(Map(FileJson, fs)), Arr(Map(FileJson, gs)))
    ensures fs == gs
  {
    forall k | 0 <= k < |fs| ensures fs[k] == gs[k] {
      assert Same(Map(FileJson, fs)[k], Map(FileJson, gs)[k]);
      FilesAreEqual(fs[k], gs[k]);
    }
  }

  lemma RepresentationsValues(r: Representation, q: Representation)
    requires SameValues(RepresentationFields(r), RepresentationFields(q))
    ensures r == q
  {
    var a, b := RepresentationFields(r), RepresentationFields(q);
    assert Same(a[0].value, b[0].value) && Same(a[1].value, b[1].value) && Same(a[2].value, b[2].value) &&
      Same(a[3].value, b[3].value);
    assert Same(a[4].value, b[4].value);
    TextsAreEqual(r.payloadRefs, q.payloadRefs);
  }

  lemma RepresentationsValuesAlike(r: Representation, q: Representation)
    ensures SameKeys(RepresentationFields(r), RepresentationFields(q))
  {
  }

  lemma RepresentationsAreEqual(r: Representation, q: Representation)
    requires Same(Obj(RepresentationFields(r)), Obj(RepresentationFields(q)))
    ensures r == q
  {
    RepresentationsValuesAlike(r, q);
    RepresentationKeys(q);
    SameFieldByField(RepresentationFields(r), RepresentationFields(q));
    RepresentationsValues(r, q);
  }

  lemma MinimizationsValues(m: Minimization, n: Minimization)
    requires SameValues(MinimizationFields(m), MinimizationFields(n))
    ensures m == n
  {
    var a, b := MinimizationFields(m), MinimizationFields(n);
    assert Same(a[0].value, b[0].value) && Same(a[1].value, b[1].value) && Same(a[2].value, b[2].value) &&
      Same(a[3].value, b[3].value);
    TextsAreEqual(m.included, n.included);
    TextsAreEqual(m.excluded, n.excluded);
    TextsAreEqual(m.deleted, n.deleted);
    TextsAreEqual(m.neverCollected, n.neverCollected);
  }

  lemma MinimizationsValuesAlike(m: Minimization, n: Minimization)
    ensures SameKeys(MinimizationFields(m), MinimizationFields(n))
  {
  }

  lemma MinimizationsAreEqual(m: Minimization, n: Minimization)
    requires Same(Obj(MinimizationFields(m)), Obj(MinimizationFields(n)))
    ensures m == n
  {
    MinimizationsValuesAlike(m, n);
    MinimizationKeys(n);
    SameFieldByField(MinimizationFields(m), MinimizationFields(n));
    MinimizationsValues(m, n);
  }

  lemma MetadataValues(m: Metadata, n: Metadata)
    requires SameValues(MetadataFields(m), MetadataFields(n))
    ensures m == n
  {
    var a, b := MetadataFields(m), MetadataFields(n);
    assert Same(a[0].value, b[0].value) && Same(a[1].value, b[1].value) && Same(a[2].value, b[2].value) &&
      Same(a[3].value, b[3].value);
    assert Same(a[4].value, b[4].value);
  }

  lemma MetadataValuesAlike(m: Metadata, n: Metadata)
    ensures SameKeys(MetadataFields(m), MetadataFields(n))
  {
  }

  lemma MetadataAreEqual(m: Metadata, n: Metadata)
    requires Same(Obj(MetadataFields(m)), Obj(MetadataFields(n)))
    ensures m == n
  {
    MetadataValuesAlike(m, n);
    MetadataKeys(n);
    SameFieldByField(MetadataFields(m), MetadataFields(n));
    MetadataValues(m, n);
  }

  lemma PlainAreEqual(h: Header, g: Header)
    requires SameValues(PlainFields(h), PlainFields(g))
    ensures h == g.(representation := h.representation, minimization := h.minimization)
  {
    var a, b := PlainFields(h), PlainFields(g);
    assert Same(a[0].value, b[0].value) && Same(a[1].value, b[1].value) && Same(a[2].value, b[2].value) &&
      Same(a[3].value, b[3].value);
    assert Same(a[4].value, b[4].value) && Same(a[5].value, b[5].value) && Same(a[6].value, b[6].value) &&
      Same(a[7].value, b[7].value);
    assert Same(a[8].value, b[8].value);
    MetadataAreEqual(h.metadata, g.metadata);
  }

  lemma HeadersAreEqual(h: Header, g: Header)
    requires SameValues(HeaderFields(h), HeaderFields(g))
    ensures h == g
  {
    var r, q := [Named("evidence_bundle_representation", RepresentationJson(h.representation))],
      [Named("evidence_bundle_representation", RepresentationJson(g.representation))];
    var m, n := [Named("minimization_disposition", MinimizationJson(h.minimization))],
      [Named("minimization_disposition", MinimizationJson(g.minimization))];
    SplitValues(PlainFields(h) + r, m, PlainFields(g) + q, n);
    SplitValues(PlainFields(h), r, PlainFields(g), q);
    PlainAreEqual(h, g);
    assert Same(r[0].value, q[0].value) && Same(m[0].value, n[0].value);
    RepresentationsAreEqual(h.representation, g.representation);
    MinimizationsAreEqual(h.minimization, g.minimization);
  }

  lemma StatesAreEqual(m: Manifest, n: Manifest)
    requires SameValues(StateFields(m), StateFields(n))
    ensures m.state == n.state && m.canonicalization == n.canonicalization && m.hashAlgorithm == n.hashAlgorithm &&
      m.identityExcludes == n.identityExcludes
  {
    var a, b := StateFields(m), StateFields(n);
    assert Same(a[0].value, b[0].value) && Same(a[1].value, b[1].value) && Same(a[2].value, b[2].value) &&
      Same(a[3].value, b[3].value);
    TextsAreEqual(m.identityExcludes, n.identityExcludes);
    assert |StateName(Generated)| == |StateName(Finalized)| ==> StateName(Generated)[0] != StateName(Finalized)[0];
  }

  /** Manifests with the same identity document differ at most in their identity. */
  lemma DocumentsAreEqual(m: Manifest, n: Manifest)
    requires Same(Obj(IdentityFields(m)), Obj(IdentityFields(n)))
    ensures n == m.(id := n.id)
  {
    var files, others := [Named("files", Arr(Map(FileJson, m.files)))], [Named("files", Arr(Map(FileJson, n.files)))];
    LaidOutAlike(m, n);
    IdentityKeys(n);
    SameFieldByField(IdentityFields(m), IdentityFields(n));
    SplitValues(HeaderFields(m.header) + files + StateFields(m), SupersedesFields(m),
                HeaderFields(n.header) + others + StateFields(n), SupersedesFields(n));
    SplitValues(HeaderFields(m.header) + files, StateFields(m), HeaderFields(n.header) + others, StateFields(n));
    SplitValues(HeaderFields(m.header), files, HeaderFields(n.header), others);
    HeadersAreEqual(m.header, n.header);
    assert Same(files[0].value, others[0].value);
    FileListsAreEqual(m.files, n.files);
    StatesAreEqual(m, n);
    if m.supersedes.Some? {
      assert Same(SupersedesFields(m)[0].value, SupersedesFields(n)[0].value);
    }
  }

  lemma HeadersAlike(h: Header, g: Header)
    ensures SameKeys(HeaderFields(h), HeaderFields(g))
  {
  }

  lemma LaidOutAlike(m: Manifest, n: Manifest)
    requires |IdentityFields(m)| == |IdentityFields(n)|
    ensures SameKeys(IdentityFields(m), IdentityFields(n)) && |SupersedesFields(m)| == |SupersedesFields(n)|
  {
    var files, others := [Named("files", Arr(Map(FileJson, m.files)))], [Named("files", Arr(Map(FileJson, n.files)))];
    HeadersAlike(m.header, n.header);
    JoinKeys(HeaderFields(m.header), files, HeaderFields(n.header), others);
    JoinKeys(HeaderFields(m.header) + files, StateFields(m), HeaderFields(n.header) + others, StateFields(n));
    JoinKeys(HeaderFields(m.header) + files + StateFields(m), SupersedesFields(m),
             HeaderFields(n.header) + others + StateFields(n), SupersedesFields(n));
  }

  /** One recomputed identity for two manifests means one manifest, or a hash collision of the two
      documents that were hashed. */
  lemma ManifestIdentityBinds(h: HashFn, m: Manifest, n: Manifest)
    requires RecomputeManifestId(h, m) == Some(m.id) && RecomputeManifestId(h, n) == Some(n.id) && m.id == n.id
    ensures m == n || Collision(h, IdentityInput(Obj(IdentityFields(m))), IdentityInput(Obj(IdentityFields(n))))
  {
    DocumentWellFormed(m);
    DocumentWellFormed(n);
    IdentityBinds(h, Obj(IdentityFields(m)), Obj(IdentityFields(n)));
    if Same(Obj(IdentityFields(m)), Obj(IdentityFields(n))) {
      DocumentsAreEqual(m, n);
    }
  }

  /** Two accepted inputs with one prepared identity have one manifest, or their documents collide. */
  lemma PreparedIdentityBinds(i: GenerationInput, j: GenerationInput, rules: Rules)
    requires Acceptable(i, rules) && Acceptable(j, rules)
    ensures PreparedManifest(i, rules.hash).Some? && PreparedManifest(j, rules.hash).Some?
    ensures var m, n := PreparedManifest(i, rules.hash).value, PreparedManifest(j, rules.hash).value;
      m.id == n.id ==>
        m == n || Collision(rules.hash, IdentityInput(Obj(IdentityFields(m))), IdentityInput(Obj(IdentityFields(n))))
  {
    AcceptedIsPrepared(i, rules);
    AcceptedIsPrepared(j, rules);
    var m, n := PreparedManifest(i, rules.hash).value, PreparedManifest(j, rules.hash).value;
    if m.id == n.id {
      PreparedBinds(i, j, rules.hash);
    }
  }

  lemma PreparedBinds(i: GenerationInput, j: GenerationInput, h: HashFn)
    requires PreparedManifest(i, h).Some? && PreparedManifest(j, h).Some?
    requires PreparedManifest(i, h).value.id == PreparedManifest(j, h).value.id
    ensures var m, n := PreparedManifest(i, h).value, PreparedManifest(j, h).value;
      m == n || Collision(h, IdentityInput(Obj(IdentityFields(m))), IdentityInput(Obj(IdentityFields(n))))
  {
    PreparedHasItsIdentity(i, h);
    PreparedHasItsIdentity(j, h);
    ManifestIdentityBinds(h, PreparedManifest(i, h).value, PreparedManifest(j, h).value);
  }
}
