/** The documents of a sample bundle: their canonical text is short and tells them apart. */
module SampleDocuments {
  import opened Results
  import opened Sorting
  import opened Text
  import opened Json
  import opened JsonRoundTrip
  import opened CanonicalIdentity
  import opened SmallValues
  import opened ProtocolShapes
  import opened StaticBundle
  import opened BundleIdentity

  // ---------------------------------------------------------------- lengths of canonical text

  lemma {:induction false} Utf8Length(t: Text)
    ensures |Utf8(t)| <= 4 * |t|
  {
    if t != [] {
      Utf8Length(t[FirstScalar(t).0..]);
    }
  }

  lemma {:induction false} UnitsLength(t: Text)
    ensures |PrintUnits(t)| <= 6 * |t|
  {
    if t != [] {
      UnitsLength(t[1..]);
    }
  }

  lemma {:induction false} JoinLength(parts: seq<Text>, bound: nat)
    requires forall p :: p in parts ==> |p| <= bound
    ensures |Join(parts)| <= |parts| * (bound + 1)
  {
    if |parts| > 1 {
      assert parts[0] in parts;
      JoinLength(parts[1..], bound);
      assert |parts| * (bound + 1) == |parts[1..]| * (bound + 1) + (bound + 1);
    } else if |parts| == 1 {
      assert parts[0] in parts;
    }
  }

  /** A short member of a document: a short text, or an empty list. */
  predicate IsShort(f: Field) {
    |f.key| <= 100 && (f.value == Arr([]) || (f.value.Str? && |f.value.s| <= 100))
  }

  lemma ShortPrints(f: Field)
    requires IsShort(f)
    ensures |PrintField(Field(f.key, Norm(f.value)))| <= 1300
  {
    UnitsLength(f.key);
    if f.value.Str? {
      UnitsLength(f.value.s);
    } else {
      assert Norm(f.value) == Arr([]) && Print(Arr([])) == [OPEN_BRACKET] + Join([]) + [CLOSE_BRACKET];
    }
  }

  lemma ShortParts(fields: seq<Field>)
    requires forall f :: f in fields ==> IsShort(f)
    ensures forall p :: p in PrintFields(NormFields(fields)) ==> |p| <= 1300
  {
    var parts := PrintFields(NormFields(fields));
    forall p | p in parts ensures |p| <= 1300 {
      var i := Position(parts, p);
      assert fields[i] in fields;
      ShortPrints(fields[i]);
    }
  }

  lemma WrappedLength(parts: seq<Text>, open: unit, close: unit)
    requires |parts| <= 10 && forall p :: p in parts ==> |p| <= 1300
    ensures |[open] + Join(parts) + [close]| <= 20_000
  {
    JoinLength(parts, 1300);
  }

  lemma CanonLength(fields: seq<Field>)
    requires |fields| <= 10 && forall f :: f in fields ==> IsShort(f)
    ensures |Canon(Obj(fields))| <= 20_000
  {
    var sorted := Sort(fields, KeyLt);
    SameElements(sorted, fields);
    ShortParts(sorted);
    WrappedLength(PrintFields(NormFields(sorted)), OPEN_BRACE, CLOSE_BRACE);
    CanonOfObject(fields);
  }

  // ---------------------------------------------------------------- documents

  const REVIEW: Text := Lit("review:abc")
  const BUNDLE_TYPE: Text := Lit("evidence_bundle")
  const INPUT_TYPE: Text := Lit("bundle_manifest_identity")

  /** The `n`th artifact reference; references differ in length. */
  function Ref(n: nat): Text { Lit("artifact_ref:") + seq(n, i => 97) }

  function ReviewField(): Field { Field(Lit("review_id"), Str(REVIEW)) }

  function AttestationRef(h: HashFn): Text {
    Lit("attestation") + [COLON] + Sha256ProtocolText(h, Canon(Obj([ReviewField()])))[|Lit("sha256:")|..]
  }

  function AttestationFields(h: HashFn): seq<Field> {
    [Field(Lit("attestation_id"), Str(AttestationRef(h))), ReviewField()]
  }

  /** The identity of a document without members, which serves as bundle identity and receipt. */
  function BundleId(h: HashFn): Text { Sha256ProtocolText(h, Canon(Obj([]))) }

  function ManifestDocFields(h: HashFn): seq<Field> {
    [Field(Lit("evidence_bundle_id"), Str(BundleId(h)))]
  }

  /** One document that is receipt, signing input and signature envelope. */
  function CommonFields(h: HashFn): seq<Field> {
    [Field(Lit("vendor_receipt_id"), Str(BundleId(h))), Field(Lit("signing_input_type"), Str(INPUT_TYPE)),
     Field(Lit("signed_identity_type"), Str(BUNDLE_TYPE)), Field(Lit("signed_identity"), Str(BundleId(h)))]
  }

  function SampleRepresentation(h: HashFn): Representation {
    Representation(BundleId(h), Ref(10), Ref(12), Ref(11), [])
  }

  /** The documents by their number of members. */
  function DocFields(h: HashFn, n: nat): seq<Field> {
    match n
    case 1 => ManifestDocFields(h)
    case 2 => AttestationFields(h)
    case 4 => CommonFields(h)
    case _ => RepresentationFields(SampleRepresentation(h))
  }

  predicate IsDoc(n: nat) { n == 1 || n == 2 || n == 4 || n == 5 }

  lemma DigestLength(h: HashFn, t: Text)
    ensures |Sha256ProtocolText(h, t)| == 71 && Paired(Sha256ProtocolText(h, t)) &&
      IsPrefixedSha256(Sha256ProtocolText(h, t))
    ensures IsHex(Sha256ProtocolText(h, t)[7..], 64)
  {
    IdentityIsDigest(h, t);
    AsciiPaired(Sha256ProtocolText(h, t));
  }

  lemma AttestationRefShape(h: HashFn)
    ensures |AttestationRef(h)| == 76 && Paired(AttestationRef(h)) && IsId("attestation:", AttestationRef(h))
  {
    DigestLength(h, Canon(Obj([ReviewField()])));
    ReferenceShape(Sha256ProtocolText(h, Canon(Obj([ReviewField()]))));
  }

  lemma ReferenceShape(digest: Text)
    requires |digest| == 71 && IsHex(digest[7..], 64)
    ensures var t := Lit("attestation") + [COLON] + digest[|Lit("sha256:")|..];
      |t| == 76 && Paired(t) && IsId("attestation:", t)
  {
    HexIsSlug(digest[7..]);
    assert Lit("attestation") + [COLON] == Lit("attestation:");
    PrefixedSlug("attestation:", digest[7..]);
  }

  lemma PrefixedSlug(prefix: string, slug: Text)
    requires IsSlug(slug) && forall i :: 0 <= i < |slug| ==> slug[i] < 0x80
    ensures IsId(prefix, Lit(prefix) + slug) && Paired(Lit(prefix) + slug)
  {
    var t := Lit(prefix) + slug;
    assert t[|prefix|..] == slug;
    LitsPaired();
    PairedPlain(slug);
    PairedConcat(Lit(prefix), slug);
  }

  lemma HexIsSlug(t: Text)
    requires IsHex(t, 64)
    ensures IsSlug(t) && forall i :: 0 <= i < 64 ==> t[i] < 0x80
  {
    assert forall i :: 0 <= i < |t| ==> IsHexDigit(t[i]);
  }

  lemma RefShape(n: nat)
    requires 3 <= n <= 64
    ensures IsArtifactRef(Ref(n)) && |Ref(n)| == 13 + n && Paired(Ref(n))
  {
    PrefixedSlug("artifact_ref:", seq(n, i => 97));
  }

  // ---------------------------------------------------------------- the documents are small and differ

  predicate IsSimple(f: Field) { FieldWithin(f, 1, 0) && IsShort(f) }

  lemma SimpleText(key: string, t: Text)
    requires |key| <= 100 && |t| <= 100 && Paired(t)
    ensures IsSimple(Field(Lit(key), Str(t)))
  {
    LitsPaired();
  }

  lemma PayloadsField()
    ensures Texts([]) == Arr([]) && IsSimple(Field(Lit("retained_export_approved_payload_refs"), Texts([])))
  {
    assert Map(TextJson, []) == [];
    LitsPaired();
  }

  lemma FixedTexts(h: HashFn)
    ensures |BundleId(h)| == 71 && Paired(BundleId(h)) && |REVIEW| == 10 && Paired(REVIEW)
    ensures |INPUT_TYPE| == 24 && |BUNDLE_TYPE| == 15 && Paired(INPUT_TYPE) && Paired(BUNDLE_TYPE)
  {
    DigestLength(h, Canon(Obj([])));
    LitsPaired();
  }

  lemma TwoSimple(a: Field, b: Field)
    requires IsSimple(a) && IsSimple(b) && |a.key| != |b.key|
    ensures (forall f :: f in [a, b] ==> IsSimple(f)) && DistinctKeys([a, b])
  {
  }

  lemma FourSimple(a: Field, b: Field, c: Field, d: Field)
    requires IsSimple(a) && IsSimple(b) && IsSimple(c) && IsSimple(d)
    requires |a.key| == 17 && |b.key| == 18 && |c.key| == 20 && |d.key| == 15
    ensures (forall f :: f in [a, b, c, d] ==> IsSimple(f)) && DistinctKeys([a, b, c, d])
  {
  }

  lemma FiveSimple(a: Field, b: Field, c: Field, d: Field, e: Field)
    requires IsSimple(a) && IsSimple(b) && IsSimple(c) && IsSimple(d) && IsSimple(e)
    ensures forall f :: f in [a, b, c, d, e] ==> IsSimple(f)
  {
  }

  lemma AttestationShape(h: HashFn)
    ensures forall f :: f in AttestationFields(h) ==> IsSimple(f)
    ensures DistinctKeys(AttestationFields(h))
  {
    AttestationRefShape(h);
    FixedTexts(h);
    SimpleText("attestation_id", AttestationRef(h));
    SimpleText("review_id", REVIEW);
    TwoSimple(Field(Lit("attestation_id"), Str(AttestationRef(h))), ReviewField());
  }

  lemma ManifestDocShape(h: HashFn)
    ensures forall f :: f in ManifestDocFields(h) ==> IsSimple(f)
    ensures DistinctKeys(ManifestDocFields(h))
  {
    FixedTexts(h);
    SimpleText("evidence_bundle_id", BundleId(h));
  }

  lemma CommonShape(h: HashFn)
    ensures forall f :: f in CommonFields(h) ==> IsSimple(f)
    ensures DistinctKeys(CommonFields(h))
  {
    FixedTexts(h);
    SimpleText("vendor_receipt_id", BundleId(h));
    SimpleText("signing_input_type", INPUT_TYPE);
    SimpleText("signed_identity_type", BUNDLE_TYPE);
    SimpleText("signed_identity", BundleId(h));
    FourSimple(Field(Lit("vendor_receipt_id"), Str(BundleId(h))), Field(Lit("signing_input_type"), Str(INPUT_TYPE)),
               Field(Lit("signed_identity_type"), Str(BUNDLE_TYPE)), Field(Lit("signed_identity"), Str(BundleId(h))));
  }

  lemma RepresentationShape(h: HashFn)
    ensures forall f :: f in RepresentationFields(SampleRepresentation(h)) ==> IsSimple(f)
    ensures DistinctKeys(RepresentationFields(SampleRepresentation(h)))
  {
    FixedTexts(h);
    RefShape(10);
    RefShape(11);
    RefShape(12);
    SimpleText("evidence_bundle_id", BundleId(h));
    SimpleText("bundle_manifest_ref", Ref(10));
    SimpleText("signature_ref", Ref(12));
    SimpleText("identity_ref", Ref(11));
    PayloadsField();
    FiveSimple(Named("evidence_bundle_id", Str(BundleId(h))), Named("bundle_manifest_ref", Str(Ref(10))),
               Named("signature_ref", Str(Ref(12))),
               Named("identity_ref", Str(Ref(11))), Named("retained_export_approved_payload_refs", Texts([])));
    RepresentationKeys(SampleRepresentation(h));
  }

  lemma DocShape(h: HashFn, n: nat)
    requires IsDoc(n)
    ensures |DocFields(h, n)| == n && DistinctKeys(DocFields(h, n)) && forall f :: f in DocFields(h, n) ==> IsSimple(f)
  {
    if n == 1 {
      ManifestDocShape(h);
    } else if n == 2 {
      AttestationShape(h);
    } else if n == 4 {
      CommonShape(h);
    } else {
      RepresentationShape(h);
    }
  }

  function Doc(h: HashFn, n: nat): Json { Obj(DocFields(h, n)) }

  lemma DocFacts(h: HashFn, n: nat)
    requires IsDoc(n)
    ensures WellFormed(Doc(h, n)) && Canonicalizable(Doc(h, n)) && |Canon(Doc(h, n))| <= 20_000 &&
      Paired(Canon(Doc(h, n)))
  {
    var fields := DocFields(h, n);
    DocShape(h, n);
    ObjectWithin(fields, 1, 0);
    CanonLength(fields);
    NormKeepsCounts(Doc(h, n));
    PrintPaired(Norm(Doc(h, n)));
    forall i | 0 <= i < |fields| ensures WellFormed(fields[i].value) {
      assert IsSimple(fields[i]);
    }
  }

  lemma DocsDiffer(h: HashFn, n: nat, m: nat)
    requires IsDoc(n) && IsDoc(m) && n != m
    ensures Canon(Doc(h, n)) != Canon(Doc(h, m))
  {
    DocFacts(h, n);
    DocFacts(h, m);
    DocShape(h, n);
    DocShape(h, m);
    CanonInjective(Doc(h, n), Doc(h, m));
  }

  /** A parser that knows the texts of the documents. */
  function ParseDoc(h: HashFn, t: Text): Option<Json> {
    if t == Canon(Doc(h, 1)) then Some(Doc(h, 1))
    else if t == Canon(Doc(h, 2)) then Some(Doc(h, 2))
    else if t == Canon(Doc(h, 4)) then Some(Doc(h, 4))
    else if t == Canon(Doc(h, 5)) then Some(Doc(h, 5))
    else None
  }

  lemma ParsesDoc(h: HashFn, n: nat)
    requires IsDoc(n)
    ensures ParseDoc(h, Canon(Doc(h, n))) == Some(Doc(h, n))
  {
    if n != 1 { DocsDiffer(h, n, 1); }
    if n != 2 { DocsDiffer(h, n, 2); }
    if n != 4 { DocsDiffer(h, n, 4); }
  }
}
