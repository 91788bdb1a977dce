/** The string grammars and record shapes that the transparency verifiers test. */
module ProtocolShapes {
  import opened Results
  import opened Text
  import opened Json
  import opened CanonicalIdentity

  const PROTOCOL_VERSION: Text := Lit("codeattest.v0")
  const EVENT_ID_KEY: Text := Lit("event_id")

  predicate IsLowerAlnum(c: unit) { 48 <= c <= 57 || 97 <= c <= 122 }

  /** `[a-z0-9][a-z0-9_-]{2,63}` */
  predicate IsSlug(t: Text) {
    3 <= |t| <= 64 && IsLowerAlnum(t[0]) &&
    forall i :: 0 < i < |t| ==> IsLowerAlnum(t[i]) || t[i] == 0x5F || t[i] == 0x2D
  }

  predicate IsReviewId(t: Text) {
    Lit("review:") <= t && IsSlug(t[7..])
  }

  predicate IsSha256Hex(t: Text) { IsHex(t, 64) }

  /** `sha256:` and 64 lower-case hexadecimal digits. */
  predicate IsPrefixedSha256(t: Text) {
    Lit("sha256:") <= t && IsSha256Hex(t[7..])
  }

  /** As many fields as expected keys, and no other key. */
  predicate HasExactKeys(v: Json, keys: seq<Text>) {
    v.Obj? && |v.fields| == |keys| && forall i :: 0 <= i < |v.fields| ==> v.fields[i].key in keys
  }

  function StringField(v: Json, key: Text): Option<Text>
    requires v.Obj?
  {
    match Lookup(v.fields, key)
    case Some(Str(s)) => Some(s)
    case _ => None
  }

  function NumberField(v: Json, key: Text): Option<int>
    requires v.Obj?
  {
    match Lookup(v.fields, key)
    case Some(Num(n)) => Some(n)
    case _ => None
  }

  lemma AsciiPaired(t: Text)
    requires IsReviewId(t) || IsSha256Hex(t) || IsPrefixedSha256(t)
    ensures Paired(t)
  {
    if IsSha256Hex(t) {
      assert forall i :: 0 <= i < |t| ==> IsHexDigit(t[i]);
    } else {
      assert forall i :: 7 <= i < |t| ==> t[i] == t[7..][i - 7];
      forall i | 0 <= i < 7 ensures t[i] < 0xD800 {
        if Lit("review:") <= t {
          assert t[i] == Lit("review:")[i];
        } else {
          assert t[i] == Lit("sha256:")[i];
        }
      }
    }
    PairedPlain(t);
  }

  /** An identity is `sha256:` and a digest. */
  lemma IdentityIsDigest(h: HashFn, t: Text)
    ensures IsPrefixedSha256(Sha256ProtocolText(h, t))
  {
    var p, hex := Lit("sha256:"), HexEncode(h(Utf8(t)));
    assert (p + hex)[7..] == hex;
  }
}
