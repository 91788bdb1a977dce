/** Bytes, UTF-16 text, and the encodings that turn one into the other. */
module Text {

  newtype byte = x: int | 0 <= x < 0x100
  newtype unit = x: int | 0 <= x < 0x1_0000

  type Bytes = seq<byte>

  /** A JavaScript string: UTF-16 code units, surrogates included. */
  type Text = seq<unit>

  type Digest = d: Bytes | |d| == 32 witness seq(32, i => 0)

  /** SHA-256 is a parameter: nothing is assumed of it but the length of its output. */
  type HashFn = Bytes -> Digest

  /** Two different inputs of one hash function with the same output. */
  ghost predicate Collision(h: HashFn, a: Bytes, b: Bytes) {
    a != b && h(a) == h(b)
  }

  /** Some input hashed on one side collides with some input hashed on the other. */
  ghost predicate CollisionBetween(h: HashFn, A: set<Bytes>, B: set<Bytes>) {
    exists a, b :: a in A && b in B && Collision(h, a, b)
  }

  lemma CollisionGrows(h: HashFn, A: set<Bytes>, B: set<Bytes>, A': set<Bytes>, B': set<Bytes>)
    requires CollisionBetween(h, A, B) && A <= A' && B <= B'
    ensures CollisionBetween(h, A', B')
  {
    var a, b :| a in A && b in B && Collision(h, a, b);
    assert a in A' && b in B' && Collision(h, a, b);
  }

  /** The code units of an ASCII literal. */
  function Lit(s: string): (t: Text)
    ensures |t| == |s|
    ensures forall i :: 0 <= i < |s| ==> t[i] as int == s[i] as int % 0x80
  {
    seq(|s|, i requires 0 <= i < |s| => (s[i] as int % 0x80) as unit)
  }

  // ---------------------------------------------------------------- surrogates

  predicate IsHigh(c: unit) { 0xD800 <= c <= 0xDBFF }

  predicate IsLow(c: unit) { 0xDC00 <= c <= 0xDFFF }

  /** Every surrogate of `s` belongs to a high-low pair. */
  predicate Paired(s: Text) {
    if s == [] then true
    else if IsHigh(s[0]) then |s| > 1 && IsLow(s[1]) && Paired(s[2..])
    else !IsLow(s[0]) && Paired(s[1..])
  }

  method HasUnpairedSurrogate(value: Text) returns (unpaired: bool)
    ensures unpaired == !Paired(value)
  {
    var index := 0;
    while index < |value|
      invariant 0 <= index <= |value|
      invariant Paired(value) == Paired(value[index..])
    {
      var code := value[index];
      if IsHigh(code) {
        if !(index + 1 < |value| && IsLow(value[index + 1])) {
          return true;
        }
        assert value[index..][2..] == value[index + 2..];
        index := index + 1;
      } else if IsLow(code) {
        return true;
      } else {
        assert value[index..][1..] == value[index + 1..];
      }
      index := index + 1;
    }
    return false;
  }

  /** The scan of the loop is the local rule: a high unit is exactly one that a low unit follows. */
  lemma {:induction false} PairedIsLocal(s: Text)
    ensures Paired(s) <==>
            && (forall i :: 0 <= i < |s| && IsHigh(s[i]) ==> i + 1 < |s| && IsLow(s[i + 1]))
            && (forall i :: 0 <= i < |s| && IsLow(s[i]) ==> i > 0 && IsHigh(s[i - 1]))
  {
    if s == [] {
    } else if IsHigh(s[0]) {
      if |s| > 1 && IsLow(s[1]) {
        var r := s[2..];
        PairedIsLocal(r);
        assert forall i :: 0 <= i < |r| ==> r[i] == s[i + 2];
        if Paired(s) {
          forall i | 0 <= i < |s| && IsHigh(s[i]) ensures i + 1 < |s| && IsLow(s[i + 1]) {
            assert i >= 2 ==> s[i] == r[i - 2];
          }
          forall i | 0 <= i < |s| && IsLow(s[i]) ensures i > 0 && IsHigh(s[i - 1]) {
            assert i >= 2 ==> s[i] == r[i - 2];
          }
        }
      }
    } else {
      var r := s[1..];
      PairedIsLocal(r);
      assert forall i :: 0 <= i < |r| ==> r[i] == s[i + 1];
      if Paired(s) {
        forall i | 0 <= i < |s| && IsHigh(s[i]) ensures i + 1 < |s| && IsLow(s[i + 1]) {
          assert i >= 1 ==> s[i] == r[i - 1];
        }
        forall i | 0 <= i < |s| && IsLow(s[i]) ensures i > 0 && IsHigh(s[i - 1]) {
          assert i >= 1 ==> s[i] == r[i - 1];
        }
      }
    }
  }

  lemma {:induction false} PairedConcat(a: Text, b: Text)
    requires Paired(a) && Paired(b)
    ensures Paired(a + b)
  {
    if a == [] {
      assert a + b == b;
    } else if IsHigh(a[0]) {
      assert (a + b)[2..] == a[2..] + b;
      PairedConcat(a[2..], b);
    } else {
      assert (a + b)[1..] == a[1..] + b;
      PairedConcat(a[1..], b);
    }
  }

  lemma {:induction false} PairedPlain(s: Text)
    requires forall i :: 0 <= i < |s| ==> s[i] < 0xD800
    ensures Paired(s)
  {
    if s != [] {
      PairedPlain(s[1..]);
    }
  }

  /** Literals are well-formed. */
  lemma LitPaired(s: string)
    ensures Paired(Lit(s))
  {
    PairedPlain(Lit(s));
  }

  lemma LitsPaired()
    ensures forall s: string :: Paired(Lit(s))
  {
    forall s: string ensures Paired(Lit(s)) {
      LitPaired(s);
    }
  }

  // ---------------------------------------------------------------- UTF-8

  function PairScalar(hi: unit, lo: unit): (c: int)
    requires IsHigh(hi) && IsLow(lo)
    ensures 0x1_0000 <= c < 0x11_0000
  {
    0x1_0000 + (hi as int - 0xD800) * 0x400 + (lo as int - 0xDC00)
  }

  /** Section 3 of RFC 3629. */
  function EncodeScalar(c: int): Bytes
    requires 0 <= c < 0x11_0000
  {
    if c < 0x80 then
      [c as byte]
    else if c < 0x800 then
      [(0xC0 + c / 0x40) as byte, (0x80 + c % 0x40) as byte]
    else if c < 0x1_0000 then
      [(0xE0 + c / 0x1000) as byte, (0x80 + c / 0x40 % 0x40) as byte, (0x80 + c % 0x40) as byte]
    else
      [(0xF0 + c / 0x4_0000) as byte, (0x80 + c / 0x1000 % 0x40) as byte, (0x80 + c / 0x40 % 0x40) as byte,
       (0x80 + c % 0x40) as byte]
  }

  /** Units taken by the first scalar of `s`, and that scalar; a lone surrogate becomes U+FFFD. */
  function FirstScalar(s: Text): (r: (nat, int))
    requires s != []
    ensures 1 <= r.0 <= |s| && 0 <= r.1 < 0x11_0000
  {
    if IsHigh(s[0]) && |s| > 1 && IsLow(s[1]) then (2, PairScalar(s[0], s[1]))
    else if IsHigh(s[0]) || IsLow(s[0]) then (1, 0xFFFD)
    else (1, s[0] as int)
  }

  function Utf8(s: Text): Bytes {
    if s == [] then []
    else EncodeScalar(FirstScalar(s).1) + Utf8(s[FirstScalar(s).0..])
  }

  /** The length that the first byte of an encoded scalar announces. */
  function LeadLength(b: byte): nat {
    if b < 0x80 then 1 else if b < 0xE0 then 2 else if b < 0xF0 then 3 else 4
  }

  function DecodeScalar(b: Bytes): int
    requires b != [] && |b| == LeadLength(b[0])
  {
    if |b| == 1 then b[0] as int
    else if |b| == 2 then (b[0] as int - 0xC0) * 0x40 + (b[1] as int - 0x80)
    else if |b| == 3 then ((b[0] as int - 0xE0) * 0x40 + (b[1] as int - 0x80)) * 0x40 + (b[2] as int - 0x80)
    else
      (((b[0] as int - 0xF0) * 0x40 + (b[1] as int - 0x80)) * 0x40 + (b[2] as int - 0x80)) * 0x40 +
      (b[3] as int - 0x80)
  }

  lemma ScalarRoundTrip(c: int)
    requires 0 <= c < 0x11_0000
    ensures EncodeScalar(c) != [] && |EncodeScalar(c)| == LeadLength(EncodeScalar(c)[0])
    ensures DecodeScalar(EncodeScalar(c)) == c
  {
    assert c / 0x1000 == c / 0x40 / 0x40;
    assert c / 0x4_0000 == c / 0x1000 / 0x40;
  }

  lemma ScalarPrefix(c: int, d: int, x: Bytes, y: Bytes)
    requires 0 <= c < 0x11_0000 && 0 <= d < 0x11_0000
    requires EncodeScalar(c) + x == EncodeScalar(d) + y
    ensures c == d && x == y
  {
    ScalarRoundTrip(c);
    ScalarRoundTrip(d);
    PrefixCut(EncodeScalar(c), EncodeScalar(d), x, y);
  }

  lemma PrefixCut(p: Bytes, q: Bytes, x: Bytes, y: Bytes)
    requires p != [] && q != []
    requires |p| == LeadLength(p[0]) && |q| == LeadLength(q[0])
    requires p + x == q + y
    ensures p == q && x == y
  {
    assert (p + x)[0] == p[0] && (q + y)[0] == q[0];
    assert p == (p + x)[..|p|] && q == (q + y)[..|q|];
    assert x == (p + x)[|p|..] && y == (q + y)[|q|..];
  }

  /** Distinct well-formed texts have distinct UTF-8 bytes. */
  lemma {:induction false} Utf8Injective(s: Text, t: Text)
    requires Paired(s) && Paired(t)
    requires Utf8(s) == Utf8(t)
    ensures s == t
  {
    if s != [] && t != [] {
      var (m, c) := FirstScalar(s);
      var (n, d) := FirstScalar(t);
      ScalarPrefix(c, d, Utf8(s[m..]), Utf8(t[n..]));
      Utf8Injective(s[m..], t[n..]);
      assert s == s[..m] + s[m..] && t == t[..n] + t[n..];
      assert m == n && s[..m] == t[..n];
    }
  }

  /** The UTF-8 bytes of an ASCII literal. */
  function AsciiBytes(s: string): (b: Bytes)
    ensures |b| == |s|
  {
    seq(|s|, i requires 0 <= i < |s| => (s[i] as int % 0x80) as byte)
  }

  // ---------------------------------------------------------------- hexadecimal

  function HexDigit(n: int): (c: unit)
    requires 0 <= n < 16
  {
    if n < 10 then (48 + n) as unit else (87 + n) as unit
  }

  predicate IsHexDigit(c: unit) { 48 <= c <= 57 || 97 <= c <= 102 }

  function HexValue(c: unit): (n: int)
    requires IsHexDigit(c)
    ensures 0 <= n < 16
  {
    if c <= 57 then c as int - 48 else c as int - 87
  }

  predicate IsHex(t: Text, n: nat) {
    |t| == n && forall i :: 0 <= i < n ==> IsHexDigit(t[i])
  }

  function HexEncode(b: Bytes): (t: Text)
    ensures IsHex(t, 2 * |b|)
  {
    if b == [] then []
    else [HexDigit(b[0] as int / 16), HexDigit(b[0] as int % 16)] + HexEncode(b[1..])
  }

  function HexDecode(t: Text): (b: Bytes)
    requires |t| % 2 == 0
    requires IsHex(t, |t|)
    ensures 2 * |b| == |t|
  {
    if t == [] then []
    else [(16 * HexValue(t[0]) + HexValue(t[1])) as byte] + HexDecode(t[2..])
  }

  lemma {:induction false} HexRoundTrip(b: Bytes)
    ensures HexDecode(HexEncode(b)) == b
  {
    if b != [] {
      HexRoundTrip(b[1..]);
      assert HexEncode(b)[2..] == HexEncode(b[1..]);
    }
  }

  lemma {:induction false} HexTextRoundTrip(t: Text)
    requires |t| % 2 == 0
    requires IsHex(t, |t|)
    ensures HexEncode(HexDecode(t)) == t
  {
    if t != [] {
      HexTextRoundTrip(t[2..]);
      assert HexDecode(t)[1..] == HexDecode(t[2..]);
    }
  }

  // ---------------------------------------------------------------- 64-bit big-endian

  function BigEndian(n: nat, width: nat): (b: Bytes)
    ensures |b| == width
  {
    if width == 0 then [] else BigEndian(n / 0x100, width - 1) + [(n % 0x100) as byte]
  }

  function BigEndianValue(b: Bytes): nat {
    if b == [] then 0 else 0x100 * BigEndianValue(b[..|b| - 1]) + b[|b| - 1] as nat
  }

  function Pow256(n: nat): nat {
    if n == 0 then 1 else 0x100 * Pow256(n - 1)
  }

  lemma {:induction false} BigEndianRoundTrip(n: nat, width: nat)
    requires n < Pow256(width)
    ensures BigEndianValue(BigEndian(n, width)) == n
  {
    if width > 0 {
      BigEndianRoundTrip(n / 0x100, width - 1);
      assert BigEndian(n, width)[..width - 1] == BigEndian(n / 0x100, width - 1);
    }
  }
}
