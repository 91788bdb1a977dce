/** `encodeBase32` of `packages/identity-store/src/totp.ts`: section 6 of RFC 4648 without padding. */
module Base32 {
  import opened Powers
  import opened Text

  type Bits = seq<bool>

  // ---------------------------------------------------------------- bit strings

  /** The lowest `width` bits of `n`, the highest first. */
  function ToBits(n: nat, width: nat): (b: Bits)
    ensures |b| == width
  {
    if width == 0 then [] else ToBits(n / 2, width - 1) + [n % 2 == 1]
  }

  function FromBits(b: Bits): nat {
    if b == [] then 0 else 2 * FromBits(b[..|b| - 1]) + if b[|b| - 1] then 1 else 0
  }

  function BytesBits(bytes: Bytes): (b: Bits)
    ensures |b| == 8 * |bytes|
  {
    if bytes == [] then [] else BytesBits(bytes[..|bytes| - 1]) + ToBits(bytes[|bytes| - 1] as nat, 8)
  }

  function Falses(n: nat): (b: Bits)
    ensures |b| == n && forall i :: 0 <= i < n ==> !b[i]
  {
    seq(n, i => false)
  }

  /** Zero bits that fill the last group of five. */
  function Padding(bits: nat): nat { (5 - bits % 5) % 5 }

  lemma PaddingFills(bits: nat)
    ensures (bits + Padding(bits)) % 5 == 0
    ensures (bits + Padding(bits)) / 5 == (bits + 4) / 5
    ensures bits % 5 > 0 ==> Padding(bits) == 5 - bits % 5
  {
    var q, r := bits / 5, bits % 5;
    assert bits == 5 * q + r;
  }

  /** The bit string of the input, filled up to groups of five. */
  function PaddedBits(bytes: Bytes): (b: Bits)
    ensures |b| % 5 == 0
  {
    PaddingFills(8 * |bytes|);
    BytesBits(bytes) + Falses(Padding(8 * |bytes|))
  }

  /** The values of the groups of five bits. */
  function Groups(b: Bits): (g: seq<nat>)
    requires |b| % 5 == 0
    ensures |g| == |b| / 5
    ensures forall i :: 0 <= i < |g| ==> g[i] < 32
  {
    if b == [] then []
    else
      FromBitsBelow(b[|b| - 5..]);
      assert Pow2(5) == 32;
      Groups(b[..|b| - 5]) + [FromBits(b[|b| - 5..])]
  }

  function Letter(n: nat): char
    requires n < 32
  {
    if n < 26 then 'A' + n as char else '2' + (n - 26) as char
  }

  function LetterValue(c: char): nat {
    if 'A' <= c <= 'Z' then (c - 'A') as nat else if '2' <= c <= '7' then (c - '2') as nat + 26 else 0
  }

  function Letters(groups: seq<nat>): (s: string)
    requires forall i :: 0 <= i < |groups| ==> groups[i] < 32
    ensures |s| == |groups|
    ensures forall i :: 0 <= i < |groups| ==> s[i] == Letter(groups[i])
  {
    seq(|groups|, i requires 0 <= i < |groups| => Letter(groups[i]))
  }

  lemma {:induction false} FromBitsBelow(b: Bits)
    ensures FromBits(b) < Pow2(|b|)
  {
    if b != [] {
      FromBitsBelow(b[..|b| - 1]);
    }
  }

  lemma FromBitsSnoc(b: Bits, bit: bool)
    ensures FromBits(b + [bit]) == 2 * FromBits(b) + if bit then 1 else 0
  {
    assert (b + [bit])[..|b|] == b;
  }

  lemma {:induction false} FromBitsConcat(a: Bits, b: Bits)
    ensures FromBits(a + b) == FromBits(a) * Pow2(|b|) + FromBits(b)
  {
    if b == [] {
      assert a + b == a;
    } else {
      var n := |b| - 1;
      FromBitsConcat(a, b[..n]);
      assert a + b == (a + b[..n]) + [b[n]];
      FromBitsSnoc(a + b[..n], b[n]);
      Doubled(FromBits(a), Pow2(n));
    }
  }

  lemma Doubled(x: nat, p: nat)
    ensures x * (2 * p) == 2 * (x * p)
  {
  }

  lemma {:induction false} ToBitsRoundTrip(n: nat, width: nat)
    requires n < Pow2(width)
    ensures FromBits(ToBits(n, width)) == n
  {
    if width > 0 {
      ToBitsRoundTrip(n / 2, width - 1);
      assert ToBits(n, width)[..width - 1] == ToBits(n / 2, width - 1);
    }
  }

  lemma {:induction false} FromBitsRoundTrip(b: Bits)
    ensures ToBits(FromBits(b), |b|) == b
  {
    if b != [] {
      FromBitsRoundTrip(b[..|b| - 1]);
      assert FromBits(b) / 2 == FromBits(b[..|b| - 1]);
      assert b == b[..|b| - 1] + [b[|b| - 1]];
    }
  }

  /** Each symbol stands for its own five bits. */
  lemma {:induction false} GroupAt(b: Bits, k: nat)
    requires |b| % 5 == 0 && 5 * k + 5 <= |b|
    ensures Groups(b)[k] == FromBits(b[5 * k..5 * k + 5])
  {
    var n := |b| - 5;
    if 5 * k < n {
      assert 5 * k + 5 <= n;
      GroupAt(b[..n], k);
      assert b[..n][5 * k..5 * k + 5] == b[5 * k..5 * k + 5];
      assert Groups(b)[k] == Groups(b[..n])[k];
    } else {
      assert b[5 * k..5 * k + 5] == b[n..];
    }
  }

  // ---------------------------------------------------------------- the encoder

  /** The text that section 6 of RFC 4648 gives the bytes, without padding characters. */
  function Base32Text(bytes: Bytes): string {
    Letters(Groups(PaddedBits(bytes)))
  }

  const WORD: nat := 0x1_0000_0000

  /** Of the bits read so far, those not yet emitted are the low bits of the accumulator. */
  ghost predicate Live(value: nat, bits: nat, pending: Bits) {
    |pending| == bits && bits <= 12 && value % Pow2(bits) == FromBits(pending)
  }

  lemma SmallPowers()
    ensures Pow2(0) == 1 && Pow2(1) == 2 && Pow2(2) == 4 && Pow2(3) == 8 && Pow2(4) == 16 && Pow2(5) == 32
    ensures Pow2(8) == 0x100
  {
    assert Pow2(4) == 16;
    assert Pow2(8) == 0x100;
  }

  lemma {:induction false} PowerDividesWord(k: nat)
    requires k <= 32
    ensures WORD == Pow2(32 - k) * Pow2(k)
  {
    Pow2Plus(32 - k, k);
    SmallPowers();
    Pow2Plus(8, 8);
    Pow2Plus(16, 16);
  }

  /** Cutting to a multiple of a modulus does not change the remainder. */
  lemma ModOfMod(n: nat, p: nat, m: nat)
    requires p > 0 && m > 0
    ensures m * p > 0 && n % (m * p) % p == n % p
  {
    Positive(m, p);
    var q, r := n / (m * p), n % (m * p);
    assert n == (m * p) * q + r;
    Regroup(m, p, q);
    var s := r / p;
    assert r == p * s + r % p;
    Distribute(q * m, s, p);
    assert n == (q * m + s) * p + r % p;
    Quotient(n, p, q * m + s, r % p);
  }

  lemma Positive(m: nat, p: nat)
    requires p > 0 && m > 0
    ensures m * p > 0
  {
  }

  lemma Regroup(m: nat, p: nat, q: nat)
    ensures (m * p) * q == (q * m) * p
  {
  }

  lemma Distribute(a: nat, b: nat, p: nat)
    ensures (a + b) * p == a * p + b * p
  {
  }

  /** `(value << 8) | byte` in 32 bits keeps the live bits and appends the byte. */
  lemma ShiftIn(value: nat, bits: nat, pending: Bits, byte: byte)
    requires Live(value, bits, pending) && bits <= 4
    ensures Live((value * 0x100 + byte as nat) % WORD, bits + 8, pending + ToBits(byte as nat, 8))
  {
    var b, p := byte as nat, Pow2(bits);
    SmallPowers();
    ToBitsRoundTrip(b, 8);
    FromBitsConcat(pending, ToBits(b, 8));
    Pow2Plus(8, bits);
    PowerDividesWord(bits + 8);
    ModOfMod(value * 0x100 + b, Pow2(bits + 8), Pow2(24 - bits));
    ShiftedRemainder(value, p, b);
  }

  lemma ShiftedRemainder(value: nat, p: nat, b: nat)
    requires p > 0 && b < 0x100
    ensures (value * 0x100 + b) % (0x100 * p) == value % p * 0x100 + b
  {
    var q, r := value / p, value % p;
    assert value == q * p + r;
    Regroup(0x100, p, q);
    Distribute(q * p, r, 0x100);
    assert q * (0x100 * p) == (q * p) * 0x100;
    Quotient(value * 0x100 + b, 0x100 * p, q, r * 0x100 + b);
  }

  /** `(value >>> (bits - 5)) & 31` is the value of the five highest live bits. */
  lemma TopFive(value: nat, bits: nat, pending: Bits)
    requires Live(value, bits, pending) && bits >= 5
    ensures value / Pow2(bits - 5) % 32 == FromBits(pending[..5])
    ensures Live(value, bits - 5, pending[5..])
  {
    var high, low := pending[..5], pending[5..];
    assert pending == high + low;
    FromBitsConcat(high, low);
    FromBitsBelow(high);
    FromBitsBelow(low);
    SmallPowers();
    SplitModulus(value, bits - 5, FromBits(high), FromBits(low));
  }

  lemma DoubleProduct(x: nat, y: nat)
    ensures 2 * (x * y) == 2 * x * y
  {
  }

  lemma {:induction false} Pow2Plus(a: nat, b: nat)
    ensures Pow2(a + b) == Pow2(a) * Pow2(b)
  {
    if a > 0 {
      var x, y := Pow2(a - 1), Pow2(b);
      calc {
        Pow2(a + b);
        2 * Pow2(a - 1 + b);
        { Pow2Plus(a - 1, b); }
        2 * (x * y);
        { DoubleProduct(x, y); }
        2 * x * y;
        Pow2(a) * y;
      }
    }
  }

  lemma SplitModulus(value: nat, k: nat, high: nat, low: nat)
    requires high < 32 && low < Pow2(k)
    requires value % Pow2(k + 5) == high * Pow2(k) + low
    ensures value / Pow2(k) % 32 == high && value % Pow2(k) == low
  {
    SmallPowers();
    Pow2Plus(5, k);
    SplitAt(value, Pow2(k), high, low);
  }

  lemma Euclid(n: nat, d: nat)
    requires d > 0
    ensures n == d * (n / d) + n % d
  {
  }

  lemma SplitAt(value: nat, p: nat, high: nat, low: nat)
    requires high < 32 && low < p
    requires value % (32 * p) == high * p + low
    ensures value / p % 32 == high && value % p == low
  {
    var q := value / (32 * p);
    Positive(32, p);
    Euclid(value, 32 * p);
    Regroup(32, p, q);
    Distribute(q * 32, high, p);
    Quotient(value, p, q * 32 + high, low);
  }

  lemma Quotient(n: nat, p: nat, q: nat, r: nat)
    requires r < p && n == q * p + r
    ensures n / p == q && n % p == r
  {
    var d := n / p - q;
    assert n == n / p * p + n % p;
    assert d * p == r - n % p;
    Apart(d, p);
  }

  lemma Apart(d: int, p: nat)
    requires -(p as int) < d * p < p
    ensures d == 0
  {
  }

  lemma GroupsSnoc(b: Bits, group: Bits)
    requires |b| % 5 == 0 && |group| == 5
    ensures Groups(b + group) == Groups(b) + [FromBits(group)]
  {
    assert (b + group)[..|b + group| - 5] == b && (b + group)[|b + group| - 5..] == group;
  }

  lemma LettersSnoc(groups: seq<nat>, g: nat)
    requires forall i :: 0 <= i < |groups| ==> groups[i] < 32
    requires g < 32
    ensures Letters(groups + [g]) == Letters(groups) + [Letter(g)]
  {
  }

  /** `out` is the text of whole groups. */
  predicate Written(out: string, emitted: Bits) {
    |emitted| % 5 == 0 && out == Letters(Groups(emitted))
  }

  lemma WriteGroup(out: string, emitted: Bits, group: Bits)
    requires Written(out, emitted) && |group| == 5
    ensures FromBits(group) < 32
    ensures Written(out + [Letter(FromBits(group))], emitted + group)
  {
    FromBitsBelow(group);
    SmallPowers();
    GroupsSnoc(emitted, group);
    LettersSnoc(Groups(emitted), FromBits(group));
  }

  lemma MoveGroup(emitted: Bits, pending: Bits)
    requires |pending| >= 5
    ensures emitted + pending[..5] + pending[5..] == emitted + pending
  {
  }

  /** The inner loop: emits the groups of five that are complete. */
  method Drain(value: nat, bits: nat, out: string, ghost emitted: Bits, ghost pending: Bits)
    returns (bits': nat, out': string, ghost emitted': Bits, ghost pending': Bits)
    requires Live(value, bits, pending) && Written(out, emitted)
    ensures bits' < 5 && Live(value, bits', pending') && Written(out', emitted')
    ensures emitted' + pending' == emitted + pending
  {
    bits', out', emitted', pending' := bits, out, emitted, pending;
    while bits' >= 5
      invariant Live(value, bits', pending') && Written(out', emitted')
      invariant emitted' + pending' == emitted + pending
    {
      TopFive(value, bits', pending');
      WriteGroup(out', emitted', pending'[..5]);
      MoveGroup(emitted', pending');
      out' := out' + [Letter(value / Pow2(bits' - 5) % 32)];
      bits' := bits' - 5;
      emitted', pending' := emitted' + pending'[..5], pending'[5..];
    }
  }

  method EncodeBase32(bytes: Bytes) returns (out: string)
    ensures out == Base32Text(bytes)
  {
    var bits: nat := 0;
    var value: nat := 0;
    out := "";
    ghost var emitted: Bits := [];
    ghost var pending: Bits := [];
    for index := 0 to |bytes|
      invariant bits < 5 && Live(value, bits, pending) && Written(out, emitted)
      invariant emitted + pending == BytesBits(bytes[..index])
    {
      ShiftIn(value, bits, pending, bytes[index]);
      NextByte(bytes, index, emitted, pending);
      value := (value * 0x100 + bytes[index] as nat) % WORD;
      bits, out, emitted, pending := Drain(value, bits + 8, out, emitted, pending + ToBits(bytes[index] as nat, 8));
    }
    assert bytes[..|bytes|] == bytes;
    LastGroup(bytes, value, bits, emitted, pending);
    if bits > 0 {
      out := out + [Letter(value * Pow2(5 - bits) % WORD % 32)];
    }
  }

  lemma NextByte(bytes: Bytes, index: nat, emitted: Bits, pending: Bits)
    requires index < |bytes| && emitted + pending == BytesBits(bytes[..index])
    ensures emitted + (pending + ToBits(bytes[index] as nat, 8)) == BytesBits(bytes[..index + 1])
  {
    BytesBitsSnoc(bytes[..index], bytes[index]);
    assert bytes[..index + 1] == bytes[..index] + [bytes[index]];
    assert emitted + (pending + ToBits(bytes[index] as nat, 8)) == emitted + pending + ToBits(bytes[index] as nat, 8);
  }

  lemma BytesBitsSnoc(bytes: Bytes, last: byte)
    ensures BytesBits(bytes + [last]) == BytesBits(bytes) + ToBits(last as nat, 8)
  {
    assert (bytes + [last])[..|bytes|] == bytes;
  }

  /** What is left over is filled with zero bits to one more group. */
  lemma LastGroup(bytes: Bytes, value: nat, bits: nat, emitted: Bits, pending: Bits)
    requires bits < 5 && Live(value, bits, pending) && |emitted| % 5 == 0
    requires emitted + pending == BytesBits(bytes)
    ensures Base32Text(bytes) == Letters(Groups(emitted)) +
      if bits > 0 then [Letter(value * Pow2(5 - bits) % WORD % 32)] else []
  {
    var zeros := Falses(Padding(8 * |bytes|));
    PaddingOfRest(bytes, emitted, pending);
    if bits > 0 {
      FilledGroup(value, bits, pending, zeros);
      WriteGroup(Letters(Groups(emitted)), emitted, pending + zeros);
    }
  }

  /** The padding fills what is left over to one group, or is empty with it. */
  lemma PaddingOfRest(bytes: Bytes, emitted: Bits, pending: Bits)
    requires |emitted| % 5 == 0 && |pending| < 5 && emitted + pending == BytesBits(bytes)
    ensures Padding(8 * |bytes|) == if pending == [] then 0 else 5 - |pending|
    ensures PaddedBits(bytes) == if pending == [] then emitted else emitted + (pending + Falses(Padding(8 * |bytes|)))
  {
    PaddingAfter(8 * |bytes|, |emitted|, |pending|);
    FilledUp(bytes, emitted, pending);
  }

  lemma PaddingAfter(n: nat, e: nat, r: nat)
    requires n == e + r && e % 5 == 0 && r < 5
    ensures Padding(n) == if r == 0 then 0 else 5 - r
  {
    LeftOver(e, r);
  }

  lemma PaddedIs(bytes: Bytes)
    ensures PaddedBits(bytes) == BytesBits(bytes) + Falses(Padding(8 * |bytes|))
  {
  }

  lemma Associate(a: Bits, b: Bits, c: Bits)
    ensures a + b + c == a + (b + c)
    ensures c == [] ==> a + b + c == a + b
  {
  }

  lemma FilledUp(bytes: Bytes, emitted: Bits, pending: Bits)
    requires emitted + pending == BytesBits(bytes) && (pending == [] ==> Padding(8 * |bytes|) == 0)
    ensures PaddedBits(bytes) == if pending == [] then emitted else emitted + (pending + Falses(Padding(8 * |bytes|)))
  {
    PaddedIs(bytes);
    Associate(emitted, pending, Falses(Padding(8 * |bytes|)));
  }

  lemma LeftOver(n: nat, bits: nat)
    requires n % 5 == 0 && bits < 5
    ensures (n + bits) % 5 == bits
  {
  }

  lemma {:induction false} FalsesAreZero(b: Bits)
    requires forall i :: 0 <= i < |b| ==> !b[i]
    ensures FromBits(b) == 0
  {
    if b != [] {
      FalsesAreZero(b[..|b| - 1]);
    }
  }

  lemma FilledGroup(value: nat, bits: nat, pending: Bits, zeros: Bits)
    requires Live(value, bits, pending) && 0 < bits < 5
    requires |zeros| == 5 - bits && forall i :: 0 <= i < |zeros| ==> !zeros[i]
    ensures value * Pow2(5 - bits) % WORD % 32 == FromBits(pending + zeros)
  {
    FalsesAreZero(zeros);
    FromBitsConcat(pending, zeros);
    var p, m := Pow2(bits), Pow2(5 - bits);
    SmallPowers();
    PowerDividesWord(5);
    ModOfMod(value * m, 32, Pow2(27));
    Pow2Plus(5 - bits, bits);
    ScaledRemainder(value, p, m);
  }

  lemma ScaledRemainder(value: nat, p: nat, m: nat)
    requires p > 0 && m > 0
    ensures m * p > 0 && (value * m) % (m * p) == value % p * m
  {
    Positive(m, p);
    var q, r := value / p, value % p;
    assert value == q * p + r;
    Distribute(q * p, r, m);
    Regroup(m, p, q);
    Swap(q, p, m);
    Below(r, p, m);
    Quotient(value * m, m * p, q, r * m);
  }

  lemma Swap(q: nat, p: nat, m: nat)
    ensures (q * p) * m == q * (m * p)
  {
  }

  lemma Below(r: nat, p: nat, m: nat)
    requires r < p && m > 0
    ensures r * m < m * p
  {
  }

  // ---------------------------------------------------------------- what the text tells

  /** One symbol for every five bits begun, each of its own group of the filled bit string. */
  lemma SymbolsAreGroups(bytes: Bytes)
    ensures |Base32Text(bytes)| == (8 * |bytes| + 4) / 5
    ensures forall k :: 0 <= k < |Base32Text(bytes)| ==>
      5 * k + 5 <= |PaddedBits(bytes)| &&
        LetterValue(Base32Text(bytes)[k]) == FromBits(PaddedBits(bytes)[5 * k..5 * k + 5])
  {
    var b := PaddedBits(bytes);
    PaddingFills(8 * |bytes|);
    forall k | 0 <= k < |Base32Text(bytes)|
      ensures 5 * k + 5 <= |b| && LetterValue(Base32Text(bytes)[k]) == FromBits(b[5 * k..5 * k + 5])
    {
      GroupAt(b, k);
    }
  }

  /** The bits that a text stands for, five to a symbol. */
  function TextBits(s: string): (b: Bits)
    ensures |b| == 5 * |s|
  {
    if s == [] then [] else TextBits(s[..|s| - 1]) + ToBits(LetterValue(s[|s| - 1]), 5)
  }

  function BitsBytes(b: Bits): Bytes {
    if |b| < 8 then []
    else BitsBytes(b[..|b| - 8]) + [(FromBits(b[|b| - 8..]) % 0x100) as byte]
  }

  /** The decoder: whole bytes of the bits, the filling dropped. */
  function Decode(s: string): Bytes {
    BitsBytes(TextBits(s)[..8 * (5 * |s| / 8)])
  }

  lemma TextBitsSnoc(s: string, c: char)
    ensures TextBits(s + [c]) == TextBits(s) + ToBits(LetterValue(c), 5)
  {
    assert (s + [c])[..|s|] == s;
  }

  lemma TextBitsOfGroup(out: string, last: Bits)
    requires |last| == 5 && FromBits(last) < 32
    ensures TextBits(out + [Letter(FromBits(last))]) == TextBits(out) + last
  {
    TextBitsSnoc(out, Letter(FromBits(last)));
    FromBitsRoundTrip(last);
  }

  lemma {:induction false} TextBitsOfLetters(b: Bits)
    requires |b| % 5 == 0
    ensures TextBits(Letters(Groups(b))) == b
    decreases |b|
  {
    if b == [] {
      assert Letters(Groups(b)) == "";
    } else {
      var front, last := b[..|b| - 5], b[|b| - 5..];
      var out := Letters(Groups(front));
      TextBitsOfLetters(front);
      assert b == front + last;
      WriteGroup(out, front, last);
      assert Letters(Groups(b)) == out + [Letter(FromBits(last))];
      TextBitsOfGroup(out, last);
    }
  }

  lemma BitsBytesSnoc(b: Bits, byteBits: Bits, value: byte)
    requires |byteBits| == 8 && FromBits(byteBits) == value as nat
    ensures BitsBytes(b + byteBits) == BitsBytes(b) + [value]
  {
    var all := b + byteBits;
    assert all[..|all| - 8] == b && all[|all| - 8..] == byteBits;
  }

  lemma ByteRoundTrip(value: byte)
    ensures FromBits(ToBits(value as nat, 8)) == value as nat
  {
    SmallPowers();
    ToBitsRoundTrip(value as nat, 8);
  }

  lemma {:induction false} BitsBytesRoundTrip(bytes: Bytes)
    ensures BitsBytes(BytesBits(bytes)) == bytes
  {
    if bytes != [] {
      var front, last := bytes[..|bytes| - 1], bytes[|bytes| - 1];
      BitsBytesRoundTrip(front);
      BytesBitsSnoc(front, last);
      ByteRoundTrip(last);
      BitsBytesSnoc(BytesBits(front), ToBits(last as nat, 8), last);
      assert bytes == front + [last];
    }
  }

  /** Every encoding can be decoded. */
  lemma EncodingDecodes(bytes: Bytes)
    ensures Decode(Base32Text(bytes)) == bytes
  {
    var n := |bytes|;
    PaddingFills(8 * n);
    TextBitsOfLetters(PaddedBits(bytes));
    assert |Base32Text(bytes)| == (8 * n + 4) / 5;
    WholeBytes(n);
    assert PaddedBits(bytes)[..8 * n] == BytesBits(bytes);
    BitsBytesRoundTrip(bytes);
  }

  lemma WholeBytes(n: nat)
    ensures 8 * (5 * ((8 * n + 4) / 5) / 8) == 8 * n
  {
    var s := (8 * n + 4) / 5;
    assert 8 * n <= 5 * s <= 8 * n + 4;
  }
}
