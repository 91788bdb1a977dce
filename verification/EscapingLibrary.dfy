/** A canonicalizer without limits: it prints what RFC 8785 prints, and a lone surrogate as
    `JSON.stringify` does, by its number. */
module EscapingLibrary {
  import opened Results
  import opened Text
  import opened Json
  import opened JsonRoundTrip
  import opened CanonicalIdentity
  import opened RenderTheorems

  // ---------------------------------------------------------------- lone surrogates

  const LETTER_U: unit := 0x75
  const LETTER_D: unit := 0x64
  const ZERO: unit := 0x30

  predicate IsSurrogate(c: unit) { IsHigh(c) || IsLow(c) }

  /** `\ud800` to `\udfff` */
  function Escape(c: unit): Text
    requires IsSurrogate(c)
  {
    var n := c as int;
    [BACKSLASH, LETTER_U, LETTER_D, HexDigit(n / 0x100 % 16), HexDigit(n / 0x10 % 16), HexDigit(n % 16)]
  }

  /** The text with its lone surrogates escaped. */
  function Escaped(t: Text): Text {
    if t == [] then []
    else if IsHigh(t[0]) && |t| > 1 && IsLow(t[1]) then [t[0], t[1]] + Escaped(t[2..])
    else if IsSurrogate(t[0]) then Escape(t[0]) + Escaped(t[1..])
    else [t[0]] + Escaped(t[1..])
  }

  lemma {:induction false} EscapedPaired(t: Text)
    ensures Paired(Escaped(t))
  {
    if t == [] {
    } else if IsHigh(t[0]) && |t| > 1 && IsLow(t[1]) {
      EscapedPaired(t[2..]);
      assert Escaped(t)[2..] == Escaped(t[2..]);
    } else if IsSurrogate(t[0]) {
      EscapedPaired(t[1..]);
      PairedPlain(Escape(t[0]));
      PairedConcat(Escape(t[0]), Escaped(t[1..]));
    } else {
      EscapedPaired(t[1..]);
      assert Escaped(t)[1..] == Escaped(t[1..]);
    }
  }

  lemma {:induction false} PairedIsKept(t: Text)
    requires Paired(t)
    ensures Escaped(t) == t
  {
    if t == [] {
    } else if IsHigh(t[0]) {
      PairedIsKept(t[2..]);
    } else {
      PairedIsKept(t[1..]);
    }
  }

  // ---------------------------------------------------------------- reading it back

  /** An escaped surrogate starts the text. */
  predicate StartsEscape(t: Text) {
    |t| >= 6 && t[0] == BACKSLASH && t[1] == LETTER_U && t[2] == LETTER_D && IsHex(t[2..6], 4)
  }

  function EscapeValue(t: Text): unit
    requires StartsEscape(t)
  {
    (0xD000 + HexValue(t[3]) * 0x100 + HexValue(t[4]) * 0x10 + HexValue(t[5])) as unit
  }

  /** Escaped surrogates turned back; other escapes are stepped over. */
  function Restored(t: Text): Text {
    if t == [] then []
    else if StartsEscape(t) then [EscapeValue(t)] + Restored(t[6..])
    else if t[0] == BACKSLASH && |t| > 1 then t[..2] + Restored(t[2..])
    else [t[0]] + Restored(t[1..])
  }

  /** Every escape is whole and of the kind that RFC 8785 prints: none of them is of a surrogate. */
  predicate Plain(t: Text) {
    if t == [] then true
    else if t[0] == BACKSLASH then
      |t| > 1 && t[1] < 0x80 && (t[1] == LETTER_U ==> |t| > 2 && t[2] == ZERO) && Plain(t[2..])
    else Plain(t[1..])
  }

  lemma DigitRoundTrip(n: int)
    requires 0 <= n < 16
    ensures IsHexDigit(HexDigit(n)) && HexValue(HexDigit(n)) == n
  {
  }

  lemma SurrogateDigits(n: int, tens: int, hundreds: int)
    requires 0xD800 <= n < 0xE000 && tens == n / 0x10 && hundreds == n / 0x100
    ensures n == 0xD000 + hundreds % 16 * 0x100 + tens % 16 * 0x10 + n % 16
  {
    assert n == tens * 0x10 + n % 16 && tens == hundreds * 0x10 + tens % 16;
    assert 0xD0 <= hundreds < 0xE0;
  }

  lemma EscapeReads(c: unit)
    requires IsSurrogate(c)
    ensures StartsEscape(Escape(c)) && EscapeValue(Escape(c)) == c
  {
    var n := c as int;
    DigitRoundTrip(n / 0x100 % 16);
    DigitRoundTrip(n / 0x10 % 16);
    DigitRoundTrip(n % 16);
    SurrogateDigits(n, n / 0x10, n / 0x100);
  }

  lemma RestoredEscape(c: unit, rest: Text)
    requires IsSurrogate(c)
    ensures Restored(Escape(c) + rest) == [c] + Restored(rest)
  {
    var e := Escape(c);
    var t := e + rest;
    EscapeReads(c);
    assert t[2..6] == e[2..6] && t[6..] == rest;
    assert t[0] == e[0] && t[1] == e[1] && t[2] == e[2] && t[3] == e[3] && t[4] == e[4] && t[5] == e[5];
  }

  lemma RestoredUnit(c: unit, rest: Text)
    requires c != BACKSLASH
    ensures Restored([c] + rest) == [c] + Restored(rest)
  {
    assert ([c] + rest)[1..] == rest;
  }

  lemma RestoredOther(c: unit, rest: Text)
    requires c == LETTER_U ==> rest != [] && rest[0] == ZERO
    ensures Restored([BACKSLASH, c] + rest) == [BACKSLASH, c] + Restored(rest)
  {
    var t := [BACKSLASH, c] + rest;
    assert t[..2] == [BACKSLASH, c] && t[2..] == rest;
    assert c == LETTER_U ==> t[2] == ZERO;
  }

  lemma EscapedOther(t: Text)
    requires |t| > 1 && !IsSurrogate(t[0]) && !IsSurrogate(t[1])
    ensures Escaped(t) == [t[0], t[1]] + Escaped(t[2..])
  {
    assert t[1..][1..] == t[2..];
  }

  /** Nothing is lost by escaping. */
  lemma {:induction false} EscapedRestored(t: Text)
    requires Plain(t)
    ensures Restored(Escaped(t)) == t
  {
    if t == [] {
    } else if t[0] == BACKSLASH {
      var rest := t[2..];
      EscapedRestored(rest);
      EscapedOther(t);
      RestoredOther(t[1], Escaped(rest));
      assert t == [BACKSLASH, t[1]] + rest;
    } else if IsHigh(t[0]) && |t| > 1 && IsLow(t[1]) {
      var rest := t[2..];
      assert t[1..][1..] == rest;
      EscapedRestored(rest);
      RestoredUnit(t[1], Escaped(rest));
      RestoredUnit(t[0], [t[1]] + Escaped(rest));
      assert [t[0], t[1]] + Escaped(rest) == [t[0]] + ([t[1]] + Escaped(rest));
    } else {
      EscapedRestored(t[1..]);
      if IsSurrogate(t[0]) {
        RestoredEscape(t[0], Escaped(t[1..]));
      } else {
        RestoredUnit(t[0], Escaped(t[1..]));
      }
      assert t == [t[0]] + t[1..];
    }
  }

  // ---------------------------------------------------------------- canonical text is plain

  lemma {:induction false} PlainConcat(a: Text, b: Text)
    requires Plain(a) && Plain(b)
    ensures Plain(a + b)
  {
    if a == [] {
      assert a + b == b;
    } else if a[0] == BACKSLASH {
      PlainConcat(a[2..], b);
      assert (a + b)[2..] == a[2..] + b;
    } else {
      PlainConcat(a[1..], b);
      assert (a + b)[1..] == a[1..] + b;
    }
  }

  lemma {:induction false} NoEscapes(t: Text)
    requires BACKSLASH !in t
    ensures Plain(t)
  {
    if t != [] {
      NoEscapes(t[1..]);
    }
  }

  lemma PlainEscape(c: unit, rest: Text)
    requires c < 0x80 && (c == LETTER_U ==> rest != [] && rest[0] == ZERO) && Plain(rest)
    ensures Plain([BACKSLASH, c] + rest)
  {
    assert ([BACKSLASH, c] + rest)[2..] == rest;
  }

  lemma UnitIsPlain(c: unit)
    ensures Plain(PrintUnit(c))
  {
    var t := PrintUnit(c);
    if t == [c] {
      NoEscapes(t);
    } else {
      NoEscapes(t[2..]);
      PlainEscape(t[1], t[2..]);
      assert t == [BACKSLASH, t[1]] + t[2..];
    }
  }

  lemma {:induction false} UnitsArePlain(s: Text)
    ensures Plain(PrintUnits(s))
  {
    if s != [] {
      UnitIsPlain(s[0]);
      UnitsArePlain(s[1..]);
      PlainConcat(PrintUnit(s[0]), PrintUnits(s[1..]));
    }
  }

  lemma Enclosed(open: unit, inner: Text, close: unit)
    requires Plain(inner) && open != BACKSLASH && close != BACKSLASH
    ensures Plain([open] + inner + [close])
  {
    NoEscapes([open]);
    NoEscapes([close]);
    PlainConcat([open], inner);
    PlainConcat([open] + inner, [close]);
  }

  lemma {:induction false} JoinIsPlain(parts: seq<Text>)
    requires forall i :: 0 <= i < |parts| ==> Plain(parts[i])
    ensures Plain(Join(parts))
  {
    if |parts| > 1 {
      JoinIsPlain(parts[1..]);
      NoEscapes([COMMA]);
      PlainConcat(parts[0], [COMMA]);
      PlainConcat(parts[0] + [COMMA], Join(parts[1..]));
    }
  }

  lemma IntIsPlain(n: int)
    ensures Plain(PrintInt(n))
  {
    NatDigits(if n < 0 then -n else n);
    NoEscapes(PrintInt(n));
  }

  lemma StringIsPlain(s: Text)
    ensures Plain(PrintString(s))
  {
    UnitsArePlain(s);
    Enclosed(QUOTE, PrintUnits(s), QUOTE);
  }

  lemma {:induction false} PrintIsPlain(v: Json)
    ensures Plain(Print(v))
    decreases v, 1
  {
    match v
    case Null => NoEscapes(NULL_TEXT);
    case Bool(b) => NoEscapes(if b then TRUE_TEXT else FALSE_TEXT);
    case Num(n) => IntIsPlain(n);
    case Str(s) => StringIsPlain(s);
    case Arr(items) =>
      forall i | 0 <= i < |items| ensures Plain(Print(items[i])) {
        PrintIsPlain(items[i]);
      }
      JoinIsPlain(PrintItems(items));
      Enclosed(OPEN_BRACKET, Join(PrintItems(items)), CLOSE_BRACKET);
    case Obj(fields) =>
      forall i | 0 <= i < |fields| ensures Plain(PrintField(fields[i])) {
        FieldIsPlain(fields[i]);
      }
      JoinIsPlain(PrintFields(fields));
      Enclosed(OPEN_BRACE, Join(PrintFields(fields)), CLOSE_BRACE);
  }

  lemma {:induction false} FieldIsPlain(f: Field)
    ensures Plain(PrintField(f))
    decreases f, 2
  {
    StringIsPlain(f.key);
    PrintIsPlain(f.value);
    NoEscapes([COLON]);
    PlainConcat(PrintString(f.key), [COLON]);
    PlainConcat(PrintString(f.key) + [COLON], Print(f.value));
  }

  // ---------------------------------------------------------------- the library

  function Escaping(): Library {
    (v: Json) => Some(Escaped(Canon(v)))
  }

  lemma EscapingInjective(v: Json, w: Json)
    requires WellFormed(v) && WellFormed(w) && Escaped(Canon(v)) == Escaped(Canon(w))
    ensures Same(v, w)
  {
    PrintIsPlain(Norm(v));
    PrintIsPlain(Norm(w));
    EscapedRestored(Canon(v));
    EscapedRestored(Canon(w));
    CanonInjective(v, w);
  }

  /** It prints what RFC 8785 says where that says anything, and still one text for one value. */
  lemma EscapingFollowsRfc8785()
    ensures FollowsRfc8785(Escaping())
  {
    var library := Escaping();
    forall v | WellFormed(v) && Canonicalizable(v) ensures library(v) == Some(Canon(v)) {
      NormKeepsCounts(v);
      PrintPaired(Norm(v));
      PairedIsKept(Canon(v));
    }
    forall v ensures Paired(library(v).value) {
      EscapedPaired(Canon(v));
    }
    forall v, w | WellFormed(v) && WellFormed(w) && library(v) == library(w) ensures Same(v, w) {
      EscapingInjective(v, w);
    }
  }
}
