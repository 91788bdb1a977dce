/** JSON values, their RFC 8785 canonical text, and the parser that inverts it. */
module Json {
  import opened Sorting
  import opened Text

  /** Numbers are integers; the fields of an object keep the order of the source object. */
  datatype Json =
    | Null
    | Bool(b: bool)
    | Num(n: int)
    | Str(s: Text)
    | Arr(items: seq<Json>)
    | Obj(fields: seq<Field>)

  datatype Field = Field(key: Text, value: Json)

  function Named(key: string, value: Json): Field { Field(Lit(key), value) }

  ghost predicate DistinctKeys(fields: seq<Field>) {
    forall i, j :: 0 <= i < j < |fields| ==> fields[i].key != fields[j].key
  }

  /** No object of the value has one key twice. */
  ghost predicate WellFormed(v: Json) {
    match v
    case Arr(items) => forall i :: 0 <= i < |items| ==> WellFormed(items[i])
    case Obj(fields) => DistinctKeys(fields) && forall i :: 0 <= i < |fields| ==> WellFormed(fields[i].value)
    case _ => true
  }

  /** The same JSON value, whatever order the keys of an object come in. */
  ghost predicate Same(a: Json, b: Json) {
    match (a, b)
    case (Arr(xs), Arr(ys)) =>
      |xs| == |ys| && forall i :: 0 <= i < |xs| ==> Same(xs[i], ys[i])
    case (Obj(fs), Obj(gs)) =>
      |fs| == |gs| && forall i :: 0 <= i < |fs| ==> HasSame(fs[i], gs)
    case (_, _) => a == b
  }

  /** Some field has the key of `f` and the same value. */
  ghost predicate HasSame(f: Field, gs: seq<Field>) {
    exists j :: 0 <= j < |gs| && gs[j].key == f.key && Same(f.value, gs[j].value)
  }

  // ---------------------------------------------------------------- key order

  /** Lexicographic order of UTF-16 code units, which is what `sort()` uses on strings. */
  predicate TextLt(a: Text, b: Text) {
    if b == [] then false
    else if a == [] then true
    else if a[0] != b[0] then a[0] < b[0]
    else TextLt(a[1..], b[1..])
  }

  predicate KeyLt(f: Field, g: Field) { TextLt(f.key, g.key) }

  lemma {:induction false} TextLtTotal(a: Text, b: Text)
    ensures TextLt(a, b) || TextLt(b, a) || a == b
    ensures !(TextLt(a, b) && TextLt(b, a))
    ensures !TextLt(a, a)
  {
    if a != [] {
      TextLtTotal(a[1..], a[1..]);
      if b != [] {
        TextLtTotal(a[1..], b[1..]);
        assert a == [a[0]] + a[1..] && b == [b[0]] + b[1..];
      }
    }
  }

  lemma {:induction false} TextLtNegativeTransitive(a: Text, b: Text, c: Text)
    requires !TextLt(a, b) && !TextLt(b, c)
    ensures !TextLt(a, c)
  {
    if a != [] && b != [] && c != [] && a[0] == b[0] == c[0] {
      TextLtNegativeTransitive(a[1..], b[1..], c[1..]);
    }
  }

  lemma TextOrder()
    ensures StrictWeakOrder(TextLt)
  {
    forall a, b ensures !TextLt(a, a) && (TextLt(a, b) ==> !TextLt(b, a)) {
      TextLtTotal(a, b);
    }
    forall a, b, c | !TextLt(a, b) && !TextLt(b, c) ensures !TextLt(a, c) {
      TextLtNegativeTransitive(a, b, c);
    }
  }

  lemma KeyOrder()
    ensures StrictWeakOrder(KeyLt)
  {
    TextOrder();
    forall f, g: Field ensures !KeyLt(f, f) && (KeyLt(f, g) ==> !KeyLt(g, f)) {
      assert !TextLt(f.key, f.key);
      assert TextLt(f.key, g.key) ==> !TextLt(g.key, f.key);
    }
    forall f, g, k: Field | !KeyLt(f, g) && !KeyLt(g, k) ensures !KeyLt(f, k) {
      TextLtNegativeTransitive(f.key, g.key, k.key);
    }
  }

  lemma DistinctKeysSeparated(fields: seq<Field>)
    requires DistinctKeys(fields)
    ensures Separated(fields, KeyLt)
  {
    forall i, j | 0 <= i < j < |fields| ensures KeyLt(fields[i], fields[j]) || KeyLt(fields[j], fields[i]) {
      TextLtTotal(fields[i].key, fields[j].key);
    }
  }

  // ---------------------------------------------------------------- printing

  const QUOTE: unit := 0x22
  const BACKSLASH: unit := 0x5C
  const COMMA: unit := 0x2C
  const COLON: unit := 0x3A
  const OPEN_BRACKET: unit := 0x5B
  const CLOSE_BRACKET: unit := 0x5D
  const OPEN_BRACE: unit := 0x7B
  const CLOSE_BRACE: unit := 0x7D
  const MINUS: unit := 0x2D
  const NULL_TEXT: Text := [0x6E, 0x75, 0x6C, 0x6C]
  const TRUE_TEXT: Text := [0x74, 0x72, 0x75, 0x65]
  const FALSE_TEXT: Text := [0x66, 0x61, 0x6C, 0x73, 0x65]

  /** The escapes of section 3.2.2.2 of RFC 8785. */
  function PrintUnit(c: unit): (t: Text)
    ensures t != []
  {
    if c == 0x08 then [BACKSLASH, 0x62]
    else if c == 0x09 then [BACKSLASH, 0x74]
    else if c == 0x0A then [BACKSLASH, 0x6E]
    else if c == 0x0C then [BACKSLASH, 0x66]
    else if c == 0x0D then [BACKSLASH, 0x72]
    else if c == QUOTE || c == BACKSLASH then [BACKSLASH, c]
    else if c < 0x20 then [BACKSLASH, 0x75, 0x30, 0x30, HexDigit(c as int / 16), HexDigit(c as int % 16)]
    else [c]
  }

  function PrintUnits(s: Text): Text {
    if s == [] then [] else PrintUnit(s[0]) + PrintUnits(s[1..])
  }

  function PrintString(s: Text): Text {
    [QUOTE] + PrintUnits(s) + [QUOTE]
  }

  function PrintNat(n: nat): (t: Text)
    ensures t != []
  {
    (if n < 10 then [] else PrintNat(n / 10)) + [(48 + n % 10) as unit]
  }

  function PrintInt(n: int): Text {
    if n < 0 then [MINUS] + PrintNat(-n) else PrintNat(n)
  }

  function Join(parts: seq<Text>): Text {
    if |parts| == 0 then []
    else if |parts| == 1 then parts[0]
    else parts[0] + [COMMA] + Join(parts[1..])
  }

  /** The text of a value with its keys in the order they have. */
  function Print(v: Json): Text
    decreases v, 1
  {
    match v
    case Null => NULL_TEXT
    case Bool(b) => if b then TRUE_TEXT else FALSE_TEXT
    case Num(n) => PrintInt(n)
    case Str(s) => PrintString(s)
    case Arr(items) => [OPEN_BRACKET] + Join(PrintItems(items)) + [CLOSE_BRACKET]
    case Obj(fields) => [OPEN_BRACE] + Join(PrintFields(fields)) + [CLOSE_BRACE]
  }

  function PrintItems(items: seq<Json>): (parts: seq<Text>)
    ensures |parts| == |items|
    ensures forall i :: 0 <= i < |items| ==> parts[i] == Print(items[i])
    decreases items, 0
  {
    seq(|items|, i requires 0 <= i < |items| => Print(items[i]))
  }

  function PrintField(f: Field): Text
    decreases f, 2
  {
    PrintString(f.key) + [COLON] + Print(f.value)
  }

  function PrintFields(fields: seq<Field>): (parts: seq<Text>)
    ensures |parts| == |fields|
    ensures forall i :: 0 <= i < |fields| ==> parts[i] == PrintField(fields[i])
    decreases fields, 0
  {
    seq(|fields|, i requires 0 <= i < |fields| => PrintField(fields[i]))
  }

  /** The value with the keys of every object sorted. */
  function Norm(v: Json): Json
    decreases v, 1
  {
    match v
    case Arr(items) => Arr(NormItems(items))
    case Obj(fields) => Obj(Sort(NormFields(fields), KeyLt))
    case _ => v
  }

  function NormItems(items: seq<Json>): (r: seq<Json>)
    ensures |r| == |items|
    ensures forall i :: 0 <= i < |items| ==> r[i] == Norm(items[i])
    decreases items, 0
  {
    seq(|items|, i requires 0 <= i < |items| => Norm(items[i]))
  }

  function NormFields(fields: seq<Field>): (r: seq<Field>)
    ensures |r| == |fields|
    ensures forall i :: 0 <= i < |fields| ==> r[i] == Field(fields[i].key, Norm(fields[i].value))
    decreases fields, 0
  {
    seq(|fields|, i requires 0 <= i < |fields| => Field(fields[i].key, Norm(fields[i].value)))
  }

  /** The RFC 8785 text of a value. */
  function Canon(v: Json): Text {
    Print(Norm(v))
  }

  // ---------------------------------------------------------------- parsing

  datatype Parsed<+T> = Fail | Done(value: T, rest: Text)

  function UnescapeSimple(c: unit): Parsed<unit> {
    if c == 0x62 then Done(0x08, [])
    else if c == 0x74 then Done(0x09, [])
    else if c == 0x6E then Done(0x0A, [])
    else if c == 0x66 then Done(0x0C, [])
    else if c == 0x72 then Done(0x0D, [])
    else if c == QUOTE || c == BACKSLASH || c == 0x2F then Done(c, [])
    else Fail
  }

  /** Upper-case digits are folded to lower case, so both are read. */
  function LowerHex(c: unit): unit { if 65 <= c <= 70 then c + 32 else c }

  function ParseUnit(t: Text): (r: Parsed<unit>)
    requires t != []
    ensures r.Done? ==> |r.rest| < |t|
  {
    if t[0] < 0x20 || t[0] == QUOTE then Fail
    else if t[0] != BACKSLASH then Done(t[0], t[1..])
    else if |t| < 2 then Fail
    else if t[1] != 0x75 then
      var u := UnescapeSimple(t[1]);
      if u.Done? then Done(u.value, t[2..]) else Fail
    else if |t| < 6 || exists i :: 2 <= i < 6 && !IsHexDigit(LowerHex(t[i])) then Fail
    else
      var n := 0x1000 * HexValue(LowerHex(t[2])) + 0x100 * HexValue(LowerHex(t[3])) + 0x10 * HexValue(LowerHex(t[4])) +
        HexValue(LowerHex(t[5]));
      Done(n as unit, t[6..])
  }

  /** The rest of a string literal, after its opening quote. */
  function ParseUnits(t: Text): (r: Parsed<Text>)
    ensures r.Done? ==> |r.rest| < |t|
    decreases |t|
  {
    if t == [] then Fail
    else if t[0] == QUOTE then Done([], t[1..])
    else
      var u := ParseUnit(t);
      if u.Fail? then Fail
      else
        var more := ParseUnits(u.rest);
        if more.Fail? then Fail else Done([u.value] + more.value, more.rest)
  }

  predicate IsDigit(c: unit) { 48 <= c <= 57 }

  function DigitRun(t: Text): (n: nat)
    ensures n <= |t|
    ensures forall i :: 0 <= i < n ==> IsDigit(t[i])
  {
    if t == [] || !IsDigit(t[0]) then 0 else 1 + DigitRun(t[1..])
  }

  function DigitsValue(t: Text): int
    requires forall i :: 0 <= i < |t| ==> IsDigit(t[i])
  {
    if t == [] then 0 else 10 * DigitsValue(t[..|t| - 1]) + (t[|t| - 1] as int - 48)
  }

  /** Fractions and exponents are outside the model and are refused. */
  predicate NumberEnds(t: Text) {
    t == [] || !(IsDigit(t[0]) || t[0] == 0x2E || t[0] == 0x45 || t[0] == 0x65)
  }

  function ParseNat(t: Text): (r: Parsed<int>)
    ensures r.Done? ==> |r.rest| < |t|
  {
    var n := DigitRun(t);
    if n == 0 || (n > 1 && t[0] == 48) || !NumberEnds(t[n..]) then Fail
    else Done(DigitsValue(t[..n]), t[n..])
  }

  function ParseNumber(t: Text): (r: Parsed<Json>)
    requires t != []
    ensures r.Done? ==> |r.rest| < |t|
  {
    var n := if t[0] == MINUS then ParseNat(t[1..]) else ParseNat(t);
    if n.Fail? then Fail else Done(Num(if t[0] == MINUS then -n.value else n.value), n.rest)
  }

  function ParseWord(word: Text, v: Json, t: Text): (r: Parsed<Json>)
    requires word != []
    ensures r.Done? ==> |r.rest| < |t|
  {
    if word <= t then Done(v, t[|word|..]) else Fail
  }

  function ParseString(t: Text): (r: Parsed<Json>)
    requires t != []
    ensures r.Done? ==> |r.rest| < |t|
  {
    var s := ParseUnits(t[1..]);
    if s.Done? then Done(Str(s.value), s.rest) else Fail
  }

  /** A text without insignificant white space, read as `JSON.parse` reads it. */
  function ParseValue(t: Text): (r: Parsed<Json>)
    ensures r.Done? ==> |r.rest| < |t|
    decreases |t|, 2
  {
    if t == [] then Fail
    else if t[0] == NULL_TEXT[0] then ParseWord(NULL_TEXT, Null, t)
    else if t[0] == TRUE_TEXT[0] then ParseWord(TRUE_TEXT, Bool(true), t)
    else if t[0] == FALSE_TEXT[0] then ParseWord(FALSE_TEXT, Bool(false), t)
    else if t[0] == QUOTE then ParseString(t)
    else if t[0] == OPEN_BRACKET then ParseArray(t)
    else if t[0] == OPEN_BRACE then ParseObject(t)
    else ParseNumber(t)
  }

  function ParseArray(t: Text): (r: Parsed<Json>)
    requires t != []
    ensures r.Done? ==> |r.rest| < |t|
    decreases |t|, 1
  {
    if |t| > 1 && t[1] == CLOSE_BRACKET then Done(Arr([]), t[2..])
    else
      var items := ParseItems(t[1..]);
      if items.Done? then Done(Arr(items.value), items.rest) else Fail
  }

  function ParseObject(t: Text): (r: Parsed<Json>)
    requires t != []
    ensures r.Done? ==> |r.rest| < |t|
    decreases |t|, 1
  {
    if |t| > 1 && t[1] == CLOSE_BRACE then Done(Obj([]), t[2..])
    else
      var fields := ParseFields(t[1..]);
      if fields.Done? then Done(Obj(fields.value), fields.rest) else Fail
  }

  function ParseItems(t: Text): (r: Parsed<seq<Json>>)
    ensures r.Done? ==> |r.rest| < |t|
    decreases |t|, 3
  {
    var v := ParseValue(t);
    if v.Fail? || v.rest == [] then Fail
    else if v.rest[0] == CLOSE_BRACKET then Done([v.value], v.rest[1..])
    else if v.rest[0] != COMMA then Fail
    else
      var more := ParseItems(v.rest[1..]);
      if more.Fail? then Fail else Done([v.value] + more.value, more.rest)
  }

  /** One `"key":value` member. */
  function ParseField(t: Text): (r: Parsed<Field>)
    ensures r.Done? ==> |r.rest| < |t|
    decreases |t|, 3
  {
    if t == [] || t[0] != QUOTE then Fail
    else
      var key := ParseUnits(t[1..]);
      if key.Fail? || key.rest == [] || key.rest[0] != COLON then Fail
      else
        var v := ParseValue(key.rest[1..]);
        if v.Fail? then Fail else Done(Field(key.value, v.value), v.rest)
  }

  /** Of two members with one key the later one wins. */
  function ParseFields(t: Text): (r: Parsed<seq<Field>>)
    ensures r.Done? ==> |r.rest| < |t|
    decreases |t|, 4
  {
    var f := ParseField(t);
    if f.Fail? || f.rest == [] then Fail
    else if f.rest[0] == CLOSE_BRACE then Done([f.value], f.rest[1..])
    else if f.rest[0] != COMMA then Fail
    else
      var more := ParseFields(f.rest[1..]);
      if more.Fail? then Fail
      else if exists i :: 0 <= i < |more.value| && more.value[i].key == f.value.key then more
      else Done([f.value] + more.value, more.rest)
  }

  function Parse(t: Text): Parsed<Json> {
    var r := ParseValue(t);
    if r.Done? && r.rest == [] then r else Fail
  }
}
