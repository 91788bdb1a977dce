/** Printing then parsing gives the value back, so canonical text determines the value. */
module JsonRoundTrip {
  import opened Sorting
  import opened Text
  import opened Json

  // ---------------------------------------------------------------- strings and numbers

  lemma Regroup(a: Text, b: Text, c: Text)
    ensures a + b + c == a + (b + c)
  {
  }

  lemma UnitRoundTrip(c: unit, rest: Text)
    ensures ParseUnit(PrintUnit(c) + rest) == Done(c, rest)
  {
    var t := PrintUnit(c) + rest;
    assert t[0] == PrintUnit(c)[0];
    assert t[|PrintUnit(c)|..] == rest;
    if |PrintUnit(c)| == 6 {
      assert forall i :: 0 <= i < 6 ==> t[i] == PrintUnit(c)[i];
      assert HexValue(HexDigit(c as int / 16)) == c as int / 16;
      assert HexValue(HexDigit(c as int % 16)) == c as int % 16;
    } else if |PrintUnit(c)| == 2 {
      assert t[1] == PrintUnit(c)[1];
    }
  }

  lemma {:induction false} UnitsRoundTrip(s: Text, rest: Text)
    ensures ParseUnits(PrintUnits(s) + [QUOTE] + rest) == Done(s, rest)
  {
    if s == [] {
      assert PrintUnits(s) + [QUOTE] + rest == [QUOTE] + rest;
      assert ([QUOTE] + rest)[1..] == rest;
    } else {
      var tail := PrintUnits(s[1..]) + [QUOTE] + rest;
      assert PrintUnits(s) + [QUOTE] + rest == PrintUnit(s[0]) + tail;
      UnitsRoundTrip(s[1..], rest);
      UnitBefore(s[0], tail, s[1..], rest);
      assert s == [s[0]] + s[1..];
    }
  }

  lemma UnitBefore(c: unit, tail: Text, s: Text, rest: Text)
    requires ParseUnits(tail) == Done(s, rest)
    ensures ParseUnits(PrintUnit(c) + tail) == Done([c] + s, rest)
  {
    assert (PrintUnit(c) + tail)[0] == PrintUnit(c)[0] != QUOTE;
    UnitRoundTrip(c, tail);
  }

  lemma {:induction false} NatDigits(n: nat)
    ensures var t := PrintNat(n);
      && (forall i :: 0 <= i < |t| ==> IsDigit(t[i]))
      && DigitsValue(t) == n
      && (|t| > 1 ==> t[0] != 48 && n >= 10)
      && (n > 0 ==> t[0] != 48)
  {
    if n >= 10 {
      NatDigits(n / 10);
      assert PrintNat(n)[..|PrintNat(n)| - 1] == PrintNat(n / 10);
    } else {
      assert DigitsValue([]) == 0;
      assert PrintNat(n) == [(48 + n) as unit];
      assert PrintNat(n)[..0] == [];
    }
  }

  lemma {:induction false} DigitRunAll(t: Text, rest: Text)
    requires forall i :: 0 <= i < |t| ==> IsDigit(t[i])
    requires rest == [] || !IsDigit(rest[0])
    ensures DigitRun(t + rest) == |t|
  {
    if t == [] {
      assert t + rest == rest;
    } else {
      assert (t + rest)[1..] == t[1..] + rest;
      DigitRunAll(t[1..], rest);
    }
  }

  lemma NatRoundTrip(n: nat, rest: Text)
    requires NumberEnds(rest)
    ensures ParseNat(PrintNat(n) + rest) == Done(n, rest)
  {
    var t := PrintNat(n);
    NatDigits(n);
    DigitRunAll(t, rest);
    assert (t + rest)[..|t|] == t && (t + rest)[|t|..] == rest;
  }

  // ---------------------------------------------------------------- values

  lemma LeadingUnit(v: Json)
    ensures var t := Print(v);
      && t != []
      && t[0] != CLOSE_BRACKET
      && t[0] != CLOSE_BRACE
  {
    match v
    case Num(n) => NatDigits(if n < 0 then -n else n);
    case _ =>
  }

  lemma MagnitudeRoundTrip(negative: bool, digits: Text, m: int, rest: Text)
    requires digits != [] && IsDigit(digits[0])
    requires ParseNat(digits + rest) == Done(m, rest)
    ensures ParseNumber((if negative then [MINUS] + digits else digits) + rest) == Done(Num(if negative then -m else m),
        rest)
  {
    if negative {
      assert ([MINUS] + digits + rest)[1..] == digits + rest;
    } else {
      assert (digits + rest)[0] == digits[0];
    }
  }

  lemma NumRoundTrip(n: int, rest: Text)
    requires NumberEnds(rest)
    ensures ParseNumber(PrintInt(n) + rest) == Done(Num(n), rest)
    ensures PrintInt(n) != [] && (IsDigit(PrintInt(n)[0]) || PrintInt(n)[0] == MINUS)
  {
    var m := if n < 0 then -n else n;
    NatDigits(m);
    NatRoundTrip(m, rest);
    MagnitudeRoundTrip(n < 0, PrintNat(m), m, rest);
  }

  lemma StringRoundTrip(s: Text, rest: Text)
    ensures ParseString(PrintString(s) + rest) == Done(Str(s), rest)
  {
    assert (PrintString(s) + rest)[1..] == PrintUnits(s) + [QUOTE] + rest;
    UnitsRoundTrip(s, rest);
  }

  lemma WordRoundTrip(word: Text, v: Json, rest: Text)
    requires word != []
    ensures ParseWord(word, v, word + rest) == Done(v, rest)
  {
    assert (word + rest)[|word|..] == rest;
  }

  lemma {:induction false} ValueRoundTrip(v: Json, rest: Text)
    requires WellFormed(v)
    requires NumberEnds(rest)
    ensures ParseValue(Print(v) + rest) == Done(v, rest)
    decreases v, 1
  {
    match v
    case Arr(items) => ArrayRoundTrip(items, rest);
    case Obj(fields) => ObjectRoundTrip(fields, rest);
    case Num(n) => NumRoundTrip(n, rest);
    case Str(s) => StringRoundTrip(s, rest);
    case Null => WordRoundTrip(NULL_TEXT, Null, rest);
    case Bool(b) => WordRoundTrip(if b then TRUE_TEXT else FALSE_TEXT, v, rest);
  }

  lemma {:induction false} ArrayRoundTrip(items: seq<Json>, rest: Text)
    requires forall i :: 0 <= i < |items| ==> WellFormed(items[i])
    ensures ParseArray(Print(Arr(items)) + rest) == Done(Arr(items), rest)
    decreases items, 1
  {
    if items == [] {
      EmptyContainers(rest);
      assert Print(Arr(items)) == [OPEN_BRACKET, CLOSE_BRACKET];
    } else {
      ItemsRoundTrip(items, rest);
      LeadingUnit(items[0]);
      JoinLeads(PrintItems(items));
      Delimited(OPEN_BRACKET, Join(PrintItems(items)), CLOSE_BRACKET, rest);
      ArrayFromBody(Join(PrintItems(items)) + [CLOSE_BRACKET] + rest, items, rest);
    }
  }

  lemma {:induction false} ObjectRoundTrip(fields: seq<Field>, rest: Text)
    requires DistinctKeys(fields)
    requires forall i :: 0 <= i < |fields| ==> WellFormed(fields[i].value)
    ensures ParseObject(Print(Obj(fields)) + rest) == Done(Obj(fields), rest)
    decreases fields, 1
  {
    if fields == [] {
      EmptyContainers(rest);
      assert Print(Obj(fields)) == [OPEN_BRACE, CLOSE_BRACE];
    } else {
      FieldsRoundTrip(fields, rest);
      assert PrintFields(fields)[0] == PrintField(fields[0]);
      JoinLeads(PrintFields(fields));
      Delimited(OPEN_BRACE, Join(PrintFields(fields)), CLOSE_BRACE, rest);
      ObjectFromBody(Join(PrintFields(fields)) + [CLOSE_BRACE] + rest, fields, rest);
    }
  }

  lemma ArrayFromBody(body: Text, items: seq<Json>, rest: Text)
    requires body != [] && body[0] != CLOSE_BRACKET
    requires ParseItems(body) == Done(items, rest)
    ensures ParseArray([OPEN_BRACKET] + body) == Done(Arr(items), rest)
  {
    assert ([OPEN_BRACKET] + body)[1..] == body;
  }

  lemma ObjectFromBody(body: Text, fields: seq<Field>, rest: Text)
    requires body != [] && body[0] != CLOSE_BRACE
    requires ParseFields(body) == Done(fields, rest)
    ensures ParseObject([OPEN_BRACE] + body) == Done(Obj(fields), rest)
  {
    assert ([OPEN_BRACE] + body)[1..] == body;
  }

  lemma EmptyContainers(rest: Text)
    ensures ParseArray([OPEN_BRACKET, CLOSE_BRACKET] + rest) == Done(Arr([]), rest)
    ensures ParseObject([OPEN_BRACE, CLOSE_BRACE] + rest) == Done(Obj([]), rest)
  {
    assert ([OPEN_BRACKET, CLOSE_BRACKET] + rest)[2..] == rest;
    assert ([OPEN_BRACE, CLOSE_BRACE] + rest)[2..] == rest;
  }

  lemma JoinLeads(parts: seq<Text>)
    requires parts != [] && parts[0] != []
    ensures Join(parts) != [] && Join(parts)[0] == parts[0][0]
  {
  }

  lemma Delimited(open: unit, inner: Text, close: unit, rest: Text)
    requires inner != []
    ensures [open] + inner + [close] + rest == [open] + (inner + [close] + rest)
    ensures (inner + [close] + rest)[0] == inner[0]
  {
  }

  lemma {:induction false} ItemsRoundTrip(items: seq<Json>, rest: Text)
    requires items != []
    requires forall i :: 0 <= i < |items| ==> WellFormed(items[i])
    ensures ParseItems(Join(PrintItems(items)) + [CLOSE_BRACKET] + rest) == Done(items, rest)
    decreases items, 0
  {
    var parts := PrintItems(items);
    if |items| == 1 {
      var after := [CLOSE_BRACKET] + rest;
      Regroup(Print(items[0]), [CLOSE_BRACKET], rest);
      ValueRoundTrip(items[0], after);
      assert after[1..] == rest;
      assert items == [items[0]];
    } else {
      var more := Join(PrintItems(items[1..])) + [CLOSE_BRACKET] + rest;
      var after := [COMMA] + more;
      PrintItemsFrom(items);
      JoinCons(Print(items[0]), PrintItems(items[1..]), CLOSE_BRACKET, rest);
      ValueRoundTrip(items[0], after);
      assert after[1..] == more;
      ItemsRoundTrip(items[1..], rest);
      assert items == [items[0]] + items[1..];
    }
  }

  /** The key of a member and its colon are read off, whatever follows. */
  lemma KeyRoundTrip(key: Text, after: Text)
    ensures PrintString(key) + [COLON] + after == [QUOTE] + (PrintUnits(key) + [QUOTE] + ([COLON] + after))
    ensures ParseUnits(PrintUnits(key) + [QUOTE] + ([COLON] + after)) == Done(key, [COLON] + after)
    ensures ([COLON] + after)[1..] == after
  {
    var units := PrintUnits(key);
    Regroup(PrintString(key), [COLON], after);
    Regroup([QUOTE], units, [QUOTE]);
    Regroup([QUOTE], units + [QUOTE], [COLON] + after);
    UnitsRoundTrip(key, [COLON] + after);
  }

  lemma FieldFromBody(key: Text, body: Text, after: Text, v: Json, rest: Text)
    requires ParseUnits(body) == Done(key, [COLON] + after) && ([COLON] + after)[1..] == after
    requires ParseValue(after) == Done(v, rest)
    ensures ParseField([QUOTE] + body) == Done(Field(key, v), rest)
  {
    assert ([QUOTE] + body)[1..] == body;
  }

  lemma {:induction false} FieldRoundTrip(f: Field, rest: Text)
    requires WellFormed(f.value)
    requires NumberEnds(rest)
    ensures ParseField(PrintField(f) + rest) == Done(f, rest)
    decreases f, 2
  {
    var after := Print(f.value) + rest;
    Regroup(PrintString(f.key) + [COLON], Print(f.value), rest);
    KeyRoundTrip(f.key, after);
    ValueRoundTrip(f.value, rest);
    FieldFromBody(f.key, PrintUnits(f.key) + [QUOTE] + ([COLON] + after), after, f.value, rest);
  }

  lemma {:induction false} FieldsRoundTrip(fields: seq<Field>, rest: Text)
    requires fields != []
    requires DistinctKeys(fields)
    requires forall i :: 0 <= i < |fields| ==> WellFormed(fields[i].value)
    ensures ParseFields(Join(PrintFields(fields)) + [CLOSE_BRACE] + rest) == Done(fields, rest)
    decreases fields, 0
  {
    var parts := PrintFields(fields);
    if |fields| == 1 {
      assert Join(parts) == PrintField(fields[0]);
      assert fields == [fields[0]];
      LastField(fields[0], rest);
    } else {
      var more := Join(PrintFields(fields[1..])) + [CLOSE_BRACE] + rest;
      FieldsRoundTrip(fields[1..], rest);
      JoinFields(fields, rest);
      FieldBefore(fields[0], fields[1..], more, rest);
      assert fields == [fields[0]] + fields[1..];
    }
  }

  lemma JoinCons(part: Text, parts: seq<Text>, close: unit, rest: Text)
    requires parts != []
    ensures Join([part] + parts) + [close] + rest == part + ([COMMA] + (Join(parts) + [close] + rest))
  {
    assert ([part] + parts)[1..] == parts;
    var more := Join(parts);
    Regroup(part + [COMMA], more, [close]);
    Regroup(part + [COMMA], more + [close], rest);
    Regroup(part, [COMMA], more + [close] + rest);
  }

  lemma PrintFieldsFrom(fields: seq<Field>)
    requires fields != []
    ensures PrintFields(fields) == [PrintField(fields[0])] + PrintFields(fields[1..])
  {
  }

  lemma PrintItemsFrom(items: seq<Json>)
    requires items != []
    ensures PrintItems(items) == [Print(items[0])] + PrintItems(items[1..])
  {
  }

  lemma JoinFields(fields: seq<Field>, rest: Text)
    requires |fields| > 1
    ensures Join(PrintFields(fields)) + [CLOSE_BRACE] + rest ==
      PrintField(fields[0]) + ([COMMA] + (Join(PrintFields(fields[1..])) + [CLOSE_BRACE] + rest))
  {
    PrintFieldsFrom(fields);
    JoinCons(PrintField(fields[0]), PrintFields(fields[1..]), CLOSE_BRACE, rest);
  }

  lemma {:induction false} LastField(f: Field, rest: Text)
    requires WellFormed(f.value)
    ensures ParseFields(PrintField(f) + [CLOSE_BRACE] + rest) == Done([f], rest)
    decreases f, 3
  {
    var after := [CLOSE_BRACE] + rest;
    assert PrintField(f) + [CLOSE_BRACE] + rest == PrintField(f) + after;
    FieldRoundTrip(f, after);
    assert after[1..] == rest;
  }

  lemma {:induction false} FieldBefore(f: Field, tail: seq<Field>, more: Text, rest: Text)
    requires WellFormed(f.value) && ParseFields(more) == Done(tail, rest)
    requires forall i :: 0 <= i < |tail| ==> tail[i].key != f.key
    ensures ParseFields(PrintField(f) + ([COMMA] + more)) == Done([f] + tail, rest)
    decreases f, 3
  {
    var after := [COMMA] + more;
    FieldRoundTrip(f, after);
    assert after[1..] == more;
  }

  // ---------------------------------------------------------------- key order

  /** Sorting looks at keys only, so it commutes with normalizing the values. */
  lemma {:induction false} SortNormFields(fields: seq<Field>)
    ensures Sort(NormFields(fields), KeyLt) == NormFields(Sort(fields, KeyLt))
  {
    if fields != [] {
      SortNormFields(fields[1..]);
      assert NormFields(fields)[1..] == NormFields(fields[1..]);
      InsertNormField(fields[0], Sort(fields[1..], KeyLt));
    }
  }

  lemma NormFieldsCons(f: Field, fields: seq<Field>)
    ensures NormFields([f] + fields) == [Field(f.key, Norm(f.value))] + NormFields(fields)
  {
  }

  lemma {:induction false} InsertNormField(f: Field, fields: seq<Field>)
    ensures Insert(Field(f.key, Norm(f.value)), NormFields(fields), KeyLt) == NormFields(Insert(f, fields, KeyLt))
  {
    if fields == [] {
    } else if KeyLt(fields[0], f) {
      InsertNormField(f, fields[1..]);
      assert NormFields(fields)[1..] == NormFields(fields[1..]);
      NormFieldsCons(fields[0], Insert(f, fields[1..], KeyLt));
    } else {
      NormFieldsCons(f, fields);
    }
  }

  lemma SeparatedDistinctKeys(fields: seq<Field>)
    requires StrictlyAscending(fields, KeyLt)
    ensures DistinctKeys(fields)
  {
    forall i, j | 0 <= i < j < |fields| ensures fields[i].key != fields[j].key {
      TextLtTotal(fields[i].key, fields[j].key);
    }
  }

  /** Normalizing keeps a well-formed value well-formed and the same. */
  lemma {:induction false} NormSame(v: Json)
    requires WellFormed(v)
    ensures WellFormed(Norm(v))
    ensures Same(v, Norm(v))
    decreases v
  {
    match v
    case Arr(items) =>
      forall i | 0 <= i < |items| ensures WellFormed(Norm(items[i])) && Same(items[i], Norm(items[i])) {
        NormSame(items[i]);
      }
    case Obj(fields) =>
      forall i | 0 <= i < |fields| ensures WellFormed(Norm(fields[i].value)) &&
        Same(fields[i].value, Norm(fields[i].value)) {
        NormSame(fields[i].value);
      }
      var normed := NormFields(fields);
      var sorted := Sort(normed, KeyLt);
      SortedFields(normed);
      forall i | 0 <= i < |sorted| ensures WellFormed(sorted[i].value) {
        var k := Position(normed, sorted[i]);
        assert normed[k] == sorted[i];
      }
      forall i | 0 <= i < |fields|
        ensures HasSame(fields[i], sorted)
      {
        assert normed[i] in sorted;
        var j := Position(sorted, normed[i]);
        assert sorted[j].key == fields[i].key && Same(fields[i].value, sorted[j].value);
      }
    case _ =>
  }

  lemma SortedFields(fields: seq<Field>)
    requires DistinctKeys(fields)
    ensures DistinctKeys(Sort(fields, KeyLt))
    ensures StrictlyAscending(Sort(fields, KeyLt), KeyLt)
    ensures forall f :: f in Sort(fields, KeyLt) <==> f in fields
  {
    KeyOrder();
    DistinctKeysSeparated(fields);
    SortStrict(fields, KeyLt);
    SeparatedDistinctKeys(Sort(fields, KeyLt));
    SameElements(Sort(fields, KeyLt), fields);
  }

  /** Key order is all that normalizing forgets. */
  lemma {:induction false} NormComplete(a: Json, b: Json)
    requires WellFormed(a) && WellFormed(b)
    requires Same(a, b)
    ensures Norm(a) == Norm(b)
    decreases a
  {
    match (a, b)
    case (Arr(xs), Arr(ys)) =>
      forall i | 0 <= i < |xs| ensures Norm(xs[i]) == Norm(ys[i]) {
        NormComplete(xs[i], ys[i]);
      }
      assert NormItems(xs) == NormItems(ys);
    case (Obj(fs), Obj(gs)) =>
      var nf, ng := NormFields(fs), NormFields(gs);
      forall f | f in nf ensures f in ng {
        var i := Position(nf, f);
        assert HasSame(fs[i], gs);
        var j :| 0 <= j < |gs| && gs[j].key == fs[i].key && Same(fs[i].value, gs[j].value);
        NormComplete(fs[i].value, gs[j].value);
        assert ng[j] == f;
      }
      assert NoDuplicates(nf);
      InclusionIsPermutation(nf, ng);
      KeyOrder();
      DistinctKeysSeparated(nf);
      SortIgnoresOrder(nf, ng, KeyLt);
    case (_, _) =>
  }

  lemma {:induction false} NormSound(a: Json, b: Json)
    requires Norm(a) == Norm(b)
    ensures Same(a, b)
    decreases a
  {
    match a
    case Arr(xs) =>
      var ys := b.items;
      forall i | 0 <= i < |xs| ensures Same(xs[i], ys[i]) {
        assert NormItems(xs)[i] == NormItems(ys)[i];
        NormSound(xs[i], ys[i]);
      }
    case Obj(fs) =>
      var gs := b.fields;
      var nf, ng := NormFields(fs), NormFields(gs);
      SameElements(nf, Sort(nf, KeyLt));
      SameElements(ng, Sort(ng, KeyLt));
      forall i | 0 <= i < |fs|
        ensures HasSame(fs[i], gs)
      {
        assert nf[i] in ng;
        var j := Position(ng, nf[i]);
        NormSound(fs[i].value, gs[j].value);
        assert gs[j].key == fs[i].key && Same(fs[i].value, gs[j].value);
      }
    case _ =>
  }

  // ---------------------------------------------------------------- main results

  /** Parsing canonical text gives the value back, up to key order. */
  lemma CanonParses(v: Json)
    requires WellFormed(v)
    ensures Parse(Canon(v)) == Done(Norm(v), [])
    ensures WellFormed(Norm(v)) && Same(v, Norm(v))
  {
    NormSame(v);
    ValueRoundTrip(Norm(v), []);
    assert Print(Norm(v)) + [] == Print(Norm(v));
  }

  /** Two values have one canonical text exactly when they are the same up to key order. */
  lemma CanonInjective(a: Json, b: Json)
    requires WellFormed(a) && WellFormed(b)
    ensures Canon(a) == Canon(b) <==> Same(a, b)
  {
    CanonParses(a);
    CanonParses(b);
    if Canon(a) == Canon(b) {
      NormSound(a, b);
    }
    if Same(a, b) {
      NormComplete(a, b);
    }
  }

  /** Canonical text is a fixed point: parsing it and printing again changes nothing. */
  lemma CanonIdempotent(v: Json)
    requires WellFormed(v)
    ensures Parse(Canon(v)).Done? && Canon(Parse(Canon(v)).value) == Canon(v)
  {
    CanonParses(v);
    CanonInjective(v, Norm(v));
  }
}
