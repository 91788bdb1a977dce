/** `canonical-identity.ts` and `canonical-row.ts`: bounded canonicalization and
    content-addressed identities. */
module CanonicalIdentity {
  import opened Results
  import opened SafeIntegers
  import opened Sorting
  import opened Text
  import opened Json
  import opened JsonRoundTrip

  const MAX_DEPTH: nat := 64
  const MAX_NODES: nat := 20_000

  datatype EncodeError = ShapeLimits | UnpairedSurrogate | UnsafeNumber | NotPlain

  // ---------------------------------------------------------------- what is counted

  /** Values in the tree; each object key counts as one more. */
  function Nodes(v: Json): nat {
    match v
    case Arr(items) => 1 + ItemsNodes(items)
    case Obj(fields) => 1 + FieldsNodes(fields)
    case _ => 1
  }

  function ItemsNodes(items: seq<Json>): nat {
    if items == [] then 0 else Nodes(items[0]) + ItemsNodes(items[1..])
  }

  function FieldsNodes(fields: seq<Field>): nat {
    if fields == [] then 0 else 1 + Nodes(fields[0].value) + FieldsNodes(fields[1..])
  }

  function Max(a: nat, b: nat): nat { if a < b then b else a }

  function Height(v: Json): nat {
    match v
    case Arr(items) => ItemsHeight(items)
    case Obj(fields) => FieldsHeight(fields)
    case _ => 0
  }

  function ItemsHeight(items: seq<Json>): nat {
    if items == [] then 0 else Max(1 + Height(items[0]), ItemsHeight(items[1..]))
  }

  function FieldsHeight(fields: seq<Field>): nat {
    if fields == [] then 0 else Max(1 + Height(fields[0].value), FieldsHeight(fields[1..]))
  }

  /** Safe numbers, and only paired surrogates in strings and keys. */
  predicate Clean(v: Json) {
    match v
    case Num(n) => IsSafeInteger(n)
    case Str(s) => Paired(s)
    case Arr(items) => ItemsClean(items)
    case Obj(fields) => FieldsClean(fields)
    case _ => true
  }

  predicate ItemsClean(items: seq<Json>) {
    items == [] || (Clean(items[0]) && ItemsClean(items[1..]))
  }

  predicate FieldsClean(fields: seq<Field>) {
    fields == [] || (Paired(fields[0].key) && Clean(fields[0].value) && FieldsClean(fields[1..]))
  }

  predicate Fits(v: Json, used: nat, depth: nat) {
    used + Nodes(v) <= MAX_NODES && depth + Height(v) <= MAX_DEPTH && Clean(v)
  }

  /** The values that canonicalization accepts. */
  predicate Canonicalizable(v: Json) {
    Fits(v, 0, 0)
  }

  lemma FieldsCons(f: Field, fields: seq<Field>)
    ensures FieldsNodes([f] + fields) == 1 + Nodes(f.value) + FieldsNodes(fields)
    ensures FieldsHeight([f] + fields) == Max(1 + Height(f.value), FieldsHeight(fields))
    ensures FieldsClean([f] + fields) <==> Paired(f.key) && Clean(f.value) && FieldsClean(fields)
  {
    assert ([f] + fields)[1..] == fields;
  }

  /** The fields of an object whose members stand at `depth` are within the limits. */
  predicate FieldsFit(fields: seq<Field>, used: nat, depth: nat) {
    used + FieldsNodes(fields) <= MAX_NODES && depth - 1 + FieldsHeight(fields) <= MAX_DEPTH && FieldsClean(fields)
  }

  predicate FieldFits(f: Field, used: nat, depth: nat) {
    used + 1 + Nodes(f.value) <= MAX_NODES && depth + Height(f.value) <= MAX_DEPTH && Paired(f.key) && Clean(f.value)
  }

  lemma FieldsFitFrom(fields: seq<Field>, k: nat, used: nat, depth: nat)
    requires k < |fields| && 0 < depth <= MAX_DEPTH + 1
    ensures FieldsNodes(fields[k..]) == 1 + Nodes(fields[k].value) + FieldsNodes(fields[k + 1..])
    ensures FieldsFit(fields[k..], used, depth) <==>
      FieldFits(fields[k], used, depth) && FieldsFit(fields[k + 1..], used + 1 + Nodes(fields[k].value), depth)
  {
    FieldsFrom(fields, k);
  }

  lemma FieldsFrom(fields: seq<Field>, k: nat)
    requires k < |fields|
    ensures FieldsNodes(fields[k..]) == 1 + Nodes(fields[k].value) + FieldsNodes(fields[k + 1..])
    ensures FieldsHeight(fields[k..]) == Max(1 + Height(fields[k].value), FieldsHeight(fields[k + 1..]))
    ensures FieldsClean(fields[k..]) <==>
      Paired(fields[k].key) && Clean(fields[k].value) && FieldsClean(fields[k + 1..])
  {
    assert fields[k..][1..] == fields[k + 1..];
  }

  ghost predicate SameCounts(a: seq<Field>, b: seq<Field>) {
    FieldsNodes(a) == FieldsNodes(b) && FieldsHeight(a) == FieldsHeight(b) && (FieldsClean(a) <==> FieldsClean(b))
  }

  lemma {:induction false} InsertKeepsCounts(f: Field, fields: seq<Field>)
    ensures SameCounts(Insert(f, fields, KeyLt), [f] + fields)
  {
    if fields != [] && KeyLt(fields[0], f) {
      var rest := fields[1..];
      InsertKeepsCounts(f, rest);
      assert fields == [fields[0]] + rest;
      FieldsCons(fields[0], Insert(f, rest, KeyLt));
      FieldsCons(f, rest);
      FieldsCons(fields[0], rest);
      FieldsCons(f, fields);
    }
  }

  lemma {:induction false} SortKeepsCounts(fields: seq<Field>)
    ensures SameCounts(Sort(fields, KeyLt), fields)
  {
    if fields != [] {
      var rest := fields[1..];
      SortKeepsCounts(rest);
      InsertKeepsCounts(fields[0], Sort(rest, KeyLt));
      assert fields == [fields[0]] + rest;
      FieldsCons(fields[0], rest);
      FieldsCons(fields[0], Sort(rest, KeyLt));
    }
  }

  // ---------------------------------------------------------------- the encoder

  lemma CountsOfObject(fields: seq<Field>)
    ensures var sorted := Sort(fields, KeyLt);
      && Nodes(Obj(fields)) == 1 + FieldsNodes(sorted)
      && Height(Obj(fields)) == FieldsHeight(sorted)
      && (Clean(Obj(fields)) <==> FieldsClean(sorted))
  {
    SortKeepsCounts(fields);
  }

  lemma CanonOfObject(fields: seq<Field>)
    ensures Canon(Obj(fields)) == [OPEN_BRACE] + Join(PrintFields(NormFields(Sort(fields, KeyLt)))) + [CLOSE_BRACE]
  {
    SortNormFields(fields);
  }

  /** One run of `canonicalizeProtocolJson`: `nodes` is the counter its recursive calls share. */
  class Encoder {
    var nodes: nat

    constructor ()
      ensures nodes == 0
    {
      nodes := 0;
    }

    method Encode(current: Json, depth: nat) returns (r: Result<Text, EncodeError>)
      modifies this
      ensures r.Ok? <==> Fits(current, old(nodes), depth)
      ensures r.Ok? ==> nodes == old(nodes) + Nodes(current) && r.value == Canon(current)
      decreases Nodes(current), 0
    {
      nodes := nodes + 1;
      if nodes > MAX_NODES || depth > MAX_DEPTH {
        return Err(ShapeLimits);
      }
      match current
      case Null => return Ok(NULL_TEXT);
      case Bool(b) => return Ok(if b then TRUE_TEXT else FALSE_TEXT);
      case Num(n) =>
        if n > MAX_SAFE_INTEGER || -n > MAX_SAFE_INTEGER {
          return Err(UnsafeNumber);
        }
        return Ok(PrintInt(n));
      case Str(s) =>
        var unpaired := HasUnpairedSurrogate(s);
        if unpaired {
          return Err(UnpairedSurrogate);
        }
        return Ok(PrintString(s));
      case Arr(items) =>
        var parts := EncodeItems(items, depth + 1);
        if parts.Err? {
          return Err(parts.error);
        }
        return Ok([OPEN_BRACKET] + Join(parts.value) + [CLOSE_BRACKET]);
      case Obj(fields) =>
        var sorted := Sort(fields, KeyLt);
        CountsOfObject(fields);
        CanonOfObject(fields);
        var parts := EncodeFields(sorted, depth + 1);
        if parts.Err? {
          return Err(parts.error);
        }
        return Ok([OPEN_BRACE] + Join(parts.value) + [CLOSE_BRACE]);
    }

    method EncodeItems(items: seq<Json>, depth: nat) returns (r: Result<seq<Text>, EncodeError>)
      requires nodes <= MAX_NODES && 0 < depth <= MAX_DEPTH + 1
      modifies this
      ensures r.Ok? <==>
        old(nodes) + ItemsNodes(items) <= MAX_NODES && depth - 1 + ItemsHeight(items) <= MAX_DEPTH && ItemsClean(items)
      ensures r.Ok? ==> nodes == old(nodes) + ItemsNodes(items) && r.value == PrintItems(NormItems(items))
      decreases ItemsNodes(items), 1
    {
      var parts := [];
      var index := 0;
      while index < |items|
        invariant 0 <= index <= |items| && |parts| == index
        invariant forall i :: 0 <= i < index ==> parts[i] == Canon(items[i])
        invariant ItemsNodes(items[index..]) <= ItemsNodes(items)
        invariant nodes + ItemsNodes(items[index..]) == old(nodes) + ItemsNodes(items)
        invariant depth - 1 + ItemsHeight(items) <= MAX_DEPTH <==> depth - 1 + ItemsHeight(items[index..]) <= MAX_DEPTH
        invariant ItemsClean(items) <==> ItemsClean(items[index..])
        invariant nodes <= MAX_NODES
      {
        assert items[index..][1..] == items[index + 1..];
        var part := Encode(items[index], depth);
        if part.Err? {
          return Err(part.error);
        }
        parts := parts + [part.value];
        index := index + 1;
      }
      assert parts == PrintItems(NormItems(items));
      return Ok(parts);
    }

    method EncodeField(f: Field, depth: nat) returns (r: Result<Text, EncodeError>)
      modifies this
      ensures r.Ok? <==> FieldFits(f, old(nodes), depth)
      ensures r.Ok? ==> nodes == old(nodes) + 1 + Nodes(f.value) && r.value == PrintField(Field(f.key, Norm(f.value)))
      decreases Nodes(f.value) + 1, 0
    {
      var key := Encode(Str(f.key), depth);
      if key.Err? {
        return Err(key.error);
      }
      var value := Encode(f.value, depth);
      if value.Err? {
        return Err(value.error);
      }
      return Ok(key.value + [COLON] + value.value);
    }

    method EncodeFields(sorted: seq<Field>, depth: nat) returns (r: Result<seq<Text>, EncodeError>)
      requires nodes <= MAX_NODES && 0 < depth <= MAX_DEPTH + 1
      modifies this
      ensures r.Ok? <==> FieldsFit(sorted, old(nodes), depth)
      ensures r.Ok? ==> nodes == old(nodes) + FieldsNodes(sorted) && r.value == PrintFields(NormFields(sorted))
      decreases FieldsNodes(sorted), 1
    {
      var parts := [];
      var index := 0;
      while index < |sorted|
        invariant 0 <= index <= |sorted| && |parts| == index
        invariant forall i :: 0 <= i < index ==> parts[i] == PrintField(Field(sorted[i].key, Norm(sorted[i].value)))
        invariant FieldsNodes(sorted[index..]) <= FieldsNodes(sorted)
        invariant nodes + FieldsNodes(sorted[index..]) == old(nodes) + FieldsNodes(sorted)
        invariant FieldsFit(sorted, old(nodes), depth) <==> FieldsFit(sorted[index..], nodes, depth)
        invariant nodes <= MAX_NODES
      {
        FieldsFitFrom(sorted, index, nodes, depth);
        var part := EncodeField(sorted[index], depth);
        if part.Err? {
          return Err(part.error);
        }
        parts := parts + [part.value];
        index := index + 1;
      }
      assert parts == PrintFields(NormFields(sorted));
      return Ok(parts);
    }
  }

  /** Succeeds exactly on the values within the limits, and then returns their canonical text. */
  method CanonicalizeProtocolJson(value: Json) returns (r: Result<Text, EncodeError>)
    ensures r.Ok? <==> Canonicalizable(value)
    ensures r.Ok? ==> r.value == Canon(value)
  {
    var encoder := new Encoder();
    r := encoder.Encode(value, 0);
  }

  // ---------------------------------------------------------------- normalizing keeps the limits

  lemma {:induction false} NormKeepsCounts(v: Json)
    ensures Nodes(Norm(v)) == Nodes(v)
    ensures Height(Norm(v)) == Height(v)
    ensures Clean(Norm(v)) <==> Clean(v)
    decreases v, 1
  {
    match v
    case Arr(items) => NormItemsKeepsCounts(items);
    case Obj(fields) =>
      NormFieldsKeepsCounts(fields);
      SortKeepsCounts(NormFields(fields));
    case _ =>
  }

  lemma {:induction false} NormItemsKeepsCounts(items: seq<Json>)
    ensures ItemsNodes(NormItems(items)) == ItemsNodes(items)
    ensures ItemsHeight(NormItems(items)) == ItemsHeight(items)
    ensures ItemsClean(NormItems(items)) <==> ItemsClean(items)
    decreases items, 0
  {
    if items != [] {
      NormKeepsCounts(items[0]);
      NormItemsKeepsCounts(items[1..]);
      assert NormItems(items)[1..] == NormItems(items[1..]);
    }
  }

  lemma {:induction false} NormFieldsKeepsCounts(fields: seq<Field>)
    ensures FieldsNodes(NormFields(fields)) == FieldsNodes(fields)
    ensures FieldsHeight(NormFields(fields)) == FieldsHeight(fields)
    ensures FieldsClean(NormFields(fields)) <==> FieldsClean(fields)
    decreases fields, 0
  {
    if fields != [] {
      NormKeepsCounts(fields[0].value);
      NormFieldsKeepsCounts(fields[1..]);
      assert NormFields(fields)[1..] == NormFields(fields[1..]);
    }
  }

  // ---------------------------------------------------------------- canonical text is well-formed UTF-16

  lemma PlainUnit(c: unit)
    requires !IsHigh(c) && !IsLow(c)
    ensures Paired(PrintUnit(c))
  {
    if |PrintUnit(c)| > 1 {
      PairedPlain(PrintUnit(c));
    }
  }

  lemma PrintUnitsOfPair(s: Text)
    requires |s| >= 2 && IsHigh(s[0]) && IsLow(s[1])
    ensures PrintUnits(s) == [s[0], s[1]] + PrintUnits(s[2..])
    ensures Paired([s[0], s[1]])
  {
    assert s == [s[0]] + ([s[1]] + s[2..]);
    PrintUnitsCons(s[0], [s[1]] + s[2..]);
    PrintUnitsCons(s[1], s[2..]);
    assert [s[0], s[1]][2..] == [];
  }

  lemma PrintUnitsCons(c: unit, rest: Text)
    ensures PrintUnits([c] + rest) == PrintUnit(c) + PrintUnits(rest)
    ensures IsHigh(c) || IsLow(c) ==> PrintUnit(c) == [c]
  {
    assert ([c] + rest)[1..] == rest;
  }

  lemma {:induction false} PrintUnitsPaired(s: Text)
    requires Paired(s)
    ensures Paired(PrintUnits(s))
  {
    if s == [] {
    } else if IsHigh(s[0]) {
      PrintUnitsPaired(s[2..]);
      PrintUnitsOfPair(s);
      PairedConcat([s[0], s[1]], PrintUnits(s[2..]));
    } else {
      PrintUnitsPaired(s[1..]);
      PlainUnit(s[0]);
      PairedConcat(PrintUnit(s[0]), PrintUnits(s[1..]));
    }
  }

  lemma PrintStringPaired(s: Text)
    requires Paired(s)
    ensures Paired(PrintString(s))
  {
    PrintUnitsPaired(s);
    PairedPlain([QUOTE]);
    PairedConcat([QUOTE], PrintUnits(s));
    PairedConcat([QUOTE] + PrintUnits(s), [QUOTE]);
  }

  lemma {:induction false} JoinPaired(parts: seq<Text>)
    requires forall i :: 0 <= i < |parts| ==> Paired(parts[i])
    ensures Paired(Join(parts))
  {
    if |parts| > 1 {
      JoinPaired(parts[1..]);
      PairedPlain([COMMA]);
      PairedConcat(parts[0], [COMMA]);
      PairedConcat(parts[0] + [COMMA], Join(parts[1..]));
    }
  }

  lemma Wrapped(open: unit, inner: Text, close: unit)
    requires Paired(inner) && open < 0xD800 && close < 0xD800
    ensures Paired([open] + inner + [close])
  {
    PairedPlain([open]);
    PairedPlain([close]);
    PairedConcat([open], inner);
    PairedConcat([open] + inner, [close]);
  }

  lemma PrintIntPaired(n: int)
    ensures Paired(PrintInt(n))
  {
    NatDigits(if n < 0 then -n else n);
    PairedPlain(PrintInt(n));
  }

  lemma {:induction false} PrintPaired(v: Json)
    requires Clean(v)
    ensures Paired(Print(v))
    decreases v, 1
  {
    match v
    case Null => PairedPlain(NULL_TEXT);
    case Bool(b) => PairedPlain(if b then TRUE_TEXT else FALSE_TEXT);
    case Num(n) => PrintIntPaired(n);
    case Str(s) => PrintStringPaired(s);
    case Arr(items) =>
      ItemsPaired(items);
      JoinPaired(PrintItems(items));
      Wrapped(OPEN_BRACKET, Join(PrintItems(items)), CLOSE_BRACKET);
    case Obj(fields) =>
      FieldsPaired(fields);
      JoinPaired(PrintFields(fields));
      Wrapped(OPEN_BRACE, Join(PrintFields(fields)), CLOSE_BRACE);
  }

  lemma {:induction false} ItemsPaired(items: seq<Json>)
    requires ItemsClean(items)
    ensures forall i :: 0 <= i < |items| ==> Paired(Print(items[i]))
    decreases items, 0
  {
    if items != [] {
      PrintPaired(items[0]);
      ItemsPaired(items[1..]);
      assert forall i :: 0 < i < |items| ==> items[i] == items[1..][i - 1];
    }
  }

  lemma {:induction false} FieldsPaired(fields: seq<Field>)
    requires FieldsClean(fields)
    ensures forall i :: 0 <= i < |fields| ==> Paired(PrintField(fields[i]))
    decreases fields, 0
  {
    if fields != [] {
      var f := fields[0];
      PrintPaired(f.value);
      PrintStringPaired(f.key);
      PairedPlain([COLON]);
      PairedConcat(PrintString(f.key), [COLON]);
      PairedConcat(PrintString(f.key) + [COLON], Print(f.value));
      FieldsPaired(fields[1..]);
      assert forall i :: 0 < i < |fields| ==> fields[i] == fields[1..][i - 1];
    }
  }

  // ---------------------------------------------------------------- content-addressed identities

  function Sha256ProtocolText(h: HashFn, value: Text): Text {
    Lit("sha256:") + HexEncode(h(Utf8(value)))
  }

  /** The bytes that are hashed for the identity of `v`. */
  function IdentityInput(v: Json): Bytes {
    Utf8(Canon(v))
  }

  /** `None` where the source throws. */
  function CanonicalSha256Id(h: HashFn, v: Json): Option<Text> {
    if Canonicalizable(v) then Some(Sha256ProtocolText(h, Canon(v))) else None
  }

  method ComputeCanonicalSha256Id(h: HashFn, value: Json) returns (r: Result<Text, EncodeError>)
    ensures r.Ok? <==> CanonicalSha256Id(h, value).Some?
    ensures r.Ok? ==> r.value == CanonicalSha256Id(h, value).value
  {
    var text := CanonicalizeProtocolJson(value);
    if text.Err? {
      return Err(text.error);
    }
    return Ok(Sha256ProtocolText(h, text.value));
  }

  /** Two values with different bytes to hash are different values, and conversely. */
  lemma IdentityInputInjective(a: Json, b: Json)
    requires WellFormed(a) && WellFormed(b)
    requires Canonicalizable(a) && Canonicalizable(b)
    ensures IdentityInput(a) == IdentityInput(b) <==> Same(a, b)
  {
    NormKeepsCounts(a);
    NormKeepsCounts(b);
    PrintPaired(Norm(a));
    PrintPaired(Norm(b));
    if IdentityInput(a) == IdentityInput(b) {
      Utf8Injective(Canon(a), Canon(b));
    }
    CanonInjective(a, b);
  }

  /** One identity for two values means one value, or a collision of the two inputs hashed for it. */
  lemma IdentityBinds(h: HashFn, a: Json, b: Json)
    requires WellFormed(a) && WellFormed(b)
    requires CanonicalSha256Id(h, a).Some? && CanonicalSha256Id(h, a) == CanonicalSha256Id(h, b)
    ensures Same(a, b) || Collision(h, IdentityInput(a), IdentityInput(b))
  {
    var p := Lit("sha256:");
    var x, y := h(IdentityInput(a)), h(IdentityInput(b));
    assert (p + HexEncode(x))[|p|..] == HexEncode(x);
    assert (p + HexEncode(y))[|p|..] == HexEncode(y);
    HexRoundTrip(x);
    HexRoundTrip(y);
    IdentityInputInjective(a, b);
  }

  function Lookup(fields: seq<Field>, key: Text): Option<Json> {
    if fields == [] then None
    else if fields[0].key == key then Some(fields[0].value)
    else Lookup(fields[1..], key)
  }

  lemma LookupCons(f: Field, fields: seq<Field>, key: Text)
    ensures Lookup([f] + fields, key) == if f.key == key then Some(f.value) else Lookup(fields, key)
  {
    assert ([f] + fields)[1..] == fields;
  }

  /** The fields of an object but those with an excluded key. */
  function Without(fields: seq<Field>, excluded: seq<Text>): seq<Field> {
    if fields == [] then []
    else if fields[|fields| - 1].key in excluded then Without(fields[..|fields| - 1], excluded)
    else Without(fields[..|fields| - 1], excluded) + [fields[|fields| - 1]]
  }

  const PROTO_KEY: Text := Lit("__proto__")

  /** Assigning the members of an object to a fresh one loses its own `__proto__` member: a primitive
      is ignored and null clears the prototype. */
  function Assigned(fields: seq<Field>, excluded: seq<Text>): seq<Field> {
    Without(fields, excluded + [PROTO_KEY])
  }

  /** An object or array assigned to `__proto__` becomes the prototype, which canonicalization refuses. */
  predicate ReplacesPrototype(fields: seq<Field>, excluded: seq<Text>) {
    PROTO_KEY !in excluded && exists f :: f in fields && f.key == PROTO_KEY && (f.value.Obj? || f.value.Arr?)
  }

  predicate ExcludableFields(value: Json, excluded: seq<Text>) {
    value.Obj? && excluded != [] &&
    forall k :: k in excluded ==> Lookup(value.fields, k).Some? || k == Lit("exported_at")
  }

  /** `Ok(None)` where the source returns undefined, `Err` where it throws. */
  function ExcludedFieldsIdentity(h: HashFn, value: Json, excluded: seq<Text>,
                                  namespace: Option<Text>): Result<Option<Text>, ()> {
    if !ExcludableFields(value, excluded) then Ok(None)
    else if ReplacesPrototype(value.fields, excluded) then Err(())
    else
      match CanonicalSha256Id(h, Obj(Assigned(value.fields, excluded)))
      case None => Err(())
      case Some(digest) => Ok(Some(if namespace.None? then digest
        else namespace.value + [COLON] + digest[|Lit("sha256:")|..]))
  }

  method RecomputeExcludedFieldsIdentity(h: HashFn, value: Json, excluded: seq<Text>, namespace: Option<Text>)
    returns (r: Result<Option<Text>, EncodeError>)
    ensures r.Ok? <==> ExcludedFieldsIdentity(h, value, excluded, namespace).Ok?
    ensures r.Ok? ==> r.value == ExcludedFieldsIdentity(h, value, excluded, namespace).value
  {
    if !ExcludableFields(value, excluded) {
      return Ok(None);
    }
    var identityInput := [];
    var plain := true;
    var index := 0;
    while index < |value.fields|
      invariant 0 <= index <= |value.fields|
      invariant identityInput == Assigned(value.fields[..index], excluded)
      invariant plain == !ReplacesPrototype(value.fields[..index], excluded)
    {
      var f := value.fields[index];
      assert value.fields[..index + 1][..index] == value.fields[..index];
      assert value.fields[..index + 1] == value.fields[..index] + [f];
      if f.key !in excluded {
        if f.key != PROTO_KEY {
          identityInput := identityInput + [f];
        } else if f.value.Obj? || f.value.Arr? {
          plain := false;
        }
      }
      index := index + 1;
    }
    assert value.fields[..index] == value.fields;
    if !plain {
      return Err(NotPlain);
    }
    var digest := ComputeCanonicalSha256Id(h, Obj(identityInput));
    if digest.Err? {
      return Err(digest.error);
    }
    return Ok(Some(if namespace.None? then digest.value
      else namespace.value + [COLON] + digest.value[|Lit("sha256:")|..]));
  }

  // ---------------------------------------------------------------- canonical rows

  datatype CanonicalRow = CanonicalRow(body: Text, digest: Text)

  function ToCanonicalRow(h: HashFn, artifact: Json): Option<CanonicalRow> {
    match CanonicalSha256Id(h, artifact)
    case None => None
    case Some(digest) => Some(CanonicalRow(Canon(artifact), digest))
  }

  function FromCanonicalRow(body: Text): Parsed<Json> {
    Parse(body)
  }

  predicate CanonicalRowDigestMatches(h: HashFn, row: CanonicalRow) {
    var artifact := FromCanonicalRow(row.body);
    artifact.Done? &&
    var again := ToCanonicalRow(h, artifact.value);
    again.Some? && again.value.digest == row.digest
  }

  /** A stored row reads back as the artifact it was made from, and its digest is confirmed. */
  lemma StoredRowMatches(h: HashFn, artifact: Json)
    requires WellFormed(artifact)
    requires ToCanonicalRow(h, artifact).Some?
    ensures var row := ToCanonicalRow(h, artifact).value;
      && CanonicalRowDigestMatches(h, row)
      && Same(artifact, FromCanonicalRow(row.body).value)
  {
    CanonParses(artifact);
    NormKeepsCounts(artifact);
    CanonIdempotent(artifact);
  }
}
