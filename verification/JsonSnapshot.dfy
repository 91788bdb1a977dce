/** `json-snapshot.ts`: a bounded one-pass copy, and how its bounds relate to canonicalization. */
module JsonSnapshot {
  import opened Results
  import opened SafeIntegers
  import opened Text
  import opened Json
  import opened CanonicalIdentity

  datatype Limits = Limits(maxNodes: nat, maxDepth: nat, maxStringLength: nat, maxArrayLength: nat, maxObjectKeys: nat)

  const DEFAULT_LIMITS: Limits := Limits(20_000, 64, 1_000_000, 100_000, 10_000)

  datatype SnapshotError = TooManyNodes | TooDeep | StringTooLong | UnsafeNumber | ArrayTooLong | TooManyKeys

  datatype Snapshot = Snapshot(value: Json, payloadFieldPresent: bool)

  // ---------------------------------------------------------------- what is counted

  /** Values in the tree; object keys are not counted. */
  function ValueNodes(v: Json): nat {
    match v
    case Arr(items) => 1 + ItemsValueNodes(items)
    case Obj(fields) => 1 + FieldsValueNodes(fields)
    case _ => 1
  }

  function ItemsValueNodes(items: seq<Json>): nat {
    if items == [] then 0 else ValueNodes(items[0]) + ItemsValueNodes(items[1..])
  }

  function FieldsValueNodes(fields: seq<Field>): nat {
    if fields == [] then 0 else ValueNodes(fields[0].value) + FieldsValueNodes(fields[1..])
  }

  /** String values, arrays and objects within their sizes, and safe numbers. */
  predicate Sized(v: Json, limits: Limits) {
    match v
    case Num(n) => IsSafeInteger(n)
    case Str(s) => |s| <= limits.maxStringLength
    case Arr(items) => |items| <= limits.maxArrayLength && ItemsSized(items, limits)
    case Obj(fields) => |fields| <= limits.maxObjectKeys && FieldsSized(fields, limits)
    case _ => true
  }

  predicate ItemsSized(items: seq<Json>, limits: Limits) {
    items == [] || (Sized(items[0], limits) && ItemsSized(items[1..], limits))
  }

  predicate FieldsSized(fields: seq<Field>, limits: Limits) {
    fields == [] || (Sized(fields[0].value, limits) && FieldsSized(fields[1..], limits))
  }

  predicate Copyable(v: Json, used: nat, depth: nat, limits: Limits) {
    used + ValueNodes(v) <= limits.maxNodes && depth + Height(v) <= limits.maxDepth && Sized(v, limits)
  }

  /** Some object of the value has a payload key. */
  predicate HasPayload(v: Json, isPayloadKey: Text -> bool) {
    match v
    case Arr(items) => ItemsHavePayload(items, isPayloadKey)
    case Obj(fields) => FieldsHavePayload(fields, isPayloadKey)
    case _ => false
  }

  predicate ItemsHavePayload(items: seq<Json>, isPayloadKey: Text -> bool) {
    items != [] && (HasPayload(items[0], isPayloadKey) || ItemsHavePayload(items[1..], isPayloadKey))
  }

  predicate FieldsHavePayload(fields: seq<Field>, isPayloadKey: Text -> bool) {
    fields != [] && (isPayloadKey(fields[0].key) || HasPayload(fields[0].value, isPayloadKey) ||
                     FieldsHavePayload(fields[1..], isPayloadKey))
  }

  // ---------------------------------------------------------------- the copy

  /** One run of `snapshotJsonData`: the counter and the flag that its recursive visits share.
      `isPayloadKey` is the test of a lower-cased key against the payload keys. */
  class Visitor {
    const limits: Limits
    const isPayloadKey: Text -> bool
    var nodes: nat
    var payloadFieldPresent: bool

    constructor (limits: Limits, isPayloadKey: Text -> bool)
      ensures this.limits == limits && this.isPayloadKey == isPayloadKey
      ensures nodes == 0 && !payloadFieldPresent
    {
      this.limits := limits;
      this.isPayloadKey := isPayloadKey;
      nodes := 0;
      payloadFieldPresent := false;
    }

    method Visit(current: Json, depth: nat) returns (r: Result<Json, SnapshotError>)
      modifies this
      ensures r.Ok? <==> Copyable(current, old(nodes), depth, limits)
      ensures r.Ok? ==> r.value == current && nodes == old(nodes) + ValueNodes(current)
      ensures r.Ok? ==> payloadFieldPresent == (old(payloadFieldPresent) || HasPayload(current, isPayloadKey))
      decreases current, 1
    {
      nodes := nodes + 1;
      if nodes > limits.maxNodes {
        return Err(TooManyNodes);
      }
      if depth > limits.maxDepth {
        return Err(TooDeep);
      }
      match current
      case Null => return Ok(current);
      case Bool(_) => return Ok(current);
      case Str(s) => return if |s| > limits.maxStringLength then Err(StringTooLong) else Ok(current);
      case Num(n) => return if !IsSafeInteger(n) then Err(SnapshotError.UnsafeNumber) else Ok(current);
      case Arr(items) =>
        if |items| > limits.maxArrayLength {
          return Err(ArrayTooLong);
        }
        var copied := VisitItems(items, depth + 1);
        return if copied.Err? then Err(copied.error) else Ok(Arr(copied.value));
      case Obj(fields) =>
        if |fields| > limits.maxObjectKeys {
          return Err(TooManyKeys);
        }
        var copied := VisitFields(fields, depth + 1);
        return if copied.Err? then Err(copied.error) else Ok(Obj(copied.value));
    }

    method VisitItems(items: seq<Json>, depth: nat) returns (r: Result<seq<Json>, SnapshotError>)
      requires nodes <= limits.maxNodes && 0 < depth <= limits.maxDepth + 1
      modifies this
      ensures r.Ok? <==>
        old(nodes) + ItemsValueNodes(items) <= limits.maxNodes && depth - 1 + ItemsHeight(items) <= limits.maxDepth &&
        ItemsSized(items, limits)
      ensures r.Ok? ==> r.value == items && nodes == old(nodes) + ItemsValueNodes(items)
      ensures r.Ok? ==> payloadFieldPresent == (old(payloadFieldPresent) || ItemsHavePayload(items, isPayloadKey))
      decreases items, 0
    {
      var out := [];
      var index := 0;
      while index < |items|
        invariant 0 <= index <= |items| && out == items[..index]
        invariant nodes + ItemsValueNodes(items[index..]) == old(nodes) + ItemsValueNodes(items) &&
          nodes <= limits.maxNodes
        invariant depth - 1 + ItemsHeight(items) <= limits.maxDepth <==>
          depth - 1 + ItemsHeight(items[index..]) <= limits.maxDepth
        invariant ItemsSized(items, limits) <==> ItemsSized(items[index..], limits)
        invariant payloadFieldPresent || ItemsHavePayload(items[index..], isPayloadKey) <==>
          old(payloadFieldPresent) || ItemsHavePayload(items, isPayloadKey)
      {
        assert items[index..][1..] == items[index + 1..];
        var result := Visit(items[index], depth);
        if result.Err? {
          return Err(result.error);
        }
        out := out + [result.value];
        index := index + 1;
      }
      return Ok(out);
    }

    method VisitFields(fields: seq<Field>, depth: nat) returns (r: Result<seq<Field>, SnapshotError>)
      requires nodes <= limits.maxNodes && 0 < depth <= limits.maxDepth + 1
      modifies this
      ensures r.Ok? <==>
        old(nodes) + FieldsValueNodes(fields) <= limits.maxNodes &&
        depth - 1 + FieldsHeight(fields) <= limits.maxDepth && FieldsSized(fields, limits)
      ensures r.Ok? ==> r.value == fields && nodes == old(nodes) + FieldsValueNodes(fields)
      ensures r.Ok? ==> payloadFieldPresent == (old(payloadFieldPresent) || FieldsHavePayload(fields, isPayloadKey))
      decreases fields, 0
    {
      var out := [];
      var index := 0;
      while index < |fields|
        invariant 0 <= index <= |fields| && out == fields[..index]
        invariant nodes + FieldsValueNodes(fields[index..]) == old(nodes) + FieldsValueNodes(fields) &&
          nodes <= limits.maxNodes
        invariant depth - 1 + FieldsHeight(fields) <= limits.maxDepth <==>
          depth - 1 + FieldsHeight(fields[index..]) <= limits.maxDepth
        invariant FieldsSized(fields, limits) <==> FieldsSized(fields[index..], limits)
        invariant payloadFieldPresent || FieldsHavePayload(fields[index..], isPayloadKey) <==>
          old(payloadFieldPresent) || FieldsHavePayload(fields, isPayloadKey)
      {
        assert fields[index..][1..] == fields[index + 1..];
        if isPayloadKey(fields[index].key) {
          payloadFieldPresent := true;
        }
        var result := Visit(fields[index].value, depth);
        if result.Err? {
          return Err(result.error);
        }
        out := out + [Field(fields[index].key, result.value)];
        index := index + 1;
      }
      return Ok(out);
    }
  }

  /** The copy succeeds exactly within the limits, is the value copied, and reports payload keys. */
  method SnapshotJsonData(value: Json, limits: Limits, isPayloadKey: Text -> bool)
    returns (r: Result<Snapshot, SnapshotError>)
    ensures r.Ok? <==> Copyable(value, 0, 0, limits)
    ensures r.Ok? ==> r.value == Snapshot(value, HasPayload(value, isPayloadKey))
  {
    var visitor := new Visitor(limits, isPayloadKey);
    var result := visitor.Visit(value, 0);
    if result.Err? {
      return Err(result.error);
    }
    return Ok(Snapshot(result.value, visitor.payloadFieldPresent));
  }

  // ---------------------------------------------------------------- against canonicalization

  /** String values are within a length; keys are not looked at. */
  predicate ShortStrings(v: Json, length: nat) {
    match v
    case Str(s) => |s| <= length
    case Arr(items) => ItemsShort(items, length)
    case Obj(fields) => FieldsShort(fields, length)
    case _ => true
  }

  predicate ItemsShort(items: seq<Json>, length: nat) {
    items == [] || (ShortStrings(items[0], length) && ItemsShort(items[1..], length))
  }

  predicate FieldsShort(fields: seq<Field>, length: nat) {
    fields == [] || (ShortStrings(fields[0].value, length) && FieldsShort(fields[1..], length))
  }

  /** A value counted by canonicalization within the default limits is within them here. */
  lemma {:induction false} CanonicalFitsSnapshot(v: Json)
    requires Nodes(v) <= MAX_NODES && Clean(v) && ShortStrings(v, DEFAULT_LIMITS.maxStringLength)
    ensures ValueNodes(v) <= Nodes(v) && Sized(v, DEFAULT_LIMITS)
    decreases v, 1
  {
    match v
    case Arr(items) => CanonicalItemsFit(items);
    case Obj(fields) => CanonicalFieldsFit(fields);
    case _ =>
  }

  lemma {:induction false} CanonicalItemsFit(items: seq<Json>)
    requires ItemsNodes(items) <= MAX_NODES && ItemsClean(items) && ItemsShort(items, DEFAULT_LIMITS.maxStringLength)
    ensures ItemsValueNodes(items) <= ItemsNodes(items) && |items| <= ItemsNodes(items) &&
      ItemsSized(items, DEFAULT_LIMITS)
    decreases items, 0
  {
    if items != [] {
      CanonicalFitsSnapshot(items[0]);
      CanonicalItemsFit(items[1..]);
    }
  }

  lemma {:induction false} CanonicalFieldsFit(fields: seq<Field>)
    requires FieldsNodes(fields) <= MAX_NODES && FieldsClean(fields) &&
      FieldsShort(fields, DEFAULT_LIMITS.maxStringLength)
    ensures FieldsValueNodes(fields) <= FieldsNodes(fields) && 2 * |fields| <= FieldsNodes(fields) &&
      FieldsSized(fields, DEFAULT_LIMITS)
    decreases fields, 0
  {
    if fields != [] {
      CanonicalFitsSnapshot(fields[0].value);
      CanonicalFieldsFit(fields[1..]);
    }
  }

  /** Every canonicalizable value with strings of at most a million units is copied under the default
      limits. The copy is the value, so it has the same canonical form. */
  lemma CanonicalizableIsCopyable(v: Json)
    requires Canonicalizable(v) && ShortStrings(v, 1_000_000)
    ensures Copyable(v, 0, 0, DEFAULT_LIMITS)
  {
    CanonicalFitsSnapshot(v);
  }

  /** The converse fails: a copy is not screened for unpaired surrogates, nor are its keys counted. */
  lemma CopyableNeedNotCanonicalize()
    ensures Copyable(Str([0xD800]), 0, 0, DEFAULT_LIMITS) && !Canonicalizable(Str([0xD800]))
  {
    assert !Paired([0xD800]);
  }

  /** When a copied value canonicalizes: with its keys counted too, and all surrogates paired. */
  lemma CopyableCanonicalizesIff(v: Json)
    requires Copyable(v, 0, 0, DEFAULT_LIMITS)
    ensures Canonicalizable(v) <==> Nodes(v) <= MAX_NODES && AllPaired(v)
  {
    SizedClean(v);
  }

  /** Strings and keys have only paired surrogates. */
  predicate AllPaired(v: Json) {
    match v
    case Str(s) => Paired(s)
    case Arr(items) => ItemsPairedAll(items)
    case Obj(fields) => FieldsPairedAll(fields)
    case _ => true
  }

  predicate ItemsPairedAll(items: seq<Json>) {
    items == [] || (AllPaired(items[0]) && ItemsPairedAll(items[1..]))
  }

  predicate FieldsPairedAll(fields: seq<Field>) {
    fields == [] || (Paired(fields[0].key) && AllPaired(fields[0].value) && FieldsPairedAll(fields[1..]))
  }

  lemma {:induction false} SizedClean(v: Json)
    requires Sized(v, DEFAULT_LIMITS)
    ensures Clean(v) <==> AllPaired(v)
    decreases v, 1
  {
    match v
    case Arr(items) => ItemsSizedClean(items);
    case Obj(fields) => FieldsSizedClean(fields);
    case _ =>
  }

  lemma {:induction false} ItemsSizedClean(items: seq<Json>)
    requires ItemsSized(items, DEFAULT_LIMITS)
    ensures ItemsClean(items) <==> ItemsPairedAll(items)
    decreases items, 0
  {
    if items != [] {
      SizedClean(items[0]);
      ItemsSizedClean(items[1..]);
    }
  }

  lemma {:induction false} FieldsSizedClean(fields: seq<Field>)
    requires FieldsSized(fields, DEFAULT_LIMITS)
    ensures FieldsClean(fields) <==> FieldsPairedAll(fields)
    decreases fields, 0
  {
    if fields != [] {
      SizedClean(fields[0].value);
      FieldsSizedClean(fields[1..]);
    }
  }
}
