/** `verifyInclusionProof` of `transparency-verify.ts`, against the Merkle tree of RFC 6962. */
module InclusionProof {
  import opened Results
  import opened SafeIntegers
  import opened Text
  import opened Json
  import opened CanonicalIdentity
  import opened ProtocolShapes

  datatype ReviewHead = ReviewHead(reviewId: Text, headHash: Text)

  datatype Sibling = Sibling(left: bool, hash: Digest)

  datatype MerkleProof = MerkleProof(reviewId: Text, leafIndex: nat, treeSize: nat, siblings: seq<Sibling>)

  datatype Verdict = Verified | InvalidReviewHead | InvalidProof | InvalidMerkleRoot | RootMismatch

  const MAX_SIBLINGS: nat := 53

  // ---------------------------------------------------------------- hashing

  predicate ValidHead(d: ReviewHead) {
    IsReviewId(d.reviewId) && IsSha256Hex(d.headHash)
  }

  function HeadJson(d: ReviewHead): Json {
    Obj([Field(Lit("review_id"), Str(d.reviewId)), Field(Lit("head_hash"), Str(d.headHash))])
  }

  /** The log entry of a review head: its canonical JSON bytes. */
  function Entry(d: ReviewHead): Bytes {
    IdentityInput(HeadJson(d))
  }

  function Entries(heads: seq<ReviewHead>): (r: seq<Bytes>)
    ensures |r| == |heads|
    ensures forall i :: 0 <= i < |heads| ==> r[i] == Entry(heads[i])
  {
    seq(|heads|, i requires 0 <= i < |heads| => Entry(heads[i]))
  }

  function LeafInput(d: Bytes): (b: Bytes)
    ensures b != [] && b[0] == 0x00
  {
    [0x00] + d
  }

  function NodeInput(left: Digest, right: Digest): (b: Bytes)
    ensures b != [] && b[0] == 0x01
  {
    [0x01] + left + right
  }

  function LeafHash(h: HashFn, d: Bytes): Digest { h(LeafInput(d)) }

  // ---------------------------------------------------------------- the tree of section 2.1 of RFC 6962

  predicate IsPowerOfTwo(k: nat) {
    k == 1 || (k > 1 && k % 2 == 0 && IsPowerOfTwo(k / 2))
  }

  /** The largest power of two smaller than `n`. */
  function Split(n: nat): (k: nat)
    requires n >= 2
    ensures IsPowerOfTwo(k) && k < n <= 2 * k
  {
    if n == 2 then 1
    else
      var half := Split((n + 1) / 2);
      assert 2 * half / 2 == half;
      2 * half
  }

  function TreeRoot(h: HashFn, leaves: seq<Bytes>): Digest
    decreases |leaves|
  {
    if leaves == [] then h([])
    else if |leaves| == 1 then LeafHash(h, leaves[0])
    else
      var k := Split(|leaves|);
      h(NodeInput(TreeRoot(h, leaves[..k]), TreeRoot(h, leaves[k..])))
  }

  /** Everything hashed to build the tree. */
  ghost function TreeInputs(h: HashFn, leaves: seq<Bytes>): set<Bytes>
    decreases |leaves|
  {
    if leaves == [] then {[]}
    else if |leaves| == 1 then {LeafInput(leaves[0])}
    else
      var k := Split(|leaves|);
      TreeInputs(h, leaves[..k]) + TreeInputs(h, leaves[k..]) +
        {NodeInput(TreeRoot(h, leaves[..k]), TreeRoot(h, leaves[k..]))}
  }

  /** The audit path of section 2.1.1, from the leaf upwards. */
  function AuditPath(h: HashFn, m: nat, leaves: seq<Bytes>): seq<Sibling>
    requires m < |leaves|
    decreases |leaves|
  {
    if |leaves| == 1 then []
    else
      var k := Split(|leaves|);
      if m < k then AuditPath(h, m, leaves[..k]) + [Sibling(false, TreeRoot(h, leaves[k..]))]
      else AuditPath(h, m - k, leaves[k..]) + [Sibling(true, TreeRoot(h, leaves[..k]))]
  }

  // ---------------------------------------------------------------- what the verifier computes

  /** The sides on which the siblings of leaf `index` of `width` must lie; an odd last node has none. */
  function Sides(index: nat, width: nat): seq<bool>
    decreases width
  {
    if width <= 1 then [] else Side(index, width) + Sides(index / 2, (width + 1) / 2)
  }

  function Side(index: nat, width: nat): seq<bool> {
    if index % 2 == 1 then [true] else if index + 1 < width then [false] else []
  }

  function SidesOf(siblings: seq<Sibling>): (s: seq<bool>)
    ensures |s| == |siblings|
  {
    seq(|siblings|, i requires 0 <= i < |siblings| => siblings[i].left)
  }

  function StepInput(node: Digest, s: Sibling): Bytes {
    if s.left then NodeInput(s.hash, node) else NodeInput(node, s.hash)
  }

  /** The node reached from `node` past all siblings. */
  function Fold(h: HashFn, node: Digest, siblings: seq<Sibling>): Digest {
    if siblings == [] then node
    else h(StepInput(Fold(h, node, siblings[..|siblings| - 1]), siblings[|siblings| - 1]))
  }

  /** Everything hashed while climbing. */
  ghost function FoldInputs(h: HashFn, node: Digest, siblings: seq<Sibling>): set<Bytes> {
    if siblings == [] then {}
    else
      var below := siblings[..|siblings| - 1];
      FoldInputs(h, node, below) + {StepInput(Fold(h, node, below), siblings[|siblings| - 1])}
  }

  function ReadHead(v: Json): Option<ReviewHead> {
    if !HasExactKeys(v, [Lit("review_id"), Lit("head_hash")]) then None
    else
      match (StringField(v, Lit("review_id")), StringField(v, Lit("head_hash")))
      case (Some(id), Some(hash)) => if ValidHead(ReviewHead(id, hash)) then Some(ReviewHead(id, hash)) else None
      case _ => None
  }

  function ReadSibling(v: Json): Option<Sibling> {
    if !HasExactKeys(v, [Lit("position"), Lit("hash")]) then None
    else
      match (StringField(v, Lit("position")), StringField(v, Lit("hash")))
      case (Some(position), Some(hash)) =>
        if position != Lit("left") && position != Lit("right") then None
        else if !IsSha256Hex(hash) then None
        else Some(Sibling(position == Lit("left"), HexDecode(hash)))
      case _ => None
  }

  /** All items are siblings. */
  predicate AreSiblings(items: seq<Json>) {
    forall i :: 0 <= i < |items| ==> ReadSibling(items[i]).Some?
  }

  function SiblingsIn(items: seq<Json>): (r: seq<Sibling>)
    requires AreSiblings(items)
    ensures |r| == |items| && forall i :: 0 <= i < |items| ==> Some(r[i]) == ReadSibling(items[i])
  {
    seq(|items|, i requires 0 <= i < |items| => ReadSibling(items[i]).value)
  }

  function ReadProof(v: Json): Option<MerkleProof> {
    if !HasExactKeys(v, [Lit("review_id"), Lit("leaf_index"), Lit("tree_size"), Lit("siblings")]) then None
    else
      match (StringField(v, Lit("review_id")), NumberField(v, Lit("leaf_index")), NumberField(v, Lit("tree_size")),
             Lookup(v.fields, Lit("siblings")))
      case (Some(id), Some(index), Some(size), Some(Arr(items))) =>
        if !IsReviewId(id) || !IsSafeInteger(index) || !IsSafeInteger(size) then None
        else if index < 0 || size <= 0 || index >= size || |items| > MAX_SIBLINGS then None
        else
          if AreSiblings(items) then Some(MerkleProof(id, index, size, SiblingsIn(items))) else None
      case _ => None
  }

  /** The verdict on a head, a proof and a root that have their shapes. */
  function Judge(h: HashFn, head: ReviewHead, proof: MerkleProof, root: Digest): Verdict {
    if proof.reviewId != head.reviewId || SidesOf(proof.siblings) != Sides(proof.leafIndex, proof.treeSize) then
       InvalidProof
    else if Fold(h, LeafHash(h, Entry(head)), proof.siblings) != root then RootMismatch
    else Verified
  }

  function InclusionVerdict(h: HashFn, reviewHead: Json, proof: Json, merkleRoot: Json): Verdict {
    match ReadHead(reviewHead)
    case None => InvalidReviewHead
    case Some(head) =>
      if !(merkleRoot.Str? && IsSha256Hex(merkleRoot.s)) then InvalidMerkleRoot
      else
        match ReadProof(proof)
        case None => InvalidProof
        case Some(p) => Judge(h, head, p, HexDecode(merkleRoot.s))
  }

  // ---------------------------------------------------------------- the verifier

  /** The loop over the siblings of a proof. */
  method ReadMerkleSiblings(items: seq<Json>) returns (r: Option<seq<Sibling>>)
    ensures r.Some? <==> forall i :: 0 <= i < |items| ==> ReadSibling(items[i]).Some?
    ensures r.Some? ==>
      |r.value| == |items| && forall i :: 0 <= i < |items| ==> ReadSibling(items[i]) == Some(r.value[i])
  {
    var siblings := [];
    for index := 0 to |items|
      invariant |siblings| == index && forall i :: 0 <= i < index ==> ReadSibling(items[i]) == Some(siblings[i])
    {
      var sibling := ReadSibling(items[index]);
      if sibling.None? {
        return None;
      }
      siblings := siblings + [sibling.value];
    }
    return Some(siblings);
  }

  /** `isMerkleProof` */
  method ReadMerkleProof(v: Json) returns (r: Option<MerkleProof>)
    ensures r == ReadProof(v)
  {
    if !HasExactKeys(v, [Lit("review_id"), Lit("leaf_index"), Lit("tree_size"), Lit("siblings")]) {
      return None;
    }
    var id, index, size := StringField(v, Lit("review_id")), NumberField(v, Lit("leaf_index")),
      NumberField(v, Lit("tree_size"));
    if id.None? || !IsReviewId(id.value) || index.None? || !IsSafeInteger(index.value) || size.None? ||
       !IsSafeInteger(size.value) {
      return None;
    }
    var items := Lookup(v.fields, Lit("siblings"));
    if index.value < 0 || size.value <= 0 || index.value >= size.value || items.None? || !items.value.Arr? ||
       |items.value.items| > MAX_SIBLINGS {
      return None;
    }
    var siblings := ReadMerkleSiblings(items.value.items);
    if siblings.None? {
      return None;
    }
    assert siblings.value == SiblingsIn(items.value.items);
    return Some(MerkleProof(id.value, index.value, size.value, siblings.value));
  }

  method VerifyInclusionProof(h: HashFn, reviewHead: Json, proof: Json, merkleRoot: Json) returns (verdict: Verdict)
    ensures verdict == InclusionVerdict(h, reviewHead, proof, merkleRoot)
  {
    var head := ReadHead(reviewHead);
    if head.None? {
      return InvalidReviewHead;
    }
    if !(merkleRoot.Str? && IsSha256Hex(merkleRoot.s)) {
      return InvalidMerkleRoot;
    }
    var p := ReadMerkleProof(proof);
    if p.None? || p.value.reviewId != head.value.reviewId {
      return InvalidProof;
    }
    HeadCanonicalizable(head.value);
    var leafText := CanonicalizeProtocolJson(HeadJson(head.value));
    var leaf := h([0x00] + Utf8(leafText.value));
    var node := Climb(h, leaf, p.value.leafIndex, p.value.treeSize, p.value.siblings);
    if node.None? {
      return InvalidProof;
    }
    HexRoundTrip(node.value);
    return if HexDecode(HexEncode(node.value)) == HexDecode(merkleRoot.s) then Verified else RootMismatch;
  }

  lemma FoldSnoc(h: HashFn, node: Digest, below: seq<Sibling>, last: Sibling)
    ensures SidesOf(below + [last]) == SidesOf(below) + [last.left]
    ensures Fold(h, node, below + [last]) == h(StepInput(Fold(h, node, below), last))
  {
    assert (below + [last])[..|below|] == below;
  }

  lemma NextSide(siblings: seq<Sibling>, side: bool, rest: seq<bool>)
    ensures SidesOf(siblings) == [side] + rest <==>
      siblings != [] && siblings[0].left == side && SidesOf(siblings[1..]) == rest
  {
    if siblings != [] {
      assert SidesOf(siblings) == [siblings[0].left] + SidesOf(siblings[1..]);
      assert ([side] + rest)[1..] == rest;
      assert SidesOf(siblings)[1..] == SidesOf(siblings[1..]);
    }
  }

  /** The loop of the verifier: the root reached, unless a sibling is missing, left over or misplaced. */
  method Climb(h: HashFn, leaf: Digest, leafIndex: nat, treeSize: nat, siblings: seq<Sibling>)
    returns (r: Option<Digest>)
    ensures r == if SidesOf(siblings) == Sides(leafIndex, treeSize) then Some(Fold(h, leaf, siblings)) else None
  {
    var node := leaf;
    var index := leafIndex;
    var width := treeSize;
    var siblingIndex := 0;

    while width > 1
      invariant 0 <= siblingIndex <= |siblings|
      invariant SidesOf(siblings) == Sides(leafIndex, treeSize) <==>
        SidesOf(siblings[siblingIndex..]) == Sides(index, width)
      invariant node == Fold(h, leaf, siblings[..siblingIndex])
      decreases width
    {
      var hasLeftSibling := index % 2 == 1;
      var hasRightSibling := !hasLeftSibling && index + 1 < width;
      if hasLeftSibling || hasRightSibling {
        NextSide(siblings[siblingIndex..], hasLeftSibling, Sides(index / 2, (width + 1) / 2));
        if siblingIndex >= |siblings| || siblings[siblingIndex].left != hasLeftSibling {
          return None;
        }
        var sibling := siblings[siblingIndex];
        FoldSnoc(h, leaf, siblings[..siblingIndex], sibling);
        assert siblings[..siblingIndex + 1] == siblings[..siblingIndex] + [sibling];
        assert siblings[siblingIndex..][1..] == siblings[siblingIndex + 1..];
        node := if hasLeftSibling then h(NodeInput(sibling.hash, node)) else h(NodeInput(node, sibling.hash));
        siblingIndex := siblingIndex + 1;
      }
      index := index / 2;
      width := (width + 1) / 2;
    }

    if siblingIndex != |siblings| {
      assert SidesOf(siblings[siblingIndex..]) != [];
      return None;
    }
    assert siblings[..siblingIndex] == siblings;
    return Some(node);
  }

  lemma KeysDiffer()
    ensures Lit("review_id") != Lit("head_hash")
    ensures Lit("position") != Lit("hash")
    ensures Lit("left") != Lit("right")
    ensures |Lit("review_id")| == 9 && |Lit("leaf_index")| == 10 && |Lit("tree_size")| == 9 && |Lit("siblings")| == 8
    ensures Lit("review_id") != Lit("tree_size")
  {
    assert Lit("review_id")[0] == 114 && Lit("head_hash")[0] == 104 && Lit("tree_size")[0] == 116;
  }

  lemma HeadCanonicalizable(d: ReviewHead)
    requires ValidHead(d)
    ensures WellFormed(HeadJson(d)) && Canonicalizable(HeadJson(d))
  {
    KeysDiffer();
    AsciiPaired(d.reviewId);
    AsciiPaired(d.headHash);
    LitsPaired();
    TwoStrings(Lit("review_id"), d.reviewId, Lit("head_hash"), d.headHash);
  }

  lemma TwoStrings(k: Text, s: Text, k': Text, s': Text)
    requires Paired(k) && Paired(s) && Paired(k') && Paired(s') && k != k'
    ensures var v := Obj([Field(k, Str(s)), Field(k', Str(s'))]); WellFormed(v) && Canonicalizable(v)
  {
    var first, last := Field(k, Str(s)), Field(k', Str(s'));
    FieldsCons(last, []);
    FieldsCons(first, [last]);
    assert [last] == [last] + [];
    assert [first, last] == [first] + [last];
    assert Nodes(Obj([first, last])) == 5;
    assert Height(Obj([first, last])) == 1;
  }
}
