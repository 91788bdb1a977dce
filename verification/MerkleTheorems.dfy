/** What an accepted inclusion proof proves, and that honest proofs are accepted. */
module MerkleTheorems {
  import opened Results
  import opened SafeIntegers
  import opened Powers
  import opened Text
  import opened Json
  import opened CanonicalIdentity
  import opened Members
  import opened ProtocolShapes
  import opened InclusionProof

  // ---------------------------------------------------------------- shape of paths

  /** One level of the climb, with the halves given. */
  lemma ClimbOneLevel(m: nat, n: nat, m2: nat, n2: nat)
    requires n >= 2 && 2 * m2 <= m <= 2 * m2 + 1 && n <= 2 * n2 <= n + 1
    ensures Sides(m, n) == Side(m, n) + Sides(m2, n2)
    ensures Side(m, n) == if m == 2 * m2 + 1 then [true] else if m + 1 < n then [false] else []
  {
    assert m2 == m / 2 && n2 == (n + 1) / 2;
  }

  lemma SidesOfOne()
    ensures Sides(0, 1) == []
  {
  }

  lemma SplitDoubles(n: nat) returns (n2: nat)
    requires n > 2
    ensures n <= 2 * n2 <= n + 1 && 2 <= n2 < n && Split(n) == 2 * Split(n2)
  {
    n2 := (n + 1) / 2;
  }

  lemma LeftSides(m: nat, n: nat, m2: nat, n2: nat, half: nat)
    requires 2 * m2 <= m <= 2 * m2 + 1 && n <= 2 * n2 <= n + 1 && m < 2 * half < n
    requires Sides(m2, n2) == Sides(m2, half) + [false]
    ensures Sides(m, n) == Sides(m, 2 * half) + [false]
  {
    ClimbOneLevel(m, n, m2, n2);
    ClimbOneLevel(m, 2 * half, m2, half);
    assert Side(m, n) == Side(m, 2 * half);
  }

  lemma RightSides(m: nat, n: nat, m2: nat, n2: nat, half: nat)
    requires 2 * m2 <= m <= 2 * m2 + 1 && n <= 2 * n2 <= n + 1 && 0 < 2 * half <= m < n
    requires Sides(m2, n2) == Sides(m2 - half, n2 - half) + [true]
    ensures Sides(m, n) == Sides(m - 2 * half, n - 2 * half) + [true]
  {
    if n - 2 * half == 1 {
      LoneRightSide(m, n, m2, n2);
    } else {
      SameSideBehind(m, n, m2, n2, half, m - 2 * half, n - 2 * half);
    }
  }

  lemma LoneRightSide(m: nat, n: nat, m2: nat, n2: nat)
    requires m == 2 * m2 && n == m + 1 && n2 == m2 + 1 && n >= 2
    requires Sides(m2, n2) == Sides(0, 1) + [true]
    ensures Sides(m, n) == Sides(0, 1) + [true]
  {
    SidesOfOne();
    ClimbOneLevel(m, n, m2, n2);
  }

  lemma SameSideBehind(m: nat, n: nat, m2: nat, n2: nat, half: nat, m': nat, n': nat)
    requires 2 * m2 <= m <= 2 * m2 + 1 && n <= 2 * n2 <= n + 1 && m == m' + 2 * half && n == n' + 2 * half && m' < n' &&
      n' >= 2
    requires Sides(m2, n2) == Sides(m2 - half, n2 - half) + [true]
    ensures Sides(m, n) == Sides(m', n') + [true]
  {
    ClimbOneLevel(m, n, m2, n2);
    ClimbOneLevel(m', n', m2 - half, n2 - half);
    assert Side(m, n) == Side(m', n');
    assert Side(m, n) + (Sides(m2 - half, n2 - half) + [true]) == Side(m, n) + Sides(m2 - half, n2 - half) + [true];
  }

  lemma SidesOfTwo(m: nat)
    requires m < 2
    ensures Split(2) == 1 && Sides(m, 2) == [m == 1] && Sides(0, 1) == []
  {
    ClimbOneLevel(m, 2, 0, 1);
  }

  /** The siblings met while climbing in a tree are those of the subtree, then the other subtree. */
  lemma {:induction false} SidesSplit(m: nat, n: nat)
    requires m < n && n >= 2
    ensures var k := Split(n);
      Sides(m, n) == if m < k then Sides(m, k) + [false] else Sides(m - k, n - k) + [true]
    decreases n
  {
    if n == 2 {
      SidesOfTwo(m);
    } else {
      var n2 := SplitDoubles(n);
      var m2 := m / 2;
      SidesSplit(m2, n2);
      if m < Split(n) {
        LeftSides(m, n, m2, n2, Split(n2));
      } else {
        RightSides(m, n, m2, n2, Split(n2));
      }
    }
  }

  lemma {:induction false} SidesBound(m: nat, n: nat, e: nat)
    requires n <= Pow2(e)
    ensures |Sides(m, n)| <= e
  {
    if n > 1 {
      SidesBound(m / 2, (n + 1) / 2, e - 1);
    }
  }

  lemma Pow2Of53()
    ensures Pow2(53) == MAX_SAFE_INTEGER + 1
  {
    assert Pow2(10) == 1024;
    assert Pow2(20) == 1024 * Pow2(10);
    assert Pow2(30) == 1024 * Pow2(20);
    assert Pow2(40) == 1024 * Pow2(30);
    assert Pow2(50) == 1024 * Pow2(40);
    assert Pow2(53) == 8 * Pow2(50);
  }

  // ---------------------------------------------------------------- completeness

  /** The audit path of RFC 6962 has the expected sides and leads from its leaf to the root. */
  lemma {:induction false} AuditPathLeadsToRoot(h: HashFn, m: nat, leaves: seq<Bytes>)
    requires m < |leaves|
    ensures SidesOf(AuditPath(h, m, leaves)) == Sides(m, |leaves|)
    ensures Fold(h, LeafHash(h, leaves[m]), AuditPath(h, m, leaves)) == TreeRoot(h, leaves)
    decreases |leaves|
  {
    if |leaves| > 1 {
      var sub, m', s := RootFromSubtree(h, m, leaves);
      SidesOfSubtree(m, |leaves|);
      AuditPathLeadsToRoot(h, m', sub);
      PathExtends(h, LeafHash(h, leaves[m]), AuditPath(h, m', sub), s);
    }
  }

  /** The place of leaf `m` in the subtree that holds it, and the size of that subtree. */
  function SubtreeIndex(m: nat, n: nat): nat
    requires n >= 2
  {
    if m < Split(n) then m else m - Split(n)
  }

  function SubtreeSize(m: nat, n: nat): nat
    requires n >= 2
  {
    if m < Split(n) then Split(n) else n - Split(n)
  }

  lemma SidesOfSubtree(m: nat, n: nat)
    requires m < n && n >= 2
    ensures Sides(m, n) == Sides(SubtreeIndex(m, n), SubtreeSize(m, n)) + [m >= Split(n)]
  {
    SidesSplit(m, n);
  }

  /** The audit path in a tree is that in the subtree of the leaf, then the root of the other subtree. */
  lemma RootFromSubtree(h: HashFn, m: nat, leaves: seq<Bytes>) returns (sub: seq<Bytes>, m': nat, s: Sibling)
    requires m < |leaves| && |leaves| >= 2
    ensures m' < |sub| < |leaves| && sub[m'] == leaves[m]
    ensures AuditPath(h, m, leaves) == AuditPath(h, m', sub) + [s]
    ensures m' == SubtreeIndex(m, |leaves|) && |sub| == SubtreeSize(m, |leaves|) && (s.left <==> m >= Split(|leaves|))
    ensures TreeRoot(h, leaves) == h(StepInput(TreeRoot(h, sub), s))
  {
    var k := Split(|leaves|);
    var left, right := leaves[..k], leaves[k..];
    if m < k {
      sub, m', s := left, m, Sibling(false, TreeRoot(h, right));
    } else {
      sub, m', s := right, m - k, Sibling(true, TreeRoot(h, left));
    }
  }

  lemma PathExtends(h: HashFn, node: Digest, path: seq<Sibling>, s: Sibling)
    ensures SidesOf(path + [s]) == SidesOf(path) + [s.left]
    ensures Fold(h, node, path + [s]) == h(StepInput(Fold(h, node, path), s))
  {
    FoldSnoc(h, node, path, s);
  }

  function SiblingJson(s: Sibling): Json {
    Obj([Field(Lit("position"), Str(if s.left then Lit("left") else Lit("right"))),
         Field(Lit("hash"), Str(HexEncode(s.hash)))])
  }

  function SiblingsJson(siblings: seq<Sibling>): (r: seq<Json>)
    ensures |r| == |siblings|
    ensures forall i :: 0 <= i < |siblings| ==> r[i] == SiblingJson(siblings[i])
  {
    seq(|siblings|, i requires 0 <= i < |siblings| => SiblingJson(siblings[i]))
  }

  function ProofJson(p: MerkleProof): Json {
    Obj([Field(Lit("review_id"), Str(p.reviewId)), Field(Lit("leaf_index"), Num(p.leafIndex)),
         Field(Lit("tree_size"), Num(p.treeSize)), Field(Lit("siblings"), Arr(SiblingsJson(p.siblings)))])
  }

  lemma SiblingReadsBack(s: Sibling)
    ensures ReadSibling(SiblingJson(s)) == Some(s)
  {
    KeysDiffer();
    HexRoundTrip(s.hash);
    var f := SiblingJson(s).fields;
    LookupTwo(f[0], f[1]);
  }

  lemma SiblingsReadBack(siblings: seq<Sibling>)
    ensures AreSiblings(SiblingsJson(siblings)) && SiblingsIn(SiblingsJson(siblings)) == siblings
  {
    forall i | 0 <= i < |siblings| ensures ReadSibling(SiblingsJson(siblings)[i]) == Some(siblings[i]) {
      SiblingReadsBack(siblings[i]);
    }
  }

  lemma ProofReadsBack(p: MerkleProof)
    requires IsReviewId(p.reviewId)
    requires p.leafIndex < p.treeSize <= MAX_SAFE_INTEGER
    requires |p.siblings| <= MAX_SIBLINGS
    ensures ReadProof(ProofJson(p)) == Some(p)
  {
    KeysDiffer();
    SiblingsReadBack(p.siblings);
    var f := ProofJson(p).fields;
    LookupFour(f[0], f[1], f[2], f[3]);
  }

  /** Every tree of up to 2^53 - 1 heads, every leaf: the honest proof is accepted. */
  lemma HonestProofVerifies(h: HashFn, m: nat, heads: seq<ReviewHead>)
    requires m < |heads| <= MAX_SAFE_INTEGER
    requires ValidHead(heads[m])
    ensures var path := AuditPath(h, m, Entries(heads));
      && |path| <= MAX_SIBLINGS
      && InclusionVerdict(h, HeadJson(heads[m]), ProofJson(MerkleProof(heads[m].reviewId, m, |heads|, path)),
                          Str(HexEncode(TreeRoot(h, Entries(heads))))) == Verified
  {
    var leaves := Entries(heads);
    AuditPathLeadsToRoot(h, m, leaves);
    Pow2Of53();
    SidesBound(m, |leaves|, 53);
    var p := MerkleProof(heads[m].reviewId, m, |leaves|, AuditPath(h, m, leaves));
    ProofReadsBack(p);
    HeadReadsBack(heads[m]);
    HexRoundTrip(TreeRoot(h, leaves));
    ShapesAccepted(h, HeadJson(heads[m]), ProofJson(p), heads[m], p, TreeRoot(h, leaves));
  }

  /** Inputs of the right shapes get the verdict on what they hold. */
  lemma ShapesAccepted(h: HashFn, reviewHead: Json, proof: Json, head: ReviewHead, p: MerkleProof, root: Digest)
    requires ReadHead(reviewHead) == Some(head) && ReadProof(proof) == Some(p)
    ensures InclusionVerdict(h, reviewHead, proof, Str(HexEncode(root))) == Judge(h, head, p, root)
  {
    HexRoundTrip(root);
  }

  lemma HeadReadsBack(d: ReviewHead)
    requires ValidHead(d)
    ensures ReadHead(HeadJson(d)) == Some(d)
  {
    KeysDiffer();
    var f := HeadJson(d).fields;
    LookupTwo(f[0], f[1]);
  }

  // ---------------------------------------------------------------- soundness

  lemma SameHead(a: ReviewHead, b: ReviewHead)
    requires ValidHead(a) && ValidHead(b)
    requires Entry(a) == Entry(b)
    ensures a == b
  {
    HeadCanonicalizable(a);
    HeadCanonicalizable(b);
    IdentityInputInjective(HeadJson(a), HeadJson(b));
    KeysDiffer();
    var f, g := HeadJson(a).fields, HeadJson(b).fields;
    assert HasSame(f[0], g) && HasSame(f[1], g);
    var i :| 0 <= i < 2 && g[i].key == f[0].key && Same(f[0].value, g[i].value);
    var j :| 0 <= j < 2 && g[j].key == f[1].key && Same(f[1].value, g[j].value);
  }

  lemma NodeInputCut(a: Digest, b: Digest, c: Digest, d: Digest)
    requires NodeInput(a, b) == NodeInput(c, d)
    ensures a == c && b == d
  {
    assert a == NodeInput(a, b)[1..33] && c == NodeInput(c, d)[1..33];
    assert b == NodeInput(a, b)[33..] && d == NodeInput(c, d)[33..];
  }

  /** What the verifier hashes for a leaf and a path. */
  ghost function VerifierInputs(h: HashFn, leaf: Bytes, siblings: seq<Sibling>): set<Bytes> {
    {LeafInput(leaf)} + FoldInputs(h, LeafHash(h, leaf), siblings)
  }

  /** One step down from the root: the path enters the subtree on the side of its last sibling. */
  lemma TopStep(h: HashFn, leaf: Bytes, siblings: seq<Sibling>, leaves: seq<Bytes>)
    requires siblings != []
    requires Fold(h, LeafHash(h, leaf), siblings) == TreeRoot(h, leaves)
    ensures CollisionBetween(h, VerifierInputs(h, leaf, siblings), TreeInputs(h, leaves))
         || (|leaves| >= 2
             && var k := Split(|leaves|);
                var last := |siblings| - 1;
                Fold(h, LeafHash(h, leaf), siblings[..last]) == TreeRoot(h, if siblings[last].left then leaves[k..]
                  else leaves[..k]))
  {
    var last := |siblings| - 1;
    var node := Fold(h, LeafHash(h, leaf), siblings[..last]);
    var a := StepInput(node, siblings[last]);
    assert a in VerifierInputs(h, leaf, siblings) && h(a) == TreeRoot(h, leaves);
    if |leaves| < 2 {
      var b := if leaves == [] then [] else LeafInput(leaves[0]);
      assert b in TreeInputs(h, leaves) && Collision(h, a, b);
    } else {
      var k := Split(|leaves|);
      var b := NodeInput(TreeRoot(h, leaves[..k]), TreeRoot(h, leaves[k..]));
      assert b in TreeInputs(h, leaves);
      if a != b {
        assert Collision(h, a, b);
      } else if siblings[last].left {
        NodeInputCut(siblings[last].hash, node, TreeRoot(h, leaves[..k]), TreeRoot(h, leaves[k..]));
      } else {
        NodeInputCut(node, siblings[last].hash, TreeRoot(h, leaves[..k]), TreeRoot(h, leaves[k..]));
      }
    }
  }

  /** The path has ended at its leaf: the tree there is that one leaf. */
  lemma LeafStep(h: HashFn, leaf: Bytes, leaves: seq<Bytes>)
    requires LeafHash(h, leaf) == TreeRoot(h, leaves)
    ensures leaves == [leaf] || CollisionBetween(h, {LeafInput(leaf)}, TreeInputs(h, leaves))
  {
    var a := LeafInput(leaf);
    var b := if leaves == [] then [] else if |leaves| == 1 then LeafInput(leaves[0])
             else NodeInput(TreeRoot(h, leaves[..Split(|leaves|)]), TreeRoot(h, leaves[Split(|leaves|)..]));
    assert a in {LeafInput(leaf)} && b in TreeInputs(h, leaves) && h(a) == h(b);
    if a != b {
      assert Collision(h, a, b);
    } else {
      assert leaf == LeafInput(leaf)[1..] && leaves[0] == LeafInput(leaves[0])[1..];
    }
  }

  /** Whatever size was claimed: a path to the root of a tree starts at one of its leaves. */
  lemma {:induction false} PathStartsInTree(h: HashFn, leaf: Bytes, siblings: seq<Sibling>, leaves: seq<Bytes>)
    requires Fold(h, LeafHash(h, leaf), siblings) == TreeRoot(h, leaves)
    ensures leaf in leaves || CollisionBetween(h, VerifierInputs(h, leaf, siblings), TreeInputs(h, leaves))
    decreases |siblings|
  {
    if siblings == [] {
      LeafStep(h, leaf, leaves);
    } else {
      TopStep(h, leaf, siblings, leaves);
      if !CollisionBetween(h, VerifierInputs(h, leaf, siblings), TreeInputs(h, leaves)) {
        var k, last := Split(|leaves|), |siblings| - 1;
        var sub := if siblings[last].left then leaves[k..] else leaves[..k];
        PathStartsInTree(h, leaf, siblings[..last], sub);
        if leaf !in sub {
          CollisionGrows(h, VerifierInputs(h, leaf, siblings[..last]), TreeInputs(h, sub),
                         VerifierInputs(h, leaf, siblings), TreeInputs(h, leaves));
        }
      }
    }
  }

  /** With the true size: the path starts at the claimed index. */
  lemma {:induction false} PathStartsAtIndex(h: HashFn, leaf: Bytes, m: nat, siblings: seq<Sibling>, leaves: seq<Bytes>)
    requires m < |leaves| && SidesOf(siblings) == Sides(m, |leaves|)
    requires Fold(h, LeafHash(h, leaf), siblings) == TreeRoot(h, leaves)
    ensures leaves[m] == leaf || CollisionBetween(h, VerifierInputs(h, leaf, siblings), TreeInputs(h, leaves))
    decreases |leaves|
  {
    if |leaves| == 1 {
      PathOfOne(h, leaf, siblings, leaves);
    } else if !CollisionBetween(h, VerifierInputs(h, leaf, siblings), TreeInputs(h, leaves)) {
      var below, sub, m' := Descend(h, leaf, m, siblings, leaves);
      PathStartsAtIndex(h, leaf, m', below, sub);
    }
  }

  lemma PathOfOne(h: HashFn, leaf: Bytes, siblings: seq<Sibling>, leaves: seq<Bytes>)
    requires |leaves| == 1 && SidesOf(siblings) == Sides(0, 1)
    requires Fold(h, LeafHash(h, leaf), siblings) == TreeRoot(h, leaves)
    ensures leaves[0] == leaf || CollisionBetween(h, VerifierInputs(h, leaf, siblings), TreeInputs(h, leaves))
  {
    SidesOfOne();
    LeafStep(h, leaf, leaves);
    if leaves != [leaf] {
      CollisionGrows(h, {LeafInput(leaf)}, TreeInputs(h, leaves), VerifierInputs(h, leaf, siblings),
                     TreeInputs(h, leaves));
    }
  }

  /** From the root of a tree to the root of the subtree that holds the leaf. */
  lemma Descend(h: HashFn, leaf: Bytes, m: nat, siblings: seq<Sibling>, leaves: seq<Bytes>)
    returns (below: seq<Sibling>, sub: seq<Bytes>, m': nat)
    requires m < |leaves| && |leaves| >= 2 && SidesOf(siblings) == Sides(m, |leaves|)
    requires Fold(h, LeafHash(h, leaf), siblings) == TreeRoot(h, leaves)
    requires !CollisionBetween(h, VerifierInputs(h, leaf, siblings), TreeInputs(h, leaves))
    ensures m' < |sub| < |leaves| && sub[m'] == leaves[m]
    ensures SidesOf(below) == Sides(m', |sub|) && Fold(h, LeafHash(h, leaf), below) == TreeRoot(h, sub)
    ensures !CollisionBetween(h, VerifierInputs(h, leaf, below), TreeInputs(h, sub))
  {
    LastSide(m, |leaves|, siblings);
    TopStep(h, leaf, siblings, leaves);
    var k := Split(|leaves|);
    below := siblings[..|siblings| - 1];
    sub, m' := if m >= k then leaves[k..] else leaves[..k], if m >= k then m - k else m;
    SubtreeInputs(h, leaves);
    if CollisionBetween(h, VerifierInputs(h, leaf, below), TreeInputs(h, sub)) {
      CollisionGrows(h, VerifierInputs(h, leaf, below), TreeInputs(h, sub), VerifierInputs(h, leaf, siblings),
                     TreeInputs(h, leaves));
    }
  }

  lemma SubtreeInputs(h: HashFn, leaves: seq<Bytes>)
    requires |leaves| >= 2
    ensures var k := Split(|leaves|);
      TreeInputs(h, leaves[..k]) <= TreeInputs(h, leaves) && TreeInputs(h, leaves[k..]) <= TreeInputs(h, leaves)
  {
  }

  lemma LastSide(m: nat, n: nat, siblings: seq<Sibling>)
    requires m < n && n >= 2 && SidesOf(siblings) == Sides(m, n)
    ensures siblings != []
    ensures var k, last := Split(n), |siblings| - 1;
      && siblings[last].left == (m >= k)
      && SidesOf(siblings[..last]) == if m < k then Sides(m, k) else Sides(m - k, n - k)
  {
    SidesSplit(m, n);
    assert |siblings| == |Sides(m, n)|;
    var last := |siblings| - 1;
    assert siblings[last].left == SidesOf(siblings)[last];
    assert SidesOf(siblings[..last]) == SidesOf(siblings)[..last];
  }

  /** Soundness: an accepted proof against the root of `heads` puts the given head at the given
      index when the size is right, and somewhere in `heads` whatever the size, unless the hashing
      of the proof and that of the tree met a collision. */
  lemma AcceptedProofIsSound(h: HashFn, reviewHead: Json, proof: Json, heads: seq<ReviewHead>)
    requires forall d :: d in heads ==> ValidHead(d)
    requires InclusionVerdict(h, reviewHead, proof, Str(HexEncode(TreeRoot(h, Entries(heads))))) == Verified
    ensures ReadHead(reviewHead).Some? && ReadProof(proof).Some?
    ensures var head := ReadHead(reviewHead).value; var p := ReadProof(proof).value;
      || CollisionBetween(h, VerifierInputs(h, Entry(head), p.siblings), TreeInputs(h, Entries(heads)))
      || (head in heads && p.reviewId == head.reviewId && (p.treeSize == |heads| ==> heads[p.leafIndex] == head))
  {
    var head, p := ReadHead(reviewHead).value, ReadProof(proof).value;
    ShapesAccepted(h, reviewHead, proof, head, p, TreeRoot(h, Entries(heads)));
    AcceptedPathIsSound(h, head, p, heads);
  }

  lemma AcceptedPathIsSound(h: HashFn, head: ReviewHead, p: MerkleProof, heads: seq<ReviewHead>)
    requires ValidHead(head) && forall d :: d in heads ==> ValidHead(d)
    requires p.leafIndex < p.treeSize
    requires Judge(h, head, p, TreeRoot(h, Entries(heads))) == Verified
    ensures
      || CollisionBetween(h, VerifierInputs(h, Entry(head), p.siblings), TreeInputs(h, Entries(heads)))
      || (head in heads && p.reviewId == head.reviewId && (p.treeSize == |heads| ==> heads[p.leafIndex] == head))
  {
    var leaves := Entries(heads);
    PathStartsInTree(h, Entry(head), p.siblings, leaves);
    if p.treeSize == |heads| {
      PathStartsAtIndex(h, Entry(head), p.leafIndex, p.siblings, leaves);
    }
    forall i | 0 <= i < |heads| && leaves[i] == Entry(head) ensures heads[i] == head {
      SameHead(heads[i], head);
    }
  }

  // ---------------------------------------------------------------- the level-by-level tree

  /** One level up: neighbours are hashed in pairs and an odd last node is promoted. */
  function Level(h: HashFn, nodes: seq<Digest>): (r: seq<Digest>)
    ensures |r| == (|nodes| + 1) / 2
  {
    if |nodes| < 2 then nodes else [h(NodeInput(nodes[0], nodes[1]))] + Level(h, nodes[2..])
  }

  function LevelRoot(h: HashFn, nodes: seq<Digest>): Digest
    requires nodes != []
    decreases |nodes|
  {
    if |nodes| == 1 then nodes[0] else LevelRoot(h, Level(h, nodes))
  }

  function LeafHashes(h: HashFn, leaves: seq<Bytes>): (r: seq<Digest>)
    ensures |r| == |leaves|
    ensures forall i :: 0 <= i < |leaves| ==> r[i] == LeafHash(h, leaves[i])
  {
    seq(|leaves|, i requires 0 <= i < |leaves| => LeafHash(h, leaves[i]))
  }

  lemma {:induction false} LevelConcat(h: HashFn, a: seq<Digest>, b: seq<Digest>)
    requires |a| % 2 == 0
    ensures Level(h, a + b) == Level(h, a) + Level(h, b)
  {
    if a == [] {
      assert a + b == b;
    } else {
      assert (a + b)[2..] == a[2..] + b;
      LevelConcat(h, a[2..], b);
    }
  }

  /** Levels split where the recursive tree splits. */
  lemma {:induction false} LevelRootSplit(h: HashFn, nodes: seq<Digest>)
    requires |nodes| >= 2
    ensures var k := Split(|nodes|);
      LevelRoot(h, nodes) == h(NodeInput(LevelRoot(h, nodes[..k]), LevelRoot(h, nodes[k..])))
    decreases |nodes|
  {
    var k := Split(|nodes|);
    if |nodes| == 2 {
      assert nodes[2..] == [];
      assert Level(h, nodes) == [h(NodeInput(nodes[0], nodes[1]))];
    } else {
      LevelConcat(h, nodes[..k], nodes[k..]);
      assert nodes == nodes[..k] + nodes[k..];
      var up := Level(h, nodes);
      assert up[..k / 2] == Level(h, nodes[..k]) && up[k / 2..] == Level(h, nodes[k..]);
      LevelRootSplit(h, up);
      assert Level(h, nodes[k..]) == nodes[k..] || |nodes[k..]| > 1;
    }
  }

  /** The tree built level by level is the recursive tree of section 2.1 of RFC 6962, for every size. */
  lemma {:induction false} LevelsBuildTheTree(h: HashFn, leaves: seq<Bytes>)
    requires leaves != []
    ensures LevelRoot(h, LeafHashes(h, leaves)) == TreeRoot(h, leaves)
    decreases |leaves|
  {
    if |leaves| > 1 {
      var k := Split(|leaves|);
      var nodes := LeafHashes(h, leaves);
      LevelRootSplit(h, nodes);
      assert nodes[..k] == LeafHashes(h, leaves[..k]) && nodes[k..] == LeafHashes(h, leaves[k..]);
      LevelsBuildTheTree(h, leaves[..k]);
      LevelsBuildTheTree(h, leaves[k..]);
    }
  }
}
