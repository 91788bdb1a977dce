/** What a verified chain head binds. */
module ChainTheorems {
  import opened Results
  import opened SafeIntegers
  import opened Sorting
  import opened Text
  import opened Json
  import opened CanonicalIdentity
  import opened Members
  import opened ProtocolShapes
  import opened EventIdentity
  import opened ReviewChain

  predicate ValidLink(k: Link) {
    k.sequence <= MAX_SAFE_INTEGER && IsPrefixedSha256(k.eventId)
  }

  // ---------------------------------------------------------------- injectivity of one link

  lemma Cut(a: Bytes, b: Bytes, x: Bytes, y: Bytes)
    requires |a| == |b| && a + x == b + y
    ensures a == b && x == y
  {
    assert a == (a + x)[..|a|] && b == (b + y)[..|b|];
    assert x == (a + x)[|a|..] && y == (b + y)[|b|..];
  }

  lemma LinkInputInjective(k: Link, l: Link)
    requires ValidLink(k) && ValidLink(l)
    requires LeafInput(k) == LeafInput(l)
    ensures k == l
  {
    var d := LeafDomain();
    var ks, ls := BigEndian(k.sequence, 8), BigEndian(l.sequence, 8);
    Cut(d + ks, d + ls, Utf8(k.eventId), Utf8(l.eventId));
    Cut(d, d, ks, ls);
    assert Pow256(4) == 0x1_0000_0000 && Pow256(8) == Pow256(4) * 0x1_0000_0000;
    BigEndianRoundTrip(k.sequence, 8);
    BigEndianRoundTrip(l.sequence, 8);
    AsciiPaired(k.eventId);
    AsciiPaired(l.eventId);
    Utf8Injective(k.eventId, l.eventId);
  }

  // ---------------------------------------------------------------- binding

  /** The empty, the one-link and the longer lists hash inputs of different lengths. */
  lemma HeadInputLength(h: HashFn, links: seq<Link>)
    ensures |HeadInput(h, links)| == if links == [] then 30 else if |links| == 1 then 61 else 93
  {
  }

  lemma LastInputs(h: HashFn, links: seq<Link>)
    ensures HeadInput(h, links) in ChainInputs(h, links)
    ensures links != [] ==> LeafInput(links[|links| - 1]) in ChainInputs(h, links)
    ensures links != [] ==> ChainInputs(h, links[..|links| - 1]) <= ChainInputs(h, links)
  {
  }

  /** Equal last inputs: the last links agree and so do the heads before them. */
  lemma StepBack(h: HashFn, a: seq<Link>, b: seq<Link>)
    requires a != [] && b != [] && HeadInput(h, a) == HeadInput(h, b)
    ensures |a| == 1 <==> |b| == 1
    ensures h(LeafInput(a[|a| - 1])) == h(LeafInput(b[|b| - 1]))
    ensures |a| > 1 ==> ChainHead(h, a[..|a| - 1]) == ChainHead(h, b[..|b| - 1])
  {
    HeadInputLength(h, a);
    HeadInputLength(h, b);
    var d := HeadDomain();
    var x, y := h(LeafInput(a[|a| - 1])), h(LeafInput(b[|b| - 1]));
    if |a| == 1 {
      Cut(d, d, x, y);
    } else {
      var p, q := ChainHead(h, a[..|a| - 1]), ChainHead(h, b[..|b| - 1]);
      Cut(d + p, d + q, x, y);
      Cut(d, d, p, q);
    }
  }

  /** Equal last inputs: the last links are one, and so are the heads before them, or the leaves collide. */
  lemma LastLinkBinds(h: HashFn, a: seq<Link>, b: seq<Link>)
    requires a != [] && b != [] && HeadInput(h, a) == HeadInput(h, b)
    requires ValidLink(a[|a| - 1]) && ValidLink(b[|b| - 1])
    ensures
      || CollisionBetween(h, ChainInputs(h, a), ChainInputs(h, b))
      || (a[|a| - 1] == b[|b| - 1] && (|a| == 1 <==> |b| == 1) &&
          (|a| > 1 ==> ChainHead(h, a[..|a| - 1]) == ChainHead(h, b[..|b| - 1])))
  {
    var k, l := a[|a| - 1], b[|b| - 1];
    StepBack(h, a, b);
    if LeafInput(k) == LeafInput(l) {
      LinkInputInjective(k, l);
    } else {
      LastInputs(h, a);
      LastInputs(h, b);
      assert Collision(h, LeafInput(k), LeafInput(l));
    }
  }

  lemma ShorterCollides(h: HashFn, a: seq<Link>, b: seq<Link>)
    requires a != [] && b != []
    requires CollisionBetween(h, ChainInputs(h, a[..|a| - 1]), ChainInputs(h, b[..|b| - 1]))
    ensures CollisionBetween(h, ChainInputs(h, a), ChainInputs(h, b))
  {
    LastInputs(h, a);
    LastInputs(h, b);
    CollisionGrows(h, ChainInputs(h, a[..|a| - 1]), ChainInputs(h, b[..|b| - 1]), ChainInputs(h, a), ChainInputs(h, b));
  }

  /** One head for two lists of links: they are one list, or their hashing met a collision. */
  lemma {:induction false} ChainBinds(h: HashFn, a: seq<Link>, b: seq<Link>)
    requires forall k :: k in a ==> ValidLink(k)
    requires forall k :: k in b ==> ValidLink(k)
    requires ChainHead(h, a) == ChainHead(h, b)
    ensures a == b || CollisionBetween(h, ChainInputs(h, a), ChainInputs(h, b))
    decreases |a|
  {
    if HeadInput(h, a) != HeadInput(h, b) {
      LastInputs(h, a);
      LastInputs(h, b);
      assert Collision(h, HeadInput(h, a), HeadInput(h, b));
    } else {
      HeadInputLength(h, a);
      HeadInputLength(h, b);
      if a != [] && !CollisionBetween(h, ChainInputs(h, a), ChainInputs(h, b)) {
        LastLinkBinds(h, a, b);
        assert a == a[..|a| - 1] + [a[|a| - 1]] && b == b[..|b| - 1] + [b[|b| - 1]];
        if |a| > 1 {
          ChainBinds(h, a[..|a| - 1], b[..|b| - 1]);
          if a[..|a| - 1] != b[..|b| - 1] {
            ShorterCollides(h, a, b);
          }
        }
      }
    }
  }

  // ---------------------------------------------------------------- events beneath their links

  /** Everything hashed to check the identities of the events of an array. */
  ghost function IdentityInputs(items: seq<Json>): set<Bytes> {
    set i | 0 <= i < |items| && items[i].Obj? :: EventInput(items[i])
  }

  lemma CommittedLinksValid(h: HashFn, schemaOk: Json -> bool, events: Json)
    requires Committed(EventReader(h, schemaOk), events).Some?
    ensures forall k :: k in Committed(EventReader(h, schemaOk), events).value ==> ValidLink(k)
  {
    var read := EventReader(h, schemaOk);
    var links := Links(read, events.items);
    SameElements(links, Sort(links, LinkLt));
    forall k | k in links ensures ValidLink(k) {
      var i := Position(links, k);
      assert read(events.items[i]).Some?;
    }
  }

  lemma ReadableEvent(h: HashFn, schemaOk: Json -> bool, v: Json)
    requires ReadOne(h, schemaOk, v).Some?
    ensures v.Obj? && Lookup(v.fields, EVENT_ID_KEY) == Some(Str(ReadOne(h, schemaOk, v).value.link.eventId))
    ensures CanonicalSha256Id(h, Obj(Assigned(v.fields, [EVENT_ID_KEY]))) ==
      Some(ReadOne(h, schemaOk, v).value.link.eventId)
    ensures Lookup(v.fields, PROTO_KEY).Some? ==> IsLeaf(Lookup(v.fields, PROTO_KEY).value)
  {
    assert |PROTO_KEY| != |EVENT_ID_KEY|;
    assert !ReplacesPrototype(v.fields, [EVENT_ID_KEY]);
    LookupFound(v.fields, PROTO_KEY);
  }

  /** Two readable events with one event id collide, or are the same up to an own `__proto__` member,
      which the id leaves out; when neither has one they are the same event. */
  lemma EventIdBinds(h: HashFn, schemaOk: Json -> bool, a: Json, b: Json)
    requires WellFormed(a) && WellFormed(b)
    requires ReadOne(h, schemaOk, a).Some? && ReadOne(h, schemaOk, b).Some?
    requires ReadOne(h, schemaOk, a).value.link.eventId == ReadOne(h, schemaOk, b).value.link.eventId
    ensures Collision(h, EventInput(a), EventInput(b)) || BoundTogether(a, b)
  {
    ReadableEvent(h, schemaOk, a);
    ReadableEvent(h, schemaOk, b);
    WithoutWellFormed(a.fields, [EVENT_ID_KEY, PROTO_KEY]);
    WithoutWellFormed(b.fields, [EVENT_ID_KEY, PROTO_KEY]);
    assert [EVENT_ID_KEY] + [PROTO_KEY] == [EVENT_ID_KEY, PROTO_KEY];
    IdentityBinds(h, Obj(Assigned(a.fields, [EVENT_ID_KEY])), Obj(Assigned(b.fields, [EVENT_ID_KEY])));
    if Same(a, b) {
      SameAgree(a, b, PROTO_KEY);
    }
    if Same(Obj(Assigned(a.fields, [EVENT_ID_KEY])), Obj(Assigned(b.fields, [EVENT_ID_KEY]))) {
      SameStripped(a, b);
      if Lookup(a.fields, PROTO_KEY) == Lookup(b.fields, PROTO_KEY) {
        SameWithField(a.fields, b.fields, PROTO_KEY);
      }
    }
  }

  /** Two event arrays verified against one head commit to the same links and hold the same events up
      to own `__proto__` members, or a collision was met between what was hashed for one and what was
      hashed for the other. */
  lemma VerifiedHeadBindsEvents(h: HashFn, schemaOk: Json -> bool, a: Json, b: Json, claimedHead: Json)
    requires WellFormed(a) && WellFormed(b)
    requires ReviewChainVerdict(h, schemaOk, a, claimedHead) == Verified
    requires ReviewChainVerdict(h, schemaOk, b, claimedHead) == Verified
    ensures var read := EventReader(h, schemaOk);
      || CollisionBetween(h, ChainInputs(h, Committed(read, a).value), ChainInputs(h, Committed(read, b).value))
      || CollisionBetween(h, IdentityInputs(a.items), IdentityInputs(b.items))
      || (Committed(read, a) == Committed(read, b) && |a.items| == |b.items|
          && forall i :: 0 <= i < |a.items| ==> exists j :: 0 <= j < |b.items| && BoundTogether(a.items[i], b.items[j]))
  {
    var read := EventReader(h, schemaOk);
    CommittedLinksValid(h, schemaOk, a);
    CommittedLinksValid(h, schemaOk, b);
    var ca, cb := Committed(read, a).value, Committed(read, b).value;
    ChainBinds(h, ca, cb);
    if ca == cb && !CollisionBetween(h, IdentityInputs(a.items), IdentityInputs(b.items)) {
      forall i | 0 <= i < |a.items|
        ensures exists j :: 0 <= j < |b.items| && BoundTogether(a.items[i], b.items[j])
      {
        var j := Counterpart(h, schemaOk, a, b, i);
        EventIdBinds(h, schemaOk, a.items[i], b.items[j]);
        assert EventInput(a.items[i]) in IdentityInputs(a.items);
        assert EventInput(b.items[j]) in IdentityInputs(b.items);
        assert BoundTogether(a.items[i], b.items[j]);
      }
    }
  }

  lemma Counterpart(h: HashFn, schemaOk: Json -> bool, a: Json, b: Json, i: nat) returns (j: nat)
    requires var read := EventReader(h, schemaOk); Committed(read, a).Some? && Committed(read, a) == Committed(read, b)
    requires i < |a.items|
    ensures j < |b.items|
    ensures ReadOne(h, schemaOk, a.items[i]).Some? && ReadOne(h, schemaOk, b.items[j]).Some?
    ensures ReadOne(h, schemaOk, a.items[i]).value.link == ReadOne(h, schemaOk, b.items[j]).value.link
  {
    var read := EventReader(h, schemaOk);
    var la, lb := Links(read, a.items), Links(read, b.items);
    SameElements(la, Sort(la, LinkLt));
    SameElements(lb, Sort(lb, LinkLt));
    assert la[i] in lb;
    j := Position(lb, la[i]);
    assert read(a.items[i]).Some? && read(b.items[j]).Some?;
  }

  // ---------------------------------------------------------------- array order

  /** The head does not depend on the order of the array. */
  lemma HeadIgnoresArrayOrder(read: Reader, xs: seq<Json>, ys: seq<Json>)
    requires multiset(xs) == multiset(ys)
    ensures Committed(read, Arr(xs)) == Committed(read, Arr(ys))
  {
    SameElements(xs, ys);
    ReadablePermuted(read, xs, ys);
    ReadablePermuted(read, ys, xs);
    var lx, ly := Links(read, xs), Links(read, ys);
    var link := (v: Json) => LinkOf(read, v);
    assert lx == Map(link, xs) && ly == Map(link, ys);
    MapPermutation(link, xs, ys);
    LinkOrder();
    DistinctPermuted(lx, ly);
    DistinctPermuted(ly, lx);
    if DistinctSequences(lx) {
      SortIgnoresOrder(lx, ly, LinkLt);
    }
  }

  lemma ReadablePermuted(read: Reader, xs: seq<Json>, ys: seq<Json>)
    requires multiset(xs) == multiset(ys)
    ensures Readable(read, xs) ==> Readable(read, ys)
  {
    SameElements(xs, ys);
    forall i | 0 <= i < |ys| && Readable(read, xs)
      ensures read(ys[i]).Some? && read(ys[i]).value.reviewId == read(xs[0]).value.reviewId
    {
      assert ys[i] in xs;
      var k := Position(xs, ys[i]);
      assert read(xs[k]).Some?;
    }
  }

  lemma DistinctPermuted(a: seq<Link>, b: seq<Link>)
    requires multiset(a) == multiset(b)
    ensures DistinctSequences(a) ==> DistinctSequences(b)
  {
    LinkOrder();
    if DistinctSequences(a) {
      assert Separated(a, LinkLt);
      SeparatedPermutation(a, b, LinkLt);
      forall i, j | 0 <= i < j < |b| ensures b[i].sequence != b[j].sequence {
        assert LinkLt(b[i], b[j]) || LinkLt(b[j], b[i]);
      }
    }
  }

  // ---------------------------------------------------------------- extension

  /** A further event above all others of a nonempty accepted array costs one more hash step. */
  lemma HeadExtends(h: HashFn, read: Reader, xs: seq<Json>, x: Json)
    requires xs != [] && |xs| < MAX_REVIEW_EVENTS
    requires Committed(read, Arr(xs)).Some?
    requires read(x).Some? && read(x).value.reviewId == read(xs[0]).value.reviewId
    requires forall k :: k in Committed(read, Arr(xs)).value ==> k.sequence < read(x).value.link.sequence
    ensures var before := Committed(read, Arr(xs)).value; var after := Committed(read, Arr(xs + [x]));
      && after == Some(before + [read(x).value.link])
      && ChainHead(h, after.value) == h(HeadDomain() + ChainHead(h, before) + h(LeafInput(read(x).value.link)))
  {
    var links, k := Links(read, xs), read(x).value.link;
    OneMoreRead(read, xs, x);
    OneMoreSorted(links, k);
    var before := Sort(links, LinkLt);
    assert (before + [k])[..|before|] == before;
  }

  lemma OneMoreSorted(links: seq<Link>, k: Link)
    requires DistinctSequences(links) && forall l :: l in Sort(links, LinkLt) ==> l.sequence < k.sequence
    ensures DistinctSequences(links + [k]) && Sort(links + [k], LinkLt) == Sort(links, LinkLt) + [k]
  {
    SameElements(links, Sort(links, LinkLt));
    assert forall i :: 0 <= i < |links| ==> links[i] in Sort(links, LinkLt);
    SortSnoc(links, k, LinkLt);
  }

  lemma OneMoreRead(read: Reader, xs: seq<Json>, x: Json)
    requires xs != [] && Readable(read, xs) && read(x).Some? && read(x).value.reviewId == read(xs[0]).value.reviewId
    ensures Readable(read, xs + [x]) && Links(read, xs + [x]) == Links(read, xs) + [read(x).value.link]
  {
    assert forall i :: 0 <= i < |xs| ==> (xs + [x])[i] == xs[i];
  }
}
