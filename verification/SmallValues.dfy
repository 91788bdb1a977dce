/** Values that are small enough to canonicalize. */
module SmallValues {
  import opened Text
  import opened Json
  import opened CanonicalIdentity

  predicate Within(v: Json, nodes: nat, height: nat) {
    Nodes(v) <= nodes && Height(v) <= height && Clean(v)
  }

  predicate FieldWithin(f: Field, nodes: nat, height: nat) {
    Paired(f.key) && Within(f.value, nodes, height)
  }

  /** An object of few small members is small. */
  lemma {:induction false} ObjectWithin(fields: seq<Field>, nodes: nat, height: nat)
    requires forall f :: f in fields ==> FieldWithin(f, nodes, height)
    ensures FieldsNodes(fields) <= |fields| * (nodes + 1) && FieldsHeight(fields) <= height + 1 && FieldsClean(fields)
    ensures Within(Obj(fields), 1 + |fields| * (nodes + 1), height + 1)
  {
    if fields != [] {
      ObjectWithin(fields[1..], nodes, height);
      assert fields[0] in fields;
      assert |fields| * (nodes + 1) == |fields[1..]| * (nodes + 1) + (nodes + 1);
    }
  }

  lemma {:induction false} ArrayWithin(items: seq<Json>, nodes: nat, height: nat)
    requires forall v :: v in items ==> Within(v, nodes, height)
    ensures ItemsNodes(items) <= |items| * nodes && ItemsHeight(items) <= height + 1 && ItemsClean(items)
    ensures Within(Arr(items), 1 + |items| * nodes, height + 1)
  {
    if items != [] {
      ArrayWithin(items[1..], nodes, height);
      assert items[0] in items;
      assert |items| * nodes == |items[1..]| * nodes + nodes;
    }
  }

  /** Members keyed by a literal, and literal values. */
  lemma LitField(key: string, value: Json, nodes: nat, height: nat)
    requires Within(value, nodes, height)
    ensures FieldWithin(Named(key, value), nodes, height)
  {
    LitsPaired();
  }

  lemma LitText(s: string)
    ensures Within(Str(Lit(s)), 1, 0)
  {
    LitsPaired();
  }

  /** All members are keyed by well-formed text and within the sizes. */
  predicate AllWithin(fields: seq<Field>, nodes: nat, height: nat) {
    forall f :: f in fields ==> FieldWithin(f, nodes, height)
  }

  lemma AllConcat(a: seq<Field>, b: seq<Field>, nodes: nat, height: nat)
    requires AllWithin(a, nodes, height) && AllWithin(b, nodes, height)
    ensures AllWithin(a + b, nodes, height)
  {
  }

  lemma AllGrow(a: seq<Field>, nodes: nat, height: nat, nodes': nat, height': nat)
    requires AllWithin(a, nodes, height) && nodes <= nodes' && height <= height'
    ensures AllWithin(a, nodes', height')
  {
  }

  lemma TwoFields(a: string, p: Json, b: string, q: Json, nodes: nat, height: nat)
    requires Within(p, nodes, height) && Within(q, nodes, height)
    ensures AllWithin([Named(a, p), Named(b, q)], nodes, height)
  {
    LitField(a, p, nodes, height);
    LitField(b, q, nodes, height);
  }

  lemma FourFields(a: string, p: Json, b: string, q: Json, c: string, r: Json, d: string, t: Json, nodes: nat,
                   height: nat)
    requires Within(p, nodes, height) && Within(q, nodes, height) && Within(r, nodes, height) &&
      Within(t, nodes, height)
    ensures AllWithin([Named(a, p), Named(b, q), Named(c, r), Named(d, t)], nodes, height)
  {
    TwoFields(a, p, b, q, nodes, height);
    TwoFields(c, r, d, t, nodes, height);
    AllConcat([Named(a, p), Named(b, q)], [Named(c, r), Named(d, t)], nodes, height);
    assert [Named(a, p), Named(b, q)] + [Named(c, r), Named(d, t)] ==
      [Named(a, p), Named(b, q), Named(c, r), Named(d, t)];
  }

  lemma FieldAnd(a: string, p: Json, more: seq<Field>, nodes: nat, height: nat)
    requires Within(p, nodes, height) && AllWithin(more, nodes, height)
    ensures AllWithin([Named(a, p)] + more, nodes, height)
  {
    LitField(a, p, nodes, height);
  }

  lemma TextsWithin(s: Text, t: Text)
    requires Paired(s) && Paired(t)
    ensures Within(Str(s), 1, 0) && Within(Str(t), 1, 0)
  {
  }
}
