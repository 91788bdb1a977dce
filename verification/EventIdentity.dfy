/** Event ids: what is hashed for them, and what of an event they bind. */
module EventIdentity {
  import opened Sorting
  import opened Text
  import opened Json
  import opened JsonRoundTrip
  import opened CanonicalIdentity
  import opened Members
  import opened ProtocolShapes

  lemma MatchedMore(f: Field, gs: seq<Field>, more: seq<Field>)
    requires HasSame(f, gs) && forall g :: g in gs ==> g in more
    ensures HasSame(f, more)
  {
    var j :| 0 <= j < |gs| && gs[j].key == f.key && Same(f.value, gs[j].value);
    assert gs[j] in more;
    var k := Position(more, gs[j]);
    assert more[k].key == f.key && Same(f.value, more[k].value);
  }

  predicate IsLeaf(v: Json) { !v.Obj? && !v.Arr? }

  /** Both objects lack the key, or both have it with one leaf as value. */
  predicate AgreeOn(fs: seq<Field>, gs: seq<Field>, key: Text) {
    Lookup(fs, key) == Lookup(gs, key) && (Lookup(fs, key).Some? ==> IsLeaf(Lookup(fs, key).value))
  }

  lemma MatchedLeaf(f: Field, gs: seq<Field>)
    requires f in gs && IsLeaf(f.value)
    ensures HasSame(f, gs)
  {
    var k := Position(gs, f);
    assert gs[k].key == f.key && Same(f.value, gs[k].value);
  }

  /** Objects that agree on one key and on all others are the same. */
  lemma SameWithField(fs: seq<Field>, gs: seq<Field>, key: Text)
    requires DistinctKeys(fs) && DistinctKeys(gs) && AgreeOn(fs, gs, key)
    requires Same(Obj(Without(fs, [key])), Obj(Without(gs, [key])))
    ensures Same(Obj(fs), Obj(gs))
  {
    var fs', gs' := Without(fs, [key]), Without(gs, [key]);
    LookupFound(fs, key);
    LookupFound(gs, key);
    WithoutOne(fs, key);
    WithoutOne(gs, key);
    WithoutKeeps(fs, [key]);
    WithoutKeeps(gs, [key]);
    forall i | 0 <= i < |fs| ensures HasSame(fs[i], gs) {
      if fs[i].key == key {
        MatchedLeaf(fs[i], gs);
      } else {
        var k := Position(fs', fs[i]);
        MatchedMore(fs'[k], gs', gs);
      }
    }
  }

  /** An object without its own `__proto__` member. */
  function Stripped(v: Json): Json
    requires v.Obj?
  {
    Obj(Without(v.fields, [PROTO_KEY]))
  }

  /** Two events are the same up to an own `__proto__` member, and the same altogether exactly when
      these members agree. */
  ghost predicate BoundTogether(a: Json, b: Json) {
    && a.Obj? && b.Obj? && Same(Stripped(a), Stripped(b))
    && (Same(a, b) <==> Lookup(a.fields, PROTO_KEY) == Lookup(b.fields, PROTO_KEY))
  }

  /** Same objects have the same leaf under a key, if the first has one. */
  lemma SameHaveLeaf(fs: seq<Field>, gs: seq<Field>, key: Text)
    requires DistinctKeys(gs) && Same(Obj(fs), Obj(gs))
    requires Lookup(fs, key).Some? && IsLeaf(Lookup(fs, key).value)
    ensures Lookup(gs, key) == Lookup(fs, key)
  {
    LookupFound(fs, key);
    LookupFound(gs, key);
    var i :| 0 <= i < |fs| && fs[i] == Field(key, Lookup(fs, key).value);
    assert HasSame(fs[i], gs);
    var j :| 0 <= j < |gs| && gs[j].key == key && Same(fs[i].value, gs[j].value);
    assert Lookup(gs, key).Some?;
  }

  lemma SameAgree(a: Json, b: Json, key: Text)
    requires a.Obj? && b.Obj? && WellFormed(a) && WellFormed(b) && Same(a, b)
    requires Lookup(a.fields, key).Some? ==> IsLeaf(Lookup(a.fields, key).value)
    requires Lookup(b.fields, key).Some? ==> IsLeaf(Lookup(b.fields, key).value)
    ensures Lookup(a.fields, key) == Lookup(b.fields, key)
  {
    CanonInjective(a, b);
    CanonInjective(b, a);
    if Lookup(a.fields, key).Some? {
      SameHaveLeaf(a.fields, b.fields, key);
    } else if Lookup(b.fields, key).Some? {
      SameHaveLeaf(b.fields, a.fields, key);
    }
  }

  /** What is hashed for the id of an event. */
  function EventInput(v: Json): Bytes
    requires v.Obj?
  {
    IdentityInput(Obj(Assigned(v.fields, [EVENT_ID_KEY])))
  }

  lemma SameStripped(a: Json, b: Json)
    requires a.Obj? && b.Obj? && WellFormed(a) && WellFormed(b)
    requires AgreeOn(a.fields, b.fields, EVENT_ID_KEY)
    requires Same(Obj(Assigned(a.fields, [EVENT_ID_KEY])), Obj(Assigned(b.fields, [EVENT_ID_KEY])))
    ensures Same(Stripped(a), Stripped(b))
  {
    assert |PROTO_KEY| != |EVENT_ID_KEY|;
    WithoutBoth(a.fields, PROTO_KEY, EVENT_ID_KEY);
    WithoutBoth(b.fields, PROTO_KEY, EVENT_ID_KEY);
    WithoutKeeps(a.fields, [PROTO_KEY]);
    WithoutKeeps(b.fields, [PROTO_KEY]);
    LookupWithout(a.fields, EVENT_ID_KEY, PROTO_KEY);
    LookupWithout(b.fields, EVENT_ID_KEY, PROTO_KEY);
    SameWithField(Stripped(a).fields, Stripped(b).fields, EVENT_ID_KEY);
  }
}
