/** Looking up members of an object and leaving some out. */
module Members {
  import opened Results
  import opened Sorting
  import opened Text
  import opened Json
  import opened CanonicalIdentity

  lemma LookupFound(fields: seq<Field>, key: Text)
    ensures Lookup(fields, key).Some? ==>
      exists i :: 0 <= i < |fields| && fields[i] == Field(key, Lookup(fields, key).value)
    ensures Lookup(fields, key).None? ==> forall i :: 0 <= i < |fields| ==> fields[i].key != key
  {
    if fields != [] && fields[0].key != key {
      LookupFound(fields[1..], key);
      if Lookup(fields, key).Some? {
        var i :| 0 <= i < |fields[1..]| && fields[1..][i] == Field(key, Lookup(fields, key).value);
        assert fields[i + 1] == fields[1..][i];
      }
    }
  }

  lemma {:induction false} LookupSnoc(fields: seq<Field>, f: Field, key: Text)
    ensures Lookup(fields + [f], key) ==
      if Lookup(fields, key).Some? then Lookup(fields, key) else if f.key == key then Some(f.value) else None
  {
    if fields == [] {
      assert fields + [f] == [f] && [f][1..] == [];
    } else {
      assert (fields + [f])[1..] == fields[1..] + [f];
      LookupSnoc(fields[1..], f, key);
    }
  }

  lemma LookupTwo(a: Field, b: Field)
    requires a.key != b.key
    ensures Lookup([a, b], a.key) == Some(a.value) && Lookup([a, b], b.key) == Some(b.value)
  {
    assert [a, b] == [a] + [b];
    assert [b] == [b] + [];
    LookupCons(b, [], b.key);
    LookupCons(a, [b], b.key);
  }

  lemma LookupFour(a: Field, b: Field, c: Field, d: Field)
    requires a.key != b.key && a.key != c.key && a.key != d.key && b.key != c.key && b.key != d.key && c.key != d.key
    ensures Lookup([a, b, c, d], a.key) == Some(a.value)
    ensures Lookup([a, b, c, d], b.key) == Some(b.value)
    ensures Lookup([a, b, c, d], c.key) == Some(c.value)
    ensures Lookup([a, b, c, d], d.key) == Some(d.value)
  {
    LookupTwo(c, d);
    assert [b, c, d] == [b] + [c, d];
    assert [a, b, c, d] == [a] + [b, c, d];
    forall key: Text ensures Lookup([a, b, c, d], key) == if a.key == key then Some(a.value) else if b.key == key then
      Some(b.value) else Lookup([c, d], key) {
      LookupCons(b, [c, d], key);
      LookupCons(a, [b, c, d], key);
    }
  }

  /** Removing one key of distinct keys removes one field and keeps the others. */
  lemma {:induction false} WithoutKeeps(fields: seq<Field>, excluded: seq<Text>)
    ensures forall f :: f in Without(fields, excluded) <==> f in fields && f.key !in excluded
    ensures DistinctKeys(fields) ==> DistinctKeys(Without(fields, excluded))
  {
    if fields != [] {
      var n := |fields| - 1;
      WithoutKeeps(fields[..n], excluded);
      assert fields == fields[..n] + [fields[n]];
    }
  }

  lemma {:induction false} WithoutOne(fields: seq<Field>, key: Text)
    requires DistinctKeys(fields)
    ensures |Without(fields, [key])| ==
      |fields| - (if exists i :: 0 <= i < |fields| && fields[i].key == key then 1 else 0)
  {
    if fields != [] {
      var n := |fields| - 1;
      WithoutOne(fields[..n], key);
      assert fields == fields[..n] + [fields[n]];
      if fields[n].key == key {
        assert forall i :: 0 <= i < n ==> fields[..n][i].key != key;
      } else {
        assert (exists i :: 0 <= i < |fields| && fields[i].key == key) ==>
          exists i :: 0 <= i < n && fields[..n][i].key == key;
        assert (exists i :: 0 <= i < n && fields[..n][i].key == key) ==>
          exists i :: 0 <= i < |fields| && fields[i].key == key;
      }
    }
  }

  lemma WithoutWellFormed(fields: seq<Field>, excluded: seq<Text>)
    requires WellFormed(Obj(fields))
    ensures WellFormed(Obj(Without(fields, excluded)))
  {
    WithoutKeeps(fields, excluded);
    var kept := Without(fields, excluded);
    forall i | 0 <= i < |kept| ensures WellFormed(kept[i].value) {
      var k := Position(fields, kept[i]);
    }
  }

  lemma {:induction false} WithoutBoth(fields: seq<Field>, a: Text, b: Text)
    ensures Without(Without(fields, [a]), [b]) == Without(fields, [b] + [a])
  {
    if fields != [] {
      var n := |fields| - 1;
      WithoutBoth(fields[..n], a, b);
      var kept := Without(fields[..n], [a]);
      assert (kept + [fields[n]])[..|kept|] == kept;
    }
  }

  lemma {:induction false} LookupWithout(fields: seq<Field>, key: Text, other: Text)
    requires key != other
    ensures Lookup(Without(fields, [other]), key) == Lookup(fields, key)
  {
    if fields != [] {
      var n := |fields| - 1;
      LookupWithout(fields[..n], key, other);
      LookupSnoc(fields[..n], fields[n], key);
      LookupSnoc(Without(fields[..n], [other]), fields[n], key);
      assert fields == fields[..n] + [fields[n]];
    }
  }

  lemma {:induction false} WithoutAgain(fields: seq<Field>, key: Text)
    ensures Without(Without(fields, [key]), [key]) == Without(fields, [key])
  {
    if fields != [] {
      var n := |fields| - 1;
      WithoutAgain(fields[..n], key);
      var kept := Without(fields[..n], [key]);
      assert (kept + [fields[n]])[..|kept|] == kept;
    }
  }

  lemma {:induction false} SameExclusions(fields: seq<Field>, a: seq<Text>, b: seq<Text>)
    requires forall k :: k in a <==> k in b
    ensures Without(fields, a) == Without(fields, b)
  {
    if fields != [] {
      SameExclusions(fields[..|fields| - 1], a, b);
    }
  }

  lemma {:induction false} DropFirst(f: Field, fields: seq<Field>, excluded: seq<Text>)
    requires f.key in excluded && forall g :: g in fields ==> g.key !in excluded
    ensures Without([f] + fields, excluded) == fields
  {
    var all := [f] + fields;
    if fields == [] {
      assert all[..0] == [];
    } else {
      var n := |fields| - 1;
      DropFirst(f, fields[..n], excluded);
      assert all[..|all| - 1] == [f] + fields[..n];
      assert fields == fields[..n] + [fields[n]];
    }
  }

  // ---------------------------------------------------------------- telling keys apart

  /** What tells the keys of one object apart: length, first unit and tenth unit. */
  datatype KeyShape = KeyShape(length: nat, first: int, tenth: int)

  /** The shape of an ASCII key; a missing tenth unit is written as a blank. */
  function Shape(length: nat, first: char, tenth: char): KeyShape {
    KeyShape(length, first as int % 0x80, tenth as int % 0x80)
  }

  function Tag(key: Text): KeyShape {
    KeyShape(|key|, At(key, 0), At(key, 9))
  }

  function At(key: Text, k: nat): int {
    if k < |key| then key[k] as int else ' ' as int
  }

  function TagOf(f: Field): KeyShape { Tag(f.key) }

  lemma TagsTellApart(fields: seq<Field>)
    requires NoDuplicates(Map(TagOf, fields))
    ensures DistinctKeys(fields)
  {
    var tags := Map(TagOf, fields);
    forall i, j | 0 <= i < j < |fields| ensures fields[i].key != fields[j].key {
      assert tags[i] != tags[j];
    }
  }

  lemma LitTag(s: string)
    ensures Tag(Lit(s)) == Shape(|s|, if |s| > 0 then s[0] else ' ', if |s| > 9 then s[9] else ' ')
  {
  }

  lemma {:induction false} LookupAt(fields: seq<Field>, i: nat)
    requires DistinctKeys(fields) && i < |fields|
    ensures Lookup(fields, fields[i].key) == Some(fields[i].value)
  {
    if i > 0 {
      LookupAt(fields[1..], i - 1);
    }
  }
}
