/** Stable sorting by a strict weak order, as `Array.prototype.sort` promises it,
    and the facts the rest of the project needs about its result. */
module Sorting {

  /** `lt` is irreflexive and asymmetric, and "not less" is transitive. */
  ghost predicate StrictWeakOrder<T(!new)>(lt: (T, T) -> bool) {
    && (forall a :: !lt(a, a))
    && (forall a, b :: lt(a, b) ==> !lt(b, a))
    && (forall a, b, c :: !lt(a, b) && !lt(b, c) ==> !lt(a, c))
  }

  /** No two positions hold elements that the order cannot tell apart. */
  ghost predicate Separated<T(!new)>(xs: seq<T>, lt: (T, T) -> bool) {
    forall i, j :: 0 <= i < j < |xs| ==> lt(xs[i], xs[j]) || lt(xs[j], xs[i])
  }

  ghost predicate Ascending<T(!new)>(xs: seq<T>, lt: (T, T) -> bool) {
    forall i, j :: 0 <= i < j < |xs| ==> !lt(xs[j], xs[i])
  }

  ghost predicate StrictlyAscending<T(!new)>(xs: seq<T>, lt: (T, T) -> bool) {
    forall i, j :: 0 <= i < j < |xs| ==> lt(xs[i], xs[j])
  }

  ghost predicate NoDuplicates<T(!new)>(xs: seq<T>) {
    forall i, j :: 0 <= i < j < |xs| ==> xs[i] != xs[j]
  }

  ghost function Position<T>(xs: seq<T>, x: T): (i: nat)
    requires x in xs
    ensures i < |xs| && xs[i] == x
  {
    var i :| 0 <= i < |xs| && xs[i] == x;
    i
  }

  function Insert<T>(x: T, xs: seq<T>, lt: (T, T) -> bool): (r: seq<T>)
    ensures |r| == |xs| + 1
    ensures multiset(r) == multiset(xs) + multiset{x}
  {
    if xs == [] then
      [x]
    else if lt(xs[0], x) then
      assert xs == [xs[0]] + xs[1..];
      [xs[0]] + Insert(x, xs[1..], lt)
    else
      [x] + xs
  }

  /** Insertion from the right, which keeps equal elements in their first order. */
  function Sort<T>(xs: seq<T>, lt: (T, T) -> bool): (r: seq<T>)
    ensures |r| == |xs|
    ensures multiset(r) == multiset(xs)
  {
    if xs == [] then
      []
    else
      assert xs == [xs[0]] + xs[1..];
      Insert(xs[0], Sort(xs[1..], lt), lt)
  }

  lemma {:induction false} InsertAscending<T(!new)>(x: T, xs: seq<T>, lt: (T, T) -> bool)
    requires StrictWeakOrder(lt)
    requires Ascending(xs, lt)
    ensures Ascending(Insert(x, xs, lt), lt)
  {
    if xs == [] {
    } else if lt(xs[0], x) {
      var rest := Insert(x, xs[1..], lt);
      InsertAscending(x, xs[1..], lt);
      forall j | 0 <= j < |rest|
        ensures !lt(rest[j], xs[0])
      {
        assert rest[j] in multiset(rest);
        assert rest[j] in multiset(xs[1..]) + multiset{x};
        if rest[j] != x {
          assert rest[j] in xs[1..];
        }
      }
    } else {
      forall j | 0 <= j < |xs|
        ensures !lt(xs[j], x)
      {
        assert j > 0 ==> !lt(xs[j], xs[0]);
      }
    }
  }

  lemma {:induction false} SortAscending<T(!new)>(xs: seq<T>, lt: (T, T) -> bool)
    requires StrictWeakOrder(lt)
    ensures Ascending(Sort(xs, lt), lt)
  {
    if xs != [] {
      SortAscending(xs[1..], lt);
      InsertAscending(xs[0], Sort(xs[1..], lt), lt);
    }
  }

  lemma SameElements<T>(xs: seq<T>, ys: seq<T>)
    requires multiset(xs) == multiset(ys)
    ensures |xs| == |ys|
    ensures forall x :: x in xs <==> x in ys
  {
    assert |multiset(xs)| == |xs| && |multiset(ys)| == |ys|;
    forall x ensures x in xs <==> x in ys {
      assert x in xs <==> x in multiset(xs);
      assert x in ys <==> x in multiset(ys);
    }
  }

  /** Two positions of one list that are separated stay separated in every reordering. */
  lemma {:induction false} SeparatedPermutation<T(!new)>(xs: seq<T>, ys: seq<T>, lt: (T, T) -> bool)
    requires multiset(xs) == multiset(ys)
    requires StrictWeakOrder(lt)
    requires Separated(xs, lt)
    ensures Separated(ys, lt)
  {
    SameElements(xs, ys);
    forall i, j | 0 <= i < j < |ys|
      ensures lt(ys[i], ys[j]) || lt(ys[j], ys[i])
    {
      if ys[i] == ys[j] {
        TwiceInMultiset(ys, i, j);
        OnceInMultiset(xs, ys[i], lt);
        assert false;
      } else {
        var a, b := Position(xs, ys[i]), Position(xs, ys[j]);
        assert a < b || b < a;
      }
    }
  }

  lemma TwiceInMultiset<T>(xs: seq<T>, i: int, j: int)
    requires 0 <= i < j < |xs|
    requires xs[i] == xs[j]
    ensures multiset(xs)[xs[i]] >= 2
  {
    assert xs == xs[..j] + xs[j..];
    assert multiset(xs) == multiset(xs[..j]) + multiset(xs[j..]);
    assert xs[..j][i] == xs[i] && xs[j..][0] == xs[j];
    assert xs[i] in multiset(xs[..j]) && xs[j] in multiset(xs[j..]);
  }

  lemma {:induction false} OnceInMultiset<T(!new)>(xs: seq<T>, x: T, lt: (T, T) -> bool)
    requires StrictWeakOrder(lt)
    requires Separated(xs, lt)
    ensures multiset(xs)[x] <= 1
  {
    if xs != [] {
      assert xs == [xs[0]] + xs[1..];
      OnceInMultiset(xs[1..], x, lt);
      assert xs[0] == x ==> x !in xs[1..];
    }
  }

  /** A sorted list of separated elements is strictly ascending. */
  lemma SortStrict<T(!new)>(xs: seq<T>, lt: (T, T) -> bool)
    requires StrictWeakOrder(lt)
    requires Separated(xs, lt)
    ensures StrictlyAscending(Sort(xs, lt), lt)
  {
    SortAscending(xs, lt);
    SeparatedPermutation(xs, Sort(xs, lt), lt);
  }

  lemma {:induction false} AscendingUnique<T(!new)>(xs: seq<T>, ys: seq<T>, lt: (T, T) -> bool)
    requires StrictWeakOrder(lt)
    requires multiset(xs) == multiset(ys)
    requires StrictlyAscending(xs, lt) && StrictlyAscending(ys, lt)
    ensures xs == ys
  {
    SameElements(xs, ys);
    if xs != [] {
      assert xs[0] in ys && ys[0] in xs;
      assert xs[0] == ys[0];
      assert xs == [xs[0]] + xs[1..] && ys == [ys[0]] + ys[1..];
      assert multiset(xs[1..]) == multiset(xs) - multiset{xs[0]};
      assert multiset(ys[1..]) == multiset(ys) - multiset{ys[0]};
      AscendingUnique(xs[1..], ys[1..], lt);
    }
  }

  /** Sorting separated elements forgets the order they came in. */
  lemma SortIgnoresOrder<T(!new)>(xs: seq<T>, ys: seq<T>, lt: (T, T) -> bool)
    requires StrictWeakOrder(lt)
    requires multiset(xs) == multiset(ys)
    requires Separated(xs, lt)
    ensures Sort(xs, lt) == Sort(ys, lt)
  {
    SeparatedPermutation(xs, ys, lt);
    SortStrict(xs, lt);
    SortStrict(ys, lt);
    AscendingUnique(Sort(xs, lt), Sort(ys, lt), lt);
  }

  /** An already ascending list is left as it is. */
  lemma {:induction false} SortOfAscending<T(!new)>(xs: seq<T>, lt: (T, T) -> bool)
    requires Ascending(xs, lt)
    ensures Sort(xs, lt) == xs
  {
    if xs != [] {
      SortOfAscending(xs[1..], lt);
      if |xs| > 1 {
        assert !lt(xs[1], xs[0]);
      }
    }
  }

  /** An element strictly above all others ends up last. */
  lemma {:induction false} SortPutsMaximumLast<T(!new)>(xs: seq<T>, m: T, lt: (T, T) -> bool)
    requires m in xs
    requires forall x :: x in xs && x != m ==> lt(x, m) && !lt(m, x)
    requires !lt(m, m)
    ensures Sort(xs, lt)[|xs| - 1] == m
  {
    SortAllBelow(xs, m, lt);
  }

  lemma {:induction false} SortAllBelow<T(!new)>(xs: seq<T>, m: T, lt: (T, T) -> bool)
    requires forall x :: x in xs && x != m ==> lt(x, m) && !lt(m, x)
    requires !lt(m, m)
    ensures m in xs ==> Sort(xs, lt)[|xs| - 1] == m
  {
    if xs != [] {
      var rest := Sort(xs[1..], lt);
      SortAllBelow(xs[1..], m, lt);
      SameElements(rest, xs[1..]);
      if m in xs[1..] {
        InsertKeepsLast(xs[0], rest, m, lt);
      } else if xs[0] == m {
        InsertAtEnd(m, rest, lt);
      }
    }
  }

  lemma {:induction false} InsertKeepsLast<T>(x: T, xs: seq<T>, m: T, lt: (T, T) -> bool)
    requires xs != [] && xs[|xs| - 1] == m
    requires !lt(m, x)
    ensures Insert(x, xs, lt)[|xs|] == m
  {
    if lt(xs[0], x) {
      InsertKeepsLast(x, xs[1..], m, lt);
    }
  }

  lemma {:induction false} InsertAtEnd<T>(m: T, xs: seq<T>, lt: (T, T) -> bool)
    requires forall x :: x in xs ==> lt(x, m)
    ensures Insert(m, xs, lt) == xs + [m]
  {
    if xs != [] {
      InsertAtEnd(m, xs[1..], lt);
    }
  }

  /** An element strictly below all others ends up first. */
  lemma {:induction false} SortPutsMinimumFirst<T(!new)>(xs: seq<T>, m: T, lt: (T, T) -> bool)
    requires m in xs
    requires forall x :: x in xs && x != m ==> lt(m, x) && !lt(x, m)
    requires !lt(m, m)
    ensures Sort(xs, lt)[0] == m
  {
    var rest := Sort(xs[1..], lt);
    SameElements(rest, xs[1..]);
    if m in xs[1..] {
      SortPutsMinimumFirst(xs[1..], m, lt);
    }
    if rest != [] {
      assert rest[0] in xs[1..];
    }
  }

  /** Lists without repetition, of one length, one included in the other, are permutations. */
  lemma {:induction false} InclusionIsPermutation<T(!new)>(xs: seq<T>, ys: seq<T>)
    requires NoDuplicates(xs)
    requires |xs| == |ys|
    requires forall x :: x in xs ==> x in ys
    ensures multiset(xs) == multiset(ys)
  {
    if xs == [] {
    } else {
      var x := xs[0];
      assert x in ys;
      var k := Position(ys, x);
      var ys' := ys[..k] + ys[k + 1..];
      assert ys == ys[..k] + [x] + ys[k + 1..];
      assert xs == [x] + xs[1..];
      forall z | z in xs[1..]
        ensures z in ys'
      {
        assert z in ys && z != x;
      }
      InclusionIsPermutation(xs[1..], ys');
    }
  }

  /** An element above all others, added at the end, stays at the end. */
  lemma {:induction false} SortSnoc<T(!new)>(xs: seq<T>, x: T, lt: (T, T) -> bool)
    requires forall y :: y in xs ==> !lt(x, y)
    ensures Sort(xs + [x], lt) == Sort(xs, lt) + [x]
  {
    if xs == [] {
      assert [] + [x] == [x];
    } else {
      assert (xs + [x])[1..] == xs[1..] + [x];
      SortSnoc(xs[1..], x, lt);
      InsertBefore(xs[0], Sort(xs[1..], lt), x, lt);
    }
  }

  lemma {:induction false} InsertBefore<T>(a: T, xs: seq<T>, x: T, lt: (T, T) -> bool)
    requires !lt(x, a)
    ensures Insert(a, xs + [x], lt) == Insert(a, xs, lt) + [x]
  {
    if xs == [] {
      assert [] + [x] == [x];
    } else if lt(xs[0], a) {
      assert (xs + [x])[1..] == xs[1..] + [x];
      InsertBefore(a, xs[1..], x, lt);
    }
  }

  function Map<A, B>(f: A -> B, xs: seq<A>): (r: seq<B>)
    ensures |r| == |xs|
    ensures forall i :: 0 <= i < |xs| ==> r[i] == f(xs[i])
  {
    seq(|xs|, i requires 0 <= i < |xs| => f(xs[i]))
  }

  lemma MapConcat<A, B>(f: A -> B, xs: seq<A>, ys: seq<A>)
    ensures Map(f, xs + ys) == Map(f, xs) + Map(f, ys)
  {
  }

  lemma {:induction false} MapPermutation<A, B>(f: A -> B, xs: seq<A>, ys: seq<A>)
    requires multiset(xs) == multiset(ys)
    ensures multiset(Map(f, xs)) == multiset(Map(f, ys))
  {
    SameElements(xs, ys);
    if xs != [] {
      assert xs[0] in ys;
      var k := Position(ys, xs[0]);
      var x, before, after := [xs[0]], ys[..k], ys[k + 1..];
      assert xs == x + xs[1..];
      assert ys == before + x + after;
      assert multiset(xs[1..]) == multiset(xs) - multiset{xs[0]};
      assert multiset(before + after) == multiset(ys) - multiset{xs[0]};
      MapPermutation(f, xs[1..], before + after);
      MapConcat(f, x, xs[1..]);
      MapConcat(f, before + x, after);
      MapConcat(f, before, x);
      MapConcat(f, before, after);
    }
  }

  /** The elements that pass a test, in their order. */
  function Keep<T(!new)>(p: T -> bool, xs: seq<T>): (r: seq<T>)
    ensures forall x :: x in r <==> x in xs && p(x)
  {
    if xs == [] then []
    else
      assert xs == [xs[0]] + xs[1..];
      (if p(xs[0]) then [xs[0]] else []) + Keep(p, xs[1..])
  }

  lemma {:induction false} KeepCounts<T(!new)>(p: T -> bool, xs: seq<T>, x: T)
    ensures multiset(Keep(p, xs))[x] == if p(x) then multiset(xs)[x] else 0
  {
    if xs != [] {
      KeepCounts(p, xs[1..], x);
      assert xs == [xs[0]] + xs[1..];
    }
  }

  lemma KeepPermutation<T(!new)>(p: T -> bool, xs: seq<T>, ys: seq<T>)
    requires multiset(xs) == multiset(ys)
    ensures multiset(Keep(p, xs)) == multiset(Keep(p, ys))
  {
    forall x ensures multiset(Keep(p, xs))[x] == multiset(Keep(p, ys))[x] {
      KeepCounts(p, xs, x);
      KeepCounts(p, ys, x);
    }
  }

  lemma {:induction false} KeepConcat<T(!new)>(p: T -> bool, xs: seq<T>, ys: seq<T>)
    ensures Keep(p, xs + ys) == Keep(p, xs) + Keep(p, ys)
  {
    if xs == [] {
      assert xs + ys == ys;
    } else {
      assert (xs + ys)[1..] == xs[1..] + ys;
      KeepConcat(p, xs[1..], ys);
    }
  }

  lemma {:induction false} KeepAll<T(!new)>(p: T -> bool, xs: seq<T>)
    requires forall x :: x in xs ==> p(x)
    ensures Keep(p, xs) == xs
  {
    if xs != [] {
      KeepAll(p, xs[1..]);
    }
  }

  function InsertedAt<T>(x: T, xs: seq<T>, p: nat): seq<T>
    requires p <= |xs|
  {
    xs[..p] + [x] + xs[p..]
  }

  lemma InsertedAtFront<T>(x: T, xs: seq<T>)
    ensures InsertedAt(x, xs, 0) == [x] + xs
  {
  }

  lemma InsertedAtNext<T>(x: T, a: T, xs: seq<T>, p: nat)
    requires p <= |xs|
    ensures InsertedAt(x, [a] + xs, p + 1) == [a] + InsertedAt(x, xs, p)
  {
  }

  /** Leaving out one element that the order separates from all others commutes with sorting. */
  lemma {:induction false} SortWithout<T(!new)>(before: seq<T>, x: T, after: seq<T>, lt: (T, T) -> bool)
    returns (p: nat)
    requires StrictWeakOrder(lt)
    requires forall y :: y in before || y in after ==> lt(x, y) || lt(y, x)
    ensures p <= |before| + |after|
    ensures Sort(before + [x] + after, lt) == InsertedAt(x, Sort(before + after, lt), p)
  {
    if before == [] {
      assert before + [x] + after == [x] + after && before + after == after;
      assert ([x] + after)[1..] == after;
      p := InsertPlace(x, Sort(after, lt), lt);
    } else {
      var y, rest := before[0], before[1..];
      assert before + [x] + after == [y] + (rest + [x] + after) && before + after == [y] + (rest + after);
      assert ([y] + (rest + [x] + after))[1..] == rest + [x] + after;
      assert ([y] + (rest + after))[1..] == rest + after;
      var q := SortWithout(rest, x, after, lt);
      SortAscending(rest + [x] + after, lt);
      p := InsertAround(y, Sort(rest + after, lt), q, x, lt);
    }
  }

  lemma {:induction false} InsertPlace<T>(x: T, xs: seq<T>, lt: (T, T) -> bool) returns (p: nat)
    ensures p <= |xs| && Insert(x, xs, lt) == InsertedAt(x, xs, p)
  {
    if xs != [] && lt(xs[0], x) {
      var q := InsertPlace(x, xs[1..], lt);
      p := q + 1;
      InsertedAtNext(x, xs[0], xs[1..], q);
      assert xs == [xs[0]] + xs[1..];
    } else {
      p := 0;
      InsertedAtFront(x, xs);
    }
  }

  lemma {:induction false} InsertAround<T(!new)>(y: T, xs: seq<T>, q: nat, x: T, lt: (T, T) -> bool) returns (p: nat)
    requires q <= |xs| && (lt(x, y) || lt(y, x)) && StrictWeakOrder(lt)
    requires Ascending(InsertedAt(x, xs, q), lt)
    ensures p <= |xs| + 1
    ensures Insert(y, InsertedAt(x, xs, q), lt) == InsertedAt(x, Insert(y, xs, lt), p)
  {
    var all := InsertedAt(x, xs, q);
    if q == 0 {
      InsertedAtFront(x, xs);
      p := InsertAfterFirst(y, xs, x, lt);
    } else {
      var first, rest := xs[0], xs[1..];
      assert xs == [first] + rest;
      InsertedAtNext(x, first, rest, q - 1);
      assert all[1..] == InsertedAt(x, rest, q - 1);
      if lt(first, y) {
        AscendingTail(all, lt);
        var p' := InsertAround(y, rest, q - 1, x, lt);
        InsertedAtNext(x, first, Insert(y, rest, lt), p');
        p := p' + 1;
      } else {
        p := q + 1;
        InsertedAtNext(x, y, xs, q);
      }
    }
  }

  lemma AscendingTail<T(!new)>(xs: seq<T>, lt: (T, T) -> bool)
    requires xs != [] && Ascending(xs, lt)
    ensures Ascending(xs[1..], lt)
  {
  }

  lemma InsertAfterFirst<T(!new)>(y: T, xs: seq<T>, x: T, lt: (T, T) -> bool) returns (p: nat)
    requires (lt(x, y) || lt(y, x)) && StrictWeakOrder(lt)
    requires Ascending([x] + xs, lt)
    ensures p <= |xs| + 1
    ensures Insert(y, [x] + xs, lt) == InsertedAt(x, Insert(y, xs, lt), p)
  {
    assert ([x] + xs)[1..] == xs;
    if lt(x, y) {
      p := 0;
      InsertedAtFront(x, Insert(y, xs, lt));
    } else {
      if xs != [] {
        assert !lt(([x] + xs)[1], ([x] + xs)[0]);
        assert !lt(xs[0], y);
      }
      p := 1;
      InsertedAtNext(x, y, xs, 0);
      InsertedAtFront(x, xs);
    }
  }
}
