/**
 JavaScript's stable `Array.prototype.sort`, as a function of the "not after" relation that a
 comparator induces.  Everything in the repository that must come out in one canonical order
 (JSON keys, relay ids, change logs, capability reports) is sorted through it.
 */
module StableSort {

  ghost predicate TotalPreorder<T(!new)>(le: (T, T) -> bool) {
    && (forall a, b :: le(a, b) || le(b, a))
    && (forall a, b, c :: le(a, b) && le(b, c) ==> le(a, c))
  }

  ghost predicate TotalOrder<T(!new)>(le: (T, T) -> bool) {
    && TotalPreorder(le)
    && (forall a, b :: le(a, b) && le(b, a) ==> a == b)
  }

  ghost predicate Sorted<T>(le: (T, T) -> bool, xs: seq<T>) {
    forall i, j :: 0 <= i < j < |xs| ==> le(xs[i], xs[j])
  }

  /** No two distinct elements of `xs` compare as equal. */
  ghost predicate NoTies<T>(le: (T, T) -> bool, xs: seq<T>) {
    forall i, j :: 0 <= i < |xs| && 0 <= j < |xs| && le(xs[i], xs[j]) && le(xs[j], xs[i]) ==> xs[i] == xs[j]
  }

  ghost predicate Distinct<T>(xs: seq<T>) {
    forall i, j :: 0 <= i < j < |xs| ==> xs[i] != xs[j]
  }

  function Insert<T>(le: (T, T) -> bool, x: T, xs: seq<T>): seq<T> {
    if xs == [] then [x]
    else if le(x, xs[0]) then [x] + xs
    else [xs[0]] + Insert(le, x, xs[1..])
  }

  /** Earlier elements are inserted in front of the later ones they tie with, so ties keep their order. */
  function Sort<T>(le: (T, T) -> bool, xs: seq<T>): seq<T> {
    if xs == [] then [] else Insert(le, xs[0], Sort(le, xs[1..]))
  }

  lemma {:induction false} InsertPermutes<T>(le: (T, T) -> bool, x: T, xs: seq<T>)
    ensures multiset(Insert(le, x, xs)) == multiset([x] + xs)
  {
    if xs != [] && !le(x, xs[0]) {
      InsertPermutes(le, x, xs[1..]);
      assert xs == [xs[0]] + xs[1..];
      assert multiset(Insert(le, x, xs)) == multiset([xs[0]]) + multiset(Insert(le, x, xs[1..]));
    }
  }

  lemma {:induction false} SortPermutes<T>(le: (T, T) -> bool, xs: seq<T>)
    ensures multiset(Sort(le, xs)) == multiset(xs)
    ensures |Sort(le, xs)| == |xs|
    ensures forall x :: x in Sort(le, xs) <==> x in xs
  {
    if xs != [] {
      SortPermutes(le, xs[1..]);
      InsertPermutes(le, xs[0], Sort(le, xs[1..]));
      assert xs == [xs[0]] + xs[1..];
    }
    SameElements(Sort(le, xs), xs);
  }

  lemma SameElements<T>(xs: seq<T>, ys: seq<T>)
    requires multiset(xs) == multiset(ys)
    ensures |xs| == |ys|
    ensures forall x :: x in xs <==> x in ys
  {
    assert |multiset(xs)| == |xs| && |multiset(ys)| == |ys|;
    forall x ensures x in xs <==> x in ys {
      assert x in xs <==> x in multiset(xs);
      assert x in ys <==> x in multiset(ys);
    }
  }

  lemma {:induction false} InsertSorts<T(!new)>(le: (T, T) -> bool, x: T, xs: seq<T>)
    requires TotalPreorder(le) && Sorted(le, xs)
    ensures Sorted(le, Insert(le, x, xs))
  {
    if xs != [] && !le(x, xs[0]) {
      InsertSorts(le, x, xs[1..]);
      InsertPermutes(le, x, xs[1..]);
      var rest := Insert(le, x, xs[1..]);
      SameElements(rest, [x] + xs[1..]);
      forall j | 0 <= j < |rest| ensures le(xs[0], rest[j]) {
        assert rest[j] in rest;
        assert rest[j] == x || rest[j] in xs[1..];
      }
    }
  }

  lemma {:induction false} SortSorts<T(!new)>(le: (T, T) -> bool, xs: seq<T>)
    requires TotalPreorder(le)
    ensures Sorted(le, Sort(le, xs))
  {
    if xs != [] {
      SortSorts(le, xs[1..]);
      InsertSorts(le, xs[0], Sort(le, xs[1..]));
    }
  }

  /** Sorting what is already in order changes nothing. */
  lemma {:induction false} SortedIsFixed<T>(le: (T, T) -> bool, xs: seq<T>)
    requires Sorted(le, xs)
    ensures Sort(le, xs) == xs
  {
    if xs != [] {
      SortedIsFixed(le, xs[1..]);
      assert xs == [xs[0]] + xs[1..];
      if |xs| > 1 {
        assert le(xs[0], xs[1]);
      }
    }
  }

  /** A tie-free collection has exactly one sorted arrangement. */
  lemma {:induction false} SortedIsUnique<T(!new)>(le: (T, T) -> bool, xs: seq<T>, ys: seq<T>)
    requires Sorted(le, xs) && Sorted(le, ys) && NoTies(le, xs)
    requires multiset(xs) == multiset(ys)
    ensures xs == ys
  {
    SameElements(xs, ys);
    if xs != [] {
      SameHead(le, xs, ys);
      SameTail(xs, ys);
      SortedIsUnique(le, xs[1..], ys[1..]);
      assert xs == [xs[0]] + xs[1..];
    }
  }

  lemma SameTail<T>(xs: seq<T>, ys: seq<T>)
    requires multiset(xs) == multiset(ys) && xs != [] && ys != [] && xs[0] == ys[0]
    ensures multiset(xs[1..]) == multiset(ys[1..])
  {
    assert xs == [xs[0]] + xs[1..] && ys == [ys[0]] + ys[1..];
    assert multiset(xs[1..]) == multiset(xs) - multiset{xs[0]};
    assert multiset(ys[1..]) == multiset(ys) - multiset{ys[0]};
  }

  lemma SameHead<T>(le: (T, T) -> bool, xs: seq<T>, ys: seq<T>)
    requires Sorted(le, xs) && Sorted(le, ys) && NoTies(le, xs)
    requires xs != [] && ys != [] && xs[0] in ys && ys[0] in xs
    ensures xs[0] == ys[0]
  {
    var i :| 0 <= i < |ys| && ys[i] == xs[0];
    var j :| 0 <= j < |xs| && xs[j] == ys[0];
    if i != 0 && j != 0 {
      assert le(xs[0], xs[j]) && le(ys[0], ys[i]);
    }
  }

  /** The sorted form depends only on which elements there are, not on the order they came in. */
  lemma SortIsCanonical<T(!new)>(le: (T, T) -> bool, xs: seq<T>, ys: seq<T>)
    requires TotalPreorder(le) && NoTies(le, xs)
    requires multiset(xs) == multiset(ys)
    ensures Sort(le, xs) == Sort(le, ys)
  {
    SortPermutes(le, xs);
    SortPermutes(le, ys);
    SortSorts(le, xs);
    SortSorts(le, ys);
    var s := Sort(le, xs);
    forall i, j | 0 <= i < |s| && 0 <= j < |s| && le(s[i], s[j]) && le(s[j], s[i]) ensures s[i] == s[j] {
      assert s[i] in xs && s[j] in xs;
    }
    SortedIsUnique(le, s, Sort(le, ys));
  }

  /** Duplicate-free sequences over the same elements are permutations of each other. */
  lemma {:induction false} DistinctSameSet<T>(xs: seq<T>, ys: seq<T>)
    requires Distinct(xs) && Distinct(ys)
    requires forall x :: x in xs <==> x in ys
    ensures multiset(xs) == multiset(ys)
  {
    forall x ensures multiset(xs)[x] == multiset(ys)[x] {
      DistinctMultiplicity(xs, x);
      DistinctMultiplicity(ys, x);
    }
  }

  lemma {:induction false} DistinctMultiplicity<T>(xs: seq<T>, x: T)
    requires Distinct(xs)
    ensures multiset(xs)[x] == if x in xs then 1 else 0
  {
    if xs != [] {
      assert xs == [xs[0]] + xs[1..];
      DistinctMultiplicity(xs[1..], x);
    }
  }

  lemma SortKeepsDistinct<T>(le: (T, T) -> bool, xs: seq<T>)
    requires Distinct(xs)
    ensures Distinct(Sort(le, xs))
  {
    SortPermutes(le, xs);
    var s := Sort(le, xs);
    forall i, j | 0 <= i < j < |s| ensures s[i] != s[j] {
      DistinctMultiplicity(xs, s[i]);
      RepeatedMultiplicity(s, i, j);
    }
  }

  lemma RepeatedMultiplicity<T>(s: seq<T>, i: nat, j: nat)
    requires i < j < |s|
    ensures s[i] == s[j] ==> multiset(s)[s[i]] >= 2
  {
    assert s == s[..j] + [s[j]] + s[j + 1..];
    assert s[i] in s[..j];
  }

  // ----- Filtering

  function Filter<T>(keep: T -> bool, xs: seq<T>): seq<T> {
    if xs == [] then []
    else if keep(xs[0]) then [xs[0]] + Filter(keep, xs[1..])
    else Filter(keep, xs[1..])
  }

  lemma {:induction false} FilterMember<T>(keep: T -> bool, xs: seq<T>, x: T)
    ensures x in Filter(keep, xs) <==> x in xs && keep(x)
  {
    if xs != [] {
      FilterMember(keep, xs[1..], x);
      assert xs == [xs[0]] + xs[1..];
    }
  }

  lemma {:induction false} FilterKeepsSorted<T>(le: (T, T) -> bool, keep: T -> bool, xs: seq<T>)
    requires Sorted(le, xs)
    ensures Sorted(le, Filter(keep, xs))
  {
    if xs != [] {
      FilterKeepsSorted(le, keep, xs[1..]);
      var rest := Filter(keep, xs[1..]);
      forall j | 0 <= j < |rest| ensures le(xs[0], rest[j]) {
        var y := rest[j];
        assert y in rest;
        FilterMember(keep, xs[1..], y);
        var k :| 0 <= k < |xs[1..]| && xs[1..][k] == y;
        assert le(xs[0], xs[k + 1]);
      }
    }
  }

  lemma {:induction false} FilterKeepsDistinct<T>(keep: T -> bool, xs: seq<T>)
    requires Distinct(xs)
    ensures Distinct(Filter(keep, xs))
  {
    if xs != [] {
      FilterKeepsDistinct(keep, xs[1..]);
      FilterMember(keep, xs[1..], xs[0]);
    }
  }

  lemma {:induction false} FilterConcat<T>(keep: T -> bool, xs: seq<T>, ys: seq<T>)
    ensures Filter(keep, xs + ys) == Filter(keep, xs) + Filter(keep, ys)
  {
    if xs == [] {
      assert xs + ys == ys;
    } else {
      assert (xs + ys)[1..] == xs[1..] + ys;
      FilterConcat(keep, xs[1..], ys);
    }
  }

  // ----- Stability

  function TiedWith<T>(le: (T, T) -> bool, k: T): T -> bool {
    y => le(y, k) && le(k, y)
  }

  lemma TiedChain<T(!new)>(le: (T, T) -> bool, x: T, k: T, y: T)
    requires TotalPreorder(le)
    ensures TiedWith(le, k)(x) && TiedWith(le, k)(y) ==> le(x, y)
  {
  }

  lemma {:induction false} InsertIsStable<T(!new)>(le: (T, T) -> bool, x: T, xs: seq<T>, k: T)
    requires TotalPreorder(le)
    ensures Filter(TiedWith(le, k), Insert(le, x, xs)) == Filter(TiedWith(le, k), [x] + xs)
  {
    if xs != [] && !le(x, xs[0]) {
      var tied := TiedWith(le, k);
      InsertIsStable(le, x, xs[1..], k);
      TiedChain(le, x, k, xs[0]);
      FilterConcat(tied, [xs[0]], Insert(le, x, xs[1..]));
      FilterConcat(tied, [x], xs[1..]);
      FilterConcat(tied, [x], xs);
      FilterOne(tied, x);
      FilterOne(tied, xs[0]);
    }
  }

  lemma FilterOne<T>(keep: T -> bool, x: T)
    ensures Filter(keep, [x]) == if keep(x) then [x] else []
  {
    assert [x][1..] == [];
  }

  /** Elements that tie keep the order they came in. */
  lemma {:induction false} SortIsStable<T(!new)>(le: (T, T) -> bool, xs: seq<T>, k: T)
    requires TotalPreorder(le)
    ensures Filter(TiedWith(le, k), Sort(le, xs)) == Filter(TiedWith(le, k), xs)
  {
    if xs != [] {
      SortIsStable(le, xs[1..], k);
      InsertIsStable(le, xs[0], Sort(le, xs[1..]), k);
      assert ([xs[0]] + Sort(le, xs[1..]))[1..] == Sort(le, xs[1..]);
    }
  }

  function Reverse<T>(xs: seq<T>): (r: seq<T>)
    ensures |r| == |xs|
    ensures forall i | 0 <= i < |r| :: r[i] == xs[|xs| - 1 - i]
  {
    if xs == [] then [] else Reverse(xs[1..]) + [xs[0]]
  }

  lemma {:induction false} FilterReverse<T>(keep: T -> bool, xs: seq<T>)
    ensures Filter(keep, Reverse(xs)) == Reverse(Filter(keep, xs))
  {
    if xs != [] {
      FilterReverse(keep, xs[1..]);
      FilterConcat(keep, Reverse(xs[1..]), [xs[0]]);
      assert [xs[0]][1..] == [];
      assert Filter(keep, [xs[0]]) == if keep(xs[0]) then [xs[0]] else [];
      assert Filter(keep, xs)[if keep(xs[0]) then 1 else 0..] == Filter(keep, xs[1..]);
    }
  }

  /** When two elements tie, listing a collection backwards sorts it differently. */
  lemma TiesDependOnOrder<T(!new)>(le: (T, T) -> bool, xs: seq<T>, i: nat, j: nat)
    requires TotalPreorder(le) && Distinct(xs)
    requires i < j < |xs| && le(xs[i], xs[j]) && le(xs[j], xs[i])
    ensures Sort(le, Reverse(xs)) != Sort(le, xs)
  {
    var k := xs[i];
    SortIsStable(le, xs, k);
    SortIsStable(le, Reverse(xs), k);
    FilterReverse(TiedWith(le, k), xs);
    FilterKeepsDistinct(TiedWith(le, k), xs);
    FilterMember(TiedWith(le, k), xs, xs[i]);
    FilterMember(TiedWith(le, k), xs, xs[j]);
    BackwardsDiffers(Filter(TiedWith(le, k), xs), xs[i], xs[j]);
  }

  lemma BackwardsDiffers<T>(f: seq<T>, x: T, y: T)
    requires Distinct(f) && x in f && y in f && x != y
    ensures Reverse(f) != f
  {
    assert |f| >= 2;
    assert Reverse(f)[0] == f[|f| - 1] != f[0];
  }
}
