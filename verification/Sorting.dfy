/**
 * Stable sorting by a total order, and the fact the whole memory layer leans on:
 * when no two elements tie, the sorted order depends only on which elements there are.
 */
module Sorting {

  ghost predicate TotalOrder<T(!new)>(le: (T, T) -> bool) {
    && (forall x, y :: le(x, y) || le(y, x))
    && (forall x, y, z :: le(x, y) && le(y, z) ==> le(x, z))
  }

  ghost predicate Sorted<T>(le: (T, T) -> bool, xs: seq<T>) {
    forall i, j :: 0 <= i < j < |xs| ==> le(xs[i], xs[j])
  }

  ghost predicate Distinct<T>(xs: seq<T>) {
    forall i, j :: 0 <= i < j < |xs| ==> xs[i] != xs[j]
  }

  // No two different elements of xs are tied.
  ghost predicate NoTies<T>(le: (T, T) -> bool, xs: seq<T>) {
    forall x, y :: x in xs && y in xs && le(x, y) && le(y, x) ==> x == y
  }

  // Ties keep their original order: x goes before the elements it is tied with.
  function Insert<T>(le: (T, T) -> bool, x: T, ys: seq<T>): seq<T> {
    if ys == [] || le(x, ys[0]) then [x] + ys
    else [ys[0]] + Insert(le, x, ys[1..])
  }

  function Sort<T>(le: (T, T) -> bool, xs: seq<T>): seq<T> {
    if xs == [] then [] else Insert(le, xs[0], Sort(le, xs[1..]))
  }

  lemma {:induction false} InsertKeeps<T>(le: (T, T) -> bool, x: T, ys: seq<T>)
    ensures multiset(Insert(le, x, ys)) == multiset{x} + multiset(ys)
  {
    if ys == [] || le(x, ys[0]) {
    } else {
      InsertKeeps(le, x, ys[1..]);
      assert ys == [ys[0]] + ys[1..];
    }
  }

  lemma {:induction false} InsertSorts<T(!new)>(le: (T, T) -> bool, x: T, ys: seq<T>)
    requires TotalOrder(le) && Sorted(le, ys)
    ensures Sorted(le, Insert(le, x, ys))
  {
    if ys == [] {
    } else if le(x, ys[0]) {
      forall j | 0 <= j < |ys| ensures le(x, ys[j]) {
        assert j == 0 || le(ys[0], ys[j]);
      }
    } else {
      InsertSorts(le, x, ys[1..]);
      var zs := Insert(le, x, ys[1..]);
      InsertKeeps(le, x, ys[1..]);
      forall j | 0 <= j < |zs| ensures le(ys[0], zs[j]) {
        assert zs[j] in multiset(zs);
        assert zs[j] == x || zs[j] in ys[1..];
      }
    }
  }

  lemma SortedCons<T(!new)>(le: (T, T) -> bool, x: T, xs: seq<T>)
    requires Sorted(le, xs) && forall y :: y in xs ==> le(x, y)
    ensures Sorted(le, [x] + xs)
  {
    assert forall j :: 0 <= j < |xs| ==> xs[j] in xs;
  }

  lemma SortedTail<T(!new)>(le: (T, T) -> bool, x: T, xs: seq<T>)
    requires Sorted(le, [x] + xs)
    ensures Sorted(le, xs) && forall y :: y in xs ==> le(x, y)
  {
    var all := [x] + xs;
    assert forall i :: 0 <= i < |xs| ==> xs[i] == all[i + 1];
    assert all[0] == x;
  }

  // Sort returns a sorted rearrangement of its input.
  lemma {:induction false} SortCorrect<T(!new)>(le: (T, T) -> bool, xs: seq<T>)
    requires TotalOrder(le)
    ensures Sorted(le, Sort(le, xs))
    ensures multiset(Sort(le, xs)) == multiset(xs)
    ensures |Sort(le, xs)| == |xs|
  {
    if xs != [] {
      SortCorrect(le, xs[1..]);
      InsertSorts(le, xs[0], Sort(le, xs[1..]));
      InsertKeeps(le, xs[0], Sort(le, xs[1..]));
      assert xs == [xs[0]] + xs[1..];
    }
    assert |multiset(Sort(le, xs))| == |multiset(xs)|;
  }

  lemma SameElements<T>(xs: seq<T>, ys: seq<T>)
    requires multiset(xs) == multiset(ys)
    ensures |xs| == |ys|
    ensures forall x :: x in xs <==> x in ys
  {
    assert |multiset(xs)| == |multiset(ys)|;
    forall x ensures x in xs <==> x in ys {
      assert x in xs <==> x in multiset(xs);
      assert x in ys <==> x in multiset(ys);
    }
  }

  lemma DropHead<T>(xs: seq<T>, ys: seq<T>)
    requires xs != [] && ys != [] && xs[0] == ys[0] && multiset(xs) == multiset(ys)
    ensures multiset(xs[1..]) == multiset(ys[1..])
  {
    assert xs == [xs[0]] + xs[1..] && ys == [ys[0]] + ys[1..];
    assert multiset(xs[1..]) == multiset(xs) - multiset{xs[0]};
    assert multiset(ys[1..]) == multiset(ys) - multiset{ys[0]};
  }

  lemma NoTiesTail<T(!new)>(le: (T, T) -> bool, xs: seq<T>)
    requires NoTies(le, xs) && xs != []
    ensures NoTies(le, xs[1..])
  {
    assert forall x :: x in xs[1..] ==> x in xs;
  }

  lemma HeadsAgree<T(!new)>(le: (T, T) -> bool, xs: seq<T>, ys: seq<T>)
    requires TotalOrder(le) && Sorted(le, xs) && Sorted(le, ys)
    requires NoTies(le, xs) && xs != [] && ys != [] && xs[0] in ys && ys[0] in xs
    ensures xs[0] == ys[0]
  {
    var i :| 0 <= i < |xs| && xs[i] == ys[0];
    var j :| 0 <= j < |ys| && ys[j] == xs[0];
    assert le(xs[0], xs[0]) && le(ys[0], ys[0]);
    assert le(xs[0], xs[i]) && le(ys[0], ys[j]);
  }

  lemma Assoc<T>(a: seq<T>, b: seq<T>, c: seq<T>)
    ensures a + (b + c) == (a + b) + c
  {
  }

  // Two sorted arrangements of the same elements are the same sequence when nothing ties.
  lemma {:induction false} SortedUnique<T(!new)>(le: (T, T) -> bool, xs: seq<T>, ys: seq<T>)
    requires TotalOrder(le) && Sorted(le, xs) && Sorted(le, ys)
    requires multiset(xs) == multiset(ys) && NoTies(le, xs)
    ensures xs == ys
  {
    SameElements(xs, ys);
    if xs != [] {
      assert xs[0] in xs && ys[0] in ys;
      HeadsAgree(le, xs, ys);
      DropHead(xs, ys);
      NoTiesTail(le, xs);
      SortedUnique(le, xs[1..], ys[1..]);
      assert xs == [xs[0]] + xs[1..] && ys == [ys[0]] + ys[1..];
    }
  }

  // Sorting is canonical: any permutation of the input gives the same result.
  lemma SortCanonical<T(!new)>(le: (T, T) -> bool, xs: seq<T>, ys: seq<T>)
    requires TotalOrder(le) && NoTies(le, xs)
    requires multiset(xs) == multiset(ys)
    ensures Sort(le, xs) == Sort(le, ys)
  {
    SortCorrect(le, xs);
    SortCorrect(le, ys);
    SameElements(xs, Sort(le, xs));
    SortedUnique(le, Sort(le, xs), Sort(le, ys));
  }

  lemma SortOfSorted<T(!new)>(le: (T, T) -> bool, xs: seq<T>)
    requires TotalOrder(le) && NoTies(le, xs) && Sorted(le, xs)
    ensures Sort(le, xs) == xs
  {
    SortCorrect(le, xs);
    SortedUnique(le, xs, Sort(le, xs));
  }

  // The elements of xs that satisfy p, in order.
  function Filter<T>(p: T -> bool, xs: seq<T>): seq<T> {
    if xs == [] then []
    else if p(xs[0]) then [xs[0]] + Filter(p, xs[1..])
    else Filter(p, xs[1..])
  }

  lemma {:induction false} FilterShrinks<T>(p: T -> bool, xs: seq<T>)
    ensures |Filter(p, xs)| <= |xs|
  {
    if xs != [] {
      FilterShrinks(p, xs[1..]);
    }
  }

  lemma {:induction false} FilterContents<T(!new)>(p: T -> bool, xs: seq<T>)
    ensures forall x :: x in Filter(p, xs) <==> x in xs && p(x)
  {
    if xs != [] {
      FilterContents(p, xs[1..]);
      assert xs == [xs[0]] + xs[1..];
    }
  }

  lemma FilterCons<T>(p: T -> bool, x: T, xs: seq<T>)
    ensures Filter(p, [x] + xs) == if p(x) then [x] + Filter(p, xs) else Filter(p, xs)
  {
    assert ([x] + xs)[1..] == xs;
  }

  lemma {:induction false} FilterMultiset<T(!new)>(p: T -> bool, xs: seq<T>, x: T)
    ensures multiset(Filter(p, xs))[x] == if p(x) then multiset(xs)[x] else 0
  {
    if xs != [] {
      FilterMultiset(p, xs[1..], x);
      assert xs == [xs[0]] + xs[1..];
      assert multiset(xs) == multiset{xs[0]} + multiset(xs[1..]);
    }
  }

  lemma {:induction false} FilterSorted<T(!new)>(le: (T, T) -> bool, p: T -> bool, xs: seq<T>)
    requires Sorted(le, xs)
    ensures Sorted(le, Filter(p, xs))
  {
    if xs != [] {
      FilterSorted(le, p, xs[1..]);
      FilterContents(p, xs[1..]);
      var rest := Filter(p, xs[1..]);
      forall j | 0 <= j < |rest| ensures le(xs[0], rest[j]) {
        assert rest[j] in rest;
      }
    }
  }

  lemma {:induction false} FilterAppend<T(!new)>(p: T -> bool, xs: seq<T>, ys: seq<T>)
    ensures Filter(p, xs + ys) == Filter(p, xs) + Filter(p, ys)
  {
    if xs == [] {
      assert xs + ys == ys;
    } else {
      FilterAppend(p, xs[1..], ys);
      FilterCons(p, xs[0], xs[1..] + ys);
      assert xs + ys == [xs[0]] + (xs[1..] + ys);
    }
  }

  lemma {:induction false} FilterAll<T(!new)>(p: T -> bool, xs: seq<T>)
    requires forall x :: x in xs ==> p(x)
    ensures Filter(p, xs) == xs
  {
    if xs != [] {
      assert forall x :: x in xs[1..] ==> x in xs;
      FilterAll(p, xs[1..]);
    }
  }

  lemma {:induction false} FilterNone<T(!new)>(p: T -> bool, xs: seq<T>)
    requires forall x :: x in xs ==> !p(x)
    ensures Filter(p, xs) == []
  {
    if xs != [] {
      assert forall x :: x in xs[1..] ==> x in xs;
      FilterNone(p, xs[1..]);
    }
  }

  lemma FilterPermutes<T(!new)>(p: T -> bool, xs: seq<T>, ys: seq<T>)
    requires multiset(xs) == multiset(ys)
    ensures multiset(Filter(p, xs)) == multiset(Filter(p, ys))
  {
    var a, b := multiset(Filter(p, xs)), multiset(Filter(p, ys));
    forall x ensures a[x] == b[x] {
      FilterMultiset(p, xs, x);
      FilterMultiset(p, ys, x);
    }
  }

  // Filtering commutes with sorting.
  lemma SortFilter<T(!new)>(le: (T, T) -> bool, p: T -> bool, xs: seq<T>)
    requires TotalOrder(le) && NoTies(le, xs)
    ensures Sort(le, Filter(p, xs)) == Filter(p, Sort(le, xs))
  {
    SortCorrect(le, xs);
    SortCorrect(le, Filter(p, xs));
    SameElements(xs, Sort(le, xs));
    FilterContents(p, xs);
    FilterSorted(le, p, Sort(le, xs));
    FilterPermutes(p, xs, Sort(le, xs));
    SameElements(Filter(p, xs), Sort(le, Filter(p, xs)));
    SortedUnique(le, Sort(le, Filter(p, xs)), Filter(p, Sort(le, xs)));
  }

  // Elements that tie keep their order: of a class of tied elements, sorting lists the same in the same order.
  lemma {:induction false} SortIsStable<T(!new)>(le: (T, T) -> bool, tied: T -> bool, xs: seq<T>)
    requires TotalOrder(le) && forall x, y :: tied(x) && tied(y) ==> le(x, y)
    ensures Filter(tied, Sort(le, xs)) == Filter(tied, xs)
  {
    if xs != [] {
      SortIsStable(le, tied, xs[1..]);
      SortCorrect(le, xs[1..]);
      InsertIsStable(le, tied, xs[0], Sort(le, xs[1..]));
    }
  }

  lemma {:induction false} InsertIsStable<T(!new)>(le: (T, T) -> bool, tied: T -> bool, x: T, ys: seq<T>)
    requires forall y, z :: tied(y) && tied(z) ==> le(y, z)
    ensures Filter(tied, Insert(le, x, ys)) == Filter(tied, [x] + ys)
  {
    FilterCons(tied, x, ys);
    if ys != [] && !le(x, ys[0]) {
      InsertIsStable(le, tied, x, ys[1..]);
      FilterCons(tied, x, ys[1..]);
      FilterCons(tied, ys[0], Insert(le, x, ys[1..]));
      assert !(tied(x) && tied(ys[0]));
    }
  }
}
