/**
 * Sorting vocabulary shared by `sort.Sort` over keys and `sort.Slice` over
 * outpoints: what "sorted" means for a less-than relation (the adjacent-pair
 * test of `sort.IsSorted`), a reference sort that the in-place sorts write
 * back, and the fact that a sorted permutation is unique when the order is
 * total.
 */
module Ordering {

  /** Irreflexive, transitive, and incomparability is transitive. */
  ghost predicate StrictWeakOrder<T(!new)>(lt: (T, T) -> bool) {
    && (forall x :: !lt(x, x))
    && (forall x, y, z :: lt(x, y) && lt(y, z) ==> lt(x, z))
    && (forall x, y, z :: !lt(x, y) && !lt(y, z) ==> !lt(x, z))
  }

  /** A strict weak order in which only equal values are incomparable. */
  ghost predicate StrictTotalOrder<T(!new)>(lt: (T, T) -> bool) {
    && StrictWeakOrder(lt)
    && (forall x, y :: x != y ==> lt(x, y) || lt(y, x))
  }

  /** The test of `sort.IsSorted`: no element is less than its predecessor. */
  predicate Sorted<T>(lt: (T, T) -> bool, s: seq<T>) {
    forall i :: 0 < i < |s| ==> !lt(s[i], s[i - 1])
  }

  lemma {:induction false} SortedPairwise<T(!new)>(lt: (T, T) -> bool, s: seq<T>, i: int, j: int)
    requires StrictWeakOrder(lt) && Sorted(lt, s)
    requires 0 <= i < j < |s|
    ensures !lt(s[j], s[i])
    decreases j - i
  {
    if i + 1 < j {
      SortedPairwise(lt, s, i + 1, j);
      assert !lt(s[i + 1], s[i]);
    }
  }

  /** Inserts `x` before the first element of `s` that is not less than `x`. */
  function Insert<T>(lt: (T, T) -> bool, x: T, s: seq<T>): (r: seq<T>)
    ensures |r| == |s| + 1
    ensures multiset(r) == multiset(s) + multiset{x}
    ensures r[0] == x || (s != [] && r[0] == s[0])
  {
    if s == [] then [x]
    else if lt(s[0], x) then
      assert s == [s[0]] + s[1..];
      [s[0]] + Insert(lt, x, s[1..])
    else [x] + s
  }

  lemma {:induction false} InsertSorted<T(!new)>(lt: (T, T) -> bool, x: T, s: seq<T>)
    requires StrictWeakOrder(lt) && Sorted(lt, s)
    ensures Sorted(lt, Insert(lt, x, s))
  {
    if s != [] && lt(s[0], x) {
      InsertSorted(lt, x, s[1..]);
    }
  }

  /** A stable insertion sort: the reference result of an in-place sort. */
  function InsertionSort<T>(lt: (T, T) -> bool, s: seq<T>): (r: seq<T>)
    ensures |r| == |s|
    ensures multiset(r) == multiset(s)
  {
    if s == [] then []
    else
      assert s == [s[0]] + s[1..];
      Insert(lt, s[0], InsertionSort(lt, s[1..]))
  }

  lemma {:induction false} InsertionSortSorted<T(!new)>(lt: (T, T) -> bool, s: seq<T>)
    requires StrictWeakOrder(lt)
    ensures Sorted(lt, InsertionSort(lt, s))
  {
    if s != [] {
      InsertionSortSorted(lt, s[1..]);
      InsertSorted(lt, s[0], InsertionSort(lt, s[1..]));
    }
  }

  /** Sorting a sorted sequence leaves it as it is. */
  lemma {:induction false} InsertionSortOfSorted<T(!new)>(lt: (T, T) -> bool, s: seq<T>)
    requires Sorted(lt, s)
    ensures InsertionSort(lt, s) == s
  {
    if s != [] {
      InsertionSortOfSorted(lt, s[1..]);
      assert s == [s[0]] + s[1..];
    }
  }

  /** The head of a sorted sequence is a least element. */
  lemma SortedHeadLeast<T(!new)>(lt: (T, T) -> bool, s: seq<T>, e: T)
    requires StrictWeakOrder(lt) && Sorted(lt, s) && e in s
    ensures !lt(e, s[0])
  {
    var j :| 0 <= j < |s| && s[j] == e;
    if 0 < j {
      SortedPairwise(lt, s, 0, j);
    }
  }

  /** Two sorted permutations of each other under a total order start with the same element. */
  lemma SortedHeadsAgree<T(!new)>(lt: (T, T) -> bool, s: seq<T>, t: seq<T>)
    requires StrictTotalOrder(lt)
    requires Sorted(lt, s) && Sorted(lt, t) && multiset(s) == multiset(t) && s != []
    ensures t != [] && s[0] == t[0]
  {
    assert s[0] in multiset(t);
    assert t[0] in multiset(s);
    SortedHeadLeast(lt, t, s[0]);
    SortedHeadLeast(lt, s, t[0]);
  }

  lemma SortedTail<T>(lt: (T, T) -> bool, s: seq<T>)
    requires Sorted(lt, s) && s != []
    ensures Sorted(lt, s[1..])
  {
  }

  /** Dropping equal heads from two sorted permutations leaves two sorted permutations. */
  lemma SortedTails<T>(lt: (T, T) -> bool, s: seq<T>, t: seq<T>)
    requires Sorted(lt, s) && Sorted(lt, t) && multiset(s) == multiset(t)
    requires s != [] && t != [] && s[0] == t[0]
    ensures Sorted(lt, s[1..]) && Sorted(lt, t[1..]) && multiset(s[1..]) == multiset(t[1..])
  {
    PermutationRemove(s, 0, t, 0);
    assert s[..0] + s[1..] == s[1..] && t[..0] + t[1..] == t[1..];
    SortedTail(lt, s);
    SortedTail(lt, t);
  }

  /** Under a total order there is only one sorted arrangement of a multiset. */
  lemma {:induction false} SortedUnique<T(!new)>(lt: (T, T) -> bool, s: seq<T>, t: seq<T>)
    requires StrictTotalOrder(lt)
    requires Sorted(lt, s) && Sorted(lt, t) && multiset(s) == multiset(t)
    ensures s == t
    decreases |s|
  {
    if s == [] {
      assert |t| == |multiset(t)| == 0;
    } else {
      SortedHeadsAgree(lt, s, t);
      SortedTails(lt, s, t);
      SortedUnique(lt, s[1..], t[1..]);
      assert s == [s[0]] + s[1..] && t == [t[0]] + t[1..];
    }
  }

  function Map<T, U>(f: T -> U, s: seq<T>): (r: seq<U>)
    ensures |r| == |s|
  {
    if s == [] then [] else [f(s[0])] + Map(f, s[1..])
  }

  lemma {:induction false} MapConcat<T, U>(f: T -> U, a: seq<T>, b: seq<T>)
    ensures Map(f, a + b) == Map(f, a) + Map(f, b)
  {
    if a == [] {
      assert a + b == b;
    } else {
      var ab := a + b;
      assert ab[0] == a[0] && ab[1..] == a[1..] + b;
      MapConcat(f, a[1..], b);
      assert Map(f, ab) == [f(a[0])] + (Map(f, a[1..]) + Map(f, b));
      assert Map(f, a) == [f(a[0])] + Map(f, a[1..]);
    }
  }

  lemma {:induction false} MapAt<T, U>(f: T -> U, s: seq<T>, i: int)
    requires 0 <= i < |s|
    ensures Map(f, s)[i] == f(s[i])
  {
    if 0 < i {
      MapAt(f, s[1..], i - 1);
    }
  }

  /** Removing the element at `k` removes one occurrence of it from the multiset. */
  lemma MultisetRemove<T>(t: seq<T>, k: int)
    requires 0 <= k < |t|
    ensures multiset(t) == multiset{t[k]} + multiset(t[..k] + t[k + 1..])
  {
    assert t == t[..k] + [t[k]] + t[k + 1..];
  }

  lemma MapRemove<T, U>(f: T -> U, t: seq<T>, k: int)
    requires 0 <= k < |t|
    ensures multiset(Map(f, t)) == multiset{f(t[k])} + multiset(Map(f, t[..k] + t[k + 1..]))
  {
    var front, back := t[..k], t[k + 1..];
    assert t == front + ([t[k]] + back);
    MapConcat(f, front, [t[k]] + back);
    MapConcat(f, [t[k]], back);
    MapConcat(f, front, back);
    assert Map(f, [t[k]]) == [f(t[k])];
    var mf, mb := Map(f, front), Map(f, back);
    assert Map(f, t) == mf + ([f(t[k])] + mb);
    assert Map(f, front + back) == mf + mb;
    assert multiset(mf + ([f(t[k])] + mb)) == multiset(mf) + multiset{f(t[k])} + multiset(mb);
  }

  /** Taking one matching element out of each of two permutations leaves permutations. */
  lemma PermutationRemove<T>(s: seq<T>, i: int, t: seq<T>, k: int)
    requires multiset(s) == multiset(t)
    requires 0 <= i < |s| && 0 <= k < |t| && s[i] == t[k]
    ensures multiset(s[..i] + s[i + 1..]) == multiset(t[..k] + t[k + 1..])
  {
    MultisetRemove(s, i);
    MultisetRemove(t, k);
    assert multiset(s[..i] + s[i + 1..]) == multiset(s) - multiset{s[i]};
    assert multiset(t[..k] + t[k + 1..]) == multiset(t) - multiset{t[k]};
  }

  /** Mapping a function over two permutations of each other gives permutations of each other. */
  lemma {:induction false} MapPermutation<T, U>(f: T -> U, s: seq<T>, t: seq<T>)
    requires multiset(s) == multiset(t)
    ensures multiset(Map(f, s)) == multiset(Map(f, t))
    decreases |s|
  {
    if s == [] {
      assert |t| == |multiset(t)| == 0;
    } else {
      assert s[0] in multiset(t);
      var k :| 0 <= k < |t| && t[k] == s[0];
      PermutationRemove(s, 0, t, k);
      assert s[..0] + s[1..] == s[1..];
      MapPermutation(f, s[1..], t[..k] + t[k + 1..]);
      MapRemove(f, s, 0);
      MapRemove(f, t, k);
    }
  }

  /** `Map` only looks at the function's values on the elements of the sequence. */
  lemma {:induction false} MapCongruent<T, U>(f: T -> U, g: T -> U, s: seq<T>)
    requires forall i :: 0 <= i < |s| ==> f(s[i]) == g(s[i])
    ensures Map(f, s) == Map(g, s)
  {
    if s != [] {
      assert f(s[0]) == g(s[0]);
      MapCongruent(f, g, s[1..]);
    }
  }
}
