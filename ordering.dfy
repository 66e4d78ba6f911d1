/** `Array.prototype.sort((a, b) => key(b) - key(a))`: JavaScript's sort is
    stable, so the result orders by non-increasing key and keeps elements with
    equal keys in their input order. Modelled as an insertion sort. */
module Ordering {

  /** Keys never increase from left to right. */
  ghost predicate NonIncreasing<T>(s: seq<T>, key: T -> int) {
    forall i, j :: 0 <= i < j < |s| ==> key(s[i]) >= key(s[j])
  }

  /** The elements of `s` whose key is `k`, in order. */
  function WithKey<T>(s: seq<T>, key: T -> int, k: int): seq<T> {
    if s == [] then []
    else if key(s[0]) == k then [s[0]] + WithKey(s[1..], key, k)
    else WithKey(s[1..], key, k)
  }

  /** Places `x` after every element whose key is at least `key(x)`. */
  function Insert<T>(x: T, sorted: seq<T>, key: T -> int): (r: seq<T>)
    ensures |r| == |sorted| + 1
  {
    if sorted == [] then [x]
    else if key(x) > key(sorted[0]) then [x] + sorted
    else [sorted[0]] + Insert(x, sorted[1..], key)
  }

  /** The stable sort by non-increasing key. */
  function SortDesc<T>(s: seq<T>, key: T -> int): (r: seq<T>)
    ensures |r| == |s|
  {
    if s == [] then []
    else Insert(s[|s| - 1], SortDesc(s[..|s| - 1], key), key)
  }

  lemma {:induction false} InsertPerm<T>(x: T, sorted: seq<T>, key: T -> int)
    ensures multiset(Insert(x, sorted, key)) == multiset(sorted) + multiset{x}
  {
    if sorted != [] && key(x) <= key(sorted[0]) {
      InsertPerm(x, sorted[1..], key);
      assert sorted == [sorted[0]] + sorted[1..];
    }
  }

  /** Inserting `x` keeps every key at most `b` when `x` and the elements
      already there respect that bound. */
  lemma {:induction false} InsertBounded<T>(x: T, sorted: seq<T>, key: T -> int, b: int)
    requires key(x) <= b
    requires forall i :: 0 <= i < |sorted| ==> key(sorted[i]) <= b
    ensures forall i :: 0 <= i < |Insert(x, sorted, key)| ==> key(Insert(x, sorted, key)[i]) <= b
  {
    if sorted != [] && key(x) <= key(sorted[0]) {
      InsertBounded(x, sorted[1..], key, b);
    }
  }

  /** An element whose key bounds a sorted sequence may go in front of it. */
  lemma ConsSorted<T>(y: T, r: seq<T>, key: T -> int)
    requires NonIncreasing(r, key)
    requires forall i :: 0 <= i < |r| ==> key(r[i]) <= key(y)
    ensures NonIncreasing([y] + r, key)
  {
    forall i, j | 0 <= i < j < |[y] + r|
      ensures key(([y] + r)[i]) >= key(([y] + r)[j])
    {
      if i > 0 {
        assert ([y] + r)[i] == r[i - 1];
      }
      assert ([y] + r)[j] == r[j - 1];
    }
  }

  lemma {:induction false} InsertSorted<T>(x: T, sorted: seq<T>, key: T -> int)
    requires NonIncreasing(sorted, key)
    ensures NonIncreasing(Insert(x, sorted, key), key)
  {
    if sorted == [] {
    } else if key(x) > key(sorted[0]) {
      ConsSorted(x, sorted, key);
    } else {
      var tail := sorted[1..];
      assert NonIncreasing(tail, key) by {
        forall i, j | 0 <= i < j < |tail|
          ensures key(tail[i]) >= key(tail[j])
        {
          assert tail[i] == sorted[i + 1] && tail[j] == sorted[j + 1];
        }
      }
      assert forall i :: 0 <= i < |tail| ==> key(tail[i]) <= key(sorted[0]) by {
        forall i | 0 <= i < |tail|
          ensures key(tail[i]) <= key(sorted[0])
        {
          assert tail[i] == sorted[i + 1];
        }
      }
      InsertSorted(x, tail, key);
      InsertBounded(x, tail, key, key(sorted[0]));
      ConsSorted(sorted[0], Insert(x, tail, key), key);
    }
  }

  /** Inserting `x` into a sorted sequence adds `x` at the end of the
      elements that share its key, and leaves the other keys' elements as
      they were. */
  lemma {:induction false} InsertWithKey<T>(x: T, sorted: seq<T>, key: T -> int, k: int)
    requires NonIncreasing(sorted, key)
    ensures WithKey(Insert(x, sorted, key), key, k) ==
            WithKey(sorted, key, k) + (if key(x) == k then [x] else [])
  {
    if sorted == [] {
    } else if key(x) > key(sorted[0]) {
      if key(x) == k {
        WithKeyNone(sorted, key, k);
      }
    } else {
      InsertWithKey(x, sorted[1..], key, k);
    }
  }

  /** In a sorted sequence whose first key is below `k`, no element has key `k`. */
  lemma {:induction false} WithKeyNone<T>(sorted: seq<T>, key: T -> int, k: int)
    requires NonIncreasing(sorted, key)
    requires sorted != [] ==> key(sorted[0]) < k
    ensures WithKey(sorted, key, k) == []
  {
    if sorted != [] {
      WithKeyNone(sorted[1..], key, k);
    }
  }

  lemma {:induction false} WithKeySnoc<T>(s: seq<T>, x: T, key: T -> int, k: int)
    ensures WithKey(s + [x], key, k) == WithKey(s, key, k) + (if key(x) == k then [x] else [])
  {
    if s != [] {
      assert (s + [x])[1..] == s[1..] + [x];
      WithKeySnoc(s[1..], x, key, k);
    } else {
      assert s + [x] == [x];
    }
  }

  /** What the sort promises: a permutation of the input, in non-increasing
      key order, and stable (for every key, the elements with that key appear
      in the same relative order as in the input). */
  lemma {:induction false} SortDescSpec<T>(s: seq<T>, key: T -> int)
    ensures multiset(SortDesc(s, key)) == multiset(s)
    ensures |SortDesc(s, key)| == |s|
    ensures NonIncreasing(SortDesc(s, key), key)
    ensures forall k :: WithKey(SortDesc(s, key), key, k) == WithKey(s, key, k)
  {
    if s != [] {
      var init, x := s[..|s| - 1], s[|s| - 1];
      assert s == init + [x];
      SortDescSpec(init, key);
      InsertPerm(x, SortDesc(init, key), key);
      InsertSorted(x, SortDesc(init, key), key);
      forall k
        ensures WithKey(SortDesc(s, key), key, k) == WithKey(s, key, k)
      {
        InsertWithKey(x, SortDesc(init, key), key, k);
        WithKeySnoc(init, x, key, k);
      }
    }
  }
}
