/** Sequence helpers shared by the stores and the views: the JavaScript
    `Array.prototype.filter`, `find`/`findIndex`, `splice(i, 1)` and
    `reduce` patterns used throughout the code base. */
module Seqs {

  datatype Option<+T> = None | Some(value: T) {
    function GetOr(default: T): T {
      match this
      case Some(v) => v
      case None => default
    }
  }

  /** `a` can be obtained from `b` by deleting elements: the order of the kept
      elements is preserved. */
  ghost predicate IsSubsequence<T>(a: seq<T>, b: seq<T>)
    decreases |b|
  {
    a == [] ||
    (b != [] && ((a[0] == b[0] && IsSubsequence(a[1..], b[1..])) || IsSubsequence(a, b[1..])))
  }

  /** `Array.prototype.filter`: the elements satisfying `p`, in order. */
  function Filter<T>(s: seq<T>, p: T -> bool): (r: seq<T>)
    ensures |r| <= |s|
    ensures forall i :: 0 <= i < |r| ==> p(r[i]) && r[i] in s
    ensures forall x :: x in s && p(x) ==> x in r
    ensures IsSubsequence(r, s)
  {
    if s == [] then []
    else if p(s[0]) then [s[0]] + Filter(s[1..], p)
    else Filter(s[1..], p)
  }

  /** The number of elements satisfying `p` (`filter(...).length`). */
  function CountIf<T>(s: seq<T>, p: T -> bool): nat {
    |Filter(s, p)|
  }

  lemma {:induction false} FilterAppend<T>(a: seq<T>, b: seq<T>, p: T -> bool)
    ensures Filter(a + b, p) == Filter(a, p) + Filter(b, p)
  {
    if a != [] {
      assert (a + b)[1..] == a[1..] + b;
      FilterAppend(a[1..], b, p);
    } else {
      assert a + b == b;
    }
  }

  /** The positions of `s` whose element satisfies `p`. */
  ghost function Positions<T>(s: seq<T>, p: T -> bool): set<int> {
    set i | 0 <= i < |s| && p(s[i])
  }

  /** Adding an element at the end adds its position when it satisfies
      `p`. */
  lemma PositionsSnoc<T>(init: seq<T>, last: T, p: T -> bool)
    ensures |Positions(init + [last], p)| == |Positions(init, p)| + (if p(last) then 1 else 0)
  {
    var s, n := init + [last], |init|;
    var all, before := Positions(s, p), Positions(init, p);
    forall i
      ensures i in all <==> i in before || (p(last) && i == n)
    {
      if 0 <= i < n {
        assert s[i] == init[i];
      }
    }
    if p(last) {
      assert all == before + {n};
      assert n !in before;
    } else {
      assert all == before;
    }
  }

  /** Filtering keeps one element per position where the predicate holds. */
  lemma {:induction false} FilterCountsPositions<T>(s: seq<T>, p: T -> bool)
    ensures |Filter(s, p)| == |Positions(s, p)|
    decreases |s|
  {
    if s == [] {
      assert Positions(s, p) == {};
    } else {
      var init, last := s[..|s| - 1], s[|s| - 1];
      assert s == init + [last];
      FilterCountsPositions(init, p);
      FilterAppend(init, [last], p);
      assert |Filter([last], p)| == if p(last) then 1 else 0 by {
        assert [last][1..] == [];
      }
      PositionsSnoc(init, last, p);
    }
  }

  /** Filtering with a predicate that holds everywhere keeps everything. */
  lemma {:induction false} FilterAll<T>(s: seq<T>, p: T -> bool)
    requires forall x :: x in s ==> p(x)
    ensures Filter(s, p) == s
  {
    if s != [] {
      assert forall x :: x in s[1..] ==> x in s;
      FilterAll(s[1..], p);
    }
  }

  /** Filtering with two predicates that agree on every element gives the
      same result. */
  lemma {:induction false} FilterEquiv<T>(s: seq<T>, p: T -> bool, q: T -> bool)
    requires forall x :: x in s ==> p(x) == q(x)
    ensures Filter(s, p) == Filter(s, q)
  {
    if s != [] {
      assert s[0] in s;
      assert forall x :: x in s[1..] ==> x in s;
      FilterEquiv(s[1..], p, q);
    }
  }

  /** When every element satisfies exactly one of three predicates, their
      counts add up to the length. */
  lemma {:induction false} CountIfPartition<T>(s: seq<T>, p: T -> bool, q: T -> bool, r: T -> bool)
    requires forall x :: x in s ==> (p(x) || q(x) || r(x)) && !(p(x) && q(x)) && !(p(x) && r(x)) && !(q(x) && r(x))
    ensures CountIf(s, p) + CountIf(s, q) + CountIf(s, r) == |s|
  {
    if s != [] {
      assert s[0] in s;
      assert forall x :: x in s[1..] ==> x in s;
      CountIfPartition(s[1..], p, q, r);
    }
  }

  /** The first index whose element satisfies `p` (`findIndex`, with `None`
      for JavaScript's -1). */
  function FirstIndex<T>(s: seq<T>, p: T -> bool): (r: Option<nat>)
    ensures r.Some? ==> r.value < |s| && p(s[r.value])
    ensures r.Some? ==> forall j :: 0 <= j < r.value ==> !p(s[j])
    ensures r.None? <==> forall j :: 0 <= j < |s| ==> !p(s[j])
  {
    if s == [] then None
    else if p(s[0]) then Some(0)
    else
      match FirstIndex(s[1..], p)
      case None => None
      case Some(k) => Some(k + 1)
  }

  /** `splice(i, 1)`: the sequence without its element at `i`. */
  function RemoveAt<T>(s: seq<T>, i: nat): (r: seq<T>)
    requires i < |s|
    ensures |r| == |s| - 1
    ensures forall j :: 0 <= j < i ==> r[j] == s[j]
    ensures forall j :: i <= j < |r| ==> r[j] == s[j + 1]
    ensures multiset(r) + multiset{s[i]} == multiset(s)
  {
    assert s == s[..i] + [s[i]] + s[i + 1..];
    s[..i] + s[i + 1..]
  }

  /** `reduce((sum, x) => sum + x, 0)`. */
  function Sum(s: seq<int>): int {
    if s == [] then 0 else s[0] + Sum(s[1..])
  }

  lemma {:induction false} SumAppend(a: seq<int>, b: seq<int>)
    ensures Sum(a + b) == Sum(a) + Sum(b)
  {
    if a == [] {
      assert a + b == b;
    } else {
      assert (a + b)[1..] == a[1..] + b;
      SumAppend(a[1..], b);
    }
  }

  /** Replacing one value changes the sum by the difference. */
  lemma {:induction false} SumUpdate(s: seq<int>, i: nat, x: int)
    requires i < |s|
    ensures Sum(s[i := x]) == Sum(s) - s[i] + x
  {
    if i > 0 {
      assert s[i := x][1..] == s[1..][i - 1 := x];
      SumUpdate(s[1..], i - 1, x);
    } else {
      assert s[i := x][1..] == s[1..];
    }
  }

  /** `Math.max(...xs, 0)`: the largest of the values and 0. */
  function MaxOrZero(xs: seq<int>): (m: int)
    ensures m >= 0
    ensures forall i :: 0 <= i < |xs| ==> xs[i] <= m
    ensures m == 0 || exists i :: 0 <= i < |xs| && xs[i] == m
  {
    if xs == [] then 0
    else
      var rest := MaxOrZero(xs[1..]);
      if xs[0] > rest then xs[0] else rest
  }

  /** The store rule for a fresh identifier: `Math.max(...ids, 0) + 1`. */
  function NextId(ids: seq<int>): (n: int)
    ensures n >= 1
    ensures forall i :: 0 <= i < |ids| ==> ids[i] < n
    ensures ids == [] ==> n == 1
  {
    MaxOrZero(ids) + 1
  }

  /** No value occurs twice. */
  ghost predicate Distinct(xs: seq<int>) {
    forall i, j :: 0 <= i < j < |xs| ==> xs[i] != xs[j]
  }

  /** The identifiers of the records, in order (`records.map(r => r.Id)`). */
  function IdsOf<T>(s: seq<T>, idOf: T -> int): (r: seq<int>)
    ensures |r| == |s|
    ensures forall i :: 0 <= i < |s| ==> r[i] == idOf(s[i])
  {
    seq(|s|, i requires 0 <= i < |s| => idOf(s[i]))
  }

  /** `findIndex(r => r.Id === id)`: the first record carrying `id`. */
  function IndexOfId<T>(s: seq<T>, idOf: T -> int, id: int): (r: Option<nat>)
    ensures r.Some? ==> r.value < |s| && idOf(s[r.value]) == id
    ensures r.Some? ==> forall j :: 0 <= j < r.value ==> idOf(s[j]) != id
    ensures r.None? <==> id !in IdsOf(s, idOf)
  {
    if s == [] then None
    else if idOf(s[0]) == id then Some(0)
    else
      match IndexOfId(s[1..], idOf, id)
      case None =>
        assert IdsOf(s, idOf) == [idOf(s[0])] + IdsOf(s[1..], idOf);
        None
      case Some(k) => Some(k + 1)
  }

  /** With distinct identifiers the record found is the only one with `id`. */
  lemma IndexOfIdUnique<T>(s: seq<T>, idOf: T -> int, id: int, j: nat)
    requires Distinct(IdsOf(s, idOf))
    requires j < |s| && idOf(s[j]) == id
    ensures IndexOfId(s, idOf, id) == Some(j)
  {
    var r := IndexOfId(s, idOf, id);
    assert id in IdsOf(s, idOf);
    assert IdsOf(s, idOf)[r.value] == IdsOf(s, idOf)[j];
  }

  /** Replacing a record by one with the same identifier keeps the identifiers. */
  lemma IdsOfUpdate<T>(s: seq<T>, idOf: T -> int, i: nat, x: T)
    requires i < |s| && idOf(x) == idOf(s[i])
    ensures IdsOf(s[i := x], idOf) == IdsOf(s, idOf)
  {
  }

  /** Removing a record keeps the other identifiers distinct. */
  lemma IdsOfRemoveAt<T>(s: seq<T>, idOf: T -> int, i: nat)
    requires i < |s| && Distinct(IdsOf(s, idOf))
    ensures Distinct(IdsOf(RemoveAt(s, i), idOf))
  {
    var r := RemoveAt(s, i);
    forall a, b | 0 <= a < b < |r|
      ensures idOf(r[a]) != idOf(r[b])
    {
      var a', b' := if a < i then a else a + 1, if b < i then b else b + 1;
      assert r[a] == s[a'] && r[b] == s[b'] && a' < b';
    }
  }

  /** A record whose identifier exceeds every present one keeps the
      identifiers distinct when put at the front (`unshift`)... */
  lemma IdsOfFreshFront<T>(s: seq<T>, idOf: T -> int, x: T)
    requires Distinct(IdsOf(s, idOf))
    requires forall i :: 0 <= i < |s| ==> idOf(s[i]) < idOf(x)
    ensures Distinct(IdsOf([x] + s, idOf))
  {
    var t := [x] + s;
    forall a, b | 0 <= a < b < |t|
      ensures idOf(t[a]) != idOf(t[b])
    {
      assert t[b] == s[b - 1];
      if a > 0 {
        assert t[a] == s[a - 1];
        assert IdsOf(s, idOf)[a - 1] != IdsOf(s, idOf)[b - 1];
      }
    }
  }

  /** ...or at the back (`push`). */
  lemma IdsOfFreshBack<T>(s: seq<T>, idOf: T -> int, x: T)
    requires Distinct(IdsOf(s, idOf))
    requires forall i :: 0 <= i < |s| ==> idOf(s[i]) < idOf(x)
    ensures Distinct(IdsOf(s + [x], idOf))
  {
    var t := s + [x];
    forall a, b | 0 <= a < b < |t|
      ensures idOf(t[a]) != idOf(t[b])
    {
      assert t[a] == s[a];
      if b < |s| {
        assert t[b] == s[b];
        assert IdsOf(s, idOf)[a] != IdsOf(s, idOf)[b];
      }
    }
  }
  /** Taking the same element out of two permutations of each other leaves
      permutations of each other. */
  lemma PermRemoveHead<T>(s: seq<T>, t: seq<T>, k: nat)
    requires multiset(s) == multiset(t) && t != [] && k < |s| && s[k] == t[0]
    ensures multiset(RemoveAt(s, k)) == multiset(t[1..])
  {
    var r := RemoveAt(s, k);
    assert t == [t[0]] + t[1..];
    assert multiset(t) == multiset{t[0]} + multiset(t[1..]);
    assert multiset(r) + multiset{t[0]} == multiset(t[1..]) + multiset{t[0]};
    forall e
      ensures multiset(r)[e] == multiset(t[1..])[e]
    {
      assert (multiset(r) + multiset{t[0]})[e] == (multiset(t[1..]) + multiset{t[0]})[e];
    }
  }

  /** With distinct identifiers, no remaining record shares the identifier of
      the one removed. */
  lemma RemovedIdGone<T>(s: seq<T>, idOf: T -> int, k: nat, y: T)
    requires Distinct(IdsOf(s, idOf)) && k < |s| && y in RemoveAt(s, k)
    ensures idOf(y) != idOf(s[k])
  {
    var r := RemoveAt(s, k);
    var m :| 0 <= m < |r| && r[m] == y;
    var m' := if m < k then m else m + 1;
    assert s[m'] == y && m' != k;
    assert IdsOf(s, idOf)[m'] != IdsOf(s, idOf)[k];
  }

  /** Reordering the records keeps their identifiers distinct. */
  lemma {:induction false} PermDistinct<T>(s: seq<T>, t: seq<T>, idOf: T -> int)
    requires multiset(s) == multiset(t) && Distinct(IdsOf(s, idOf))
    ensures Distinct(IdsOf(t, idOf))
    decreases |t|
  {
    if t != [] {
      assert t[0] in multiset(s);
      var k :| 0 <= k < |s| && s[k] == t[0];
      var s' := RemoveAt(s, k);
      IdsOfRemoveAt(s, idOf, k);
      PermRemoveHead(s, t, k);
      PermDistinct(s', t[1..], idOf);
      forall a, b | 0 <= a < b < |t|
        ensures idOf(t[a]) != idOf(t[b])
      {
        assert t[b] == t[1..][b - 1];
        if a == 0 {
          assert t[b] in multiset(s');
          RemovedIdGone(s, idOf, k, t[b]);
        } else {
          assert t[a] == t[1..][a - 1];
          assert IdsOf(t[1..], idOf)[a - 1] != IdsOf(t[1..], idOf)[b - 1];
        }
      }
    }
  }
}
