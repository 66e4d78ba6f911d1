/** The members directory (src/components/pages/Members.jsx): the search over
    name, bio and activity level, the listing by points, and the statistics
    above it. */
module Members {
  import opened Seqs
  import opened Text
  import opened Ordering
  import opened Entities

  /** `member.bio?.toLowerCase().includes(query)` and its siblings: an absent
      field never matches. */
  predicate FieldIncludes(field: Option<string>, query: string) {
    field.Some? && Includes(Lower(field.value), query)
  }

  /** The search filter: an empty query keeps everyone; otherwise the
      lower-cased query occurs in the lower-cased name, bio or activity
      level. */
  predicate MatchesSearch(query: string, m: User) {
    query == [] ||
    Includes(Lower(m.name), Lower(query)) ||
    FieldIncludes(m.bio, Lower(query)) ||
    FieldIncludes(m.activityLevel, Lower(query))
  }

  /** The members the search keeps, in list order. */
  function Matching(members: seq<User>, query: string): (r: seq<User>)
    ensures forall i :: 0 <= i < |r| ==> MatchesSearch(query, r[i])
    ensures forall m :: m in members && MatchesSearch(query, m) ==> m in r
    ensures IsSubsequence(r, members)
    ensures |r| <= |members|
  {
    Filter(members, (m: User) => MatchesSearch(query, m))
  }

  /** `filteredMembers`: the matching members sorted by non-increasing
      points. */
  function FilteredMembers(members: seq<User>, query: string): (r: seq<User>)
    ensures |r| == |Matching(members, query)| <= |members|
  {
    SortDesc(Matching(members, query), UserPoints)
  }

  /** The listing holds each matching member as often as the list does,
      ordered by points, ties in list order; with an empty search it holds
      every member. */
  lemma FilteredMembersSpec(members: seq<User>, query: string)
    ensures multiset(FilteredMembers(members, query)) == multiset(Matching(members, query))
    ensures NonIncreasing(FilteredMembers(members, query), UserPoints)
    ensures forall k :: WithKey(FilteredMembers(members, query), UserPoints, k) == WithKey(Matching(members, query), UserPoints, k)
    ensures query == [] ==> multiset(FilteredMembers(members, query)) == multiset(members)
  {
    SortDescSpec(Matching(members, query), UserPoints);
    if query == [] {
      FilterAll(members, (m: User) => MatchesSearch(query, m));
    }
  }

  /** Searching is blind to letter case in the query. */
  lemma SearchIgnoresCase(members: seq<User>, query: string)
    ensures Matching(members, Lower(query)) == Matching(members, query)
  {
    LowerIdempotent(query);
    forall m | m in members
      ensures MatchesSearch(Lower(query), m) == MatchesSearch(query, m)
    {
      assert (Lower(query) == []) == (query == []);
    }
    FilterEquiv(members, (m: User) => MatchesSearch(Lower(query), m), (m: User) => MatchesSearch(query, m));
  }

  predicate HighlyActive(m: User) {
    m.activityLevel == Some("High")
  }

  /** The "Highly Active" statistic: the members whose activity level is
      exactly "High". */
  function HighlyActiveCount(members: seq<User>): (n: nat)
    ensures n <= |members|
    ensures n == 0 <==> forall i :: 0 <= i < |members| ==> !HighlyActive(members[i])
    ensures n == |Positions(members, HighlyActive)|
  {
    var r := Filter(members, HighlyActive);
    FilterCountsPositions(members, HighlyActive);
    assert r != [] ==> r[0] in members && HighlyActive(r[0]);
    |r|
  }

  /** The member points, in list order. */
  function PointsOf(members: seq<User>): (r: seq<int>)
    ensures |r| == |members|
    ensures forall i :: 0 <= i < |members| ==> r[i] == members[i].points
  {
    seq(|members|, i requires 0 <= i < |members| => members[i].points)
  }

  /** `Math.round(total / n)` for `n > 0`: the integer nearest the mean, a
      half rounded up. */
  function RoundedMean(total: int, n: int): (r: int)
    requires n > 0
    ensures 2 * (n * r) - n <= 2 * total < 2 * (n * r) + n
  {
    (2 * total + n) / (2 * n)
  }

  /** The "Avg Points" statistic: the rounded mean of the points, and 0 with
      no members (where the division gives NaN and `|| 0` takes over). */
  function AveragePoints(members: seq<User>): (r: int)
    ensures members == [] ==> r == 0
    ensures members != [] ==> r == RoundedMean(Sum(PointsOf(members)), |members|)
  {
    if members == [] then 0 else RoundedMean(Sum(PointsOf(members)), |members|)
  }

  /** Points all in `[lo, hi]` add up to between `n * lo` and `n * hi`. */
  lemma {:induction false} SumBounds(xs: seq<int>, lo: int, hi: int)
    requires forall i :: 0 <= i < |xs| ==> lo <= xs[i] <= hi
    ensures |xs| * lo <= Sum(xs) <= |xs| * hi
  {
    if xs != [] {
      SumBounds(xs[1..], lo, hi);
    }
  }

  /** Multiplying by a non-negative number keeps the order. */
  lemma MulMono(n: int, a: int, b: int)
    requires n >= 0 && a <= b
    ensures n * a <= n * b
  {
    assert n * b - n * a == n * (b - a);
  }

  /** A rounded mean of a total between `n * lo` and `n * hi` lies between
      `lo` and `hi`. */
  lemma RoundedMeanBounds(total: int, n: int, lo: int, hi: int)
    requires n > 0 && n * lo <= total <= n * hi
    ensures lo <= RoundedMean(total, n) <= hi
  {
    var r := RoundedMean(total, n);
    assert n * (hi + 1) == n * hi + n;
    assert n * (r + 1) == n * r + n;
    if r > hi {
      MulMono(n, hi + 1, r);
      assert false;
    }
    if r < lo {
      MulMono(n, r + 1, lo);
      assert false;
    }
  }

  /** The average never leaves the range of the members' points. */
  lemma AverageWithinPoints(members: seq<User>, lo: int, hi: int)
    requires forall i :: 0 <= i < |members| ==> lo <= members[i].points <= hi
    ensures members != [] ==> lo <= AveragePoints(members) <= hi
  {
    if members != [] {
      SumBounds(PointsOf(members), lo, hi);
      RoundedMeanBounds(Sum(PointsOf(members)), |members|, lo, hi);
    }
  }

  /** When everyone has the same points, that is the average. */
  lemma AverageOfEqualPoints(members: seq<User>, p: int)
    requires members != [] && forall i :: 0 <= i < |members| ==> members[i].points == p
    ensures AveragePoints(members) == p
  {
    AverageWithinPoints(members, p, p);
  }
}
