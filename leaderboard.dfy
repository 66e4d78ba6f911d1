/** The leaderboard (src/components/pages/Leaderboard.jsx): the members
    sorted by points, in place, and numbered from 1; the badges of the top
    three ranks; and the guards for the podium and the empty state. */
module Leaderboard {
  import opened Seqs
  import opened Ordering
  import opened Entities
  import UserStore

  /** A member with the rank the page adds (`{ ...member, rank }`). */
  datatype RankedMember = RankedMember(member: User, rank: int)

  /** `.map((member, index) => ({ ...member, rank: index + 1 }))` */
  function Ranked(members: seq<User>): (r: seq<RankedMember>)
    ensures |r| == |members|
  {
    seq(|members|, i requires 0 <= i < |members| => RankedMember(members[i], i + 1))
  }

  /** Numbering keeps every member as it was, in order, and hands out the
      ranks 1 to n, one per position, so tied members get different ranks. */
  lemma RanksSpec(members: seq<User>)
    ensures forall i :: 0 <= i < |members| ==> Ranked(members)[i].member == members[i]
    ensures forall i :: 0 <= i < |members| ==> Ranked(members)[i].rank == i + 1
    ensures forall i, j :: 0 <= i < j < |members| ==> Ranked(members)[i].rank < Ranked(members)[j].rank
  {
  }

  /** `rankedMembers`: the members in non-increasing order of points, equal
      points in their previous order, numbered from 1. */
  function RankedMembers(members: seq<User>): seq<RankedMember> {
    Ranked(SortDesc(members, UserPoints))
  }

  /** What the page shows: every member once, higher points never ranked
      below lower points, and ties keep the order the store gave. */
  lemma RankedMembersSpec(members: seq<User>)
    ensures |RankedMembers(members)| == |members|
    ensures multiset(seq(|members|, i requires 0 <= i < |members| => RankedMembers(members)[i].member)) == multiset(members)
    ensures forall i, j :: 0 <= i < j < |members| ==>
              RankedMembers(members)[i].member.points >= RankedMembers(members)[j].member.points
    ensures forall k :: WithKey(SortDesc(members, UserPoints), UserPoints, k) == WithKey(members, UserPoints, k)
  {
    var sorted := SortDesc(members, UserPoints);
    SortDescSpec(members, UserPoints);
    assert seq(|members|, i requires 0 <= i < |members| => RankedMembers(members)[i].member) == sorted;
    forall i, j | 0 <= i < j < |members|
      ensures RankedMembers(members)[i].member.points >= RankedMembers(members)[j].member.points
    {
      assert UserPoints(sorted[i]) >= UserPoints(sorted[j]);
    }
  }

  /** Two members with 100 points around one with 50 are ranked 1 and 2 in
      the order the store gave them; the other member is third. */
  lemma TiesKeepStoreOrder(a: User, b: User, c: User)
    requires a.points == 100 && b.points == 50 && c.points == 100
    ensures RankedMembers([a, b, c]) == [RankedMember(a, 1), RankedMember(c, 2), RankedMember(b, 3)]
  {
    assert [a, b, c][..2] == [a, b];
    assert [a, b][..1] == [a];
    assert [a][..0] == [];
    assert SortDesc([a], UserPoints) == [a];
    assert [a][1..] == [];
    assert Insert(b, [a], UserPoints) == [a] + Insert(b, [], UserPoints) == [a, b];
    assert SortDesc([a, b], UserPoints) == [a, b];
    assert [a, b][1..] == [b];
    assert [b][1..] == [];
    assert Insert(c, [b], UserPoints) == [c, b];
    assert Insert(c, [a, b], UserPoints) == [a] + Insert(c, [b], UserPoints);
    assert SortDesc([a, b, c], UserPoints) == [a, c, b];
  }

  /** The icon, colour and background of a medal. */
  datatype RankBadge = RankBadge(icon: string, color: string, bg: string)

  /** `getRankBadge`: a crown, an award and a medal for the first three
      ranks; nothing for any other rank. */
  function RankBadgeOf(rank: int): (b: Option<RankBadge>)
    ensures b.Some? <==> 1 <= rank <= 3
  {
    if rank == 1 then Some(RankBadge("Crown", "text-yellow-400", "bg-yellow-400/20"))
    else if rank == 2 then Some(RankBadge("Award", "text-gray-300", "bg-gray-300/20"))
    else if rank == 3 then Some(RankBadge("Medal", "text-amber-600", "bg-amber-600/20"))
    else None
  }

  /** Exactly the first three places of the ranking carry a badge. */
  lemma BadgesForTopThree(members: seq<User>)
    ensures forall i :: 0 <= i < |members| ==> (RankBadgeOf(RankedMembers(members)[i].rank).Some? <==> i < 3)
  {
    RanksSpec(SortDesc(members, UserPoints));
  }

  /** The podium is drawn only with at least three members. */
  predicate ShowsPodium(ranked: seq<RankedMember>) {
    |ranked| >= 3
  }

  /** The empty state replaces the full ranking only with no members. */
  predicate ShowsEmpty(ranked: seq<RankedMember>) {
    |ranked| == 0
  }

  /** The podium's three columns, left to right: second, first, third. */
  datatype Podium = Podium(left: RankedMember, center: RankedMember, right: RankedMember)

  function PodiumOf(ranked: seq<RankedMember>): (p: Podium)
    requires ShowsPodium(ranked)
    ensures p.center == ranked[0] && p.left == ranked[1] && p.right == ranked[2]
  {
    Podium(ranked[1], ranked[0], ranked[2])
  }

  /** The podium puts the winner in the middle, ranked 1 with at least the
      points of both neighbours, and the podium and the empty state never
      show together. */
  lemma PodiumSpec(members: seq<User>)
    requires ShowsPodium(RankedMembers(members))
    ensures var p := PodiumOf(RankedMembers(members));
            p.center.rank == 1 && p.left.rank == 2 && p.right.rank == 3 &&
            p.center.member.points >= p.left.member.points >= p.right.member.points
    ensures !ShowsEmpty(RankedMembers(members))
  {
    RankedMembersSpec(members);
  }

  class LeaderboardPage {
    var members: seq<User>
    var timeFrame: string

    /** The initial state of the page's hooks. */
    constructor ()
      ensures members == [] && timeFrame == "All Time"
    {
      members := [];
      timeFrame := "All Time";
    }

    /** `loadMembers`: every member from the store. */
    method LoadMembers(store: UserStore.UserService)
      modifies this
      ensures members == store.users && timeFrame == old(timeFrame)
    {
      members := store.GetAll();
    }

    /** The render's `members.sort(...).map(...)`: the sort reorders the
        page's own member list before the ranks are added. */
    method RankMembers() returns (r: seq<RankedMember>)
      modifies this
      ensures members == SortDesc(old(members), UserPoints)
      ensures r == RankedMembers(old(members))
      ensures timeFrame == old(timeFrame)
    {
      members := SortDesc(members, UserPoints);
      r := Ranked(members);
    }
  }
}
