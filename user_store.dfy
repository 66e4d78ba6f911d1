/** `UserService` (src/services/api/userService.js): the in-memory member
    store. Each asynchronous call is one atomic step; `new Date()` is the `now`
    parameter. */
module UserStore {
  import opened Seqs
  import opened Ordering
  import opened Entities

  /** The member `create` stores: a fresh identifier, the caller's fields, a
      join date of now, no points and a "Low" activity level. */
  function NewUser(d: UserDraft, id: int, now: int): (u: User)
    ensures u.id == id && u.name == d.name && u.avatar == d.avatar && u.bio == d.bio
    ensures u.joinDate == now && u.points == 0 && u.activityLevel == Some("Low")
  {
    User(id, d.name, d.avatar, d.bio, 0, Some("Low"), now)
  }

  /** The member after `updatePoints`: the points change by the given amount
      (which may be negative; there is no floor), nothing else changes. */
  function WithPoints(u: User, pointsToAdd: int): (r: User)
    ensures r.points - u.points == pointsToAdd
    ensures r.(points := u.points) == u
  {
    u.(points := u.points + pointsToAdd)
  }

  /** Two point changes add up. */
  lemma WithPointsAdds(u: User, a: int, b: int)
    ensures WithPoints(WithPoints(u, a), b) == WithPoints(u, a + b)
    ensures WithPoints(u, 0) == u
  {
  }

  /** The end index of `slice(0, limit)` on an array of length `n`: a negative
      limit counts from the end, a limit past the end stops at the end. */
  function SliceEnd(n: nat, limit: int): (e: nat)
    ensures e <= n
    ensures 0 <= limit <= n ==> e == limit
    ensures limit > n ==> e == n
    ensures limit < 0 ==> e == if n + limit > 0 then n + limit else 0
  {
    if limit < 0 then (if n + limit > 0 then n + limit else 0)
    else if limit > n then n
    else limit
  }

  /** `getTopUsers(limit)`: the members by descending points (ties in store
      order), cut with `slice(0, limit)`. */
  function TopUsers(users: seq<User>, limit: int): seq<User> {
    SortDesc(users, UserPoints)[..SliceEnd(|users|, limit)]
  }

  /** What `getTopUsers` promises: as many members as the slice allows, in
      descending order of points, taken from the store, and no member left out
      has more points than any member returned. */
  lemma TopUsersSpec(users: seq<User>, limit: int)
    ensures |TopUsers(users, limit)| == SliceEnd(|users|, limit)
    ensures NonIncreasing(TopUsers(users, limit), UserPoints)
    ensures forall x :: x in TopUsers(users, limit) ==> x in users
    ensures forall x, y :: x in TopUsers(users, limit) && y in users && y !in TopUsers(users, limit) ==>
              x.points >= y.points
  {
    var sorted := SortDesc(users, UserPoints);
    SortDescSpec(users, UserPoints);
    var r := TopUsers(users, limit);
    forall x | x in r
      ensures x in users
    {
      assert x in multiset(sorted);
    }
    forall x, y | x in r && y in users && y !in r
      ensures x.points >= y.points
    {
      assert y in multiset(sorted);
      var i :| 0 <= i < |r| && r[i] == x;
      var j :| 0 <= j < |sorted| && sorted[j] == y;
      assert j >= |r|;
      assert UserPoints(sorted[i]) >= UserPoints(sorted[j]);
    }
  }

  class UserService {
    var users: seq<User>

    /** Identifiers are unique among the stored members. */
    ghost predicate Valid()
      reads this
    {
      Distinct(IdsOf(users, UserId))
    }

    /** `this.users = [...usersData]` */
    constructor (fixture: seq<User>)
      requires Distinct(IdsOf(fixture, UserId))
      ensures Valid() && users == fixture
    {
      users := fixture;
    }

    /** `getAll`: every member, in store order. */
    method GetAll() returns (r: seq<User>)
      ensures r == users
    {
      r := users;
    }

    /** `getById`: the first member with the identifier, or NotFound. */
    method GetById(id: int) returns (r: Result<User>)
      ensures r.Ok? <==> id in IdsOf(users, UserId)
      ensures r.Ok? ==> r.value == users[IndexOfId(users, UserId, id).value] && r.value.id == id
      ensures r.Err? ==> r.error == NotFound(UserKind, id)
    {
      match IndexOfId(users, UserId, id)
      case None => r := Err(NotFound(UserKind, id));
      case Some(i) => r := Ok(users[i]);
    }

    /** `create`: the new member gets an identifier above every present one
        and goes to the end (`push`). */
    method Create(draft: UserDraft, now: int) returns (r: User)
      requires Valid()
      modifies this
      ensures Valid()
      ensures r == NewUser(draft, NextId(IdsOf(old(users), UserId)), now)
      ensures forall i :: 0 <= i < |old(users)| ==> old(users)[i].id < r.id
      ensures users == old(users) + [r]
    {
      r := NewUser(draft, NextId(IdsOf(users, UserId)), now);
      IdsOfFreshBack(users, UserId, r);
      users := users + [r];
    }

    /** `update`: shallow-merges the patch over the first member with the
        identifier, in place; NotFound leaves the store as it was. */
    method Update(id: int, patch: UserPatch) returns (r: Result<User>)
      requires Valid()
      modifies this
      ensures Valid()
      ensures match IndexOfId(old(users), UserId, id)
        case None => r == Err(NotFound(UserKind, id)) && users == old(users)
        case Some(i) => users == old(users)[i := patch.Over(old(users)[i])] && r == Ok(users[i])
    {
      match IndexOfId(users, UserId, id)
      case None =>
        r := Err(NotFound(UserKind, id));
      case Some(i) =>
        IdsOfUpdate(users, UserId, i, patch.Over(users[i]));
        users := users[i := patch.Over(users[i])];
        r := Ok(users[i]);
    }

    /** `delete`: removes the first member with the identifier and returns it;
        NotFound leaves the store as it was. */
    method Delete(id: int) returns (r: Result<User>)
      requires Valid()
      modifies this
      ensures Valid()
      ensures match IndexOfId(old(users), UserId, id)
        case None => r == Err(NotFound(UserKind, id)) && users == old(users)
        case Some(i) => users == RemoveAt(old(users), i) && r == Ok(old(users)[i])
    {
      match IndexOfId(users, UserId, id)
      case None =>
        r := Err(NotFound(UserKind, id));
      case Some(i) =>
        IdsOfRemoveAt(users, UserId, i);
        r := Ok(users[i]);
        users := RemoveAt(users, i);
    }

    /** `updatePoints`: reads the member, then updates it with the points
        added. */
    method UpdatePoints(id: int, pointsToAdd: int) returns (r: Result<User>)
      requires Valid()
      modifies this
      ensures Valid()
      ensures match IndexOfId(old(users), UserId, id)
        case None => r == Err(NotFound(UserKind, id)) && users == old(users)
        case Some(i) =>
          users == old(users)[i := WithPoints(old(users)[i], pointsToAdd)] &&
          r == Ok(WithPoints(old(users)[i], pointsToAdd))
    {
      var got := GetById(id);
      if got.Err? {
        return got;
      }
      var user := got.value;
      UserPatchOfOver(WithPoints(user, pointsToAdd), user);
      r := Update(id, UserPatchOf(WithPoints(user, pointsToAdd)));
    }

    /** `getTopUsers`: sorts the store itself by descending points (the sort
        is in place, so later reads see the new order) and returns the first
        `limit` members. */
    method GetTopUsers(limit: int := 10) returns (r: seq<User>)
      requires Valid()
      modifies this
      ensures Valid()
      ensures users == SortDesc(old(users), UserPoints)
      ensures r == TopUsers(old(users), limit)
    {
      SortDescSpec(users, UserPoints);
      PermDistinct(users, SortDesc(users, UserPoints), UserId);
      r := TopUsers(users, limit);
      users := SortDesc(users, UserPoints);
    }
  }
}
