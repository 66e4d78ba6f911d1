/** `PostService` (src/services/api/postService.js): the in-memory post store.
    Each asynchronous call is one atomic step; the simulated delay is left
    out and `new Date()` / `Date.now()` are the `now` parameters. */
module PostStore {
  import opened Seqs
  import opened Text
  import opened Entities

  /** The post after `like`: one more like, nothing else changed. */
  function Liked(p: Post): (r: Post)
    ensures r.likes == p.likes + 1 && r.(likes := p.likes) == p
  {
    p.(likes := p.likes + 1)
  }

  /** The post after `unlike`: one like fewer, but never below zero. */
  function Unliked(p: Post): (r: Post)
    ensures r.likes >= 0
    ensures p.likes > 0 ==> r.likes == p.likes - 1
    ensures p.likes <= 0 ==> r.likes == 0
    ensures r.(likes := p.likes) == p
  {
    p.(likes := if p.likes - 1 > 0 then p.likes - 1 else 0)
  }

  /** Unliking undoes a like on any post with a non-negative count, and
      unliking a post with no likes leaves it as it is. */
  lemma UnlikeAfterLike(p: Post)
    requires p.likes >= 0
    ensures Unliked(Liked(p)) == p
    ensures p.likes == 0 ==> Unliked(p) == p
  {
  }

  /** The fields `addComment` receives; an `id` the caller supplies wins over
      the generated one (`{ id: Date.now(), ...comment, timestamp }`). */
  datatype CommentDraft = CommentDraft(id: Option<int>, content: string, authorId: string)

  function NewComment(d: CommentDraft, now: int): (c: Comment)
    ensures c.timestamp == now && c.content == d.content && c.authorId == d.authorId
    ensures d.id.None? ==> c.id == now
  {
    Comment(d.id.GetOr(now), d.content, d.authorId, now)
  }

  /** The post with `c` appended to its comments (`[...(post.comments || []), c]`). */
  function WithComment(p: Post, c: Comment): (r: Post)
    ensures r.comments.Some? && r.comments.value == p.comments.GetOr([]) + [c]
    ensures r.(comments := p.comments) == p
  {
    p.(comments := Some(p.comments.GetOr([]) + [c]))
  }

  /** The post `create` stores: a fresh identifier, the caller's fields, and
      the store's own timestamp, like count and comment list. */
  function NewPost(d: PostDraft, id: int, now: int): (p: Post)
    ensures p.id == id && p.title == d.title && p.content == d.content
    ensures p.category == d.category && p.authorId == d.authorId
    ensures p.timestamp == now && p.likes == 0 && p.comments == Some([])
  {
    Post(id, d.title, d.content, d.category, d.authorId, now, 0, Some([]))
  }

  /** `getByCategory`: exact category match, in store order. */
  function InCategory(posts: seq<Post>, category: string): (r: seq<Post>)
    ensures forall i :: 0 <= i < |r| ==> r[i].category == category
    ensures forall p :: p in posts && p.category == category ==> p in r
    ensures IsSubsequence(r, posts)
  {
    Filter(posts, (p: Post) => p.category == category)
  }

  /** `getByAuthor`: exact author match, in store order. */
  function ByAuthor(posts: seq<Post>, authorId: string): (r: seq<Post>)
    ensures forall i :: 0 <= i < |r| ==> r[i].authorId == authorId
    ensures forall p :: p in posts && p.authorId == authorId ==> p in r
    ensures IsSubsequence(r, posts)
  {
    Filter(posts, (p: Post) => p.authorId == authorId)
  }

  /** The `search` condition: the lower-cased term occurs in the lower-cased
      title or content. */
  predicate MatchesSearch(term: string, p: Post) {
    Includes(Lower(p.title), term) || Includes(Lower(p.content), term)
  }

  /** `search`: a case-insensitive substring match on title or content, in
      store order. */
  function Search(posts: seq<Post>, query: string): (r: seq<Post>)
    ensures forall i :: 0 <= i < |r| ==> MatchesSearch(Lower(query), r[i])
    ensures forall p :: p in posts && MatchesSearch(Lower(query), p) ==> p in r
    ensures IsSubsequence(r, posts)
  {
    Filter(posts, (p: Post) => MatchesSearch(Lower(query), p))
  }

  /** Upper- and lower-case spellings of a query find the same posts. */
  lemma SearchIgnoresCase(posts: seq<Post>, query: string)
    ensures Search(posts, Lower(query)) == Search(posts, query)
  {
    LowerIdempotent(query);
  }

  class PostService {
    var posts: seq<Post>

    /** Identifiers are unique among the stored posts. */
    ghost predicate Valid()
      reads this
    {
      Distinct(IdsOf(posts, PostId))
    }

    /** `this.posts = [...postsData]` */
    constructor (fixture: seq<Post>)
      requires Distinct(IdsOf(fixture, PostId))
      ensures Valid() && posts == fixture
    {
      posts := fixture;
    }

    /** `getAll`: every post, in store order. */
    method GetAll() returns (r: seq<Post>)
      ensures r == posts
    {
      r := posts;
    }

    /** `getById`: the first post with the identifier, or NotFound. */
    method GetById(id: int) returns (r: Result<Post>)
      ensures r.Ok? <==> id in IdsOf(posts, PostId)
      ensures r.Ok? ==> r.value == posts[IndexOfId(posts, PostId, id).value] && r.value.id == id
      ensures r.Err? ==> r.error == NotFound(PostKind, id)
    {
      match IndexOfId(posts, PostId, id)
      case None => r := Err(NotFound(PostKind, id));
      case Some(i) => r := Ok(posts[i]);
    }

    /** `create`: the new post gets an identifier above every present one and
        goes to the front (`unshift`). */
    method Create(draft: PostDraft, now: int) returns (r: Post)
      requires Valid()
      modifies this
      ensures Valid()
      ensures r == NewPost(draft, NextId(IdsOf(old(posts), PostId)), now)
      ensures forall i :: 0 <= i < |old(posts)| ==> old(posts)[i].id < r.id
      ensures posts == [r] + old(posts)
    {
      r := NewPost(draft, NextId(IdsOf(posts, PostId)), now);
      IdsOfFreshFront(posts, PostId, r);
      posts := [r] + posts;
    }

    /** `update`: shallow-merges the patch over the first post with the
        identifier, in place; NotFound leaves the store as it was. */
    method Update(id: int, patch: PostPatch) returns (r: Result<Post>)
      requires Valid()
      modifies this
      ensures Valid()
      ensures match IndexOfId(old(posts), PostId, id)
        case None => r == Err(NotFound(PostKind, id)) && posts == old(posts)
        case Some(i) => posts == old(posts)[i := patch.Over(old(posts)[i])] && r == Ok(posts[i])
    {
      match IndexOfId(posts, PostId, id)
      case None =>
        r := Err(NotFound(PostKind, id));
      case Some(i) =>
        IdsOfUpdate(posts, PostId, i, patch.Over(posts[i]));
        posts := posts[i := patch.Over(posts[i])];
        r := Ok(posts[i]);
    }

    /** `delete`: removes the first post with the identifier and returns it;
        NotFound leaves the store as it was. */
    method Delete(id: int) returns (r: Result<Post>)
      requires Valid()
      modifies this
      ensures Valid()
      ensures match IndexOfId(old(posts), PostId, id)
        case None => r == Err(NotFound(PostKind, id)) && posts == old(posts)
        case Some(i) => posts == RemoveAt(old(posts), i) && r == Ok(old(posts)[i])
    {
      match IndexOfId(posts, PostId, id)
      case None =>
        r := Err(NotFound(PostKind, id));
      case Some(i) =>
        IdsOfRemoveAt(posts, PostId, i);
        r := Ok(posts[i]);
        posts := RemoveAt(posts, i);
    }

    method GetByCategory(category: string) returns (r: seq<Post>)
      ensures r == InCategory(posts, category)
    {
      r := InCategory(posts, category);
    }

    method GetByAuthor(authorId: string) returns (r: seq<Post>)
      ensures r == ByAuthor(posts, authorId)
    {
      r := ByAuthor(posts, authorId);
    }

    method SearchPosts(query: string) returns (r: seq<Post>)
      ensures r == Search(posts, query)
    {
      r := Search(posts, query);
    }

    /** `like`: reads the post, then updates it with one more like. */
    method Like(id: int) returns (r: Result<Post>)
      requires Valid()
      modifies this
      ensures Valid()
      ensures match IndexOfId(old(posts), PostId, id)
        case None => r == Err(NotFound(PostKind, id)) && posts == old(posts)
        case Some(i) => posts == old(posts)[i := Liked(old(posts)[i])] && r == Ok(Liked(old(posts)[i]))
    {
      var got := GetById(id);
      if got.Err? {
        return got;
      }
      var post := got.value;
      PostPatchOfOver(Liked(post), post);
      r := Update(id, PostPatchOf(Liked(post)));
    }

    /** `unlike`: reads the post, then updates it with one like fewer, floored
        at zero. */
    method Unlike(id: int) returns (r: Result<Post>)
      requires Valid()
      modifies this
      ensures Valid()
      ensures match IndexOfId(old(posts), PostId, id)
        case None => r == Err(NotFound(PostKind, id)) && posts == old(posts)
        case Some(i) => posts == old(posts)[i := Unliked(old(posts)[i])] && r == Ok(Unliked(old(posts)[i]))
    {
      var got := GetById(id);
      if got.Err? {
        return got;
      }
      var post := got.value;
      PostPatchOfOver(Unliked(post), post);
      r := Update(id, PostPatchOf(Unliked(post)));
    }

    /** `addComment`: appends a timestamped comment to the post's comments. */
    method AddComment(id: int, draft: CommentDraft, now: int) returns (r: Result<Post>)
      requires Valid()
      modifies this
      ensures Valid()
      ensures match IndexOfId(old(posts), PostId, id)
        case None => r == Err(NotFound(PostKind, id)) && posts == old(posts)
        case Some(i) =>
          var updated := WithComment(old(posts)[i], NewComment(draft, now));
          posts == old(posts)[i := updated] && r == Ok(updated)
    {
      var got := GetById(id);
      if got.Err? {
        return got;
      }
      var post := got.value;
      var updated := WithComment(post, NewComment(draft, now));
      PostPatchOfOver(updated, post);
      r := Update(id, PostPatchOf(updated));
    }
  }

  /** A post just created can be read back: `getById` of its identifier finds
      exactly the created post (identifiers are unique in a valid store). */
  lemma CreateThenGet(posts: seq<Post>, d: PostDraft, now: int)
    requires Distinct(IdsOf(posts, PostId))
    ensures var p := NewPost(d, NextId(IdsOf(posts, PostId)), now);
            IndexOfId([p] + posts, PostId, p.id) == Some(0)
  {
  }

  /** After a delete no post carries the identifier any more, so a following
      `getById` fails with NotFound. */
  lemma DeleteThenGet(posts: seq<Post>, i: nat)
    requires Distinct(IdsOf(posts, PostId)) && i < |posts|
    ensures IndexOfId(RemoveAt(posts, i), PostId, posts[i].id).None?
  {
    var r := RemoveAt(posts, i);
    forall j | 0 <= j < |r|
      ensures r[j].id != posts[i].id
    {
      var j' := if j < i then j else j + 1;
      assert r[j] == posts[j'] && j' != i;
      assert IdsOf(posts, PostId)[j'] != IdsOf(posts, PostId)[i];
    }
  }

  /** Identifiers can come back: after deleting the post with the largest
      identifier `m`, the next `create` hands out an identifier no larger
      than `m`, and exactly `m` when `m - 1` is still in use or `m` is 1. */
  lemma {:induction false} IdReusedAfterDelete(rest: seq<int>, m: int)
    requires forall i :: 0 <= i < |rest| ==> rest[i] < m
    requires m >= 1
    ensures NextId(rest + [m]) == m + 1
    ensures NextId(rest) <= m
    ensures NextId(rest) == m <==> m - 1 in rest || m == 1
  {
    assert (rest + [m])[|rest|] == m;
    var x := MaxOrZero(rest);
    if m - 1 in rest {
      var k :| 0 <= k < |rest| && rest[k] == m - 1;
      assert x >= rest[k];
    }
    if x == m - 1 && m != 1 {
      var k :| 0 <= k < |rest| && rest[k] == x;
      assert rest[k] in rest;
    }
  }

  /** Deleting 5 from the identifiers 1 and 5 makes the next identifier 2. */
  lemma IdAfterDeleteExample()
    ensures NextId([1]) == 2 && NextId([1, 5]) == 6
  {
    assert [1, 5][1..] == [5];
  }
}
