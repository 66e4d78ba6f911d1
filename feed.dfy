/** The community feed (src/components/pages/Feed.jsx): the category tabs
    and their counts, the visible posts newest first, and the handlers that
    toggle a like, append a comment and show a newly created post. A like or
    a comment changes the page's list first and is then written to the post
    store; when the store rejects the write the page reloads its data. */
module Feed {
  import opened Seqs
  import opened Ordering
  import opened Entities
  import PostStore
  import UserStore
  import PostCard

  function PostTimestamp(p: Post): int { p.timestamp }

  /** "All Posts" passes every post; any other tab keeps the posts whose
      category is exactly the tab's value. */
  predicate MatchesTab(filter: string, p: Post) {
    filter == "All Posts" || p.category == filter
  }

  /** The posts the active tab passes, in list order. */
  function InTab(posts: seq<Post>, filter: string): (r: seq<Post>)
    ensures forall i :: 0 <= i < |r| ==> MatchesTab(filter, r[i])
    ensures forall p :: p in posts && MatchesTab(filter, p) ==> p in r
    ensures IsSubsequence(r, posts)
  {
    Filter(posts, (p: Post) => MatchesTab(filter, p))
  }

  /** `filteredPosts`: the tab's posts, newest first. */
  function FilteredPosts(posts: seq<Post>, filter: string): (r: seq<Post>)
    ensures |r| == |InTab(posts, filter)|
  {
    SortDesc(InTab(posts, filter), PostTimestamp)
  }

  /** The visible posts are exactly the tab's posts, each as often as in the
      list, ordered by non-increasing timestamp, with posts of equal
      timestamp in list order. */
  lemma FilteredPostsSpec(posts: seq<Post>, filter: string)
    ensures multiset(FilteredPosts(posts, filter)) == multiset(InTab(posts, filter))
    ensures NonIncreasing(FilteredPosts(posts, filter), PostTimestamp)
    ensures forall t :: WithKey(FilteredPosts(posts, filter), PostTimestamp, t) == WithKey(InTab(posts, filter), PostTimestamp, t)
    ensures forall i :: 0 <= i < |FilteredPosts(posts, filter)| ==> MatchesTab(filter, FilteredPosts(posts, filter)[i])
  {
    SortDescSpec(InTab(posts, filter), PostTimestamp);
    var r := FilteredPosts(posts, filter);
    forall i | 0 <= i < |r|
      ensures MatchesTab(filter, r[i])
    {
      assert r[i] in multiset(r);
    }
  }

  /** Under "All Posts" every post of the list is shown. */
  lemma AllPostsShown(posts: seq<Post>)
    ensures multiset(FilteredPosts(posts, "All Posts")) == multiset(posts)
  {
    FilterAll(posts, (p: Post) => MatchesTab("All Posts", p));
    FilteredPostsSpec(posts, "All Posts");
  }

  datatype Tab = Tab(caption: string, value: string, count: nat)

  /** `filterTabs`: the four tabs with their counts. */
  function FilterTabs(posts: seq<Post>): (r: seq<Tab>)
    ensures |r| == 4
    ensures r[0].value == "All Posts" && r[1].value == "Announcements"
    ensures r[2].value == "Questions" && r[3].value == "Discussions"
    ensures forall k :: 0 <= k < |r| ==> r[k].caption == r[k].value
  {
    [Tab("All Posts", "All Posts", |posts|),
     Tab("Announcements", "Announcements", |PostStore.InCategory(posts, "Announcements")|),
     Tab("Questions", "Questions", |PostStore.InCategory(posts, "Questions")|),
     Tab("Discussions", "Discussions", |PostStore.InCategory(posts, "Discussions")|)]
  }

  /** A category tab's value is a category, so the tab passes the posts of
      that category. */
  lemma CategoryTab(posts: seq<Post>, category: string)
    requires category != "All Posts"
    ensures InTab(posts, category) == PostStore.InCategory(posts, category)
  {
    FilterEquiv(posts, (p: Post) => MatchesTab(category, p), (p: Post) => p.category == category);
  }

  /** Each tab's count is the number of posts the page shows under it; the
      "All Posts" count is the whole list. */
  lemma TabCountsMatchShown(posts: seq<Post>)
    ensures FilterTabs(posts)[0].count == |posts| == |FilteredPosts(posts, "All Posts")|
    ensures FilterTabs(posts)[1].count == |FilteredPosts(posts, "Announcements")|
    ensures FilterTabs(posts)[2].count == |FilteredPosts(posts, "Questions")|
    ensures FilterTabs(posts)[3].count == |FilteredPosts(posts, "Discussions")|
  {
    FilterAll(posts, (p: Post) => MatchesTab("All Posts", p));
    CategoryTab(posts, "Announcements");
    CategoryTab(posts, "Questions");
    CategoryTab(posts, "Discussions");
  }

  /** `newLikeCount`: one fewer for a post the member has liked, one more
      otherwise. There is no floor at zero. */
  function LikeCount(p: Post, isLiked: bool): (n: int)
    ensures isLiked ==> n == p.likes - 1
    ensures !isLiked ==> n == p.likes + 1
  {
    if isLiked then p.likes - 1 else p.likes + 1
  }

  /** `prev.map(p => p.Id === postId ? { ...p, likes: n } : p)` */
  function SetLikes(posts: seq<Post>, postId: int, n: int): (r: seq<Post>)
    ensures |r| == |posts|
    ensures forall i :: 0 <= i < |posts| ==>
              r[i] == if posts[i].id == postId then posts[i].(likes := n) else posts[i]
  {
    seq(|posts|, i requires 0 <= i < |posts| => if posts[i].id == postId then posts[i].(likes := n) else posts[i])
  }

  /** The liked set with `postId` added or removed. */
  function Toggled(liked: set<int>, postId: int): (r: set<int>)
    ensures postId in r <==> postId !in liked
    ensures forall id :: id != postId ==> (id in r <==> id in liked)
  {
    if postId in liked then liked - {postId} else liked + {postId}
  }

  /** The page's own record of likes: the list and the liked identifiers. */
  datatype LikeState = LikeState(posts: seq<Post>, liked: set<int>)

  /** The local part of `handleLike`: nothing happens for a post not in the
      list; otherwise the post's membership in the liked set flips and its
      like count moves one step the matching way. */
  function ToggleLike(s: LikeState, postId: int): (r: LikeState)
    ensures postId !in IdsOf(s.posts, PostId) ==> r == s
    ensures |r.posts| == |s.posts|
    ensures forall i :: 0 <= i < |s.posts| && s.posts[i].id != postId ==> r.posts[i] == s.posts[i]
    ensures postId in IdsOf(s.posts, PostId) ==>
              var i := IndexOfId(s.posts, PostId, postId).value;
              r.liked == Toggled(s.liked, postId) &&
              r.posts[i] == s.posts[i].(likes := s.posts[i].likes + (if postId in s.liked then -1 else 1))
  {
    match IndexOfId(s.posts, PostId, postId)
    case None => s
    case Some(i) => LikeState(SetLikes(s.posts, postId, LikeCount(s.posts[i], postId in s.liked)), Toggled(s.liked, postId))
  }

  /** With distinct identifiers, setting the likes of one post is an update
      of that one position. */
  lemma SetLikesAt(posts: seq<Post>, i: nat, n: int)
    requires Distinct(IdsOf(posts, PostId)) && i < |posts|
    ensures SetLikes(posts, posts[i].id, n) == posts[i := posts[i].(likes := n)]
  {
    forall j | 0 <= j < |posts| && j != i
      ensures posts[j].id != posts[i].id
    {
      assert IdsOf(posts, PostId)[j] != IdsOf(posts, PostId)[i];
    }
  }

  /** Liking and then unliking a post (or the reverse) restores the page's
      list and liked set. */
  lemma ToggleLikeTwice(s: LikeState, postId: int)
    requires Distinct(IdsOf(s.posts, PostId))
    ensures ToggleLike(ToggleLike(s, postId), postId) == s
  {
    match IndexOfId(s.posts, PostId, postId)
    case None =>
    case Some(i) =>
      var p := s.posts[i];
      var once := ToggleLike(s, postId);
      SetLikesAt(s.posts, i, LikeCount(p, postId in s.liked));
      assert once.posts == s.posts[i := p.(likes := LikeCount(p, postId in s.liked))];
      IdsOfUpdate(s.posts, PostId, i, p.(likes := LikeCount(p, postId in s.liked)));
      IndexOfIdUnique(once.posts, PostId, postId, i);
      SetLikesAt(once.posts, i, p.likes);
      assert once.posts[i := p] == s.posts;
  }

  /** The like counts of the list, in order. */
  function LikesOf(posts: seq<Post>): (r: seq<int>)
    ensures |r| == |posts|
    ensures forall i :: 0 <= i < |posts| ==> r[i] == posts[i].likes
  {
    seq(|posts|, i requires 0 <= i < |posts| => posts[i].likes)
  }

  /** With distinct identifiers, a toggle moves the total of the page's like
      counts by exactly one. */
  lemma ToggleLikeTotal(s: LikeState, postId: int)
    requires Distinct(IdsOf(s.posts, PostId)) && postId in IdsOf(s.posts, PostId)
    ensures Sum(LikesOf(ToggleLike(s, postId).posts)) ==
            Sum(LikesOf(s.posts)) + (if postId in s.liked then -1 else 1)
  {
    var i := IndexOfId(s.posts, PostId, postId).value;
    var n := LikeCount(s.posts[i], postId in s.liked);
    SetLikesAt(s.posts, i, n);
    assert LikesOf(ToggleLike(s, postId).posts) == LikesOf(s.posts)[i := n];
    SumUpdate(LikesOf(s.posts), i, n);
  }

  /** Unlike the store's `unlike`, the page does not stop at zero: a post
      the page counts as liked but whose reloaded count is 0 goes to -1. */
  lemma UnlikeHasNoFloor(p: Post)
    requires p.likes == 0
    ensures ToggleLike(LikeState([p], {p.id}), p.id).posts[0].likes == -1
    ensures PostStore.Unliked(p).likes == 0
  {
    assert IdsOf([p], PostId)[0] == p.id;
  }

  /** `prev.map(p => p.Id === postId ? updated : p)` */
  function ReplacePost(posts: seq<Post>, postId: int, updated: Post): (r: seq<Post>)
    ensures |r| == |posts|
    ensures forall i :: 0 <= i < |posts| ==> r[i] == if posts[i].id == postId then updated else posts[i]
  {
    seq(|posts|, i requires 0 <= i < |posts| => if posts[i].id == postId then updated else posts[i])
  }

  /** The comment counts the cards show, in order. */
  function CommentCounts(posts: seq<Post>): (r: seq<int>)
    ensures |r| == |posts|
    ensures forall i :: 0 <= i < |posts| ==> r[i] == PostCard.CommentCount(posts[i])
  {
    seq(|posts|, i requires 0 <= i < |posts| => PostCard.CommentCount(posts[i]) as int)
  }

  /** With distinct identifiers, appending a comment to a post of the list
      adds exactly one to the comments the page shows, all on that post. */
  lemma CommentAppendedOnce(posts: seq<Post>, postId: int, c: Comment)
    requires Distinct(IdsOf(posts, PostId)) && postId in IdsOf(posts, PostId)
    ensures var i := IndexOfId(posts, PostId, postId).value;
            var r := ReplacePost(posts, postId, PostStore.WithComment(posts[i], c));
            r[i].comments == Some(posts[i].comments.GetOr([]) + [c]) &&
            Sum(CommentCounts(r)) == Sum(CommentCounts(posts)) + 1
  {
    var i := IndexOfId(posts, PostId, postId).value;
    var u := PostStore.WithComment(posts[i], c);
    var r := ReplacePost(posts, postId, u);
    forall j | 0 <= j < |posts| && j != i
      ensures posts[j].id != postId
    {
      assert IdsOf(posts, PostId)[j] != IdsOf(posts, PostId)[i];
    }
    assert r == posts[i := u];
    assert CommentCounts(r) == CommentCounts(posts)[i := PostCard.CommentCount(u)];
    SumUpdate(CommentCounts(posts), i, PostCard.CommentCount(u));
  }

  /** A newly created post put in front of the list is shown once more
      under every tab that passes it, and changes no other tab. */
  lemma CreatedPostCounted(posts: seq<Post>, p: Post, filter: string)
    ensures |FilteredPosts([p] + posts, filter)| ==
            |FilteredPosts(posts, filter)| + (if MatchesTab(filter, p) then 1 else 0)
  {
    var f := (q: Post) => MatchesTab(filter, q);
    FilterAppend([p], posts, f);
    assert Filter([p], f) == (if f(p) then [p] else []) by {
      assert [p][1..] == [];
    }
  }

  class FeedPage {
    var posts: seq<Post>
    var users: seq<User>
    var activeFilter: string
    var likedPosts: set<int>

    /** The initial state of the page's hooks. */
    constructor ()
      ensures posts == [] && users == [] && activeFilter == "All Posts" && likedPosts == {}
    {
      posts := [];
      users := [];
      activeFilter := "All Posts";
      likedPosts := {};
    }

    /** The posts the page lists. */
    function Shown(): seq<Post>
      reads this
    {
      FilteredPosts(posts, activeFilter)
    }

    /** `loadData`: every post and every member from the stores; the tab and
        the liked set are kept. */
    method LoadData(postStore: PostStore.PostService, userStore: UserStore.UserService)
      modifies this
      ensures posts == postStore.posts && users == userStore.users
      ensures activeFilter == old(activeFilter) && likedPosts == old(likedPosts)
    {
      posts := postStore.GetAll();
      users := userStore.GetAll();
    }

    /** `handleLike`: toggles the like on the page, then writes the post with
        its new count to the store. A post not in the page's list is
        ignored. When the store has no such post the page reloads, and the
        liked set keeps the toggle. */
    method HandleLike(postStore: PostStore.PostService, userStore: UserStore.UserService, postId: int)
      requires postStore.Valid()
      modifies this, postStore
      ensures postStore.Valid()
      ensures postId !in IdsOf(old(posts), PostId) ==>
                posts == old(posts) && likedPosts == old(likedPosts) && users == old(users) &&
                postStore.posts == old(postStore.posts)
      ensures postId in IdsOf(old(posts), PostId) ==>
                var s := ToggleLike(LikeState(old(posts), old(likedPosts)), postId);
                var p := old(posts)[IndexOfId(old(posts), PostId, postId).value];
                var sent := p.(likes := LikeCount(p, postId in old(likedPosts)));
                likedPosts == s.liked &&
                match IndexOfId(old(postStore.posts), PostId, postId)
                case None =>
                  postStore.posts == old(postStore.posts) && posts == postStore.posts && users == userStore.users
                case Some(j) =>
                  postStore.posts == old(postStore.posts)[j := PostPatchOf(sent).Over(old(postStore.posts)[j])] &&
                  posts == s.posts && users == old(users)
      ensures activeFilter == old(activeFilter)
    {
      match IndexOfId(posts, PostId, postId)
      case None =>
      case Some(i) =>
        var post := posts[i];
        var isLiked := postId in likedPosts;
        var n := LikeCount(post, isLiked);
        posts := SetLikes(posts, postId, n);
        likedPosts := Toggled(likedPosts, postId);
        var res := postStore.Update(postId, PostPatchOf(post.(likes := n)));
        if res.Err? {
          LoadData(postStore, userStore);
        }
    }

    /** `handleCommentSubmit`: appends the comment to the post on the page,
        then writes the post to the store; a post not in the page's list is
        ignored, and a store without the post makes the page reload. */
    method HandleCommentSubmit(postStore: PostStore.PostService, userStore: UserStore.UserService, postId: int, comment: Comment)
      requires postStore.Valid()
      modifies this, postStore
      ensures postStore.Valid()
      ensures postId !in IdsOf(old(posts), PostId) ==>
                posts == old(posts) && users == old(users) && postStore.posts == old(postStore.posts)
      ensures postId in IdsOf(old(posts), PostId) ==>
                var updated := PostStore.WithComment(old(posts)[IndexOfId(old(posts), PostId, postId).value], comment);
                match IndexOfId(old(postStore.posts), PostId, postId)
                case None =>
                  postStore.posts == old(postStore.posts) && posts == postStore.posts && users == userStore.users
                case Some(j) =>
                  postStore.posts == old(postStore.posts)[j := PostPatchOf(updated).Over(old(postStore.posts)[j])] &&
                  posts == ReplacePost(old(posts), postId, updated) && users == old(users)
      ensures activeFilter == old(activeFilter) && likedPosts == old(likedPosts)
    {
      match IndexOfId(posts, PostId, postId)
      case None =>
      case Some(i) =>
        var updated := PostStore.WithComment(posts[i], comment);
        posts := ReplacePost(posts, postId, updated);
        var res := postStore.Update(postId, PostPatchOf(updated));
        if res.Err? {
          LoadData(postStore, userStore);
        }
    }

    /** `handlePostCreated`: the new post goes in front of the list. */
    method HandlePostCreated(newPost: Post)
      modifies this
      ensures posts == [newPost] + old(posts)
      ensures users == old(users) && activeFilter == old(activeFilter) && likedPosts == old(likedPosts)
    {
      posts := [newPost] + posts;
    }
  }
}
