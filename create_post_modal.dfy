/** The post editor (src/components/organisms/CreatePostModal.jsx): the
    formatting buttons, which rewrite the text around the selection and move
    the cursor, and the form's submit and close handlers. */
module CreatePostModal {
  import opened Seqs
  import opened Text
  import opened Entities
  import opened Markdown
  import PostStore

  datatype FormatAction = Bold | Italic | BulletPoint | Image

  /** The new text and the cursor position after a formatting button. */
  datatype Edit = Edit(content: string, cursor: int)

  /** The text the bullet button puts in front of a line. */
  const Bullet: string := "\U{2022} "

  /** The text the image button puts in place of the selection. */
  const ImagePlaceholder: string := "![Image description](image-url)"

  /** The line holding position `start`: the number of line breaks before
      it. */
  function LineOf(content: string, start: nat): (k: nat)
    requires start <= |content|
    ensures k == Occurrences(content[..start], '\n')
    ensures k < |Split(content, '\n')|
  {
    assert content == content[..start] + content[start..];
    assert multiset(content) == multiset(content[..start]) + multiset(content[start..]);
    SplitCount(content, '\n');
    SplitCount(content[..start], '\n');
    |Split(content[..start], '\n')| - 1
  }

  /** `handleFormat` for a selection from `start` to `end` of the text. */
  function Format(content: string, start: nat, end: nat, action: FormatAction): Edit
    requires start <= end <= |content|
  {
    var before, selected, after := content[..start], content[start..end], content[end..];
    match action
    case Bold =>
      if selected != [] then Edit(before + "**" + selected + "**" + after, end + 4)
      else Edit(before + "****" + after, start + 2)
    case Italic =>
      if selected != [] then Edit(before + "*" + selected + "*" + after, end + 2)
      else Edit(before + "**" + after, start + 1)
    case BulletPoint =>
      var lines := Split(content, '\n');
      var k := LineOf(content, start);
      Edit(Join(lines[k := Bullet + lines[k]], "\n"), start + 2)
    case Image =>
      Edit(before + ImagePlaceholder + after, start + 34)
  }

  /** Bold, italic and image leave the text before the selection and after
      it as it was, and only the selection's place changes. */
  lemma FormatKeepsSurroundings(content: string, start: nat, end: nat, action: FormatAction)
    requires start <= end <= |content| && action != BulletPoint
    ensures var r := Format(content, start, end, action).content;
            |r| >= |content| - (end - start) &&
            r[..start] == content[..start] && r[|r| - (|content| - end)..] == content[end..]
  {
  }

  /** Bold on a selection puts the selection between `**` markers, with the
      cursor after the closing marker; on an empty selection the cursor sits
      between the two markers. */
  lemma BoldSpec(content: string, start: nat, end: nat)
    requires start <= end <= |content|
    ensures var e := Format(content, start, end, Bold);
            (start < end ==> e.content[..e.cursor] == content[..start] + "**" + content[start..end] + "**" &&
                             e.content[e.cursor..] == content[end..]) &&
            (start == end ==> e.content[..e.cursor] == content[..start] + "**" && e.content[e.cursor..] == "**" + content[end..])
  {
  }

  /** Italic, in the same way, with single `*` markers. */
  lemma ItalicSpec(content: string, start: nat, end: nat)
    requires start <= end <= |content|
    ensures var e := Format(content, start, end, Italic);
            (start < end ==> e.content[..e.cursor] == content[..start] + "*" + content[start..end] + "*" &&
                             e.content[e.cursor..] == content[end..]) &&
            (start == end ==> e.content[..e.cursor] == content[..start] + "*" && e.content[e.cursor..] == "*" + content[end..])
  {
  }

  /** Text with no asterisk whose selection is one non-empty line: after
      the bold button, the post card and the lesson viewer render the
      selection, and only it, in strong tags. */
  lemma BoldRendersStrong(content: string, start: nat, end: nat)
    requires start < end <= |content| && '*' !in content
    requires forall i :: start <= i < end ==> !IsLineTerminator(content[i])
    ensures Emphasis(Format(content, start, end, Bold).content) ==
            content[..start] + "<strong>" + content[start..end] + "</strong>" + content[end..]
  {
    var pre, mid, post := content[..start], content[start..end], content[end..];
    assert content == pre + mid + post;
    ReplaceWrapped(pre, "**", mid, post, "<strong>", "</strong>");
    ReplacePairsIdentity(post, "**", "<strong>", "</strong>");
    var once := pre + "<strong>" + mid + "</strong>" + post;
    ReplacePairsIdentity(once, "*", "<em>", "</em>");
  }

  /** In the same text, the italic button's selection renders in emphasis
      tags: its single asterisks never form a `**` pair. */
  lemma ItalicRendersEm(content: string, start: nat, end: nat)
    requires start < end <= |content| && '*' !in content
    requires forall i :: start <= i < end ==> !IsLineTerminator(content[i])
    ensures Emphasis(Format(content, start, end, Italic).content) ==
            content[..start] + "<em>" + content[start..end] + "</em>" + content[end..]
  {
    var pre, mid, post := content[..start], content[start..end], content[end..];
    assert content == pre + mid + post;
    var s := pre + "*" + mid + "*" + post;
    NoPairInItalic(pre, mid, post);
    ReplacePairsAbsent(s, "**", "<strong>", "</strong>");
    ReplaceWrapped(pre, "*", mid, post, "<em>", "</em>");
    ReplacePairsIdentity(post, "*", "<em>", "</em>");
  }

  /** Two single asterisks around a non-empty selection, in text without
      asterisks, never stand side by side. */
  lemma NoPairInItalic(pre: string, mid: string, post: string)
    requires mid != [] && '*' !in pre && '*' !in mid && '*' !in post
    ensures var s := pre + "*" + mid + "*" + post;
            forall i :: 0 <= i < |s| ==> !StartsWith(s[i..], "**")
  {
    var s := pre + "*" + mid + "*" + post;
    forall i | 0 <= i < |s|
      ensures !StartsWith(s[i..], "**")
    {
      CharInConcat(pre, mid, post, i);
      if i + 1 < |s| {
        CharInConcat(pre, mid, post, i + 1);
      }
    }
  }

  /** The asterisks of `pre + "*" + mid + "*" + post` sit at the two marker
      positions when the three parts have none. */
  lemma CharInConcat(pre: string, mid: string, post: string, i: nat)
    requires '*' !in pre && '*' !in mid && '*' !in post
    requires i < |pre + "*" + mid + "*" + post|
    ensures (pre + "*" + mid + "*" + post)[i] == '*' ==> i == |pre| || i == |pre| + 1 + |mid|
  {
    var s := pre + "*" + mid + "*" + post;
    if i < |pre| {
      assert s[i] == pre[i];
    } else if |pre| < i < |pre| + 1 + |mid| {
      assert s[i] == mid[i - |pre| - 1];
    } else if i > |pre| + 1 + |mid| {
      assert s[i] == post[i - |pre| - 2 - |mid|];
    }
  }

  /** The bullet button puts the bullet in front of the line holding the
      selection's start and changes no other line; the text grows by the two
      characters of the bullet and the cursor moves past them. */
  lemma BulletSpec(content: string, start: nat, end: nat)
    requires start <= end <= |content|
    ensures var e := Format(content, start, end, BulletPoint);
            var lines := Split(content, '\n');
            var k := Occurrences(content[..start], '\n');
            k < |lines| &&
            Split(e.content, '\n') == lines[k := Bullet + lines[k]] &&
            |e.content| == |content| + 2 && e.cursor == start + 2
  {
    var lines := Split(content, '\n');
    var k := LineOf(content, start);
    var parts := lines[k := Bullet + lines[k]];
    forall i | 0 <= i < |parts|
      ensures '\n' !in parts[i]
    {
      if i == k {
        assert '\n' !in Bullet;
      }
    }
    SplitJoin(parts, '\n');
    JoinPrefixedLength(lines, "\n", k, Bullet);
    JoinSplit(content, '\n');
  }

  /** The image button sets the cursor three characters past the end of the
      placeholder it inserted; with nothing after the selection, that is
      past the end of the text. */
  lemma ImageCursorOvershoots(content: string, start: nat, end: nat)
    requires start <= end <= |content|
    ensures var e := Format(content, start, end, Image);
            e.content[start..start + |ImagePlaceholder|] == ImagePlaceholder &&
            e.cursor == start + |ImagePlaceholder| + 3 &&
            (end == |content| ==> e.cursor == |e.content| + 3)
  {
  }

  /** How a submission ends: rejected for a blank title or blank content,
      or the post the store created. */
  datatype SubmitOutcome = MissingTitle | MissingContent | Created(post: Post)

  /** The identifier the editor's user posts under. */
  const CurrentUser: string := "1"

  /** The category a fresh form starts with. */
  const DefaultCategory: string := "Discussions"

  /** What submitting the form's fields does against the store's posts: a
      blank title is refused first, then blank content; otherwise the post
      is made of the trimmed title and content, the chosen category, the
      current user and the time, with no likes, no comments and an
      identifier above every stored one. */
  function Submission(title: string, content: string, category: string, now: int, posts: seq<Post>): (o: SubmitOutcome)
    ensures o == MissingTitle <==> Trim(title) == []
    ensures o == MissingContent <==> Trim(title) != [] && Trim(content) == []
    ensures o.Created? ==>
              o.post.title == Trim(title) && o.post.content == Trim(content) && o.post.category == category &&
              o.post.authorId == CurrentUser && o.post.timestamp == now && o.post.likes == 0 && o.post.comments == Some([])
    ensures o.Created? ==> forall i :: 0 <= i < |posts| ==> posts[i].id < o.post.id
    ensures o.Created? ==>
              o.post.title != [] && Trim(o.post.title) == o.post.title &&
              o.post.content != [] && Trim(o.post.content) == o.post.content
  {
    if Trim(title) == [] then MissingTitle
    else if Trim(content) == [] then MissingContent
    else
      TrimIdempotent(title);
      TrimIdempotent(content);
      var draft := PostDraft(Trim(title), Trim(content), category, CurrentUser, now, 0, Some([]));
      Created(PostStore.NewPost(draft, NextId(IdsOf(posts, PostId)), now))
  }

  class PostForm {
    var title: string
    var content: string
    var category: string
    var isSubmitting: bool

    /** The initial state of the form's hooks. */
    constructor ()
      ensures title == [] && content == [] && category == DefaultCategory && !isSubmitting
    {
      title := [];
      content := [];
      category := DefaultCategory;
      isSubmitting := false;
    }

    /** `handleSubmit`: a refused submission makes no store call and keeps
        the form; an accepted one has the store create the post, resets the
        form and hands the post to the feed. */
    method Submit(store: PostStore.PostService, now: int) returns (outcome: SubmitOutcome)
      requires store.Valid()
      modifies this, store
      ensures store.Valid()
      ensures outcome == Submission(old(title), old(content), old(category), now, old(store.posts))
      ensures !outcome.Created? ==>
                store.posts == old(store.posts) &&
                title == old(title) && content == old(content) && category == old(category) &&
                isSubmitting == old(isSubmitting)
      ensures outcome.Created? ==>
                store.posts == [outcome.post] + old(store.posts) &&
                title == [] && content == [] && category == DefaultCategory && !isSubmitting
    {
      if Trim(title) == [] {
        return MissingTitle;
      }
      if Trim(content) == [] {
        return MissingContent;
      }
      isSubmitting := true;
      var draft := PostDraft(Trim(title), Trim(content), category, CurrentUser, now, 0, Some([]));
      var post := store.Create(draft, now);
      title := [];
      content := [];
      category := DefaultCategory;
      isSubmitting := false;
      outcome := Created(post);
    }

    /** `handleClose`: resets the form and closes unless a submission is
        under way, in which case nothing happens. The result says whether
        the modal closed. */
    method Close() returns (closed: bool)
      modifies this
      ensures closed <==> !old(isSubmitting)
      ensures closed ==> title == [] && content == [] && category == DefaultCategory
      ensures !closed ==> title == old(title) && content == old(content) && category == old(category)
      ensures isSubmitting == old(isSubmitting)
    {
      if isSubmitting {
        return false;
      }
      title := [];
      content := [];
      category := DefaultCategory;
      closed := true;
    }
  }
}
