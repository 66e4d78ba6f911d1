/** The post card (src/components/organisms/PostCard.jsx): the markdown-like
    content formatting, the category badge colour, the comment count it shows
    and the comment form's submit handler. */
module PostCard {
  import opened Seqs
  import opened Text
  import opened Entities
  import opened Markdown

  /** The bullet character the post editor inserts. */
  const Bullet: string := "\U{2022} "

  /** `formatContent`: bold, then italic, then the bullet replacement, which
      puts back exactly what it finds. */
  function FormatContent(content: string): string {
    ReplaceLiteral(Emphasis(content), Bullet, Bullet)
  }

  /** The bullet replacement is the identity: the card's formatting is the
      markdown pass alone, so bulleted lines are shown as typed. */
  lemma FormatContentIsEmphasis(content: string)
    ensures FormatContent(content) == Emphasis(content)
  {
    ReplaceLiteralSame(Emphasis(content), Bullet);
  }

  /** Without asterisks, the card shows the content exactly as written. */
  lemma PlainContentUnchanged(content: string)
    requires '*' !in content
    ensures FormatContent(content) == content
  {
    FormatContentIsEmphasis(content);
    ReplacePairsIdentity(content, "**", "<strong>", "</strong>");
    ReplacePairsIdentity(content, "*", "<em>", "</em>");
  }

  /** Formatting keeps the number of lines of the content. */
  lemma FormatContentKeepsLines(content: string)
    ensures Occurrences(FormatContent(content), '\n') == Occurrences(content, '\n')
  {
    FormatContentIsEmphasis(content);
    ReplacePairsKeepsLines(content, "**", "<strong>", "</strong>");
    ReplacePairsKeepsLines(ReplacePairs(content, "**", "<strong>", "</strong>"), "*", "<em>", "</em>");
  }

  /** The badge variants. */
  datatype BadgeVariant = Warning | Info | Primary | Default

  /** `getCategoryColor`: the category, lower-cased, picks the variant; a
      missing category or any other name gets the default. */
  function CategoryColor(category: Option<string>): (v: BadgeVariant)
    ensures category.None? ==> v == Default
  {
    if category.None? then Default
    else
      var c := Lower(category.value);
      if c == "announcements" then Warning
      else if c == "questions" then Info
      else if c == "discussions" then Primary
      else Default
  }

  /** The colour does not depend on the category's letter case. */
  lemma CategoryColorIgnoresCase(category: string)
    ensures CategoryColor(Some(Lower(category))) == CategoryColor(Some(category))
  {
    LowerIdempotent(category);
  }

  /** Every category name gets its colour by its lower-cased spelling:
      "announcements", "questions" and "discussions" have their own
      variants, and any other name gets the default. */
  lemma CategoryColorByName(c: string)
    ensures Lower(c) == "announcements" ==> CategoryColor(Some(c)) == Warning
    ensures Lower(c) == "questions" ==> CategoryColor(Some(c)) == Info
    ensures Lower(c) == "discussions" ==> CategoryColor(Some(c)) == Primary
    ensures Lower(c) != "announcements" && Lower(c) != "questions" && Lower(c) != "discussions" ==>
              CategoryColor(Some(c)) == Default
  {
  }

  /** The post editor's categories get their colours; "General" gets the
      default. */
  lemma EditorCategoryColors()
    ensures CategoryColor(Some("Announcements")) == Warning
    ensures CategoryColor(Some("Questions")) == Info
    ensures CategoryColor(Some("Discussions")) == Primary
    ensures CategoryColor(Some("General")) == Default
  {
    assert Lower("Announcements") == "announcements";
    assert Lower("Questions") == "questions";
    assert Lower("Discussions") == "discussions";
    assert Lower("General") == "general";
  }

  /** `post.comments?.length || 0` */
  function CommentCount(p: Post): (n: nat)
    ensures p.comments.None? ==> n == 0
    ensures p.comments.Some? ==> n == |p.comments.value|
  {
    if p.comments.Some? then |p.comments.value| else 0
  }

  /** The identifier the card's user comments under. */
  const CurrentUser: string := "1"

  /** The card's comment form. */
  class CommentForm {
    var newComment: string

    constructor ()
      ensures newComment == []
    {
      newComment := [];
    }

    /** `handleCommentSubmit`: a comment whose text is blank is not sent and
        the input is kept; otherwise the trimmed text goes out as a comment of
        the current user, stamped with `now`, to the callback when there is
        one, and the input is cleared. The result is what the callback
        receives. */
    method Submit(postId: int, hasCallback: bool, now: int) returns (sent: Option<(int, Comment)>)
      modifies this
      ensures Trim(old(newComment)) == [] ==> sent.None? && newComment == old(newComment)
      ensures Trim(old(newComment)) != [] ==>
                newComment == [] &&
                (sent.Some? <==> hasCallback) &&
                (sent.Some? ==> sent.value == (postId, Comment(now, Trim(old(newComment)), CurrentUser, now)))
      ensures sent.Some? ==> sent.value.1.content != [] && Trim(sent.value.1.content) == sent.value.1.content
    {
      var text := Trim(newComment);
      if text == [] {
        return None;
      }
      TrimIdempotent(newComment);
      var comment := Comment(now, text, CurrentUser, now);
      sent := if hasCallback then Some((postId, comment)) else None;
      newComment := [];
    }
  }
}
