/** The lesson viewer (src/components/organisms/LessonViewer.jsx): the
    navigation guards, the completion guard, the lesson-list styling and the
    markdown-to-paragraphs `formatContent`. */
module LessonViewer {
  import opened Seqs
  import opened Text
  import opened Markdown

  /** `hasNext`: a lesson follows the current one. */
  predicate HasNext(lessonIndex: int, totalLessons: int) {
    lessonIndex < totalLessons - 1
  }

  /** `hasPrevious`: a lesson precedes the current one. */
  predicate HasPrevious(lessonIndex: int) {
    lessonIndex > 0
  }

  /** Within a course, "Next" is enabled exactly when the following index is
      a lesson, and "Previous" exactly when the preceding index is. */
  lemma NavigationGuards(lessonIndex: int, totalLessons: int)
    requires 0 <= lessonIndex < totalLessons
    ensures HasNext(lessonIndex, totalLessons) <==> 0 <= lessonIndex + 1 < totalLessons
    ensures HasPrevious(lessonIndex) <==> 0 <= lessonIndex - 1 < totalLessons
  {
  }

  /** What the viewer's completion controls show: "Mark Complete" buttons
      for a lesson not yet completed, the "Completed" marker otherwise. */
  datatype Controls = MarkCompleteButtons | CompletedMarker

  function ControlsFor(isCompleted: bool): (c: Controls)
    ensures c == MarkCompleteButtons <==> !isCompleted
    ensures c == CompletedMarker <==> isCompleted
  {
    if isCompleted then CompletedMarker else MarkCompleteButtons
  }

  /** `handleMarkComplete`: the lesson identifier passed to `onComplete`, if
      the callback fires at all (only for a lesson not yet completed, and only
      when there is a callback). */
  function MarkComplete(lessonId: int, isCompleted: bool, hasCallback: bool): (r: Option<int>)
    ensures r.Some? <==> !isCompleted && hasCallback
    ensures r.Some? ==> r.value == lessonId
  {
    if !isCompleted && hasCallback then Some(lessonId) else None
  }

  /** The buttons that can trigger a completion are shown only when the
      completion would fire. */
  lemma MarkCompleteShownOnlyWhenEffective(lessonId: int, isCompleted: bool)
    ensures ControlsFor(isCompleted) == MarkCompleteButtons <==> MarkComplete(lessonId, isCompleted, true).Some?
  {
  }

  /** The style of one entry in the lesson list. */
  datatype ItemStyle = Current | Done | Pending

  /** The current lesson is highlighted whatever its completion; otherwise
      completed lessons look done. */
  function ItemStyleOf(index: int, lessonIndex: int, completed: bool): (s: ItemStyle)
    ensures s == Current <==> index == lessonIndex
    ensures s == Done <==> index != lessonIndex && completed
    ensures s == Pending <==> index != lessonIndex && !completed
  {
    if index == lessonIndex then Current else if completed then Done else Pending
  }

  /** The entry's marker: a check for a completed lesson, the 1-based number
      otherwise (this one does not depend on the current index). */
  datatype ItemMarker = Check | Number(n: int)

  function ItemMarkerOf(index: int, completed: bool): (m: ItemMarker)
    ensures m.Check? <==> completed
    ensures m.Number? ==> m.n == index + 1
  {
    if completed then Check else Number(index + 1)
  }

  /** The trimmed lines of `s`. */
  function TrimAll(lines: seq<string>): (r: seq<string>)
    ensures |r| == |lines|
    ensures forall i :: 0 <= i < |r| ==> r[i] == Trim(lines[i])
  {
    if lines == [] then [] else [Trim(lines[0])] + TrimAll(lines[1..])
  }

  /** The paragraphs `formatContent` produces: the lines of the markdown pass,
      trimmed, with empty ones dropped. */
  function Paragraphs(content: string): seq<string> {
    Filter(TrimAll(Split(Emphasis(content), '\n')), NonEmpty)
  }

  /** `formatContent`: the paragraphs joined with `</p><p>`. */
  function FormatContent(content: string): string {
    Join(Paragraphs(content), "</p><p>")
  }

  /** Trimming only removes characters. */
  lemma TrimKeepsChars(s: string)
    ensures forall c :: c in Trim(s) ==> c in s
  {
    TrimSpec(s);
    var a, b :| 0 <= a <= b <= |s| && Trim(s) == s[a..b] && AllSpace(s[..a]) && AllSpace(s[b..]);
    assert forall k :: 0 <= k < b - a ==> Trim(s)[k] == s[a + k];
  }

  /** Every paragraph is non-empty, already trimmed, and a single line. */
  lemma ParagraphsShape(content: string)
    ensures forall i :: 0 <= i < |Paragraphs(content)| ==>
              Paragraphs(content)[i] != [] && Trim(Paragraphs(content)[i]) == Paragraphs(content)[i] &&
              '\n' !in Paragraphs(content)[i]
  {
    var lines := Split(Emphasis(content), '\n');
    var trimmed := TrimAll(lines);
    var ps := Paragraphs(content);
    forall i | 0 <= i < |ps|
      ensures ps[i] != [] && Trim(ps[i]) == ps[i] && '\n' !in ps[i]
    {
      assert ps[i] in trimmed && NonEmpty(ps[i]);
      var j :| 0 <= j < |trimmed| && trimmed[j] == ps[i];
      TrimIdempotent(lines[j]);
      TrimKeepsChars(lines[j]);
    }
  }

  /** There are never more paragraphs than lines in the content. */
  lemma ParagraphsCount(content: string)
    ensures |Paragraphs(content)| <= Occurrences(content, '\n') + 1
  {
    var once := ReplacePairs(content, "**", "<strong>", "</strong>");
    ReplacePairsKeepsLines(content, "**", "<strong>", "</strong>");
    ReplacePairsKeepsLines(once, "*", "<em>", "</em>");
    SplitCount(Emphasis(content), '\n');
  }

  /** Content without asterisks is only split, trimmed and filtered: each
      paragraph is a non-blank line of the content, trimmed, in order. */
  lemma PlainContent(content: string)
    requires '*' !in content
    ensures Paragraphs(content) == Filter(TrimAll(Split(content, '\n')), NonEmpty)
  {
    ReplacePairsIdentity(content, "**", "<strong>", "</strong>");
    ReplacePairsIdentity(content, "*", "<em>", "</em>");
  }
}
