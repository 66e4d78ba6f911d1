/** The classroom page (src/components/pages/Classroom.jsx): the courses
    with their progress, the status filters and search, the learning
    statistics, and the lesson-viewer handlers that step the page state. */
module Classroom {
  import opened Seqs
  import opened Text
  import opened Entities
  import CourseStore
  import ProgressStore
  import LessonViewer
  import CourseCard

  /** The completed count the page shows: the lessons flagged completed (0
      without a lesson list). */
  function CompletedLessonsOf(c: Course): (n: nat)
    ensures c.lessons.None? ==> n == 0
    ensures c.lessons.Some? ==> n == CourseStore.CompletedCount(c.lessons.value)
    ensures n <= LessonTotal(c)
  {
    if c.lessons.Some? then CourseStore.CompletedCount(c.lessons.value) else 0
  }

  /** `course.lessons?.length || 0` */
  function LessonTotal(c: Course): nat {
    if c.lessons.Some? then |c.lessons.value| else 0
  }

  /** A course as the page shows it: the first progress record for the
      course, and the completed count taken from the lesson flags. */
  datatype CourseWithProgress = CourseWithProgress(course: Course, progress: Option<Progress>, completedLessons: nat)

  /** `userProgress.find(p => p.courseId === course.Id)`: the first record for
      the course, whichever member it belongs to. */
  function ProgressFor(userProgress: seq<Progress>, courseId: int): (r: Option<Progress>)
    ensures r.Some? ==> r.value in userProgress && r.value.courseId == courseId
    ensures r.None? <==> forall k :: 0 <= k < |userProgress| ==> userProgress[k].courseId != courseId
  {
    match FirstIndex(userProgress, (p: Progress) => p.courseId == courseId)
    case None => None
    case Some(k) => Some(userProgress[k])
  }

  /** `coursesWithProgress`: every course, in order, with its progress. The
      completed count comes from the lessons alone; no progress record, for
      whichever member, changes it. */
  function WithProgress(courses: seq<Course>, userProgress: seq<Progress>): (r: seq<CourseWithProgress>)
    ensures |r| == |courses|
    ensures forall i :: 0 <= i < |r| ==>
              r[i].course == courses[i] && r[i].progress == ProgressFor(userProgress, courses[i].id) &&
              r[i].completedLessons == CompletedLessonsOf(courses[i])
    ensures forall i :: 0 <= i < |r| ==> r[i].completedLessons <= LessonTotal(r[i].course)
  {
    seq(|courses|, i requires 0 <= i < |courses| =>
      CourseWithProgress(courses[i], ProgressFor(userProgress, courses[i].id), CompletedLessonsOf(courses[i])))
  }

  /** The "Completed" filter: every lesson done, and there is at least one. */
  predicate IsCompletedCourse(cw: CourseWithProgress) {
    cw.completedLessons == LessonTotal(cw.course) && LessonTotal(cw.course) > 0
  }

  /** The "In Progress" filter. */
  predicate IsInProgress(cw: CourseWithProgress) {
    cw.completedLessons > 0 && cw.completedLessons < LessonTotal(cw.course)
  }

  /** The "Not Started" filter. */
  predicate IsNotStarted(cw: CourseWithProgress) {
    cw.completedLessons == 0
  }

  /** The active tab's filter; "All Courses" (and any other value) passes
      everything. */
  predicate MatchesFilter(filter: string, cw: CourseWithProgress) {
    if filter == "Completed" then IsCompletedCourse(cw)
    else if filter == "In Progress" then IsInProgress(cw)
    else if filter == "Not Started" then IsNotStarted(cw)
    else true
  }

  /** With no more completed lessons than lessons, every course is in
      exactly one of the three states. */
  lemma StatusPartition(cw: CourseWithProgress)
    requires cw.completedLessons <= LessonTotal(cw.course)
    ensures IsCompletedCourse(cw) || IsInProgress(cw) || IsNotStarted(cw)
    ensures !(IsCompletedCourse(cw) && IsInProgress(cw))
    ensures !(IsCompletedCourse(cw) && IsNotStarted(cw))
    ensures !(IsInProgress(cw) && IsNotStarted(cw))
  {
  }

  /** The search: an empty query matches everything; otherwise the
      lower-cased query occurs in the lower-cased title, description or
      category. */
  predicate MatchesQuery(query: string, c: Course) {
    query == [] ||
    Includes(Lower(c.title), Lower(query)) ||
    Includes(Lower(c.description), Lower(query)) ||
    Includes(Lower(c.category), Lower(query))
  }

  predicate Visible(query: string, filter: string, cw: CourseWithProgress) {
    MatchesQuery(query, cw.course) && MatchesFilter(filter, cw)
  }

  /** `filteredCourses`: the courses that match both the search and the tab,
      in their order. */
  function FilteredCourses(cws: seq<CourseWithProgress>, query: string, filter: string): (r: seq<CourseWithProgress>)
    ensures forall i :: 0 <= i < |r| ==> MatchesQuery(query, r[i].course) && MatchesFilter(filter, r[i])
    ensures forall cw :: cw in cws && MatchesQuery(query, cw.course) && MatchesFilter(filter, cw) ==> cw in r
    ensures IsSubsequence(r, cws)
  {
    Filter(cws, (cw: CourseWithProgress) => Visible(query, filter, cw))
  }

  /** With no search and the "All Courses" tab, every course is shown. */
  lemma EverythingByDefault(cws: seq<CourseWithProgress>)
    ensures FilteredCourses(cws, "", "All Courses") == cws
  {
    FilterAll(cws, (cw: CourseWithProgress) => Visible("", "All Courses", cw));
  }

  /** The "Completed" statistic. */
  function CompletedCourses(cws: seq<CourseWithProgress>): nat {
    CountIf(cws, IsCompletedCourse)
  }

  /** The "In Progress" statistic. */
  function CoursesInProgress(cws: seq<CourseWithProgress>): nat {
    CountIf(cws, IsInProgress)
  }

  /** The "Lessons Done" statistic: the sum of the completed counts. */
  function LessonsDone(cws: seq<CourseWithProgress>): nat {
    if cws == [] then 0 else cws[0].completedLessons + LessonsDone(cws[1..])
  }

  /** The "Points Earned" statistic: 100 per completed course. */
  function PointsEarned(cws: seq<CourseWithProgress>): nat {
    CompletedCourses(cws) * 100
  }

  /** The three tabs other than "All Courses" split the courses between them:
      their counts add up to the number of courses. */
  lemma TabsPartitionCourses(courses: seq<Course>, userProgress: seq<Progress>)
    ensures var cws := WithProgress(courses, userProgress);
            CompletedCourses(cws) + CoursesInProgress(cws) + CountIf(cws, IsNotStarted) == |courses|
  {
    var cws := WithProgress(courses, userProgress);
    forall cw | cw in cws
      ensures (IsCompletedCourse(cw) || IsInProgress(cw) || IsNotStarted(cw)) &&
              !(IsCompletedCourse(cw) && IsInProgress(cw)) && !(IsCompletedCourse(cw) && IsNotStarted(cw)) &&
              !(IsInProgress(cw) && IsNotStarted(cw))
    {
      StatusPartition(cw);
    }
    CountIfPartition(cws, IsCompletedCourse, IsInProgress, IsNotStarted);
  }

  /** Every started course has at least one lesson done, so "Lessons Done" is
      at least the number of completed and in-progress courses, and the
      points earned never exceed 100 per lesson done. */
  lemma {:induction false} LessonsDoneCoversStarted(cws: seq<CourseWithProgress>)
    ensures LessonsDone(cws) >= CompletedCourses(cws) + CoursesInProgress(cws)
    ensures PointsEarned(cws) <= 100 * LessonsDone(cws)
  {
    if cws != [] {
      LessonsDoneCoversStarted(cws[1..]);
    }
  }

  /** `findIndex(lesson => !lesson.completed) || 0`, then `-1` mapped to 0:
      the first lesson not yet completed, or the first lesson when all are
      done or there is no list. */
  function FirstIncompleteIndex(c: Course): (i: nat)
    ensures c.lessons.None? ==> i == 0
    ensures c.lessons.Some? && (exists k :: 0 <= k < |c.lessons.value| && !c.lessons.value[k].completed) ==>
              i < |c.lessons.value| && !c.lessons.value[i].completed &&
              forall k :: 0 <= k < i ==> c.lessons.value[k].completed
    ensures c.lessons.Some? && (forall k :: 0 <= k < |c.lessons.value| ==> c.lessons.value[k].completed) ==> i == 0
  {
    if c.lessons.None? then 0
    else
      match FirstIndex(c.lessons.value, (l: Lesson) => !l.completed)
      case None => 0
      case Some(k) => k
  }

  /** `course.lessons?.[index]` */
  function LessonAt(c: Course, index: int): (r: Option<Lesson>)
    ensures r.Some? <==> c.lessons.Some? && 0 <= index < |c.lessons.value|
    ensures r.Some? ==> r.value == c.lessons.value[index]
  {
    if c.lessons.Some? && 0 <= index < |c.lessons.value| then Some(c.lessons.value[index]) else None
  }

  /** `handleLessonNavigation`: the index moved to, if any. A move happens
      only with a selected course that has a lesson list, and only when the
      new index is a lesson of it. */
  function Navigate(selected: Option<Course>, lessonIndex: int, next: bool): (r: Option<int>)
    ensures r.Some? <==> selected.Some? && selected.value.lessons.Some? &&
                         0 <= (if next then lessonIndex + 1 else lessonIndex - 1) < |selected.value.lessons.value|
    ensures r.Some? ==> r.value == if next then lessonIndex + 1 else lessonIndex - 1
  {
    if selected.None? || selected.value.lessons.None? then None
    else
      var newIndex := if next then lessonIndex + 1 else lessonIndex - 1;
      if 0 <= newIndex < |selected.value.lessons.value| then Some(newIndex) else None
  }

  /** The viewer enables "Next" and "Previous" exactly when the page's
      navigation would move. */
  lemma NavigationMatchesViewer(c: Course, lessonIndex: int)
    requires c.lessons.Some? && 0 <= lessonIndex < |c.lessons.value|
    ensures Navigate(Some(c), lessonIndex, true).Some? <==> LessonViewer.HasNext(lessonIndex, LessonTotal(c))
    ensures Navigate(Some(c), lessonIndex, false).Some? <==> LessonViewer.HasPrevious(lessonIndex)
  {
    LessonViewer.NavigationGuards(lessonIndex, LessonTotal(c));
  }

  /** `lessons.map(l => l.Id === lessonId ? { ...l, completed: true } : l)` */
  function MarkAll(ls: seq<Lesson>, lessonId: int): (r: seq<Lesson>)
    ensures |r| == |ls|
    ensures forall k :: 0 <= k < |ls| ==>
              r[k] == if ls[k].id == lessonId then ls[k].(completed := true) else ls[k]
  {
    if ls == [] then [] else
      [if ls[0].id == lessonId then ls[0].(completed := true) else ls[0]] + MarkAll(ls[1..], lessonId)
  }

  /** Completing never undoes progress: the completed count does not drop,
      and it rises when a lesson with the identifier was not yet done. */
  lemma {:induction false} MarkAllRaisesCount(ls: seq<Lesson>, lessonId: int)
    ensures CourseStore.CompletedCount(MarkAll(ls, lessonId)) >= CourseStore.CompletedCount(ls)
    ensures (exists k :: 0 <= k < |ls| && ls[k].id == lessonId && !ls[k].completed) ==>
              CourseStore.CompletedCount(MarkAll(ls, lessonId)) > CourseStore.CompletedCount(ls)
  {
    if ls != [] {
      var m := MarkAll(ls, lessonId);
      CourseStore.CompletedCountFront(ls);
      CourseStore.CompletedCountFront(m);
      MarkAllRaisesCount(ls[1..], lessonId);
      assert m[1..] == MarkAll(ls[1..], lessonId);
      if exists k :: 0 <= k < |ls| && ls[k].id == lessonId && !ls[k].completed {
        var k :| 0 <= k < |ls| && ls[k].id == lessonId && !ls[k].completed;
        if k > 0 {
          assert ls[1..][k - 1] == ls[k];
        }
      }
    }
  }

  /** With distinct lesson identifiers, the page's update of a present lesson
      is the one the store's `markLessonComplete` makes. */
  lemma MarkAllAgreesWithStore(c: Course, lessonId: int)
    requires c.lessons.Some? && Distinct(IdsOf(c.lessons.value, LessonId))
    requires lessonId in IdsOf(c.lessons.value, LessonId)
    ensures CourseStore.LessonUpdated(c, c.id, lessonId, CompletedPatch(true)) ==
            Ok(c.(lessons := Some(MarkAll(c.lessons.value, lessonId))))
  {
    var ls := c.lessons.value;
    var k := IndexOfId(ls, LessonId, lessonId).value;
    var viaStore := ls[k := CompletedPatch(true).Over(ls[k])];
    forall j | 0 <= j < |ls|
      ensures viaStore[j] == MarkAll(ls, lessonId)[j]
    {
      if ls[j].id == lessonId {
        IndexOfIdUnique(ls, LessonId, lessonId, j);
      }
    }
    assert viaStore == MarkAll(ls, lessonId);
  }

  /** `prev.map(course => course.Id === id ? updated : course)` */
  function ReplaceCourse(courses: seq<Course>, id: int, updated: Course): (r: seq<Course>)
    ensures |r| == |courses|
    ensures forall i :: 0 <= i < |courses| ==> r[i] == if courses[i].id == id then updated else courses[i]
  {
    seq(|courses|, i requires 0 <= i < |courses| => if courses[i].id == id then updated else courses[i])
  }

  /** A card that counts a lesson-less course as completed sits under the
      page's "Not Started" tab: the two components disagree on 0 of 0. */
  lemma EmptyCourseDisagreement(c: Course, userProgress: seq<Progress>)
    requires c.lessons == Some([]) && c.totalLessons.None?
    ensures var cw := WithProgress([c], userProgress)[0];
            IsNotStarted(cw) && !IsCompletedCourse(cw) && CourseCard.View(c, Some(cw.completedLessons)).isCompleted
  {
  }

  class ClassroomPage {
    var courses: seq<Course>
    var userProgress: seq<Progress>
    var activeFilter: string
    var searchQuery: string
    var selectedCourse: Option<Course>
    var selectedLesson: Option<Lesson>
    var lessonIndex: int

    /** The initial state of the page's hooks. */
    constructor ()
      ensures courses == [] && userProgress == [] && activeFilter == "All Courses" && searchQuery == []
      ensures selectedCourse == None && selectedLesson == None && lessonIndex == 0
    {
      courses := [];
      userProgress := [];
      activeFilter := "All Courses";
      searchQuery := [];
      selectedCourse := None;
      selectedLesson := None;
      lessonIndex := 0;
    }

    /** The courses the page lists (`filteredCourses`). */
    function Shown(): seq<CourseWithProgress>
      reads this
    {
      FilteredCourses(WithProgress(courses, userProgress), searchQuery, activeFilter)
    }

    /** Whether the lesson viewer replaces the course grid. */
    predicate ShowsLessonViewer()
      reads this
    {
      selectedLesson.Some? && selectedCourse.Some?
    }

    /** `loadData`: every course and every progress record from the stores. */
    method LoadData(courseStore: CourseStore.CourseService, progressStore: ProgressStore.UserProgressService)
      modifies this
      ensures courses == courseStore.courses && userProgress == progressStore.records
      ensures activeFilter == old(activeFilter) && searchQuery == old(searchQuery)
      ensures selectedCourse == old(selectedCourse) && selectedLesson == old(selectedLesson)
      ensures lessonIndex == old(lessonIndex)
    {
      courses := courseStore.GetAll();
      userProgress := progressStore.GetAll();
    }

    /** `handleCourseClick`: selects the course and opens its first lesson
        not yet completed. */
    method CourseClick(c: Course)
      modifies this
      ensures selectedCourse == Some(c) && lessonIndex == FirstIncompleteIndex(c)
      ensures selectedLesson == LessonAt(c, lessonIndex)
      ensures courses == old(courses) && userProgress == old(userProgress)
      ensures activeFilter == old(activeFilter) && searchQuery == old(searchQuery)
    {
      selectedCourse := Some(c);
      lessonIndex := FirstIncompleteIndex(c);
      selectedLesson := LessonAt(c, lessonIndex);
    }

    /** `handleLessonComplete`: marks the lessons with the identifier
        completed in the selected course, writes the course to the store, and
        on success puts it in the list, keeps it selected and flags the open
        lesson completed. Without a selected course, without a lesson list, or
        when the store rejects the write, the page is left as it was. */
    method LessonComplete(store: CourseStore.CourseService, lessonId: int)
      requires store.Valid()
      modifies this, store
      ensures store.Valid()
      ensures old(selectedCourse).None? || old(selectedCourse).value.lessons.None? ==>
                store.courses == old(store.courses) && courses == old(courses) &&
                selectedCourse == old(selectedCourse) && selectedLesson == old(selectedLesson)
      ensures old(selectedCourse).Some? && old(selectedCourse).value.lessons.Some? ==>
                var sc := old(selectedCourse).value;
                var updated := sc.(lessons := Some(MarkAll(sc.lessons.value, lessonId)));
                match IndexOfId(old(store.courses), CourseId, sc.id)
                case None =>
                  store.courses == old(store.courses) && courses == old(courses) &&
                  selectedCourse == old(selectedCourse) && selectedLesson == old(selectedLesson)
                case Some(i) =>
                  store.courses == old(store.courses)[i := CoursePatchOf(updated).Over(old(store.courses)[i])] &&
                  courses == ReplaceCourse(old(courses), sc.id, updated) &&
                  selectedCourse == Some(updated) &&
                  selectedLesson == (if old(selectedLesson).Some? then Some(old(selectedLesson).value.(completed := true)) else None)
      ensures userProgress == old(userProgress) && lessonIndex == old(lessonIndex)
      ensures activeFilter == old(activeFilter) && searchQuery == old(searchQuery)
    {
      if selectedCourse.None? || selectedCourse.value.lessons.None? {
        return;
      }
      var sc := selectedCourse.value;
      var updated := sc.(lessons := Some(MarkAll(sc.lessons.value, lessonId)));
      var res := store.Update(sc.id, CoursePatchOf(updated));
      if res.Err? {
        return;
      }
      courses := ReplaceCourse(courses, sc.id, updated);
      selectedCourse := Some(updated);
      if selectedLesson.Some? {
        selectedLesson := Some(selectedLesson.value.(completed := true));
      }
    }

    /** `handleLessonNavigation`: moves to the next or previous lesson when
        there is one; otherwise nothing changes. */
    method LessonNavigation(next: bool)
      modifies this
      ensures match Navigate(old(selectedCourse), old(lessonIndex), next)
        case None => lessonIndex == old(lessonIndex) && selectedLesson == old(selectedLesson)
        case Some(n) => lessonIndex == n && selectedLesson == Some(old(selectedCourse).value.lessons.value[n])
      ensures selectedCourse == old(selectedCourse) && courses == old(courses)
      ensures userProgress == old(userProgress)
    {
      match Navigate(selectedCourse, lessonIndex, next)
      case None =>
      case Some(n) =>
        lessonIndex := n;
        selectedLesson := Some(selectedCourse.value.lessons.value[n]);
    }

    /** `handleCloseLessonViewer`: back to the course grid. */
    method CloseLessonViewer()
      modifies this
      ensures selectedCourse == None && selectedLesson == None && lessonIndex == 0
      ensures !ShowsLessonViewer()
      ensures courses == old(courses) && userProgress == old(userProgress)
      ensures activeFilter == old(activeFilter) && searchQuery == old(searchQuery)
    {
      selectedCourse := None;
      selectedLesson := None;
      lessonIndex := 0;
    }
  }
}
