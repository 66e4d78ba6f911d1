/** `CourseService` (src/services/api/courseService.js): the in-memory course
    store, including the lessons nested inside each course. Each asynchronous
    call is one atomic step. */
module CourseStore {
  import opened Seqs
  import opened Text
  import opened Entities

  /** The course `create` stores: a fresh identifier and the caller's fields,
      with an empty lesson list when none is given (`lessons || []`). */
  function NewCourse(d: CourseDraft, id: int): (c: Course)
    ensures c.id == id && c.title == d.title && c.description == d.description
    ensures c.category == d.category && c.duration == d.duration && c.totalLessons == d.totalLessons
    ensures c.lessons.Some? && (d.lessons.Some? ==> c.lessons == d.lessons)
    ensures d.lessons.None? ==> c.lessons == Some([])
  {
    Course(id, d.title, d.description, d.category, d.duration, Some(d.lessons.GetOr([])), d.totalLessons)
  }

  /** `course.lessons?.find(l => l.Id === lessonId)`, or the error
      `getLessonById` throws; a course without a lesson list has no lesson. */
  function FindLesson(c: Course, courseId: int, lessonId: int): (r: Result<Lesson>)
    ensures r.Ok? <==> c.lessons.Some? && lessonId in IdsOf(c.lessons.value, LessonId)
    ensures r.Ok? ==> r.value.id == lessonId && r.value in c.lessons.value
    ensures r.Err? ==> r.error == LessonNotFound(courseId, lessonId)
  {
    if c.lessons.None? then Err(LessonNotFound(courseId, lessonId))
    else
      match IndexOfId(c.lessons.value, LessonId, lessonId)
      case None => Err(LessonNotFound(courseId, lessonId))
      case Some(k) => Ok(c.lessons.value[k])
  }

  /** The course after `updateLesson` merges `patch` over its first lesson
      with the identifier. Without a lesson list the write into
      `course.lessons[undefined]` throws a `TypeError` (`NoLessonList`); an
      absent lesson is `LessonNotFound`. */
  function LessonUpdated(c: Course, courseId: int, lessonId: int, patch: LessonPatch): (r: Result<Course>)
    ensures c.lessons.None? ==> r == Err(NoLessonList(courseId))
    ensures c.lessons.Some? && lessonId !in IdsOf(c.lessons.value, LessonId) ==>
              r == Err(LessonNotFound(courseId, lessonId))
    ensures r.Ok? ==> c.lessons.Some? && r.value.lessons.Some?
    ensures r.Ok? ==>
              var k := IndexOfId(c.lessons.value, LessonId, lessonId).value;
              r.value == c.(lessons := Some(c.lessons.value[k := patch.Over(c.lessons.value[k])]))
  {
    if c.lessons.None? then Err(NoLessonList(courseId))
    else
      var ls := c.lessons.value;
      match IndexOfId(ls, LessonId, lessonId)
      case None => Err(LessonNotFound(courseId, lessonId))
      case Some(k) => Ok(c.(lessons := Some(ls[k := patch.Over(ls[k])])))
  }

  /** The number of completed lessons (`lessons.filter(l => l.completed).length`). */
  function CompletedCount(ls: seq<Lesson>): (n: nat)
    ensures n <= |ls|
    ensures n == |ls| <==> forall k :: 0 <= k < |ls| ==> ls[k].completed
    ensures n == 0 <==> forall k :: 0 <= k < |ls| ==> !ls[k].completed
  {
    if ls == [] then 0
    else (if ls[0].completed then 1 else 0) + CompletedCount(ls[1..])
  }

  /** The count of a non-empty sequence: its first lesson, then the rest. */
  lemma CompletedCountFront(ls: seq<Lesson>)
    requires ls != []
    ensures CompletedCount(ls) == (if ls[0].completed then 1 else 0) + CompletedCount(ls[1..])
  {
  }

  /** Setting one lesson's flag moves the completed count by at most one. */
  lemma {:induction false} CompletedCountSet(ls: seq<Lesson>, k: nat, l: Lesson)
    requires k < |ls|
    ensures CompletedCount(ls[k := l]) ==
            CompletedCount(ls) - (if ls[k].completed then 1 else 0) + (if l.completed then 1 else 0)
  {
    var t := ls[k := l];
    CompletedCountFront(ls);
    CompletedCountFront(t);
    if k > 0 {
      assert t[0] == ls[0];
      assert t[1..] == ls[1..][k - 1 := l];
      CompletedCountSet(ls[1..], k - 1, l);
    } else {
      assert t[1..] == ls[1..];
    }
  }

  /** What `getCourseProgress` reports for a course. */
  datatype CourseProgress = CourseProgress(courseId: int, totalLessons: nat, completedLessons: nat, percentage: real)

  /** A positive factor cancels from both sides of an equation. */
  lemma CancelPositive(a: real, b: real, t: real)
    requires t > 0.0 && a * t == b * t
    ensures a == b
  {
  }

  /** `(completed / total) * 100`, or 0 when there is nothing to complete. */
  function Percentage(done: nat, total: nat): (p: real)
    requires done <= total
    ensures 0.0 <= p <= 100.0
    ensures total == 0 ==> p == 0.0
    ensures total > 0 ==> p * (total as real) == (done as real) * 100.0
    ensures p == 100.0 <==> total > 0 && done == total
  {
    if total > 0 then
      var q := done as real / total as real;
      assert q * (total as real) == done as real;
      assert (1.0 - q) * (total as real) == (total - done) as real;
      assert done == total ==> q == 1.0 by {
        if done == total {
          CancelPositive(q, 1.0, total as real);
        }
      }
      q * 100.0
    else 0.0
  }

  /** `getCourseProgress`: the lesson count (0 without a list), the completed
      count, and the percentage completed (0 for a course with no lessons). */
  function ProgressOf(c: Course, courseId: int): (r: CourseProgress)
    ensures r.courseId == courseId
    ensures r.totalLessons == (if c.lessons.Some? then |c.lessons.value| else 0)
    ensures r.completedLessons <= r.totalLessons
    ensures 0.0 <= r.percentage <= 100.0
    ensures r.totalLessons == 0 ==> r.percentage == 0.0
    ensures r.totalLessons > 0 ==> r.percentage * (r.totalLessons as real) == (r.completedLessons as real) * 100.0
    ensures r.percentage == 100.0 <==>
              c.lessons.Some? && c.lessons.value != [] && forall k :: 0 <= k < |c.lessons.value| ==> c.lessons.value[k].completed
    ensures r.completedLessons == (if c.lessons.Some? then CompletedCount(c.lessons.value) else 0)
  {
    if c.lessons.Some? then
      var total, done := |c.lessons.value|, CompletedCount(c.lessons.value);
      CourseProgress(courseId, total, done, Percentage(done, total))
    else
      CourseProgress(courseId, 0, 0, Percentage(0, 0))
  }

  /** Marking a lesson complete raises the completed count by one unless the
      lesson was already complete; marking it incomplete lowers it likewise. */
  lemma MarkMovesProgress(c: Course, courseId: int, lessonId: int, b: bool)
    requires LessonUpdated(c, courseId, lessonId, CompletedPatch(b)).Ok?
    ensures var ls := c.lessons.value;
            var k := IndexOfId(ls, LessonId, lessonId).value;
            var c' := LessonUpdated(c, courseId, lessonId, CompletedPatch(b)).value;
            ProgressOf(c', courseId).totalLessons == ProgressOf(c, courseId).totalLessons &&
            ProgressOf(c', courseId).completedLessons ==
              ProgressOf(c, courseId).completedLessons - (if ls[k].completed then 1 else 0) + (if b then 1 else 0)
  {
    var ls := c.lessons.value;
    var k := IndexOfId(ls, LessonId, lessonId).value;
    CompletedCountSet(ls, k, CompletedPatch(b).Over(ls[k]));
  }

  /** Marking the same lesson twice has the effect of marking it once. */
  lemma MarkIdempotent(c: Course, courseId: int, lessonId: int, b: bool)
    requires LessonUpdated(c, courseId, lessonId, CompletedPatch(b)).Ok?
    ensures var c' := LessonUpdated(c, courseId, lessonId, CompletedPatch(b)).value;
            LessonUpdated(c', courseId, lessonId, CompletedPatch(b)) == Ok(c')
  {
    var ls := c.lessons.value;
    var k := IndexOfId(ls, LessonId, lessonId).value;
    var ls' := ls[k := CompletedPatch(b).Over(ls[k])];
    IdsOfUpdate(ls, LessonId, k, CompletedPatch(b).Over(ls[k]));
    assert IndexOfId(ls', LessonId, lessonId) == Some(k) by {
      assert forall j :: 0 <= j < k ==> ls'[j] == ls[j];
    }
    assert CompletedPatch(b).Over(ls'[k]) == ls'[k];
    assert ls'[k := ls'[k]] == ls';
  }

  /** The `search` condition on title and description. */
  predicate MatchesSearch(term: string, c: Course) {
    Includes(Lower(c.title), term) || Includes(Lower(c.description), term)
  }

  /** `search`: a case-insensitive substring match on title or description,
      in store order. */
  function Search(courses: seq<Course>, query: string): (r: seq<Course>)
    ensures forall i :: 0 <= i < |r| ==> MatchesSearch(Lower(query), r[i])
    ensures forall c :: c in courses && MatchesSearch(Lower(query), c) ==> c in r
    ensures IsSubsequence(r, courses)
  {
    Filter(courses, (c: Course) => MatchesSearch(Lower(query), c))
  }

  class CourseService {
    var courses: seq<Course>

    /** Identifiers are unique among the stored courses. */
    ghost predicate Valid()
      reads this
    {
      Distinct(IdsOf(courses, CourseId))
    }

    /** `this.courses = [...coursesData]` */
    constructor (fixture: seq<Course>)
      requires Distinct(IdsOf(fixture, CourseId))
      ensures Valid() && courses == fixture
    {
      courses := fixture;
    }

    /** `getAll`: every course, in store order. */
    method GetAll() returns (r: seq<Course>)
      ensures r == courses
    {
      r := courses;
    }

    /** `getById`: the first course with the identifier, or NotFound. */
    method GetById(id: int) returns (r: Result<Course>)
      ensures r.Ok? <==> id in IdsOf(courses, CourseId)
      ensures r.Ok? ==> r.value == courses[IndexOfId(courses, CourseId, id).value] && r.value.id == id
      ensures r.Err? ==> r.error == NotFound(CourseKind, id)
    {
      match IndexOfId(courses, CourseId, id)
      case None => r := Err(NotFound(CourseKind, id));
      case Some(i) => r := Ok(courses[i]);
    }

    /** `create`: the new course gets an identifier above every present one
        and goes to the end (`push`). */
    method Create(draft: CourseDraft) returns (r: Course)
      requires Valid()
      modifies this
      ensures Valid()
      ensures r == NewCourse(draft, NextId(IdsOf(old(courses), CourseId)))
      ensures forall i :: 0 <= i < |old(courses)| ==> old(courses)[i].id < r.id
      ensures courses == old(courses) + [r]
    {
      r := NewCourse(draft, NextId(IdsOf(courses, CourseId)));
      IdsOfFreshBack(courses, CourseId, r);
      courses := courses + [r];
    }

    /** `update`: shallow-merges the patch over the first course with the
        identifier, in place; NotFound leaves the store as it was. */
    method Update(id: int, patch: CoursePatch) returns (r: Result<Course>)
      requires Valid()
      modifies this
      ensures Valid()
      ensures match IndexOfId(old(courses), CourseId, id)
        case None => r == Err(NotFound(CourseKind, id)) && courses == old(courses)
        case Some(i) => courses == old(courses)[i := patch.Over(old(courses)[i])] && r == Ok(courses[i])
    {
      match IndexOfId(courses, CourseId, id)
      case None =>
        r := Err(NotFound(CourseKind, id));
      case Some(i) =>
        IdsOfUpdate(courses, CourseId, i, patch.Over(courses[i]));
        courses := courses[i := patch.Over(courses[i])];
        r := Ok(courses[i]);
    }

    /** `delete`: removes the first course with the identifier and returns it;
        NotFound leaves the store as it was. */
    method Delete(id: int) returns (r: Result<Course>)
      requires Valid()
      modifies this
      ensures Valid()
      ensures match IndexOfId(old(courses), CourseId, id)
        case None => r == Err(NotFound(CourseKind, id)) && courses == old(courses)
        case Some(i) => courses == RemoveAt(old(courses), i) && r == Ok(old(courses)[i])
    {
      match IndexOfId(courses, CourseId, id)
      case None =>
        r := Err(NotFound(CourseKind, id));
      case Some(i) =>
        IdsOfRemoveAt(courses, CourseId, i);
        r := Ok(courses[i]);
        courses := RemoveAt(courses, i);
    }

    /** `getLessonById`: the course must exist, then the lesson within it. */
    method GetLessonById(courseId: int, lessonId: int) returns (r: Result<Lesson>)
      ensures courseId !in IdsOf(courses, CourseId) ==> r == Err(NotFound(CourseKind, courseId))
      ensures courseId in IdsOf(courses, CourseId) ==>
                r == FindLesson(courses[IndexOfId(courses, CourseId, courseId).value], courseId, lessonId)
    {
      var got := GetById(courseId);
      if got.Err? {
        return Err(got.error);
      }
      r := FindLesson(got.value, courseId, lessonId);
    }

    /** `updateLesson`: merges `patch` over the lesson inside its course and
        writes the course back; any error leaves the store as it was. */
    method UpdateLesson(courseId: int, lessonId: int, patch: LessonPatch) returns (r: Result<Course>)
      requires Valid()
      modifies this
      ensures Valid()
      ensures match IndexOfId(old(courses), CourseId, courseId)
        case None => r == Err(NotFound(CourseKind, courseId)) && courses == old(courses)
        case Some(i) =>
          match LessonUpdated(old(courses)[i], courseId, lessonId, patch)
          case Err(e) => r == Err(e) && courses == old(courses)
          case Ok(c) => courses == old(courses)[i := c] && r == Ok(c)
    {
      var got := GetById(courseId);
      if got.Err? {
        return Err(got.error);
      }
      var course := got.value;
      var updated := LessonUpdated(course, courseId, lessonId, patch);
      if updated.Err? {
        return updated;
      }
      CoursePatchOfOver(updated.value, course);
      r := Update(courseId, CoursePatchOf(updated.value));
    }

    /** `markLessonComplete`: `updateLesson` with `{ completed: true }`. */
    method MarkLessonComplete(courseId: int, lessonId: int) returns (r: Result<Course>)
      requires Valid()
      modifies this
      ensures Valid()
      ensures match IndexOfId(old(courses), CourseId, courseId)
        case None => r == Err(NotFound(CourseKind, courseId)) && courses == old(courses)
        case Some(i) =>
          match LessonUpdated(old(courses)[i], courseId, lessonId, CompletedPatch(true))
          case Err(e) => r == Err(e) && courses == old(courses)
          case Ok(c) => courses == old(courses)[i := c] && r == Ok(c)
    {
      r := UpdateLesson(courseId, lessonId, CompletedPatch(true));
    }

    /** `markLessonIncomplete`: `updateLesson` with `{ completed: false }`. */
    method MarkLessonIncomplete(courseId: int, lessonId: int) returns (r: Result<Course>)
      requires Valid()
      modifies this
      ensures Valid()
      ensures match IndexOfId(old(courses), CourseId, courseId)
        case None => r == Err(NotFound(CourseKind, courseId)) && courses == old(courses)
        case Some(i) =>
          match LessonUpdated(old(courses)[i], courseId, lessonId, CompletedPatch(false))
          case Err(e) => r == Err(e) && courses == old(courses)
          case Ok(c) => courses == old(courses)[i := c] && r == Ok(c)
    {
      r := UpdateLesson(courseId, lessonId, CompletedPatch(false));
    }

    /** `getCourseProgress`: the progress figures of an existing course. */
    method GetCourseProgress(courseId: int) returns (r: Result<CourseProgress>)
      ensures courseId !in IdsOf(courses, CourseId) ==> r == Err(NotFound(CourseKind, courseId))
      ensures courseId in IdsOf(courses, CourseId) ==>
                r == Ok(ProgressOf(courses[IndexOfId(courses, CourseId, courseId).value], courseId))
    {
      var got := GetById(courseId);
      if got.Err? {
        return Err(got.error);
      }
      r := Ok(ProgressOf(got.value, courseId));
    }

    method SearchCourses(query: string) returns (r: seq<Course>)
      ensures r == Search(courses, query)
    {
      r := Search(courses, query);
    }
  }
}
