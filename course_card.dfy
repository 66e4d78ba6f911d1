/** The course card (src/components/organisms/CourseCard.jsx): the completed
    and total lesson counts it shows, whether the course counts as completed,
    the percentage and the call to action. */
module CourseCard {
  import opened Seqs
  import opened Entities

  /** `progress?.completedLessons || 0`: missing progress counts as none. */
  function CompletedOf(progress: Option<int>): (n: int)
    ensures progress.None? ==> n == 0
    ensures progress.Some? ==> n == progress.value
  {
    progress.GetOr(0)
  }

  /** `course.totalLessons || course.lessons?.length || 0`: a non-zero
      declared total wins, then a non-empty lesson list's length, then 0. */
  function TotalOf(c: Course): (t: int)
    ensures c.totalLessons.Some? && c.totalLessons.value != 0 ==> t == c.totalLessons.value
    ensures (c.totalLessons.None? || c.totalLessons.value == 0) && c.lessons.Some? ==> t == |c.lessons.value|
    ensures (c.totalLessons.None? || c.totalLessons.value == 0) && c.lessons.None? ==> t == 0
  {
    if c.totalLessons.Some? && c.totalLessons.value != 0 then c.totalLessons.value
    else if c.lessons.Some? then |c.lessons.value|
    else 0
  }

  /** `totalLessons > 0 ? (completedLessons / totalLessons) * 100 : 0` */
  function CardPercentage(done: int, total: int): (p: real)
    ensures total <= 0 ==> p == 0.0
    ensures total > 0 ==> p * (total as real) == (done as real) * 100.0
    ensures total > 0 ==> (p > 0.0 <==> done > 0)
  {
    if total > 0 then
      var q := done as real / total as real;
      assert q * (total as real) == done as real;
      q * 100.0
    else 0.0
  }

  datatype CallToAction = ReviewCourse | ContinueLearning | StartCourse

  /** Everything the card derives from its inputs. */
  datatype CardView = CardView(
    completedLessons: int,
    totalLessons: int,
    isCompleted: bool,
    percentage: real,
    action: CallToAction,
    showsCompletedBadge: bool,
    showsCheckIcon: bool)

  /** The card for a course and the completed count of its progress, if any. */
  function View(c: Course, progress: Option<int>): (v: CardView)
    ensures v.completedLessons == CompletedOf(progress) && v.totalLessons == TotalOf(c)
    ensures v.isCompleted <==> v.completedLessons == v.totalLessons
    ensures v.totalLessons <= 0 ==> v.percentage == 0.0
    ensures v.totalLessons > 0 ==> (v.percentage > 0.0 <==> v.completedLessons > 0)
    ensures v.action == ReviewCourse <==> v.isCompleted
    ensures v.action == ContinueLearning <==> !v.isCompleted && v.percentage > 0.0
    ensures v.action == StartCourse <==> !v.isCompleted && !(v.percentage > 0.0)
    ensures v.showsCompletedBadge == v.isCompleted && v.showsCheckIcon == v.isCompleted
  {
    var done := CompletedOf(progress);
    var total := TotalOf(c);
    var isCompleted := done == total;
    var pct := CardPercentage(done, total);
    var action := if isCompleted then ReviewCourse else if pct > 0.0 then ContinueLearning else StartCourse;
    CardView(done, total, isCompleted, pct, action, isCompleted, isCompleted)
  }

  /** A course with no lessons and no progress reads "Review Course" with the
      Completed badge on the card: 0 of 0 counts as completed. */
  lemma EmptyCourseShowsCompleted(c: Course)
    requires c.totalLessons.None? && c.lessons == Some([])
    ensures View(c, None).isCompleted && View(c, None).action == ReviewCourse
    ensures View(c, Some(0)).isCompleted
  {
  }

  /** A course the member has started but not finished invites them to
      continue. */
  lemma StartedCourseContinues(c: Course, done: int)
    requires 0 < done < TotalOf(c)
    ensures View(c, Some(done)).action == ContinueLearning
  {
  }
}
