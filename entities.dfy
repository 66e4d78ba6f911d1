/** The records the stores hold, the partial records callers pass to `create`
    and `update`, and the errors the stores raise.

    A JavaScript `update(id, fields)` shallow-merges `fields` over the stored
    record (`{ ...record, ...fields }`); a patch below has one `Option` per
    field, `Some` for a field the caller supplies. Patches and drafts have no
    identifier field: the stores assign identifiers and the model does not let
    a caller overwrite them. Instants (ISO strings and `Date` values in the
    source) are integers. */
module Entities {
  import opened Seqs

  datatype Comment = Comment(id: int, content: string, authorId: string, timestamp: int)

  datatype Post = Post(
    id: int,
    title: string,
    content: string,
    category: string,
    authorId: string,
    timestamp: int,
    likes: int,
    comments: Option<seq<Comment>>)

  /** The fields a caller hands to `postService.create`. */
  datatype PostDraft = PostDraft(
    title: string,
    content: string,
    category: string,
    authorId: string,
    timestamp: int,
    likes: int,
    comments: Option<seq<Comment>>)

  datatype PostPatch = PostPatch(
    title: Option<string>,
    content: Option<string>,
    category: Option<string>,
    authorId: Option<string>,
    timestamp: Option<int>,
    likes: Option<int>,
    comments: Option<seq<Comment>>)
  {
    /** `{ ...p, ...this }` */
    function Over(p: Post): (r: Post)
      ensures r.id == p.id
    {
      Post(p.id, title.GetOr(p.title), content.GetOr(p.content), category.GetOr(p.category),
           authorId.GetOr(p.authorId), timestamp.GetOr(p.timestamp), likes.GetOr(p.likes),
           if comments.Some? then comments else p.comments)
    }
  }

  /** A whole post spread into an update (`{ ...post, likes: n }`). */
  function PostPatchOf(p: Post): PostPatch {
    PostPatch(Some(p.title), Some(p.content), Some(p.category), Some(p.authorId),
              Some(p.timestamp), Some(p.likes), p.comments)
  }

  /** Spreading a whole post over a stored one yields that post, under the
      stored identifier (a post without comments keeps the stored ones). */
  lemma PostPatchOfOver(p: Post, q: Post)
    ensures PostPatchOf(p).Over(q) ==
            p.(id := q.id, comments := if p.comments.Some? then p.comments else q.comments)
  {
  }

  function PostId(p: Post): int { p.id }

  datatype User = User(
    id: int,
    name: string,
    avatar: Option<string>,
    bio: Option<string>,
    points: int,
    activityLevel: Option<string>,
    joinDate: int)

  datatype UserDraft = UserDraft(
    name: string,
    avatar: Option<string>,
    bio: Option<string>,
    points: int,
    activityLevel: Option<string>,
    joinDate: int)

  datatype UserPatch = UserPatch(
    name: Option<string>,
    avatar: Option<string>,
    bio: Option<string>,
    points: Option<int>,
    activityLevel: Option<string>,
    joinDate: Option<int>)
  {
    /** `{ ...u, ...this }` */
    function Over(u: User): (r: User)
      ensures r.id == u.id
    {
      User(u.id, name.GetOr(u.name), if avatar.Some? then avatar else u.avatar,
           if bio.Some? then bio else u.bio, points.GetOr(u.points),
           if activityLevel.Some? then activityLevel else u.activityLevel, joinDate.GetOr(u.joinDate))
    }
  }

  function UserPatchOf(u: User): UserPatch {
    UserPatch(Some(u.name), u.avatar, u.bio, Some(u.points), u.activityLevel, Some(u.joinDate))
  }

  /** Spreading a whole user over a stored one yields that user, under the
      stored identifier (absent optional fields keep the stored ones). */
  lemma UserPatchOfOver(u: User, q: User)
    ensures UserPatchOf(u).Over(q) ==
            u.(id := q.id,
               avatar := if u.avatar.Some? then u.avatar else q.avatar,
               bio := if u.bio.Some? then u.bio else q.bio,
               activityLevel := if u.activityLevel.Some? then u.activityLevel else q.activityLevel)
  {
  }

  function UserId(u: User): int { u.id }

  function UserPoints(u: User): int { u.points }

  datatype Resource = Resource(title: string, url: string)

  datatype Lesson = Lesson(
    id: int,
    title: string,
    content: string,
    videoUrl: Option<string>,
    resources: seq<Resource>,
    completed: bool)

  datatype LessonPatch = LessonPatch(
    title: Option<string>,
    content: Option<string>,
    videoUrl: Option<string>,
    resources: Option<seq<Resource>>,
    completed: Option<bool>)
  {
    /** `{ ...l, ...this }` */
    function Over(l: Lesson): (r: Lesson)
      ensures r.id == l.id
    {
      Lesson(l.id, title.GetOr(l.title), content.GetOr(l.content),
             if videoUrl.Some? then videoUrl else l.videoUrl,
             resources.GetOr(l.resources), completed.GetOr(l.completed))
    }
  }

  /** The patch `{ completed: b }`. */
  function CompletedPatch(b: bool): LessonPatch {
    LessonPatch(None, None, None, None, Some(b))
  }

  function LessonId(l: Lesson): int { l.id }

  datatype Course = Course(
    id: int,
    title: string,
    description: string,
    category: string,
    duration: string,
    lessons: Option<seq<Lesson>>,
    totalLessons: Option<int>)

  datatype CourseDraft = CourseDraft(
    title: string,
    description: string,
    category: string,
    duration: string,
    lessons: Option<seq<Lesson>>,
    totalLessons: Option<int>)

  datatype CoursePatch = CoursePatch(
    title: Option<string>,
    description: Option<string>,
    category: Option<string>,
    duration: Option<string>,
    lessons: Option<seq<Lesson>>,
    totalLessons: Option<int>)
  {
    /** `{ ...c, ...this }` */
    function Over(c: Course): (r: Course)
      ensures r.id == c.id
    {
      Course(c.id, title.GetOr(c.title), description.GetOr(c.description),
             category.GetOr(c.category), duration.GetOr(c.duration),
             if lessons.Some? then lessons else c.lessons,
             if totalLessons.Some? then totalLessons else c.totalLessons)
    }
  }

  /** A whole course spread into an update. */
  function CoursePatchOf(c: Course): CoursePatch {
    CoursePatch(Some(c.title), Some(c.description), Some(c.category), Some(c.duration),
                c.lessons, c.totalLessons)
  }

  /** Spreading a whole course over a stored one yields that course, under
      the stored identifier (absent optional fields keep the stored ones). */
  lemma CoursePatchOfOver(c: Course, q: Course)
    ensures CoursePatchOf(c).Over(q) ==
            c.(id := q.id,
               lessons := if c.lessons.Some? then c.lessons else q.lessons,
               totalLessons := if c.totalLessons.Some? then c.totalLessons else q.totalLessons)
  {
  }

  function CourseId(c: Course): int { c.id }

  datatype Progress = Progress(
    id: int,
    userId: int,
    courseId: int,
    completedLessons: int,
    lastAccessedLessonId: Option<int>,
    startedAt: int,
    lastUpdated: int)

  datatype ProgressDraft = ProgressDraft(
    userId: int,
    courseId: int,
    completedLessons: int,
    lastAccessedLessonId: Option<int>)

  datatype ProgressPatch = ProgressPatch(
    userId: Option<int>,
    courseId: Option<int>,
    completedLessons: Option<int>,
    lastAccessedLessonId: Option<int>,
    startedAt: Option<int>)
  {
    /** `{ ...p, ...this }`, before `update` refreshes `lastUpdated`. */
    function Over(p: Progress): (r: Progress)
      ensures r.id == p.id && r.lastUpdated == p.lastUpdated
    {
      Progress(p.id, userId.GetOr(p.userId), courseId.GetOr(p.courseId),
               completedLessons.GetOr(p.completedLessons),
               if lastAccessedLessonId.Some? then lastAccessedLessonId else p.lastAccessedLessonId,
               startedAt.GetOr(p.startedAt), p.lastUpdated)
    }

    /** `{ userId, courseId, completedLessons: 0, ...this }`: the draft the
        upsert creates when no record exists yet. */
    function OverDraft(d: ProgressDraft): ProgressDraft {
      ProgressDraft(userId.GetOr(d.userId), courseId.GetOr(d.courseId),
                    completedLessons.GetOr(d.completedLessons),
                    if lastAccessedLessonId.Some? then lastAccessedLessonId else d.lastAccessedLessonId)
    }

    /** The patch leaves the (userId, courseId) key alone. */
    predicate KeepsKey() {
      userId.None? && courseId.None?
    }
  }

  function ProgressId(p: Progress): int { p.id }

  datatype EntityKind = PostKind | UserKind | CourseKind | ProgressKind

  /** What the stores throw. `NoLessonList` is the `TypeError` raised when
      `updateLesson` indexes the lessons of a course that has none. */
  datatype StoreError =
    | NotFound(kind: EntityKind, id: int)
    | LessonNotFound(courseId: int, lessonId: int)
    | NoLessonList(courseId: int)

  datatype Result<+T> = Ok(value: T) | Err(error: StoreError)
}
