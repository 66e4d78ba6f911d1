/** `UserProgressService` (src/services/api/userProgressService.js): the
    in-memory store of per-member, per-course progress records. Each
    asynchronous call is one atomic step; `new Date()` is the `now`
    parameter. */
module ProgressStore {
  import opened Seqs
  import opened Entities

  /** `find(p => p.userId === userId && p.courseId === courseId)`: the index of
      the first record for the pair. */
  function PairIndex(s: seq<Progress>, userId: int, courseId: int): (r: Option<nat>)
    ensures r.Some? ==> r.value < |s| && s[r.value].userId == userId && s[r.value].courseId == courseId
    ensures r.Some? ==> forall j :: 0 <= j < r.value ==> !(s[j].userId == userId && s[j].courseId == courseId)
    ensures r.None? <==> forall j :: 0 <= j < |s| ==> !(s[j].userId == userId && s[j].courseId == courseId)
  {
    FirstIndex(s, (p: Progress) => p.userId == userId && p.courseId == courseId)
  }

  /** The first record for the pair is at `i` when the pair occurs there and
      nowhere before. */
  lemma PairIndexAt(s: seq<Progress>, userId: int, courseId: int, i: nat)
    requires i < |s| && s[i].userId == userId && s[i].courseId == courseId
    requires forall j :: 0 <= j < i ==> !(s[j].userId == userId && s[j].courseId == courseId)
    ensures PairIndex(s, userId, courseId) == Some(i)
  {
    var r := PairIndex(s, userId, courseId);
    assert r.Some?;
    assert !(r.value < i);
    assert !(r.value > i);
  }

  /** `getByUserId`: the member's records, in store order. */
  function ForUser(s: seq<Progress>, userId: int): (r: seq<Progress>)
    ensures forall i :: 0 <= i < |r| ==> r[i].userId == userId
    ensures forall p :: p in s && p.userId == userId ==> p in r
    ensures IsSubsequence(r, s)
  {
    Filter(s, (p: Progress) => p.userId == userId)
  }

  /** `getByCourseId`: the course's records, in store order. */
  function ForCourse(s: seq<Progress>, courseId: int): (r: seq<Progress>)
    ensures forall i :: 0 <= i < |r| ==> r[i].courseId == courseId
    ensures forall p :: p in s && p.courseId == courseId ==> p in r
    ensures IsSubsequence(r, s)
  {
    Filter(s, (p: Progress) => p.courseId == courseId)
  }

  /** The record `create` stores: a fresh identifier, the caller's fields,
      and both instants set to now. */
  function NewProgress(d: ProgressDraft, id: int, now: int): (p: Progress)
    ensures p.id == id && p.userId == d.userId && p.courseId == d.courseId
    ensures p.completedLessons == d.completedLessons && p.lastAccessedLessonId == d.lastAccessedLessonId
    ensures p.startedAt == now && p.lastUpdated == now
  {
    Progress(id, d.userId, d.courseId, d.completedLessons, d.lastAccessedLessonId, now, now)
  }

  /** The record after `update`: the patch merged over it, and `lastUpdated`
      refreshed whatever the patch says. */
  function Updated(p: Progress, patch: ProgressPatch, now: int): (r: Progress)
    ensures r.id == p.id && r.lastUpdated == now
    ensures patch.KeepsKey() ==> r.userId == p.userId && r.courseId == p.courseId
  {
    patch.Over(p).(lastUpdated := now)
  }

  /** The store after `updateUserCourseProgress`: the pair's first record
      updated, or a new record for the pair (`completedLessons` 0 unless the
      patch says otherwise) appended. */
  function Upserted(s: seq<Progress>, userId: int, courseId: int, patch: ProgressPatch, now: int): seq<Progress> {
    match PairIndex(s, userId, courseId)
    case Some(i) => s[i := Updated(s[i], patch, now)]
    case None =>
      s + [NewProgress(patch.OverDraft(ProgressDraft(userId, courseId, 0, None)), NextId(IdsOf(s, ProgressId)), now)]
  }

  /** The patch `incrementCompletedLessons` applies to an existing record. */
  function IncrementPatch(p: Progress, lessonId: int): ProgressPatch {
    ProgressPatch(None, None, Some(p.completedLessons + 1), Some(lessonId), None)
  }

  /** The store after `incrementCompletedLessons`: one more completed lesson on
      the pair's first record, or a new record with one completed lesson. */
  function Incremented(s: seq<Progress>, userId: int, courseId: int, lessonId: int, now: int): seq<Progress> {
    match PairIndex(s, userId, courseId)
    case Some(i) => s[i := Updated(s[i], IncrementPatch(s[i], lessonId), now)]
    case None =>
      s + [NewProgress(ProgressDraft(userId, courseId, 1, Some(lessonId)), NextId(IdsOf(s, ProgressId)), now)]
  }

  /** At most one record per (member, course) pair. */
  ghost predicate OnePerPair(s: seq<Progress>) {
    forall i, j :: 0 <= i < j < |s| ==> !(s[i].userId == s[j].userId && s[i].courseId == s[j].courseId)
  }

  /** Replacing a record by one with the same pair keeps the pairs unique. */
  lemma OnePerPairSet(s: seq<Progress>, i: nat, p: Progress)
    requires OnePerPair(s) && i < |s| && p.userId == s[i].userId && p.courseId == s[i].courseId
    ensures OnePerPair(s[i := p])
  {
    var t := s[i := p];
    forall a, b | 0 <= a < b < |t|
      ensures !(t[a].userId == t[b].userId && t[a].courseId == t[b].courseId)
    {
      assert t[a].userId == s[a].userId && t[a].courseId == s[a].courseId;
      assert t[b].userId == s[b].userId && t[b].courseId == s[b].courseId;
    }
  }

  /** Appending a record for a pair no record has keeps the pairs unique. */
  lemma OnePerPairAppend(s: seq<Progress>, p: Progress)
    requires OnePerPair(s) && PairIndex(s, p.userId, p.courseId).None?
    ensures OnePerPair(s + [p])
  {
    var t := s + [p];
    forall a, b | 0 <= a < b < |t|
      ensures !(t[a].userId == t[b].userId && t[a].courseId == t[b].courseId)
    {
      assert t[a] == s[a];
      if b < |s| {
        assert t[b] == s[b];
      }
    }
  }

  /** The upsert keeps one record per pair, provided its patch does not
      rewrite the pair itself. */
  lemma UpsertKeepsOnePerPair(s: seq<Progress>, userId: int, courseId: int, patch: ProgressPatch, now: int)
    requires OnePerPair(s) && patch.KeepsKey()
    ensures OnePerPair(Upserted(s, userId, courseId, patch, now))
  {
    match PairIndex(s, userId, courseId)
    case Some(i) =>
      OnePerPairSet(s, i, Updated(s[i], patch, now));
    case None =>
      var p := NewProgress(patch.OverDraft(ProgressDraft(userId, courseId, 0, None)), NextId(IdsOf(s, ProgressId)), now);
      OnePerPairAppend(s, p);
  }

  /** A patch that rewrites the pair can leave two records for one pair: the
      record for member 1 in course 2 is missing, so the upsert creates one,
      but the patch moves it onto member 3, who already has a record there. */
  lemma UpsertWithKeyChangeDuplicates()
    ensures var s := [Progress(1, 3, 2, 0, None, 0, 0)];
            var patch := ProgressPatch(Some(3), None, None, None, None);
            OnePerPair(s) && !OnePerPair(Upserted(s, 1, 2, patch, 5))
  {
    var s := [Progress(1, 3, 2, 0, None, 0, 0)];
    var patch := ProgressPatch(Some(3), None, None, None, None);
    assert PairIndex(s, 1, 2).None?;
    var t := Upserted(s, 1, 2, patch, 5);
    assert t[0].userId == t[1].userId && t[0].courseId == t[1].courseId;
  }

  /** After the upsert with a patch that leaves the pair alone, the pair's
      record carries every field the patch supplies and the fresh
      `lastUpdated`. Fields the patch omits keep the old record's values, or
      for a new record take the defaults: no completed lessons, no last
      lesson, and `startedAt` now. */
  lemma UpsertReadBack(s: seq<Progress>, userId: int, courseId: int, patch: ProgressPatch, now: int)
    requires patch.KeepsKey()
    ensures var t := Upserted(s, userId, courseId, patch, now);
            var before := PairIndex(s, userId, courseId);
            |t| == |s| + (if before.None? then 1 else 0) &&
            PairIndex(t, userId, courseId).Some? &&
            var p := t[PairIndex(t, userId, courseId).value];
            p.lastUpdated == now &&
            (patch.completedLessons.Some? ==> p.completedLessons == patch.completedLessons.value) &&
            (patch.lastAccessedLessonId.Some? ==> p.lastAccessedLessonId == patch.lastAccessedLessonId) &&
            (before.Some? ==>
               p.id == s[before.value].id &&
               (patch.completedLessons.None? ==> p.completedLessons == s[before.value].completedLessons) &&
               (patch.lastAccessedLessonId.None? ==> p.lastAccessedLessonId == s[before.value].lastAccessedLessonId) &&
               p.startedAt == (if patch.startedAt.Some? then patch.startedAt.value else s[before.value].startedAt)) &&
            (before.None? ==>
               p.id == NextId(IdsOf(s, ProgressId)) && p.startedAt == now &&
               (patch.completedLessons.None? ==> p.completedLessons == 0) &&
               (patch.lastAccessedLessonId.None? ==> p.lastAccessedLessonId.None?))
  {
    var t := Upserted(s, userId, courseId, patch, now);
    match PairIndex(s, userId, courseId)
    case Some(i) =>
      assert forall j :: 0 <= j < i ==> t[j] == s[j];
      PairIndexAt(t, userId, courseId, i);
    case None =>
      assert forall j :: 0 <= j < |s| ==> t[j] == s[j];
      PairIndexAt(t, userId, courseId, |s|);
  }

  /** The increment always keeps one record per pair. */
  lemma IncrementKeepsOnePerPair(s: seq<Progress>, userId: int, courseId: int, lessonId: int, now: int)
    requires OnePerPair(s)
    ensures OnePerPair(Incremented(s, userId, courseId, lessonId, now))
  {
    match PairIndex(s, userId, courseId)
    case Some(i) =>
      OnePerPairSet(s, i, Updated(s[i], IncrementPatch(s[i], lessonId), now));
    case None =>
      var p := NewProgress(ProgressDraft(userId, courseId, 1, Some(lessonId)), NextId(IdsOf(s, ProgressId)), now);
      OnePerPairAppend(s, p);
  }

  /** After an increment, the pair's record (as `getUserCourseProgress` finds
      it) counts one lesson more than before, or one lesson if it is new, and
      remembers the lesson and the instant. */
  lemma IncrementReadBack(s: seq<Progress>, userId: int, courseId: int, lessonId: int, now: int)
    ensures var t := Incremented(s, userId, courseId, lessonId, now);
            var before := PairIndex(s, userId, courseId);
            PairIndex(t, userId, courseId).Some? &&
            var p := t[PairIndex(t, userId, courseId).value];
            p.completedLessons == (if before.Some? then s[before.value].completedLessons + 1 else 1) &&
            p.lastAccessedLessonId == Some(lessonId) && p.lastUpdated == now
  {
    var t := Incremented(s, userId, courseId, lessonId, now);
    match PairIndex(s, userId, courseId)
    case Some(i) =>
      assert forall j :: 0 <= j < i ==> t[j] == s[j];
      PairIndexAt(t, userId, courseId, i);
    case None =>
      assert forall j :: 0 <= j < |s| ==> t[j] == s[j];
      PairIndexAt(t, userId, courseId, |s|);
  }

  /** The sum of the completed-lesson counts (`reduce`). */
  function TotalCompleted(s: seq<Progress>): int {
    if s == [] then 0 else s[0].completedLessons + TotalCompleted(s[1..])
  }

  /** Counts between 0 and `m` sum to between 0 and `|s| * m`. */
  lemma {:induction false} TotalCompletedBounds(s: seq<Progress>, m: int)
    requires forall i :: 0 <= i < |s| ==> 0 <= s[i].completedLessons <= m
    ensures 0 <= TotalCompleted(s) <= |s| * m
  {
    if s != [] {
      TotalCompletedBounds(s[1..], m);
      assert (|s| - 1) * m + m == |s| * m;
    }
  }

  /** `total / n`, or 0 when there is nothing to average over. */
  function Mean(total: int, n: nat): (a: real)
    ensures n == 0 ==> a == 0.0
    ensures n > 0 ==> a * (n as real) == total as real
  {
    if n > 0 then total as real / n as real else 0.0
  }

  /** A mean of values between 0 and `m` lies between 0 and `m`. */
  lemma MeanBounds(total: int, n: nat, m: int)
    requires n > 0 && 0 <= total <= n * m
    ensures 0.0 <= Mean(total, n) <= m as real
  {
    var a := Mean(total, n);
    assert (m as real - a) * (n as real) == (n * m - total) as real;
  }

  /** What `getUserStats` reports. */
  datatype UserStats = UserStats(totalCoursesStarted: nat, totalLessonsCompleted: int, averageProgress: real)

  /** `getUserStats`: how many courses the member has records for, the sum of
      their completed lessons, and the mean per course (0 with no records). */
  function StatsOf(s: seq<Progress>, userId: int): (r: UserStats)
    ensures r.totalCoursesStarted == 0 ==> r.averageProgress == 0.0
    ensures r.totalCoursesStarted > 0 ==>
              r.averageProgress * (r.totalCoursesStarted as real) == r.totalLessonsCompleted as real
    ensures r.totalCoursesStarted == |ForUser(s, userId)|
    ensures r.totalLessonsCompleted == TotalCompleted(ForUser(s, userId))
  {
    var mine := ForUser(s, userId);
    var n, total := |mine|, TotalCompleted(mine);
    var a := Mean(total, n);
    assert n > 0 ==> a * (n as real) == total as real;
    UserStats(n, total, a)
  }

  /** When every record of the member counts between 0 and `m` lessons, so
      does the average. */
  lemma StatsAverageBounds(s: seq<Progress>, userId: int, m: int)
    requires forall i :: 0 <= i < |s| ==> 0 <= s[i].completedLessons <= m
    ensures 0.0 <= StatsOf(s, userId).averageProgress
    ensures StatsOf(s, userId).totalCoursesStarted > 0 ==> StatsOf(s, userId).averageProgress <= m as real
  {
    var mine := ForUser(s, userId);
    TotalCompletedBounds(mine, m);
    if |mine| > 0 {
      MeanBounds(TotalCompleted(mine), |mine|, m);
    }
  }

  class UserProgressService {
    var records: seq<Progress>

    /** Identifiers are unique among the stored records. */
    ghost predicate Valid()
      reads this
    {
      Distinct(IdsOf(records, ProgressId))
    }

    /** `this.userProgress = [...userProgressData]` */
    constructor (fixture: seq<Progress>)
      requires Distinct(IdsOf(fixture, ProgressId))
      ensures Valid() && records == fixture
    {
      records := fixture;
    }

    /** `getAll`: every record, in store order. */
    method GetAll() returns (r: seq<Progress>)
      ensures r == records
    {
      r := records;
    }

    /** `getById`: the first record with the identifier, or NotFound. */
    method GetById(id: int) returns (r: Result<Progress>)
      ensures r.Ok? <==> id in IdsOf(records, ProgressId)
      ensures r.Ok? ==> r.value == records[IndexOfId(records, ProgressId, id).value] && r.value.id == id
      ensures r.Err? ==> r.error == NotFound(ProgressKind, id)
    {
      match IndexOfId(records, ProgressId, id)
      case None => r := Err(NotFound(ProgressKind, id));
      case Some(i) => r := Ok(records[i]);
    }

    method GetByUserId(userId: int) returns (r: seq<Progress>)
      ensures r == ForUser(records, userId)
    {
      r := ForUser(records, userId);
    }

    method GetByCourseId(courseId: int) returns (r: seq<Progress>)
      ensures r == ForCourse(records, courseId)
    {
      r := ForCourse(records, courseId);
    }

    /** `getUserCourseProgress`: the pair's first record, or `null`. */
    method GetUserCourseProgress(userId: int, courseId: int) returns (r: Option<Progress>)
      ensures r.None? <==> PairIndex(records, userId, courseId).None?
      ensures r.Some? ==> r.value == records[PairIndex(records, userId, courseId).value]
    {
      match PairIndex(records, userId, courseId)
      case None => r := None;
      case Some(i) => r := Some(records[i]);
    }

    /** `create`: the new record gets an identifier above every present one
        and goes to the end (`push`). */
    method Create(draft: ProgressDraft, now: int) returns (r: Progress)
      requires Valid()
      modifies this
      ensures Valid()
      ensures r == NewProgress(draft, NextId(IdsOf(old(records), ProgressId)), now)
      ensures records == old(records) + [r]
    {
      r := NewProgress(draft, NextId(IdsOf(records, ProgressId)), now);
      IdsOfFreshBack(records, ProgressId, r);
      records := records + [r];
    }

    /** `update`: merges the patch over the first record with the identifier
        and stamps `lastUpdated`; NotFound leaves the store as it was. */
    method Update(id: int, patch: ProgressPatch, now: int) returns (r: Result<Progress>)
      requires Valid()
      modifies this
      ensures Valid()
      ensures match IndexOfId(old(records), ProgressId, id)
        case None => r == Err(NotFound(ProgressKind, id)) && records == old(records)
        case Some(i) => records == old(records)[i := Updated(old(records)[i], patch, now)] && r == Ok(records[i])
    {
      match IndexOfId(records, ProgressId, id)
      case None =>
        r := Err(NotFound(ProgressKind, id));
      case Some(i) =>
        IdsOfUpdate(records, ProgressId, i, Updated(records[i], patch, now));
        records := records[i := Updated(records[i], patch, now)];
        r := Ok(records[i]);
    }

    /** `updateUserCourseProgress`: updates the pair's record when there is
        one, and creates it otherwise. */
    method UpdateUserCourseProgress(userId: int, courseId: int, patch: ProgressPatch, now: int) returns (r: Progress)
      requires Valid()
      modifies this
      ensures Valid()
      ensures records == Upserted(old(records), userId, courseId, patch, now)
      ensures match PairIndex(old(records), userId, courseId)
        case Some(i) => r == records[i]
        case None => r == records[|records| - 1]
    {
      var existing := GetUserCourseProgress(userId, courseId);
      match existing
      case Some(p) =>
        IndexOfIdUnique(records, ProgressId, p.id, PairIndex(records, userId, courseId).value);
        var res := Update(p.id, patch, now);
        r := res.value;
      case None =>
        r := Create(patch.OverDraft(ProgressDraft(userId, courseId, 0, None)), now);
    }

    /** `incrementCompletedLessons`: one more completed lesson and the last
        lesson seen on the pair's record, or a new record with one lesson. */
    method IncrementCompletedLessons(userId: int, courseId: int, lessonId: int, now: int) returns (r: Progress)
      requires Valid()
      modifies this
      ensures Valid()
      ensures records == Incremented(old(records), userId, courseId, lessonId, now)
      ensures match PairIndex(old(records), userId, courseId)
        case Some(i) => r == records[i]
        case None => r == records[|records| - 1]
    {
      var existing := GetUserCourseProgress(userId, courseId);
      match existing
      case Some(p) =>
        IndexOfIdUnique(records, ProgressId, p.id, PairIndex(records, userId, courseId).value);
        var res := Update(p.id, IncrementPatch(p, lessonId), now);
        r := res.value;
      case None =>
        r := Create(ProgressDraft(userId, courseId, 1, Some(lessonId)), now);
    }

    /** `delete`: removes the first record with the identifier and returns
        it; NotFound leaves the store as it was. */
    method Delete(id: int) returns (r: Result<Progress>)
      requires Valid()
      modifies this
      ensures Valid()
      ensures match IndexOfId(old(records), ProgressId, id)
        case None => r == Err(NotFound(ProgressKind, id)) && records == old(records)
        case Some(i) => records == RemoveAt(old(records), i) && r == Ok(old(records)[i])
    {
      match IndexOfId(records, ProgressId, id)
      case None =>
        r := Err(NotFound(ProgressKind, id));
      case Some(i) =>
        IdsOfRemoveAt(records, ProgressId, i);
        r := Ok(records[i]);
        records := RemoveAt(records, i);
    }

    method GetUserStats(userId: int) returns (r: UserStats)
      ensures r == StatsOf(records, userId)
    {
      r := StatsOf(records, userId);
    }
  }
}
