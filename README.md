# Community platform core, modelled in Dafny

This project models the data layer and the page logic of a community web
application. Members write posts in a feed, like and comment on them, follow
courses lesson by lesson, and compare their points on a leaderboard.

**Stores.** Four in-memory stores hold the data:
- `postService`, modelled as `PostStore.PostService`;
- `userService`, modelled as `UserStore.UserService`;
- `courseService`, modelled as `CourseStore.CourseService`, with the lessons nested in each course;
- `userProgressService`, modelled as `ProgressStore.UserProgressService`. Its records are keyed by member and course. The store keeps only their identifiers distinct. Whether a pair has at most one record is not a store invariant. The upsert keeps that property when its patch leaves the pair alone, and the increment always keeps it.

Each store is a class whose record list is a `seq` field that its methods
reassign. A method that the source lets throw returns a `Result`, and its
`NotFound` (or lesson) error leaves the store unchanged. Every store keeps
its identifiers unique (`Valid()`).

**Shared modules.**
- `Entities` holds the records, the partial records (patches) that `update` merges over a stored record, and the errors.
- `Seqs`, `Text` and `Ordering` hold the list, string and stable-sort helpers.
- `Markdown` holds the scanner that stands for the `**…**` / `*…*` regular expressions.

**Pages and components.**
- The four pages (Feed, Classroom, Leaderboard, Members) are modules. A page whose handlers change its state is a class with that state as fields: `Feed.FeedPage`, `Classroom.ClassroomPage` and `Leaderboard.LeaderboardPage`.
- The derived lists (filtered, sorted, ranked, counted) are functions of that state.
- The components are CreatePostModal, with its form class `PostForm`; CourseCard; LessonViewer; PostCard, with its comment form class `CommentForm`; and Avatar. Each is a module of functions.

**Where the model departs from the source.**
- Instants (ISO strings, `Date` values, `Date.now()`) are integers, passed in as a `now` parameter.
- Each asynchronous store call is one atomic step.
- The mock JSON fixtures are the stores' constructor parameters.

## Model

| member | source | states |
|---|---|---|
| Entities.PostPatch.Over | src/services/api/postService.js:50 | A shallow merge of post fields keeps the stored identifier; every supplied field wins. |
| Entities.PostPatchOfOver | src/components/pages/Feed.jsx:83 | Spreading a whole post into `update` gives back that post under the stored identifier. |
| Entities.UserPatch.Over | src/services/api/userService.js:50 | A shallow merge of member fields keeps the stored identifier. |
| Entities.UserPatchOfOver | src/services/api/userService.js:66-76 | Spreading a whole member into `update` gives back that member under the stored identifier. |
| Entities.LessonPatch.Over | src/services/api/courseService.js:87 | A shallow merge of lesson fields keeps the lesson identifier. |
| Entities.CoursePatch.Over | src/services/api/courseService.js:48 | A shallow merge of course fields keeps the stored identifier. |
| Entities.CoursePatchOfOver | src/components/pages/Classroom.jsx:113 | Spreading a whole course into `update` gives back that course under the stored identifier. |
| Entities.ProgressPatch.Over | src/services/api/userProgressService.js:71-75 | A shallow merge of progress fields keeps the identifier and the old `lastUpdated`, which `update` then refreshes. |
| Ordering.Insert | src/services/api/userService.js:82 | Inserting into a sorted list adds one element. |
| Ordering.SortDesc | src/services/api/userService.js:82 | The descending sort keeps the length of the list. |
| Ordering.InsertPerm | src/services/api/userService.js:82 | An insertion adds exactly the inserted element to the multiset. |
| Ordering.InsertSorted | src/services/api/userService.js:82 | Inserting into a non-increasing list keeps it non-increasing. |
| Ordering.InsertWithKey | src/services/api/userService.js:82 | An insertion puts the element after every element with the same key (stability). |
| Ordering.SortDescSpec | src/services/api/userService.js:82 | `sort((a, b) => key(b) - key(a))` is a permutation in non-increasing key order, and elements with equal keys keep their relative order. |
| Seqs.NextId | src/services/api/postService.js:31 | `Math.max(...ids, 0) + 1` is at least 1 and above every present identifier. |
| Seqs.IndexOfId | src/services/api/postService.js:20 | The first index holding the identifier, or none exactly when no element has it. |
| Text.TrimSpec | src/components/organisms/CreatePostModal.jsx:81 | `trim()` removes a run of white space from each end and nothing else. A blank string trims to empty exactly when it is all white space. |
| Text.TrimIdempotent | src/components/organisms/CreatePostModal.jsx:95-96 | Trimming twice is trimming once. |
| Text.SplitCount | src/components/organisms/CreatePostModal.jsx:59 | `split(c)` yields one piece more than there are separators. |
| Text.JoinSplit | src/components/organisms/CreatePostModal.jsx:62 | `split(c).join(c)` gives back the string. |
| Text.IncludesAt | src/services/api/postService.js:88-89 | `includes` holds exactly when the query occurs at some position. |
| Markdown.CloseAt | src/components/organisms/LessonViewer.jsx:35 | The lazy `(.*?)` group ends where a closing delimiter starts, at or after the scan position. |
| Markdown.CloseAtIsFirst | src/components/organisms/LessonViewer.jsx:35 | The closing delimiter found is the first one after the opening one, and no line break lies before it. |
| Markdown.ReplacePairsIdentity | src/components/organisms/LessonViewer.jsx:35-36 | Text without the delimiter character is left unchanged. |
| Markdown.ReplacePairsAbsent | src/components/organisms/LessonViewer.jsx:35 | Text in which the delimiter never occurs is left unchanged. |
| Markdown.ReplacePairsKeepsLines | src/components/organisms/LessonViewer.jsx:35-36 | The replacement keeps the number of line breaks. |
| Markdown.ReplaceWrapped | src/components/organisms/LessonViewer.jsx:35-36 | One delimited span on one line, in delimiter-free text, becomes the opening tag, the span and the closing tag, and nothing else changes. |
| Markdown.ReplaceLiteralSame | src/components/organisms/PostCard.jsx:26 | Replacing a literal by itself is the identity. |
| PostStore.Liked | src/services/api/postService.js:94-97 | `like` adds one like and changes nothing else. |
| PostStore.Unliked | src/services/api/postService.js:99-102 | `unlike` removes one like, floored at zero, and changes nothing else. |
| PostStore.UnlikeAfterLike | src/services/api/postService.js:94-102 | Unlike undoes like on a non-negative count. Unliking a post with no likes leaves it as it is. |
| PostStore.NewComment | src/services/api/postService.js:106-110 | The comment takes the caller's fields and the store's timestamp. Its identifier is `now` unless the caller supplies one. |
| PostStore.WithComment | src/services/api/postService.js:112-113 | The comment is appended to the existing comments (none counts as empty), and nothing else changes. |
| PostStore.NewPost | src/services/api/postService.js:30-36 | The created post has the given identifier, the caller's fields, the store's timestamp, zero likes and no comments. |
| PostStore.InCategory | src/services/api/postService.js:66-72 | Exactly the posts of the category, in store order. |
| PostStore.ByAuthor | src/services/api/postService.js:74-80 | Exactly the posts of the author, in store order. |
| PostStore.Search | src/services/api/postService.js:82-92 | Exactly the posts whose lower-cased title or content contains the lower-cased query, in store order. |
| PostStore.SearchIgnoresCase | src/services/api/postService.js:85 | Searching is blind to the letter case of the query. |
| PostStore.CreateThenGet | src/services/api/postService.js:18-40 | A created post is found again by its identifier, at the front. |
| PostStore.DeleteThenGet | src/services/api/postService.js:54-64 | After a delete no post carries the deleted identifier. |
| PostStore.IdReusedAfterDelete | src/services/api/postService.js:31 | After the post with the largest identifier `m` is deleted, the next create hands out an identifier no larger than `m`. It is exactly `m` when `m - 1` is still stored or `m` is 1. |
| PostStore.IdAfterDeleteExample | src/services/api/postService.js:31 | With identifiers 1 and 5, deleting 5 makes the next identifier 2, not 5. |
| PostStore.PostService.constructor | src/services/api/postService.js:4-6 | The store starts with the fixture posts. |
| PostStore.PostService.GetAll | src/services/api/postService.js:13-16 | Every post, in store order. |
| PostStore.PostService.GetById | src/services/api/postService.js:18-25 | The post with the identifier when there is one, else NotFound. |
| PostStore.PostService.Create | src/services/api/postService.js:27-40 | The new post has an identifier above every stored one and goes to the front; identifiers stay unique. |
| PostStore.PostService.Update | src/services/api/postService.js:42-52 | Merges the patch over the post in place, or NotFound with the store unchanged. |
| PostStore.PostService.Delete | src/services/api/postService.js:54-64 | Removes and returns the post, or NotFound with the store unchanged. |
| PostStore.PostService.GetByCategory | src/services/api/postService.js:66-72 | Returns `InCategory` of the stored posts. |
| PostStore.PostService.GetByAuthor | src/services/api/postService.js:74-80 | Returns `ByAuthor` of the stored posts. |
| PostStore.PostService.SearchPosts | src/services/api/postService.js:82-92 | Returns `Search` of the stored posts. |
| PostStore.PostService.Like | src/services/api/postService.js:94-97 | The post gains one like in place, or NotFound with the store unchanged. |
| PostStore.PostService.Unlike | src/services/api/postService.js:99-102 | The post loses one like, floored at zero, or NotFound with the store unchanged. |
| PostStore.PostService.AddComment | src/services/api/postService.js:104-114 | The new comment is appended to the post's comments, or NotFound with the store unchanged. |
| UserStore.NewUser | src/services/api/userService.js:30-36 | The created member has the caller's fields, joins now, and starts with no points and a "Low" activity level. |
| UserStore.WithPoints | src/services/api/userService.js:71-74 | The points change by exactly the given amount, with no floor, and nothing else changes. |
| UserStore.WithPointsAdds | src/services/api/userService.js:66-76 | Two point changes add up, and adding zero changes nothing. |
| UserStore.SliceEnd | src/services/api/userService.js:83 | `slice(0, limit)` stops at `limit`, at the end for a large limit, and counts from the end for a negative one. |
| UserStore.TopUsersSpec | src/services/api/userService.js:78-85 | The top members are sorted by points, taken from the store, as many as the slice allows. No member left out has more points than one returned. |
| UserStore.UserService.constructor | src/services/api/userService.js:4-6 | The store starts with the fixture members. |
| UserStore.UserService.GetAll | src/services/api/userService.js:13-16 | Every member, in store order. |
| UserStore.UserService.GetById | src/services/api/userService.js:18-25 | The member with the identifier when there is one, else NotFound. |
| UserStore.UserService.Create | src/services/api/userService.js:27-40 | The new member has an identifier above every stored one and goes to the end; identifiers stay unique. |
| UserStore.UserService.Update | src/services/api/userService.js:42-52 | Merges the patch over the member in place, or NotFound with the store unchanged. |
| UserStore.UserService.Delete | src/services/api/userService.js:54-64 | Removes and returns the member, or NotFound with the store unchanged. |
| UserStore.UserService.UpdatePoints | src/services/api/userService.js:66-76 | The member's points change by the amount in place, or NotFound with the store unchanged. |
| UserStore.UserService.GetTopUsers | src/services/api/userService.js:78-85 | The store itself ends up sorted by points, identifiers still unique, and the result is the top slice. |
| CourseStore.NewCourse | src/services/api/courseService.js:30-34 | The created course has the caller's fields, and an empty lesson list when none is given. |
| CourseStore.FindLesson | src/services/api/courseService.js:64-75 | The lesson with the identifier exactly when the course's list has one, else LessonNotFound. |
| CourseStore.LessonUpdated | src/services/api/courseService.js:77-89 | No lesson list is the TypeError and a missing lesson is LessonNotFound. Otherwise the patch is merged over that one lesson. |
| CourseStore.CompletedCount | src/services/api/courseService.js:104 | The count is at most the number of lessons. It equals that number exactly when all are completed, and is 0 exactly when none is. |
| CourseStore.CompletedCountSet | src/services/api/courseService.js:104 | Changing one lesson moves the count by that lesson's flag change alone. |
| CourseStore.Percentage | src/services/api/courseService.js:110 | The percentage is completed/total × 100, within 0 and 100, and 0 with no lessons. It is 100 exactly when every lesson of a non-empty list is done. |
| CourseStore.ProgressOf | src/services/api/courseService.js:99-112 | The total is the lesson count and the completed figure is the number of completed lessons, both 0 without a lesson list. The percentage is completed / total × 100 within [0, 100], 0 with no lessons. It reads 100% exactly when the course has lessons and all are done. |
| CourseStore.MarkMovesProgress | src/services/api/courseService.js:91-97 | Marking a lesson changes the completed count by at most one, in the marked direction, and leaves the total unchanged. |
| CourseStore.MarkIdempotent | src/services/api/courseService.js:91-97 | Marking the same lesson twice is marking it once. |
| CourseStore.Search | src/services/api/courseService.js:114-124 | Exactly the courses whose lower-cased title or description contains the lower-cased query. |
| CourseStore.CourseService.constructor | src/services/api/courseService.js:4-6 | The store starts with the fixture courses. |
| CourseStore.CourseService.GetAll | src/services/api/courseService.js:13-16 | Every course, in store order. |
| CourseStore.CourseService.GetById | src/services/api/courseService.js:18-25 | The course with the identifier when there is one, else NotFound. |
| CourseStore.CourseService.Create | src/services/api/courseService.js:27-38 | The new course has an identifier above every stored one and goes to the end. |
| CourseStore.CourseService.Update | src/services/api/courseService.js:40-50 | Merges the patch over the course in place, or NotFound with the store unchanged. |
| CourseStore.CourseService.Delete | src/services/api/courseService.js:52-62 | Removes and returns the course, or NotFound with the store unchanged. |
| CourseStore.CourseService.GetLessonById | src/services/api/courseService.js:64-75 | NotFound for a missing course; otherwise the lesson lookup within it. |
| CourseStore.CourseService.UpdateLesson | src/services/api/courseService.js:77-89 | The course holds the updated lesson. Any error (course, lesson list, lesson) leaves the store unchanged. |
| CourseStore.CourseService.MarkLessonComplete | src/services/api/courseService.js:91-93 | Lesson update with `completed: true`. |
| CourseStore.CourseService.MarkLessonIncomplete | src/services/api/courseService.js:95-97 | Lesson update with `completed: false`. |
| CourseStore.CourseService.GetCourseProgress | src/services/api/courseService.js:99-112 | NotFound for a missing course, else its progress figures. |
| CourseStore.CourseService.SearchCourses | src/services/api/courseService.js:114-124 | Returns `Search` of the stored courses. |
| ProgressStore.PairIndex | src/services/api/userProgressService.js:43-45 | The index of the first record for the (member, course) pair, or none exactly when there is no such record. |
| ProgressStore.PairIndexAt | src/services/api/userProgressService.js:43-45 | A record for the pair with none before it is the one found. |
| ProgressStore.ForUser | src/services/api/userProgressService.js:27-32 | Exactly the member's records, in store order. |
| ProgressStore.ForCourse | src/services/api/userProgressService.js:34-39 | Exactly the course's records, in store order. |
| ProgressStore.NewProgress | src/services/api/userProgressService.js:52-57 | The created record has the caller's fields and both instants set to now. |
| ProgressStore.Updated | src/services/api/userProgressService.js:71-75 | An update keeps the identifier and refreshes `lastUpdated`; a patch without key fields keeps the pair. |
| ProgressStore.OnePerPairSet | src/services/api/userProgressService.js:79-94 | Updating a record in place keeps at most one record per pair. |
| ProgressStore.OnePerPairAppend | src/services/api/userProgressService.js:79-94 | Appending a record for an absent pair keeps at most one record per pair. |
| ProgressStore.UpsertKeepsOnePerPair | src/services/api/userProgressService.js:79-94 | The upsert keeps at most one record per pair when its patch leaves the pair alone. |
| ProgressStore.UpsertWithKeyChangeDuplicates | src/services/api/userProgressService.js:79-94 | A patch that rewrites `userId` can create a second record for a pair. |
| ProgressStore.UpsertReadBack | src/services/api/userProgressService.js:71-94 | After an upsert whose patch leaves the pair alone, the pair's record holds every field the patch supplies, and `lastUpdated` is now. An existing record keeps its identifier and the fields the patch omits. A new record gets the next identifier, `startedAt` now, 0 completed lessons and no last lesson unless the patch says otherwise. |
| ProgressStore.IncrementKeepsOnePerPair | src/services/api/userProgressService.js:96-114 | The increment keeps at most one record per pair. |
| ProgressStore.IncrementReadBack | src/services/api/userProgressService.js:96-114 | After an increment the pair's record counts one lesson more (or 1 if new) and records the lesson and the time. |
| ProgressStore.TotalCompletedBounds | src/services/api/userProgressService.js:134-135 | Counts between 0 and m sum to between 0 and n·m. |
| ProgressStore.Mean | src/services/api/userProgressService.js:140-142 | The mean times the count is the total, and the mean is 0 with nothing to average. |
| ProgressStore.MeanBounds | src/services/api/userProgressService.js:140-142 | A mean of values in [0, m] lies in [0, m]. |
| ProgressStore.StatsOf | src/services/api/userProgressService.js:128-144 | The member's course count, lesson total and average progress, which is 0 without records. |
| ProgressStore.StatsAverageBounds | src/services/api/userProgressService.js:128-144 | The average progress lies within the bounds of the member's counts. |
| ProgressStore.UserProgressService.constructor | src/services/api/userProgressService.js:4-6 | The store starts with the fixture records. |
| ProgressStore.UserProgressService.GetAll | src/services/api/userProgressService.js:13-16 | Every record, in store order. |
| ProgressStore.UserProgressService.GetById | src/services/api/userProgressService.js:18-25 | The record with the identifier when there is one, else NotFound. |
| ProgressStore.UserProgressService.GetByUserId | src/services/api/userProgressService.js:27-32 | Returns `ForUser` of the records. |
| ProgressStore.UserProgressService.GetByCourseId | src/services/api/userProgressService.js:34-39 | Returns `ForCourse` of the records. |
| ProgressStore.UserProgressService.GetUserCourseProgress | src/services/api/userProgressService.js:41-47 | The pair's first record, or none exactly when the pair has no record. |
| ProgressStore.UserProgressService.Create | src/services/api/userProgressService.js:49-61 | The new record has a fresh identifier and goes to the end. |
| ProgressStore.UserProgressService.Update | src/services/api/userProgressService.js:63-77 | Merges the patch and stamps the time in place, or NotFound with the store unchanged. |
| ProgressStore.UserProgressService.UpdateUserCourseProgress | src/services/api/userProgressService.js:79-94 | Updates the pair's record, or appends a new one for the pair with 0 lessons unless the patch says otherwise. |
| ProgressStore.UserProgressService.IncrementCompletedLessons | src/services/api/userProgressService.js:96-114 | One more lesson on the pair's record, or a new record with one lesson. |
| ProgressStore.UserProgressService.Delete | src/services/api/userProgressService.js:116-126 | Removes and returns the record, or NotFound with the store unchanged. |
| ProgressStore.UserProgressService.GetUserStats | src/services/api/userProgressService.js:128-144 | Returns `StatsOf` the member's records. |
| Feed.InTab | src/components/pages/Feed.jsx:56-59 | Exactly the posts the tab passes: all of them for "All Posts", else the posts of that category. |
| Feed.FilteredPosts | src/components/pages/Feed.jsx:56-60 | As many posts as the tab passes. |
| Feed.FilteredPostsSpec | src/components/pages/Feed.jsx:56-60 | The shown posts are the tab's posts, newest first; posts with equal timestamps stay in list order. |
| Feed.AllPostsShown | src/components/pages/Feed.jsx:57 | Under "All Posts" every post is shown. |
| Feed.FilterTabs | src/components/pages/Feed.jsx:25-30 | The four tabs, in order, with their values. |
| Feed.CategoryTab | src/components/pages/Feed.jsx:27-29 | A category tab passes exactly that category's posts. |
| Feed.TabCountsMatchShown | src/components/pages/Feed.jsx:25-30 | Each tab's count equals the number of posts shown under it. |
| Feed.LikeCount | src/components/pages/Feed.jsx:68 | One like fewer for a liked post, one more otherwise, with no floor. |
| Feed.SetLikes | src/components/pages/Feed.jsx:71-73 | Only the posts with the identifier get the new count. |
| Feed.Toggled | src/components/pages/Feed.jsx:75-80 | The liked set flips membership of the post alone. |
| Feed.ToggleLike | src/components/pages/Feed.jsx:64-80 | A post not in the list changes nothing. Otherwise the like flips and the count moves one step the matching way. |
| Feed.SetLikesAt | src/components/pages/Feed.jsx:71-73 | With unique identifiers the update touches exactly one position. |
| Feed.ToggleLikeTwice | src/components/pages/Feed.jsx:62-91 | Liking then unliking restores the page's list and liked set. |
| Feed.LikesOf | src/components/pages/Feed.jsx:68 | The like counts of the list, in order. |
| Feed.ToggleLikeTotal | src/components/pages/Feed.jsx:62-80 | A toggle moves the page's total like count by exactly one. |
| Feed.UnlikeHasNoFloor | src/components/pages/Feed.jsx:68 | The page can show -1 likes where the store's `unlike` stops at 0. |
| Feed.ReplacePost | src/components/pages/Feed.jsx:109-111 | Only the posts with the identifier are replaced. |
| Feed.CommentCounts | src/components/organisms/PostCard.jsx:105 | The comment counts the cards show, in order. |
| Feed.CommentAppendedOnce | src/components/pages/Feed.jsx:93-111 | A comment lands on its post only, and the shown comment total rises by exactly one. |
| Feed.CreatedPostCounted | src/components/pages/Feed.jsx:123-126 | A created post is shown once more under exactly the tabs that pass it. |
| Feed.FeedPage.constructor | src/components/pages/Feed.jsx:17-23 | The page's initial state. |
| Feed.FeedPage.LoadData | src/components/pages/Feed.jsx:32-50 | Loads every post and member; the tab and likes are kept. |
| Feed.FeedPage.HandleLike | src/components/pages/Feed.jsx:62-91 | The local toggle, then the post written to the store. A missing store post makes the page reload, keeping the toggle. |
| Feed.FeedPage.HandleCommentSubmit | src/components/pages/Feed.jsx:93-121 | The comment is appended locally, then the post is written to the store. A missing store post makes the page reload. |
| Feed.FeedPage.HandlePostCreated | src/components/pages/Feed.jsx:123-126 | The new post goes in front of the list. |
| Classroom.CompletedLessonsOf | src/components/pages/Classroom.jsx:52 | The completed count comes from the lesson flags, is 0 without a list, and never exceeds the lesson count. |
| Classroom.ProgressFor | src/components/pages/Classroom.jsx:51 | The first record for the course, whichever member it belongs to, or none exactly when no record has the course. |
| Classroom.WithProgress | src/components/pages/Classroom.jsx:50-60 | Every course, in order, with its progress record. The completed count comes from the lessons, never from the record. |
| Classroom.StatusPartition | src/components/pages/Classroom.jsx:79-86 | Every course is in exactly one of Completed, In Progress and Not Started. |
| Classroom.FilteredCourses | src/components/pages/Classroom.jsx:69-89 | Exactly the courses matching both the search and the tab, in order. |
| Classroom.EverythingByDefault | src/components/pages/Classroom.jsx:69-89 | With no search and "All Courses", every course is shown. |
| Classroom.TabsPartitionCourses | src/components/pages/Classroom.jsx:62-67 | The three status tabs' counts add up to the number of courses. |
| Classroom.LessonsDoneCoversStarted | src/components/pages/Classroom.jsx:199-217 | "Lessons Done" is at least the number of completed and in-progress courses. "Points Earned" is at most 100 per lesson done. |
| Classroom.FirstIncompleteIndex | src/components/pages/Classroom.jsx:94-95 | The first lesson not yet completed, or 0 when all are done or there is no list. |
| Classroom.LessonAt | src/components/pages/Classroom.jsx:97 | The lesson at the index exactly when the index is in range. |
| Classroom.Navigate | src/components/pages/Classroom.jsx:128-137 | A move happens exactly when a course with lessons is selected and the new index is in range. |
| Classroom.NavigationMatchesViewer | src/components/organisms/LessonViewer.jsx:23-24 | The viewer enables Next and Previous exactly when the page's navigation would move. |
| Classroom.MarkAll | src/components/pages/Classroom.jsx:107-109 | Exactly the lessons with the identifier become completed. |
| Classroom.MarkAllRaisesCount | src/components/pages/Classroom.jsx:104-110 | Completing never lowers the completed count, and raises it when the lesson was not done. |
| Classroom.MarkAllAgreesWithStore | src/services/api/courseService.js:91-93 | The page's completion is the store's `markLessonComplete`. |
| Classroom.ReplaceCourse | src/components/pages/Classroom.jsx:116-118 | Only the courses with the identifier are replaced. |
| Classroom.EmptyCourseDisagreement | src/components/organisms/CourseCard.jsx:10 | A course with no lessons is "Not Started" on the page but "Completed" on its card. |
| Classroom.ClassroomPage.constructor | src/components/pages/Classroom.jsx:14-24 | The page's initial state. |
| Classroom.ClassroomPage.LoadData | src/components/pages/Classroom.jsx:25-43 | Loads every course and progress record, keeping the rest of the state. |
| Classroom.ClassroomPage.CourseClick | src/components/pages/Classroom.jsx:91-98 | Selects the course and opens its first incomplete lesson. |
| Classroom.ClassroomPage.LessonComplete | src/components/pages/Classroom.jsx:100-126 | Writes the completed course to the store, then updates the list, the selection and the open lesson. Without a selection or a lesson list, or when the store rejects the write, the page is unchanged. |
| Classroom.ClassroomPage.LessonNavigation | src/components/pages/Classroom.jsx:128-137 | Moves to the next or previous lesson exactly as `Navigate` allows. |
| Classroom.ClassroomPage.CloseLessonViewer | src/components/pages/Classroom.jsx:139-143 | Clears the selection, so the viewer is no longer shown. |
| Leaderboard.Ranked | src/components/pages/Leaderboard.jsx:47-50 | One ranked entry per member. |
| Leaderboard.RanksSpec | src/components/pages/Leaderboard.jsx:47-50 | Members are kept in order and ranked 1 to n by position, so tied members still get different ranks. |
| Leaderboard.RankedMembersSpec | src/components/pages/Leaderboard.jsx:45-50 | Every member appears once, higher points never rank below lower points, and ties keep the store's order. |
| Leaderboard.TiesKeepStoreOrder | src/components/pages/Leaderboard.jsx:45-50 | Two members on equal points are ranked in store order. |
| Leaderboard.RankBadgeOf | src/components/pages/Leaderboard.jsx:52-57 | A badge exactly for ranks 1 to 3. |
| Leaderboard.BadgesForTopThree | src/components/pages/Leaderboard.jsx:52-57 | Exactly the first three places carry a badge. |
| Leaderboard.PodiumOf | src/components/pages/Leaderboard.jsx:101 | The podium shows second, first and third, from left to right. |
| Leaderboard.PodiumSpec | src/components/pages/Leaderboard.jsx:101-178 | The winner is in the middle with at least the neighbours' points. The podium and the empty state never show together. |
| Leaderboard.LeaderboardPage.constructor | src/components/pages/Leaderboard.jsx:14-17 | The page's initial state. |
| Leaderboard.LeaderboardPage.LoadMembers | src/components/pages/Leaderboard.jsx:25-38 | Loads every member. |
| Leaderboard.LeaderboardPage.RankMembers | src/components/pages/Leaderboard.jsx:45-50 | Sorts the page's own list in place and returns it ranked. |
| Members.Matching | src/components/pages/Members.jsx:35-43 | Exactly the members whose name, bio or activity level contains the query, ignoring case; an empty query keeps everyone. |
| Members.FilteredMembers | src/components/pages/Members.jsx:35-44 | As many members as match. |
| Members.FilteredMembersSpec | src/components/pages/Members.jsx:35-44 | The matching members sorted by points, ties in list order. With no search, every member. |
| Members.SearchIgnoresCase | src/components/pages/Members.jsx:38 | Searching is blind to the query's letter case. |
| Members.HighlyActiveCount | src/components/pages/Members.jsx:86 | Equals the number of positions in the list whose member has activity level exactly "High", and is 0 exactly when there are none. |
| Seqs.FilterCountsPositions | src/components/pages/Members.jsx:86 | `filter(...).length` is the number of positions whose element passes the test. |
| Members.PointsOf | src/components/pages/Members.jsx:92 | The points, in list order. |
| Members.RoundedMean | src/components/pages/Members.jsx:92 | `Math.round(total / n)`: the nearest integer, with a half rounded up. |
| Members.AveragePoints | src/components/pages/Members.jsx:92 | The rounded mean of the points, and 0 with no members. |
| Members.SumBounds | src/components/pages/Members.jsx:92 | Points in [lo, hi] sum to between n·lo and n·hi. |
| Members.RoundedMeanBounds | src/components/pages/Members.jsx:92 | Rounding keeps the mean within [lo, hi]. |
| Members.AverageWithinPoints | src/components/pages/Members.jsx:92 | The average lies within the range of the members' points. |
| Members.AverageOfEqualPoints | src/components/pages/Members.jsx:92 | Equal points average to those points. |
| CreatePostModal.LineOf | src/components/organisms/CreatePostModal.jsx:60 | The line index of the cursor is the number of line breaks before it, and is a valid line. |
| CreatePostModal.FormatKeepsSurroundings | src/components/organisms/CreatePostModal.jsx:39-68 | Bold, italic and image keep the text before and after the selection. |
| CreatePostModal.BoldSpec | src/components/organisms/CreatePostModal.jsx:40-48 | The selection is wrapped in `**` with the cursor after it; for an empty selection the cursor sits between the markers. |
| CreatePostModal.ItalicSpec | src/components/organisms/CreatePostModal.jsx:49-57 | The same with single `*` markers. |
| CreatePostModal.BoldRendersStrong | src/components/organisms/PostCard.jsx:24-25 | In asterisk-free text, a bolded one-line selection renders in strong tags, and only it. |
| CreatePostModal.ItalicRendersEm | src/components/organisms/PostCard.jsx:24-25 | In asterisk-free text, an italicised one-line selection renders in emphasis tags. |
| CreatePostModal.NoPairInItalic | src/components/organisms/CreatePostModal.jsx:51 | The two italic markers never form a `**` pair. |
| CreatePostModal.BulletSpec | src/components/organisms/CreatePostModal.jsx:58-64 | The bullet goes in front of the cursor's line and no other line changes. The text grows by two and so does the cursor. |
| CreatePostModal.ImageCursorOvershoots | src/components/organisms/CreatePostModal.jsx:65-68 | The placeholder is inserted, but the cursor lands three characters past its end. |
| CreatePostModal.Submission | src/components/organisms/CreatePostModal.jsx:78-123 | A blank title is refused, then blank content. Otherwise the post is made of the trimmed non-blank fields, with a fresh identifier, zero likes and no comments. |
| CreatePostModal.PostForm.constructor | src/components/organisms/CreatePostModal.jsx:11-14 | The form's initial state. |
| CreatePostModal.PostForm.Submit | src/components/organisms/CreatePostModal.jsx:78-123 | A refused submission leaves the store and the form unchanged. An accepted one puts `Submission`'s post in front of the store and resets the form. |
| CreatePostModal.PostForm.Close | src/components/organisms/CreatePostModal.jsx:125-132 | Closes and resets the form exactly when no submission is under way. |
| CourseCard.CompletedOf | src/components/organisms/CourseCard.jsx:8 | Missing progress counts as 0 completed lessons. |
| CourseCard.TotalOf | src/components/organisms/CourseCard.jsx:9 | A non-zero declared total wins, then the lesson list's length, then 0. |
| CourseCard.CardPercentage | src/components/organisms/CourseCard.jsx:11 | completed/total × 100, and 0 with no lessons. Positive exactly when some lesson is done. |
| CourseCard.View | src/components/organisms/CourseCard.jsx:8-104 | Completed exactly when the counts are equal. Then Review, Continue (when the percentage is positive) or Start; the badge and the check show exactly when completed. |
| CourseCard.EmptyCourseShowsCompleted | src/components/organisms/CourseCard.jsx:10 | A course with no lessons reads as completed ("Review Course"). |
| CourseCard.StartedCourseContinues | src/components/organisms/CourseCard.jsx:104 | A started, unfinished course reads "Continue Learning". |
| LessonViewer.NavigationGuards | src/components/organisms/LessonViewer.jsx:23-24 | Next is enabled exactly when a lesson follows, and Previous exactly when one precedes. |
| LessonViewer.ControlsFor | src/components/organisms/LessonViewer.jsx:70-85 | "Mark Complete" exactly for an uncompleted lesson, the Completed marker otherwise. |
| LessonViewer.MarkComplete | src/components/organisms/LessonViewer.jsx:26-31 | The callback fires, with the lesson's identifier, exactly for an uncompleted lesson with a callback. |
| LessonViewer.MarkCompleteShownOnlyWhenEffective | src/components/organisms/LessonViewer.jsx:26-85 | The completion button is shown exactly when pressing it would fire. |
| LessonViewer.ItemStyleOf | src/components/organisms/LessonViewer.jsx:182-196 | The current lesson is highlighted whatever its state; otherwise it looks done or pending. |
| LessonViewer.ItemMarkerOf | src/components/organisms/LessonViewer.jsx:198-202 | A check exactly for a completed lesson, else its 1-based number. |
| LessonViewer.TrimAll | src/components/organisms/LessonViewer.jsx:38 | Each line trimmed, in order. |
| LessonViewer.TrimKeepsChars | src/components/organisms/LessonViewer.jsx:38 | Trimming only removes characters. |
| LessonViewer.ParagraphsShape | src/components/organisms/LessonViewer.jsx:33-41 | Each paragraph is non-empty, trimmed and on one line. |
| LessonViewer.ParagraphsCount | src/components/organisms/LessonViewer.jsx:33-41 | There are never more paragraphs than lines. |
| LessonViewer.PlainContent | src/components/organisms/LessonViewer.jsx:33-41 | Without asterisks, the paragraphs are the non-blank lines, trimmed, in order. |
| PostCard.FormatContentIsEmphasis | src/components/organisms/PostCard.jsx:21-27 | The bullet replacement changes nothing, so the card's formatting is the markdown pass. |
| PostCard.PlainContentUnchanged | src/components/organisms/PostCard.jsx:21-27 | Without asterisks the content is shown as written. |
| PostCard.FormatContentKeepsLines | src/components/organisms/PostCard.jsx:21-27 | Formatting keeps the number of lines. |
| PostCard.CategoryColor | src/components/organisms/PostCard.jsx:29-36 | A missing category gets the default colour. |
| PostCard.CategoryColorByName | src/components/organisms/PostCard.jsx:29-36 | For every name, the lower-cased spelling "announcements", "questions" or "discussions" picks warning, info or primary. Any other name gets the default. |
| PostCard.CategoryColorIgnoresCase | src/components/organisms/PostCard.jsx:30 | The colour does not depend on letter case. |
| PostCard.EditorCategoryColors | src/components/organisms/PostCard.jsx:29-36 | The editor's categories Announcements, Questions and Discussions get their colours, and General gets the default. |
| PostCard.CommentCount | src/components/organisms/PostCard.jsx:105 | The number of comments, and 0 without a list. |
| PostCard.CommentForm.constructor | src/components/organisms/PostCard.jsx:19 | The input starts empty. |
| PostCard.CommentForm.Submit | src/components/organisms/PostCard.jsx:38-54 | A blank comment is not sent and the input is kept. Otherwise the trimmed text goes to the callback, if any, as the current user's comment, and the input is cleared. |
| Avatar.Firsts | src/components/atoms/Avatar.jsx:22 | At most one character per piece. |
| Avatar.Heads | src/components/atoms/Avatar.jsx:22 | One character per non-empty piece. |
| Avatar.FirstsAreHeads | src/components/atoms/Avatar.jsx:22 | Joining first characters (an empty piece adds nothing) takes the first character of each non-empty piece. |
| Avatar.Initials | src/components/atoms/Avatar.jsx:20-23 | "U" for a missing or empty name. Otherwise the upper-cased first characters of the words. |
| Avatar.UpperIdempotent | src/components/atoms/Avatar.jsx:22 | Upper-casing twice is upper-casing once. |
| Avatar.InitialsSpec | src/components/atoms/Avatar.jsx:20-23 | Initials are upper case, contain no space, and number one per word, at most one more than the spaces. |
| Avatar.OneWordInitial | src/components/atoms/Avatar.jsx:20-23 | A one-word name gives its first letter, upper-cased. |
| Avatar.FaceOf | src/components/atoms/Avatar.jsx:35-44 | The picture exactly for a non-empty source, else initials exactly for a non-empty fallback, else the icon. |
| Avatar.SpacesOnlyNameShowsNoLetters | src/components/atoms/Avatar.jsx:20-44 | A name of spaces alone shows empty initials. |

## Left out

- Asynchronous behaviour (the simulated `delay`, `await`, `Promise.all`, interleaving of calls) is left out: each store call is one atomic step.
- Toasts, console logging, loading spinners, error banners, animation and focus handling are user-interface effects with no state the model keeps.
- The `setTimeout` that refocuses the editor and the browser's clamping of `setSelectionRange` are left out. The cursor is the value `handleFormat` computes.
- The stores return shallow copies (`{ ...x }`). Records are Dafny values, so aliasing between a returned object and the store is not modelled.
- Case mapping (`toLowerCase`, `toUpperCase`) is modelled on ASCII letters only.
- A string is a sequence of Unicode scalar values, while JavaScript strings are sequences of UTF-16 code units. Lengths and positions therefore match JavaScript's only for text inside the Basic Multilingual Plane. This affects the editor's selection offsets and cursor positions, `trim` and `split` indices, and the avatar's `n[0]`, which in JavaScript is a lone surrogate for a character outside that plane.
- Percentages and averages are exact reals, not IEEE doubles. `Math.round` is modelled on exact rationals.
- The regular expressions `/\*\*(.*?)\*\*/g` and `/\*(.*?)\*/g` are modelled by a scanner, not a regular-expression engine.
- Classroom's `coursesWithProgress` spreads the whole course and progress record. The model keeps the course, the first progress record and the completed count only.
- Feed's `handleCommentSubmit` attaches the author record to the comment. That field is not modelled: the comment is stored as given.
- Patches and drafts have no identifier field, so an `update` or `create` that overwrites an identifier (`...postData` after `Id`) is not modelled.
- ProgressStore.UserProgressService.Create: a direct `create` can add a second record for a (member, course) pair, as the source allows. Uniqueness per pair is proved only for the upsert and the increment.
- The mock JSON fixtures are not part of this model; the stores take their initial contents as constructor parameters.
- The Leaderboard's time-frame tabs change a state variable that nothing reads; the state is kept, with no effect.
- LessonViewer's progress bar, the video player time state and the resource links are presentation only.
- MemberCard, SearchBar, FilterTabs, Badge, Button, ProgressBar and the other presentational components are not part of this model.
- Entities.PostPatch.Over, Entities.UserPatch.Over, Entities.CoursePatch.Over, Entities.LessonPatch.Over, Entities.ProgressPatch.Over: their own contracts state only that the identifier is kept (and, for progress, the old `lastUpdated`). What a merge yields is stated by the PatchOfOver lemmas, by ProgressStore.UpsertReadBack and by the store methods that use it.
- PostCard.CategoryColor: its own contract covers only the missing category. The colour of every name is stated by CategoryColorByName.
