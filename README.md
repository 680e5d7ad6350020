# Lecture scheduler dashboard: a Dafny model

This project models the logic inside the views of a lecture-scheduling dashboard. The
dashboard is a React front end over a REST backend. A business user manages courses,
teachers and batches and watches lecture completion. A teacher sees their batches and
marks lectures completed.

There is no large algorithm in the application. The views do hold many small pieces of
sequential logic, and those are what is modelled here:

- completion counts over the Batch → Subject → Topic → Lecture snapshot;
- the optimistic "mark lecture completed" update;
- the search, date-range, faculty and batch filters;
- the per-list statistics and the grouping by topic;
- the two different ways the reports aggregate completion (sum-then-rate and
  average-of-rates);
- colour thresholds, pagination windows and the specialization tag editor;
- batch status and relative-time buckets;
- error-message selection;
- the pagination query string, the request headers, and the stored-token transitions of
  the API client.

One Dafny module corresponds to each source file:

| module | file |
|---|---|
| `MyCourses` | `src/components/teacher/MyCourses.tsx` |
| `FacultyDetails` | `src/components/business/FacultyDetails.tsx` |
| `LectureTracking` | `src/components/business/LectureTracking.tsx` |
| `TeacherManagement` | `src/components/business/TeacherManagement.tsx` |
| `CourseDetails` | `src/components/business/CourseDetails.tsx` |
| `Progress` | `src/components/teacher/Progress.tsx` |
| `DashboardOverview` | `src/components/business/DashboardOverview.tsx` |
| `BatchDetails` | `src/components/business/BatchDetails.tsx` |
| `TeacherOverview` | `src/components/teacher/TeacherOverview.tsx` |
| `Toast` | `src/utils/toast.ts` |
| `Api` | `src/services/api.ts` |

Two further modules hold shared material:

- `Hierarchy` holds the nested data model the teacher views and the batch view share.
- `Common` holds the generic helpers: filters, sums, sublists, sorting, decimal
  rendering, `Math.round` and `toFixed(2)` on exact values, and floor and ceiling
  division.

How the source is represented:

- **Pure computations** become functions. Each has lemmas that relate it to a reference
  definition or state what it promises.
- **Stateful views** become classes. Each class has the state fields the component
  updates, and methods with `modifies` clauses. Where a view came with
  - a loop (`LecturesByDate`, `LecturesByTopic`), or
  - step-by-step mutation (`Api.BuildParams`, `CourseEditor.ToggleSubject`),

  the model is an imperative method proved against a specification function.
- **Inputs from the environment** are parameters:
  - timestamps are integer milliseconds since the epoch;
  - the current time is passed in (`now`, the marking timestamp, the elapsed time);
  - the network is a `Transport` value given to each request;
  - a thrown error is an `ApiError` value.

## Where the code and its description differ

In each of these cases the model follows the code:

- **Progress report average.** Batches without subjects are not excluded from the
  teacher's progress average (`src/components/teacher/Progress.tsx:73-80`). Their mean
  divides by zero and the overall figure becomes `NaN`. The model writes `NaN` as
  `None`: see `Progress.CalculateOverallStats` and `Progress.BatchMean`.
- **Completed lectures in the batch view.** The batch view marks a lecture as completed
  from `completedAt` alone (`src/components/business/BatchDetails.tsx:242`). The teacher
  side needs both `completedAt` and `completedBy`. `BatchDetails.ShownCompletedIsWeaker`
  exhibits a lecture the two treat differently.
- **Tag input.** Pressing Enter clears the specialization input only when the tag is
  actually added (`src/components/business/TeacherManagement.tsx:804-815`).
- **Two id fields.** The optimistic update matches on `subjectId`, `topicId` and
  `lectureId`, while the request payload sends `_id`s. Both id fields are kept in the
  data model.

## Model

| member | source | states |
|---|---|---|
| Hierarchy.CompletedIsFlatCount | src/components/teacher/MyCourses.tsx:191-203 | the nested reduce over subjects and topics counts exactly the lectures of the flattened batch with both `completedAt` and `completedBy` set; so it is at most the number of lectures present |
| Hierarchy.SubjectsCount | src/components/teacher/MyCourses.tsx:191-203 | over any list of subjects, the nested completed count equals the number of completed lectures in the flattened list |
| Hierarchy.TopicsCount | src/components/teacher/MyCourses.tsx:194-200 | over any list of topics, the summed per-topic completed counts equal the number of completed lectures in the flattened list |
| MyCourses.CalculateProgress | src/components/teacher/MyCourses.tsx:186-207 | 0 when the precomputed total is 0; otherwise `Math.round(completed / total * 100)` over the nested completed count and the summed `totalLectures` |
| MyCourses.ProgressInRange | src/components/teacher/MyCourses.tsx:204-206 | with no more completed lectures than the total, progress is at most 100; it is exactly 100 iff completed/total ≥ 0.995 |
| MyCourses.FilteredBatches | src/components/teacher/MyCourses.tsx:45-51 | a batch is kept iff its name, or the title of one of its subjects, contains the search term ignoring case; the result is an order-preserving sublist |
| MyCourses.EmptySearchKeepsAll | src/components/teacher/MyCourses.tsx:45-51 | an empty search term keeps every batch |
| MyCourses.MarkBatchesSpec | src/components/teacher/MyCourses.tsx:78-113 | the update keeps the length of every list and the order and ids of every entry; batches with another `_id` are unchanged; each lecture position is completed with the timestamp and `current-user` iff it lies on the matching batch/subject/topic/lecture path, and is unchanged otherwise |
| MyCourses.MarkBatchShape | src/components/teacher/MyCourses.tsx:83-108 | inside one batch, the update changes nothing but the completion fields |
| MyCourses.MarkSubjectShape | src/components/teacher/MyCourses.tsx:83-108 | inside one subject, the update changes nothing but the completion fields |
| MyCourses.MarkTopicShape | src/components/teacher/MyCourses.tsx:87-104 | inside one topic, the update changes nothing but the completion fields |
| MyCourses.NoMatchingBatch | src/components/teacher/MyCourses.tsx:79-111 | when no batch has the given `_id`, the list is returned unchanged |
| MyCourses.TargetCompleted | src/components/teacher/MyCourses.tsx:92-97 | after the update, a lecture on the target path satisfies the completed predicate |
| MyCourses.MarkNeverLowersCount | src/components/teacher/MyCourses.tsx:92-97 | the update never lowers any batch's completed count |
| MyCourses.MarkSubjectCount | src/components/teacher/MyCourses.tsx:84-107 | the update never lowers a subject's completed count |
| MyCourses.MarkTopicCount | src/components/teacher/MyCourses.tsx:88-103 | the update never lowers a topic's completed count |
| MyCourses.MarkIdempotent | src/components/teacher/MyCourses.tsx:92-97 | applying the update twice with the same timestamp equals applying it once |
| MyCourses.MarkBatchTwice | src/components/teacher/MyCourses.tsx:81-109 | the update of one batch is idempotent |
| MyCourses.MarkSubjectTwice | src/components/teacher/MyCourses.tsx:85-105 | the update of one subject is idempotent |
| MyCourses.MarkTopicTwice | src/components/teacher/MyCourses.tsx:89-102 | the update of one topic is idempotent |
| MyCourses.SelectedStaysInSync | src/components/teacher/MyCourses.tsx:116-149 | the viewed batch, updated the same way, is the entry the updated list holds for it |
| MyCourses.SelectedAfterMark | src/components/teacher/MyCourses.tsx:116-149 | the viewed batch stays present or absent; it is unchanged when it is another batch; otherwise only completion fields change |
| MyCourses.MyCoursesView.constructor | src/components/teacher/MyCourses.tsx:15-22 | no batches, no selection, an empty search and no lecture being completed |
| MyCourses.MyCoursesView.Visible | src/components/teacher/MyCourses.tsx:45-51 | the visible batches are an order-preserving sublist of the loaded ones |
| MyCourses.MyCoursesView.BeginMark | src/components/teacher/MyCourses.tsx:59-60 | `completingLecture` is set to the lecture before the request, and nothing else changes |
| MyCourses.MyCoursesView.FinishMark | src/components/teacher/MyCourses.tsx:72-183 | `completingLecture` is reset on every outcome; on success the list and the viewed batch are updated, a notification is sent and a reload is requested; every outcome gives one toast; a thrown error requests a reload unless it is an authentication error |
| FacultyDetails.DateFilter | src/components/business/FacultyDetails.tsx:53-81 | with both inputs empty, the full list; otherwise a lecture is kept iff it is at or after the start (when given) and at or before the end of the end day (when given); an order-preserving sublist |
| FacultyDetails.EndOfDayInclusive | src/components/business/FacultyDetails.tsx:64-67 | an event at 23:59:59.999 of the end day is kept; one at the next millisecond is dropped |
| FacultyDetails.LecturesByDate | src/components/business/FacultyDetails.tsx:142-146 | the keys of the per-day counts are exactly the days with a completion, and each count is that day's number of completions (at least 1) |
| FacultyDetails.CalculateStats | src/components/business/FacultyDetails.tsx:135-172 | the total is the list length; unique topics is the number of distinct `topicId`s; active days is the number of distinct days; the average is the rounded lectures per day; the most recent lecture is the reduce over `completedAt` |
| FacultyDetails.AveragePerDay | src/components/business/FacultyDetails.tsx:148-153 | `Math.round(total / days * 10) / 10`, and 0 when there are no days |
| FacultyDetails.StatsBounds | src/components/business/FacultyDetails.tsx:136-170 | unique topics ≤ total; no active days for an empty list; 1 ≤ active days ≤ total otherwise |
| FacultyDetails.FilteredStatsAtMostAllTime | src/components/business/FacultyDetails.tsx:174-175 | the date-filtered total, topic count and active days never exceed the all-time ones |
| FacultyDetails.MostRecentSpec | src/components/business/FacultyDetails.tsx:156-163 | null iff the list is empty; otherwise an element with maximal `completedAt`, and the earliest such element because the comparison is strict |
| FacultyDetails.FoldLatestSpec | src/components/business/FacultyDetails.tsx:158-162 | the reduce, once it holds the first maximal element of a prefix, ends on the first maximal element of the whole list |
| FacultyDetails.LecturesByTopic | src/components/business/FacultyDetails.tsx:178-184 | the keys are the distinct topic titles in first-occurrence order, and each group is the nonempty, in-order list of that title's lectures |
| FacultyDetails.GroupMembership | src/components/business/FacultyDetails.tsx:178-184 | a lecture of the list is in a group iff the group is its own title |
| FacultyDetails.GroupingPartitions | src/components/business/FacultyDetails.tsx:178-184 | the group sizes sum to the filtered count |
| FacultyDetails.GroupSizesSum | src/components/business/FacultyDetails.tsx:178-184 | over duplicate-free titles covering every lecture, the group sizes sum to the list length |
| FacultyDetails.Latest | src/components/business/FacultyDetails.tsx:189-194 | `Math.max` of a group's times: an upper bound on every time in the group and attained in a nonempty group |
| FacultyDetails.Entries | src/components/business/FacultyDetails.tsx:187 | `Object.entries`: one (title, group) pair per key, in key order |
| FacultyDetails.SortedTopics | src/components/business/FacultyDetails.tsx:187-197 | the groups are in descending order of latest completion, and are a permutation of the entries |
| FacultyDetails.SortByRecency | src/components/business/FacultyDetails.tsx:497-502 | the lectures of a group are in descending `completedAt` order, and are a permutation of the group |
| LectureTracking.Stage | src/components/business/LectureTracking.tsx:23-42 | a stage runs only when its filter string is nonempty, keeps the items that pass, and preserves order |
| LectureTracking.FilteredData | src/components/business/LectureTracking.tsx:19-45 | with no search and no filters, the full list; otherwise an item is kept iff it matches the search (when given), the faculty's full name (when given) and the batch name (when given) |
| LectureTracking.FilteredDataIsSublist | src/components/business/LectureTracking.tsx:19-45 | the filtered list is an order-preserving sublist of the overview |
| LectureTracking.AvailableFaculty | src/components/business/LectureTracking.tsx:50-71 | strictly sorted and duplicate-free, and holds exactly the full names of items in the selected batch (when one is selected) that match the search |
| LectureTracking.AvailableBatches | src/components/business/LectureTracking.tsx:74-97 | strictly sorted and duplicate-free, and holds exactly the batch names of items of the selected faculty (when one is selected) that match the search |
| LectureTracking.OptionsAreCompatible | src/components/business/LectureTracking.tsx:50-97 | a faculty offered while a batch is selected, or a batch offered while a faculty is selected, is paired with it by some item |
| LectureTracking.ShownItemsAreOffered | src/components/business/LectureTracking.tsx:19-97 | every shown item's faculty and batch are among the offered options |
| LectureTracking.TrackingFilters.constructor | src/components/business/LectureTracking.tsx:10-12 | empty search and filters, which are compatible with any overview |
| LectureTracking.TrackingFilters.Shown | src/components/business/LectureTracking.tsx:47 | the shown items are those the current search and filters keep |
| LectureTracking.TrackingFilters.FacultyFilterChange | src/components/business/LectureTracking.tsx:103-117 | the faculty filter is set; the batch filter is cleared iff a faculty and a batch are both selected and no item pairs them; the filters stay compatible |
| LectureTracking.TrackingFilters.BatchFilterChange | src/components/business/LectureTracking.tsx:120-134 | the batch filter is set; the faculty filter is cleared iff both are selected and no item pairs them; the filters stay compatible |
| LectureTracking.TrackingFilters.ClearFilters | src/components/business/LectureTracking.tsx:200-203 | both filters are cleared, the search is kept, and the shown list is the search result alone |
| LectureTracking.SummaryStats | src/components/business/LectureTracking.tsx:204-213 | the lecture totals are sums over the items and active teachers the number of distinct faculty ids: at most the item count and at least 1 when there is an item; completed ≤ total when that holds for every item; the average completion is the mean rate rounded to hundredths, within 0.005 of it, 0 without items and a percentage when every rate is one |
| LectureTracking.CompletedAtMostTotal | src/components/business/LectureTracking.tsx:206-207 | when no item completes more lectures than it has, the summed completed lectures never exceed the summed totals |
| LectureTracking.MeanRateWithin | src/components/business/LectureTracking.tsx:208-210 | the mean rate is 0 without items, and otherwise lies within any integer bounds on the item rates |
| LectureTracking.AverageCompletionBounds | src/components/business/LectureTracking.tsx:208-210 | with items present, the shown average, rounded to hundredths, lies within any integer bounds on the item rates |
| LectureTracking.FilteredActivity | src/components/business/LectureTracking.tsx:193-198 | an event is kept iff one of its four titles contains the search term ignoring case |
| LectureTracking.FilteredActivityProperties | src/components/business/LectureTracking.tsx:193-198 | the filter always runs, yet an empty term keeps every event; the result is an order-preserving sublist |
| TeacherManagement.FacultyOnly | src/components/business/TeacherManagement.tsx:76-79 | a user is kept iff their role is faculty |
| TeacherManagement.FacultyOnlyKeepsOrder | src/components/business/TeacherManagement.tsx:76-79 | the kept users keep their order, and an all-faculty page is unchanged |
| TeacherManagement.PageWindow | src/components/business/TeacherManagement.tsx:356-366 | there are `min(5, totalPages)` buttons (none for a non-positive total), numbered consecutively |
| TeacherManagement.PageWindowCoversCurrent | src/components/business/TeacherManagement.tsx:356-366 | for a current page within range, every button is a valid page and the current page has a button |
| TeacherManagement.Results | src/components/business/TeacherManagement.tsx:226-232 | "no results" iff there are no items; otherwise the line shows `from` and `to` of the page and the item total, and with a positive page size from ≤ to ≤ total, from ≥ 1 on a page ≥ 1, and the range spans less than a page |
| TeacherManagement.ResultsRangeBounds | src/components/business/TeacherManagement.tsx:229-230 | for items present and a positive page size: from ≤ to ≤ total, from ≥ 1 on a page ≥ 1, and fewer than a page size apart |
| TeacherManagement.Pagination.constructor | src/components/business/TeacherManagement.tsx:24-27 | starts on page 1 of 1, with 0 items and 12 per page |
| TeacherManagement.Pagination.Window | src/components/business/TeacherManagement.tsx:356-381 | with more than one page, the current page has a button |
| TeacherManagement.Pagination.PageChange | src/components/business/TeacherManagement.tsx:147-149 | only the current page changes |
| TeacherManagement.Pagination.ItemsPerPageChange | src/components/business/TeacherManagement.tsx:151-154 | the page size is set and the view returns to page 1 |
| TeacherManagement.Pagination.Loaded | src/components/business/TeacherManagement.tsx:81-84 | the reply's page and item totals are stored |
| TeacherManagement.Leading | src/components/business/TeacherManagement.tsx:801-803 | the length of the white-space run that starts the string |
| TeacherManagement.Trailing | src/components/business/TeacherManagement.tsx:801-803 | the length of the white-space run that ends the string |
| TeacherManagement.Trim | src/components/business/TeacherManagement.tsx:801-803 | `trim()`: a middle part of the string, with white space only outside it, and neither starting nor ending with white space |
| TeacherManagement.TrimIdempotent | src/components/business/TeacherManagement.tsx:801-803 | trimming twice equals trimming once |
| TeacherManagement.TrimOfUntrimmable | src/components/business/TeacherManagement.tsx:801-803 | a string with no white space at either end is its own trim |
| TeacherManagement.RemoveAt | src/components/business/TeacherManagement.tsx:846-853 | for an index in range, the list without that entry, the others in order; any other index leaves the list unchanged |
| TeacherManagement.RemoveAtProperties | src/components/business/TeacherManagement.tsx:846-853 | removal takes out exactly one occurrence, keeps a duplicate-free list duplicate-free, and at the last index is `slice(0, -1)` |
| TeacherManagement.TagEditor.constructor | src/components/business/TeacherManagement.tsx:33-41 | no tags and an empty input |
| TeacherManagement.TagEditor.Type | src/components/business/TeacherManagement.tsx:792-797 | typing sets the input and leaves the tags alone |
| TeacherManagement.TagEditor.KeyDown | src/components/business/TeacherManagement.tsx:798-829 | Enter or comma appends the trimmed input and clears it, if it is nonempty and not already a tag, and otherwise changes nothing; Backspace on an empty input drops the last tag; other keys change nothing; the tags stay duplicate-free and trimmed |
| TeacherManagement.TagEditor.Remove | src/components/business/TeacherManagement.tsx:846-853 | the tag at the index is removed and the tags stay duplicate-free and trimmed |
| CourseDetails.Toggle | src/components/business/CourseDetails.tsx:90-98 | the id's membership is flipped and every other id is untouched |
| CourseDetails.ToggleTwice | src/components/business/CourseDetails.tsx:90-108 | toggling twice restores the set |
| CourseDetails.CourseEditor.ToggleSubject | src/components/business/CourseDetails.tsx:90-98 | the expanded subjects are toggled at the id; every other field (expanded topics, course, forms, selections, editing, delete state, requests) is unchanged |
| CourseDetails.CourseEditor.ToggleTopic | src/components/business/CourseDetails.tsx:100-108 | the expanded topics are toggled at the id; every other field is unchanged |
| CourseDetails.CountsAreFlat | src/components/business/CourseDetails.tsx:574-587 | the "Topics" figure is the number of topics of all subjects, and the "Lectures" figure is the number of lectures of all their topics |
| CourseDetails.TopicCountIsFlat | src/components/business/CourseDetails.tsx:574 | the summed topic counts equal the length of the flattened topic list |
| CourseDetails.LectureCountIsFlat | src/components/business/CourseDetails.tsx:585-587 | the nested lecture sum equals the length of the flattened lecture list |
| CourseDetails.LecturesInTopicsIsFlat | src/components/business/CourseDetails.tsx:586 | the summed lecture counts of a topic list equal the length of its flattened lectures |
| CourseDetails.TopicLecturesAppend | src/components/business/CourseDetails.tsx:586 | flattening distributes over concatenation of topic lists |
| CourseDetails.NextOrderIsFresh | src/components/business/CourseDetails.tsx:459 | with sibling orders in 1..n, the default order n + 1 is not taken |
| CourseDetails.CourseEditor.constructor | src/components/business/CourseDetails.tsx:10-51 | empty forms with order 1 (topics also 1 estimated hour), nothing expanded, selected or pending |
| CourseDetails.CourseEditor.ResetForms | src/components/business/CourseDetails.tsx:53-60 | the three forms return to their defaults and no item is being edited; nothing else changes |
| CourseDetails.CourseEditor.OpenAddSubject | src/components/business/CourseDetails.tsx:509-511 | the subject form's order becomes the subject count + 1 (1 for a course without subjects); every other field is unchanged |
| CourseDetails.CourseEditor.OpenAddTopic | src/components/business/CourseDetails.tsx:457-461 | the subject is selected and the topic form gets order = topic count + 1 and 1 estimated hour; every other field, the selected topic included, is unchanged |
| CourseDetails.CourseEditor.OpenAddLecture | src/components/business/CourseDetails.tsx:463-468 | subject and topic are selected, and the lecture form gets order = lecture count + 1; every other field is unchanged |
| CourseDetails.CourseEditor.ConfirmDelete | src/components/business/CourseDetails.tsx:420-424 | the kind and the item are recorded and the confirmation is shown; every other field is unchanged |
| CourseDetails.DeleteRequestFor | src/components/business/CourseDetails.tsx:336-442 | no request without a kind; a request iff the course and every id its kind needs are present; it carries the course id and the ids the kind needs |
| CourseDetails.CourseEditor.ExecuteDelete | src/components/business/CourseDetails.tsx:431-442 | the dispatch issues exactly the request `DeleteRequestFor` gives, or none; every other field is unchanged |
| CourseDetails.CourseEditor.DeleteSucceeded | src/components/business/CourseDetails.tsx:347-350 | the confirmation is closed and the delete state reset; every other field is unchanged |
| Progress.CompletedSubjectCount | src/components/teacher/Progress.tsx:69-72 | the subjects at exactly 100% never outnumber the subjects |
| Progress.BatchMean | src/components/teacher/Progress.tsx:76 | absent, standing for `NaN`, exactly for a batch without subjects; otherwise the number whose product with the subject count is the sum of the subject rates |
| Progress.MeanWithin | src/components/teacher/Progress.tsx:76 | the mean of a nonempty batch lies within any integer bounds on its subjects' rates |
| Progress.CalculateOverallStats | src/components/teacher/Progress.tsx:67-88 | the batch count, the summed subject counts and the summed completed-subject counts, completed ≤ total; the average is 0 without batches, `NaN` iff some batch has no subjects, otherwise the rounded mean of the batch means, and in 0..100 when every rate is a percentage |
| Progress.MeansArePercentages | src/components/teacher/Progress.tsx:73-80 | with every rate a percentage, each batch mean is a percentage and so is the rounded average of the batch means |
| Progress.Figures | src/components/teacher/Progress.tsx:220-224 | a batch card's completion is its mean rate rounded to hundredths, within 0.005 of it (`NaN` without subjects) and a percentage when every rate is one; its lecture totals are the subjects' sums, completed ≤ total when that holds for every subject |
| Progress.SubjectsCompletedAtMostTotal | src/components/teacher/Progress.tsx:221-222 | when no subject completes more lectures than it has, the batch's summed completed lectures never exceed its summed totals |
| Progress.FiguresBounds | src/components/teacher/Progress.tsx:220-224 | the rounded mean of a nonempty batch stays within any integer bounds on its subjects' rates |
| Common.RefreshCounter.constructor | src/components/teacher/Progress.tsx:11 | the refresh key starts at 0 |
| Common.RefreshCounter.LectureCompleted | src/components/teacher/TeacherOverview.tsx:19-22 | each completion notification raises the refresh key by exactly 1 |
| DashboardOverview.OverallStats | src/components/business/DashboardOverview.tsx:77-85 | zeros without analytics or without overview items; otherwise the summed lecture counts and the rate of the sums rounded to hundredths; with no item over-completed, completed ≤ total and the figure is in 0..100 |
| DashboardOverview.PercentTwoDecimals | src/components/business/DashboardOverview.tsx:82 | `Number((k / t * 100).toFixed(2))`, and 0 for no lectures |
| DashboardOverview.PercentAtMost100 | src/components/business/DashboardOverview.tsx:82 | the two-decimal rate of k out of t is in 0..100 whenever k ≤ t |
| DashboardOverview.AggregationsDiffer | src/components/business/DashboardOverview.tsx:80-82 | the sum-then-rate figure differs from the average-of-rates figure of the lecture-tracking summary: 25% against 50% on two items |
| DashboardOverview.RecentActivity | src/components/business/DashboardOverview.tsx:35 | at most 8 events, the first ones in order |
| DashboardOverview.ShownBatches | src/components/business/DashboardOverview.tsx:235 | at most 6 batch bars, the first ones in order |
| DashboardOverview.ShownAssignments | src/components/business/DashboardOverview.tsx:300 | at most 10 assignment rows, the first ones in order |
| DashboardOverview.ViewAllIffTruncated | src/components/business/DashboardOverview.tsx:262-267 | each "View All" link appears iff its list shows fewer rows than it has; without the link the whole list is shown |
| DashboardOverview.Classify | src/components/business/DashboardOverview.tsx:248-251 | green iff exactly 100; blue iff at least 75 and not 100; yellow iff in [50, 75); red iff below 50 |
| DashboardOverview.ClassifyMonotone | src/components/business/DashboardOverview.tsx:327-331 | up to 100, a higher rate never gets a lower colour; above 100 the bar is blue |
| DashboardOverview.ColorClasses | src/components/business/DashboardOverview.tsx:120-128 | the classes of a known colour, the blue ones for any other key |
| DashboardOverview.ColorClassesFallback | src/components/business/DashboardOverview.tsx:127 | only the four known keys have classes of their own |
| DashboardOverview.CountText | src/components/business/DashboardOverview.tsx:89 | the decimal text of the count, "0" without analytics |
| DashboardOverview.CountCards | src/components/business/DashboardOverview.tsx:89-110 | three count cards: "Total Teachers" (blue), "Active Courses" (green) and "Active Batches" (yellow), showing the teacher, course and batch counts, or "0" without analytics |
| DashboardOverview.LoadFailure | src/components/business/DashboardOverview.tsx:22-45 | no failure iff every reply succeeded; a rejection fails with its own error; otherwise the first unsuccessful reply, in the order analytics, activity, overview, throws "Failed to fetch analytics", "Failed to fetch recent activity" or "Failed to fetch overview" |
| DashboardOverview.DashboardView.constructor | src/components/business/DashboardOverview.tsx:7-11 | nothing loaded, not loading, no error |
| DashboardOverview.DashboardView.FetchDashboardData | src/components/business/DashboardOverview.tsx:17-59 | each successful reply is stored before the next is examined; the first failure toasts once and sets the banner unless it is an authentication error; loading ends false |
| BatchDetails.DaysRemaining | src/components/business/BatchDetails.tsx:41-47 | the ceiling of the time left in whole days |
| BatchDetails.BatchStatus | src/components/business/BatchDetails.tsx:49-61 | upcoming iff now < start; completed iff start ≤ now and now > end; expiring iff inside the dates with at most 7 days left; active iff inside with more; exactly one holds |
| BatchDetails.ExpiringWindow | src/components/business/BatchDetails.tsx:57-60 | an expiring batch has 0 to 7 days left and at most a week of time; an active one more than a week |
| BatchDetails.DaysRemainingText | src/components/business/BatchDetails.tsx:124-128 | "Expired" iff no days are left; otherwise the decimal number of days |
| BatchDetails.StatusAgreesWithDays | src/components/business/BatchDetails.tsx:54-60 | a completed batch shows "Expired", an active one never does, and at the exact end instant the badge says expiring while the figure says "Expired" |
| BatchDetails.TotalIsSumOfSubjects | src/components/business/BatchDetails.tsx:92 | the total is the sum of the subjects' precomputed totals, and one more subject adds its own total |
| BatchDetails.ShownCompletedIsWeaker | src/components/business/BatchDetails.tsx:242 | every lecture the teacher side counts as completed is shown completed here, but not conversely |
| TeacherOverview.FormatElapsed | src/components/teacher/TeacherOverview.tsx:77-91 | minutes iff under an hour, hours iff from 1 to 24 hours, days from 24 hours on; minutes and hours are the floors of the elapsed time |
| TeacherOverview.DaysAreWholeDays | src/components/teacher/TeacherOverview.tsx:87-89 | the days shown, whole hours divided by 24, are the whole days elapsed, at least 1 |
| TeacherOverview.Render | src/components/teacher/TeacherOverview.tsx:82-90 | the text of each bucket: the number, then " minutes ago", " hours ago" or " days ago" |
| TeacherOverview.Remaining | src/components/teacher/TeacherOverview.tsx:138 | remaining plus completed is the total, and 0 without analytics |
| TeacherOverview.RemainingBounds | src/components/teacher/TeacherOverview.tsx:138 | between 0 and the total when completed ≤ total, and 0 iff everything is completed |
| TeacherOverview.Shown | src/components/teacher/TeacherOverview.tsx:51-57 | at most 5 entries, the first ones in order |
| Toast.ApiErrorMessage | src/utils/toast.ts:37-53 | an authentication error (flag, 401 or 403) gives the log-in-again message |
| Toast.SelectionOrder | src/utils/toast.ts:44-50 | otherwise the server's message if truthy, else the error's own message if truthy and not "Network Error", else the default |
| Toast.MessageSource | src/utils/toast.ts:37-53 | the message comes from one of four places, and is empty only if the default is |
| Toast.NetworkErrorHidden | src/utils/toast.ts:48 | a bare "Network Error" text reaches the user only as the server's message or the default |
| Toast.AuthErrorsIgnoreDetails | src/utils/toast.ts:39-42 | every authentication error gives the same toast, whatever else it carries |
| Toast.Toaster.constructor | src/utils/toast.ts:3-24 | no toast has been shown |
| Toast.Toaster.ShowSuccess | src/utils/toast.ts:4-12 | one success toast with the message is added |
| Toast.Toaster.ShowError | src/utils/toast.ts:14-22 | one error toast with the message is added |
| Toast.Toaster.HandleApiError | src/utils/toast.ts:37-53 | each call shows exactly one error toast, with the selected message |
| Toast.ThrownError | src/components/business/DashboardOverview.tsx:31 | a view's own `new Error(message)` carries only its message and is not an authentication error |
| Toast.FailureBanner | src/components/business/DashboardOverview.tsx:49-54 | no banner iff the error is an authentication error, the view's text otherwise |
| Toast.ThrownErrorReported | src/components/business/DashboardOverview.tsx:46-55 | a view's own thrown error is toasted with its own text and always sets the banner; a missing banner means the toast asked the user to log in |
| Api.FieldIndex | src/services/api.ts:426-432 | the position of a query field in the append order |
| Api.NumberField | src/services/api.ts:426-427 | a number field is emitted iff it is present and not 0, as its decimal text |
| Api.StringField | src/services/api.ts:428-432 | a string field is emitted iff it is a nonempty string |
| Api.QueryParamsProperties | src/services/api.ts:423-436 | the parameters come in the order page, limit, sortBy, sortOrder, search, status, so none repeats; only known names appear; a field appears, with its text, iff it is truthy |
| Api.ParamsUpToOrdered | src/services/api.ts:426-432 | the parameters of the first k fields are in field order, all of index below k |
| Api.ParamsUpToMembership | src/services/api.ts:426-432 | a field's parameter is among those of the first k fields iff the field is one of them and truthy with that text |
| Api.NoTruthyFieldNoParams | src/services/api.ts:423-435 | no parameters iff there is no pagination or no truthy field in it |
| Api.BuildParams | src/services/api.ts:423-433 | appending the truthy fields one by one gives the specified parameter list |
| Api.Serialize | src/services/api.ts:435 | the query string is empty iff there are no parameters, and a single parameter gives `name=value` |
| Api.SerializeAppend | src/services/api.ts:435 | two nonempty parameter lists serialise to their query strings joined by one `&`, so the string is the `name=value` entries in order separated by `&` |
| Api.Endpoint | src/services/api.ts:435-436 | the bare base without parameters, `base?query` otherwise |
| Api.EndpointQuestionMark | src/services/api.ts:468-485 | for a base without '?', the endpoint has one iff some field is truthy; the user, course and batch list endpoints have none without pagination |
| Api.DefaultHeaders | src/services/api.ts:358-366 | the JSON content type, and `Bearer <token>` authorization iff a token is stored |
| Api.RequestHeaders | src/services/api.ts:368-374 | every caller header is sent as given; every default the caller did not supply is kept; no other header is sent |
| Api.AuthorizationHeader | src/services/api.ts:363-374 | without a caller-supplied authorization, the bearer header is sent iff a token is stored |
| Api.RequestErrorAsWritten | src/services/api.ts:385 | the thrown error is a plain `Error` with the status text |
| Api.UnauthorizedNotRecognised | src/services/api.ts:379-385 | as written, a 401 reply is not an authentication error to `handleApiError`, so the raw status text is toasted |
| Api.RequestError | src/services/api.ts:379-385 | the error carries its status, and is an authentication error iff the status is 401 or 403 |
| Api.RequestErrorReported | src/services/api.ts:379-385 | with the status attached, 401 and 403 are toasted as authentication errors without a failure banner; other statuses show their text |
| Api.RequestOutcomeAsWritten | src/services/api.ts:376-393 | as written: a reply is returned iff the response is ok; a non-ok response throws the plain "HTTP error! status: …" error; a transport failure is rethrown |
| Api.RequestOutcome | src/services/api.ts:376-393 | with the corrected error: a reply is returned iff the response is ok; a non-ok response throws the error carrying its status; a transport failure is rethrown |
| Api.CorrectionOnlyAddsStatus | src/services/api.ts:379-393 | the corrected outcome differs from the as-written one only for a non-ok reply, whose error keeps its text; its toast differs only for 401 and 403 |
| Api.TokenAfterRequest | src/services/api.ts:379-384 | a 401 or 403 reply removes the token; anything else keeps it |
| Api.TokenAfterLogin | src/services/api.ts:397-409 | the reply's token is stored iff the login succeeded and carried one; otherwise the token is what the request left |
| Api.LoginStoresOnlyOnSuccess | src/services/api.ts:404-406 | the token changes only to nothing or to a successful reply's token; an unsuccessful reply leaves it alone |
| Api.ApiClient.constructor | src/services/api.ts:340-342 | the stored token is whatever local storage holds |
| Api.ApiClient.Request | src/services/api.ts:352-394 | the headers come from the stored token; the outcome is `RequestOutcome`; the token becomes `TokenAfterRequest` |
| Api.ApiClient.Login | src/services/api.ts:397-409 | one request with the default headers; the token becomes `TokenAfterLogin` |
| Api.ApiClient.Logout | src/services/api.ts:411-413 | the token is removed |

## Findings

| source | as written | input that shows it | evidently intended | confidence | as-written member | corrected member |
|---|---|---|---|---|---|---|
| src/services/api.ts:379-385 | a non-ok response throws `new Error("HTTP error! status: …")`, with no `status` and no `isAuthError` | a 401 reply: `handleApiError` in src/utils/toast.ts:39 does not see an authentication error and toasts "HTTP error! status: 401"; the views set their failure banner although their comments say an authentication error should not | the thrown error carries its status (or `isAuthError`), so that the authentication branch of `handleApiError` and of the views' catch blocks applies to 401 and 403 | medium, not executed | Api.UnauthorizedNotRecognised | Api.RequestErrorReported |

`Api.RequestOutcome` and `Api.ApiClient.Request` use the corrected `Api.RequestError`; `Api.RequestOutcomeAsWritten` is the code as written.

## Left out

- The `loading` and `dismiss` toasts and every toast's duration, position and colours are not modelled: only which success and error toasts are shown, and their text.
- Rendering, navigation, modals, loading spinners and console logging are not modelled. Only the values the views compute are.
- The network is not modelled: each request takes its transport outcome as a parameter. So is local storage: the token is a field of `Api.ApiClient`.
- Parallel requests (`Promise.all`) are not modelled as concurrent. A rejection is one `Fetch` value, and which request rejects first is not modelled.
- Debounced search and timers (the reload one second after marking) are left out. A reload is counted, not performed.
- Global window events are not modelled. A `lectureCompleted` notification is a method call on `Common.RefreshCounter`, and the re-fetch it triggers is left out.
- `AuthContext.tsx` and `Footer.tsx` are not part of this model.
- The create and update forms' payload assembly and validation are not part of this model. Neither are the fetches of their results: only the deletion dispatch, the form resets and the default orders are modelled.
- The fetch-and-navigate flows of the batch view and the course editor are not modelled, and neither are the loaders of the other views. Only the business dashboard's load is modelled, in `DashboardOverview.DashboardView.FetchDashboardData`.
- Floating-point arithmetic is modelled exactly:
  - `Math.round` and `toFixed(2)` act on exact reals, not on IEEE doubles;
  - `NaN` appears only where the code divides by zero (written as `None`);
  - percentages are not rendered as text.
- DashboardOverview.CountCards: the fourth card ("Overall Progress") is left out, because it renders a real number as text.
- Dates are modelled as integer milliseconds in UTC; date parsing and time zones are not modelled:
  - `toDateString()` day keys are UTC days;
  - `setHours(23, 59, 59, 999)` closes the UTC end day;
  - invalid dates (`NaN` times) are not modelled;
  - locale date formatting is not modelled.
- Lowercasing in searches covers ASCII letters only. Full Unicode case mapping is not modelled.
- String order in the sorted option lists is code-point order on `char`. JavaScript compares UTF-16 code units, which differs for characters outside the Basic Multilingual Plane.
- Object key order in the grouping by topic is insertion order. Integer-like keys, which JavaScript enumerates first, are not treated specially.
- Sort stability is not stated. The sorts of groups and of lectures within a group are proved ordered and permutations, not stable.
- FacultyDetails.SortByRecency: modelled as a function on sequences rather than as the library's in-place sort of the array.
- URL encoding of query names and values (`URLSearchParams` form encoding) is left out: `Api.Serialize` joins them unencoded.
- Api.RequestHeaders: header names are compared exactly. The case-insensitive merging of `fetch` headers is not modelled.
- Api.ApiClient.Request: the thrown error for a non-ok status carries its status, as corrected under Findings. The code throws a plain `Error`, modelled by `Api.RequestErrorAsWritten`.
- Api.RequestOutcome: a non-ok status throws the corrected error, which carries its status, so a 401 or 403 is toasted as an authentication error. The code throws a plain `Error`, modelled by `Api.RequestOutcomeAsWritten`; `Api.CorrectionOnlyAddsStatus` states where the two differ.
- MyCourses.MyCoursesView.FinishMark: one timestamp stands for the two separate `new Date().toISOString()` calls that stamp the list entry and the viewed batch (`src/components/teacher/MyCourses.tsx:95` and `:133`). In the code the two can differ by a millisecond, which `MyCourses.SelectedStaysInSync` does not capture.
- Reply bodies carry only `success`, `message` and `token`. The `data` payloads of the list and detail requests are not modelled.
- TeacherManagement.TagEditor.KeyDown: requires the editor's own invariant (`Valid`), which its constructor establishes and every method keeps. The code does not check it.
