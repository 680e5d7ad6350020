/** The nested Batch -> Subject -> Topic -> Lecture snapshot that the teacher views
    (`FacultyBatch`) and the batch view (`Batch`) receive from the backend, with the
    completion counts derived from it. Dates are integer milliseconds since the epoch. */
module Hierarchy {
  import opened Common

  datatype Lecture = Lecture(
    id: string,
    lectureId: string,
    title: string,
    facultyId: string,
    completedAt: Option<string>,
    completedBy: Option<string>)

  datatype Topic = Topic(
    id: string,
    topicId: string,
    title: string,
    facultyId: string,
    lectures: seq<Lecture>)

  /** `totalLectures` is the backend's precomputed count, not derived from `topics`. */
  datatype Subject = Subject(
    id: string,
    subjectId: string,
    title: string,
    facultyId: string,
    totalLectures: nat,
    topics: seq<Topic>)

  datatype Batch = Batch(
    id: string,
    name: string,
    startDate: int,
    endDate: int,
    subjects: seq<Subject>)

  /** The teacher-side completed rule: both `completedAt` and `completedBy` truthy. */
  predicate IsCompleted(l: Lecture) {
    Truthy(l.completedAt) && Truthy(l.completedBy)
  }

  // The per-level counts are typed `int` so that they can be passed to `Sum`; each
  // states that it is non-negative.

  function TopicCompleted(t: Topic): (r: int)
    ensures r >= 0
  {
    |Filter(t.lectures, IsCompleted)|
  }

  function SubjectCompleted(s: Subject): (r: int)
    ensures r >= 0
  {
    Sum(s.topics, TopicCompleted)
  }

  /** The completed count found by walking subjects, topics and lectures. */
  function BatchCompleted(b: Batch): nat {
    Sum(b.subjects, SubjectCompleted)
  }

  function SubjectTotal(s: Subject): (r: int)
    ensures r >= 0
  {
    s.totalLectures
  }

  /** The denominator: the sum of the subjects' precomputed `totalLectures`. */
  function BatchTotal(b: Batch): nat {
    Sum(b.subjects, SubjectTotal)
  }

  // ---------------------------------------------------------------------------
  // Flat view, the reference the nested counts are checked against

  function TopicLectures(ts: seq<Topic>): seq<Lecture> {
    if ts == [] then [] else ts[0].lectures + TopicLectures(ts[1..])
  }

  function SubjectLectures(ss: seq<Subject>): seq<Lecture> {
    if ss == [] then [] else TopicLectures(ss[0].topics) + SubjectLectures(ss[1..])
  }

  /** Every lecture of the batch, in display order. */
  function AllLectures(b: Batch): seq<Lecture> {
    SubjectLectures(b.subjects)
  }

  lemma {:induction false} TopicsCount(ts: seq<Topic>)
    ensures Sum(ts, TopicCompleted) == |Filter(TopicLectures(ts), IsCompleted)|
  {
    if ts != [] {
      TopicsCount(ts[1..]);
      FilterAppend(ts[0].lectures, TopicLectures(ts[1..]), IsCompleted);
    }
  }

  lemma {:induction false} SubjectsCount(ss: seq<Subject>)
    ensures Sum(ss, SubjectCompleted) == |Filter(SubjectLectures(ss), IsCompleted)|
  {
    if ss != [] {
      SubjectsCount(ss[1..]);
      TopicsCount(ss[0].topics);
      FilterAppend(TopicLectures(ss[0].topics), SubjectLectures(ss[1..]), IsCompleted);
    }
  }

  /** The nested reduce counts exactly the completed lectures of the flat list, so it
      never exceeds the number of lectures actually present. */
  lemma CompletedIsFlatCount(b: Batch)
    ensures BatchCompleted(b) == |Filter(AllLectures(b), IsCompleted)|
    ensures BatchCompleted(b) <= |AllLectures(b)|
  {
    SubjectsCount(b.subjects);
  }
}
