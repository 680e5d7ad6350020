/** The teacher's "My Courses" view: the progress of a batch, the search over batches,
    and the optimistic update that marks one lecture as completed. */
module MyCourses {
  import opened Common
  import opened Hierarchy
  import opened Toast

  /** The actor recorded by the optimistic update. */
  const CurrentUser := "current-user"

  // ---------------------------------------------------------------------------
  // Progress

  /** `calculateProgress`: `Math.round(completed / total * 100)` over the precomputed
      total, and 0 when that total is 0. */
  function CalculateProgress(b: Batch): (r: nat)
    ensures BatchTotal(b) == 0 ==> r == 0
    ensures BatchTotal(b) > 0 ==>
              r == RoundReal(BatchCompleted(b) as real / BatchTotal(b) as real * 100.0)
  {
    var total, completed := BatchTotal(b), BatchCompleted(b);
    if total > 0 then
      RoundRatioIsRound(completed, total, 100);
      RoundRatio(completed, total, 100)
    else 0
  }

  /** With no more completed lectures than the precomputed total, progress is a
      percentage; it already reads 100 once 99.5% of the lectures are done. */
  lemma ProgressInRange(b: Batch)
    requires BatchCompleted(b) <= BatchTotal(b)
    ensures CalculateProgress(b) <= 100
    ensures BatchTotal(b) > 0 ==>
              (CalculateProgress(b) == 100 <==> 200 * BatchCompleted(b) >= 199 * BatchTotal(b))
  {
    if BatchTotal(b) > 0 {
      RoundPercentAtMost100(BatchCompleted(b), BatchTotal(b));
    }
  }

  // ---------------------------------------------------------------------------
  // Search

  /** A batch is shown when its name or one of its subjects' titles contains the term,
      ignoring case. */
  predicate BatchMatches(term: string, b: Batch) {
    IncludesIgnoreCase(b.name, term) ||
    exists s :: s in b.subjects && IncludesIgnoreCase(s.title, term)
  }

  /** `filteredBatches`. */
  function FilteredBatches(batches: seq<Batch>, term: string): (r: seq<Batch>)
    ensures forall b :: b in r <==> b in batches && BatchMatches(term, b)
    ensures IsSublist(r, batches)
  {
    FilterIsSublist(batches, b => BatchMatches(term, b));
    Filter(batches, b => BatchMatches(term, b))
  }

  lemma EmptySearchKeepsAll(batches: seq<Batch>)
    ensures FilteredBatches(batches, "") == batches
  {
    forall b | b in batches ensures BatchMatches("", b) {
      EmptyTermMatches(b.name);
    }
    FilterAll(batches, b => BatchMatches("", b));
  }

  // ---------------------------------------------------------------------------
  // The optimistic update

  /** Where the clicked lecture sits: the batch's `_id`, then the subject's `subjectId`,
      the topic's `topicId` and the lecture's `lectureId`, the fields the update
      compares. */
  datatype LecturePath = LecturePath(
    batchId: string,
    subjectId: string,
    topicId: string,
    lectureId: string)

  /** The lecture as the update rewrites it, stamped at time `at`. */
  function Completed(l: Lecture, at: string): Lecture {
    l.(completedAt := Some(at), completedBy := Some(CurrentUser))
  }

  function MarkLecture(l: Lecture, p: LecturePath, at: string): Lecture {
    if l.lectureId == p.lectureId then Completed(l, at) else l
  }

  function MarkTopic(t: Topic, p: LecturePath, at: string): Topic {
    if t.topicId == p.topicId then t.(lectures := Map(t.lectures, l => MarkLecture(l, p, at)))
    else t
  }

  function MarkSubject(s: Subject, p: LecturePath, at: string): Subject {
    if s.subjectId == p.subjectId then s.(topics := Map(s.topics, t => MarkTopic(t, p, at)))
    else s
  }

  /** The update applied inside one batch: what `setSelectedBatch` does to the batch
      being viewed. */
  function MarkBatch(b: Batch, p: LecturePath, at: string): Batch {
    b.(subjects := Map(b.subjects, s => MarkSubject(s, p, at)))
  }

  /** The update of the whole list in `setBatches`. */
  function MarkBatches(bs: seq<Batch>, p: LecturePath, at: string): seq<Batch> {
    Map(bs, (b: Batch) => if b.id == p.batchId then MarkBatch(b, p, at) else b)
  }

  // Positions in the snapshot.

  predicate ValidAt(bs: seq<Batch>, i: int, j: int, k: int, l: int) {
    0 <= i < |bs| && 0 <= j < |bs[i].subjects| && 0 <= k < |bs[i].subjects[j].topics| &&
    0 <= l < |bs[i].subjects[j].topics[k].lectures|
  }

  function LectureAt(bs: seq<Batch>, i: int, j: int, k: int, l: int): Lecture
    requires ValidAt(bs, i, j, k, l)
  {
    bs[i].subjects[j].topics[k].lectures[l]
  }

  /** The lecture at this position lies under the matching ids at every level. */
  predicate OnPath(bs: seq<Batch>, p: LecturePath, i: int, j: int, k: int, l: int)
    requires ValidAt(bs, i, j, k, l)
  {
    bs[i].id == p.batchId && bs[i].subjects[j].subjectId == p.subjectId &&
    bs[i].subjects[j].topics[k].topicId == p.topicId &&
    LectureAt(bs, i, j, k, l).lectureId == p.lectureId
  }

  // The snapshot with every completion stamp erased: what the update must not change.

  function UnmarkLecture(l: Lecture): Lecture {
    l.(completedAt := None, completedBy := None)
  }

  function UnmarkTopic(t: Topic): Topic {
    t.(lectures := Map(t.lectures, UnmarkLecture))
  }

  function UnmarkSubject(s: Subject): Subject {
    s.(topics := Map(s.topics, UnmarkTopic))
  }

  function Unmarked(b: Batch): Batch {
    b.(subjects := Map(b.subjects, UnmarkSubject))
  }

  lemma MarkTopicShape(t: Topic, p: LecturePath, at: string)
    ensures UnmarkTopic(MarkTopic(t, p, at)) == UnmarkTopic(t)
  {
    var m := MarkTopic(t, p, at);
    assert Map(m.lectures, UnmarkLecture) == Map(t.lectures, UnmarkLecture);
  }

  lemma MarkSubjectShape(s: Subject, p: LecturePath, at: string)
    ensures UnmarkSubject(MarkSubject(s, p, at)) == UnmarkSubject(s)
  {
    var m := MarkSubject(s, p, at);
    forall k | 0 <= k < |s.topics| ensures UnmarkTopic(m.topics[k]) == UnmarkTopic(s.topics[k]) {
      if s.subjectId == p.subjectId {
        MarkTopicShape(s.topics[k], p, at);
      }
    }
    assert Map(m.topics, UnmarkTopic) == Map(s.topics, UnmarkTopic);
  }

  lemma MarkBatchShape(b: Batch, p: LecturePath, at: string)
    ensures Unmarked(MarkBatch(b, p, at)) == Unmarked(b)
  {
    var m := MarkBatch(b, p, at);
    forall j | 0 <= j < |b.subjects| ensures UnmarkSubject(m.subjects[j]) == UnmarkSubject(b.subjects[j]) {
      MarkSubjectShape(b.subjects[j], p, at);
    }
    assert Map(m.subjects, UnmarkSubject) == Map(b.subjects, UnmarkSubject);
  }

  /** The update touches only the lectures on the matching id path: every list keeps its
      length and order, every batch, subject, topic and lecture keeps every field except
      the two completion stamps, and a lecture is stamped exactly when it is on the
      path. Batches with another `_id` are returned as they were. */
  lemma MarkBatchesSpec(bs: seq<Batch>, p: LecturePath, at: string)
    ensures |MarkBatches(bs, p, at)| == |bs|
    ensures forall i :: 0 <= i < |bs| ==> Unmarked(MarkBatches(bs, p, at)[i]) == Unmarked(bs[i])
    ensures forall i :: 0 <= i < |bs| && bs[i].id != p.batchId ==> MarkBatches(bs, p, at)[i] == bs[i]
    ensures forall i, j, k, l | ValidAt(bs, i, j, k, l) ::
              ValidAt(MarkBatches(bs, p, at), i, j, k, l) &&
              LectureAt(MarkBatches(bs, p, at), i, j, k, l) ==
                (if OnPath(bs, p, i, j, k, l) then Completed(LectureAt(bs, i, j, k, l), at)
                 else LectureAt(bs, i, j, k, l))
  {
    var r := MarkBatches(bs, p, at);
    forall i | 0 <= i < |bs| ensures Unmarked(r[i]) == Unmarked(bs[i]) {
      if bs[i].id == p.batchId {
        MarkBatchShape(bs[i], p, at);
      }
    }
  }

  /** After the update the target lecture satisfies the completed rule. */
  lemma TargetCompleted(bs: seq<Batch>, p: LecturePath, at: string, i: int, j: int, k: int, l: int)
    requires at != ""
    requires ValidAt(bs, i, j, k, l) && OnPath(bs, p, i, j, k, l)
    ensures ValidAt(MarkBatches(bs, p, at), i, j, k, l)
    ensures IsCompleted(LectureAt(MarkBatches(bs, p, at), i, j, k, l))
  {
    MarkBatchesSpec(bs, p, at);
  }

  /** When no batch has the requested `_id` the list comes back unchanged. */
  lemma NoMatchingBatch(bs: seq<Batch>, p: LecturePath, at: string)
    requires forall i :: 0 <= i < |bs| ==> bs[i].id != p.batchId
    ensures MarkBatches(bs, p, at) == bs
  {
  }

  // Idempotence

  lemma MarkTopicTwice(t: Topic, p: LecturePath, at: string)
    ensures MarkTopic(MarkTopic(t, p, at), p, at) == MarkTopic(t, p, at)
  {
    var m := MarkTopic(t, p, at);
    if t.topicId == p.topicId {
      assert Map(m.lectures, l => MarkLecture(l, p, at)) == m.lectures;
    }
  }

  lemma MarkSubjectTwice(s: Subject, p: LecturePath, at: string)
    ensures MarkSubject(MarkSubject(s, p, at), p, at) == MarkSubject(s, p, at)
  {
    var m := MarkSubject(s, p, at);
    if s.subjectId == p.subjectId {
      forall k | 0 <= k < |m.topics| ensures MarkTopic(m.topics[k], p, at) == m.topics[k] {
        MarkTopicTwice(s.topics[k], p, at);
      }
      assert Map(m.topics, t => MarkTopic(t, p, at)) == m.topics;
    }
  }

  lemma MarkBatchTwice(b: Batch, p: LecturePath, at: string)
    ensures MarkBatch(MarkBatch(b, p, at), p, at) == MarkBatch(b, p, at)
  {
    var m := MarkBatch(b, p, at);
    forall j | 0 <= j < |m.subjects| ensures MarkSubject(m.subjects[j], p, at) == m.subjects[j] {
      MarkSubjectTwice(b.subjects[j], p, at);
    }
    assert Map(m.subjects, s => MarkSubject(s, p, at)) == m.subjects;
  }

  /** Marking the same lecture twice with the same timestamp is the same as marking it
      once. */
  lemma MarkIdempotent(bs: seq<Batch>, p: LecturePath, at: string)
    ensures MarkBatches(MarkBatches(bs, p, at), p, at) == MarkBatches(bs, p, at)
  {
    var m := MarkBatches(bs, p, at);
    forall i | 0 <= i < |m| ensures (if m[i].id == p.batchId then MarkBatch(m[i], p, at) else m[i]) == m[i] {
      if bs[i].id == p.batchId {
        MarkBatchTwice(bs[i], p, at);
      }
    }
    assert MarkBatches(m, p, at) == m;
  }

  // The completed count never decreases

  lemma MarkTopicCount(t: Topic, p: LecturePath, at: string)
    requires at != ""
    ensures TopicCompleted(MarkTopic(t, p, at)) >= TopicCompleted(t)
  {
    var m := MarkTopic(t, p, at);
    FilterCountMonotone(t.lectures, m.lectures, IsCompleted);
  }

  lemma MarkSubjectCount(s: Subject, p: LecturePath, at: string)
    requires at != ""
    ensures SubjectCompleted(MarkSubject(s, p, at)) >= SubjectCompleted(s)
  {
    var m := MarkSubject(s, p, at);
    forall k | 0 <= k < |s.topics| ensures TopicCompleted(s.topics[k]) <= TopicCompleted(m.topics[k]) {
      MarkTopicCount(s.topics[k], p, at);
    }
    SumPointwise(s.topics, TopicCompleted, m.topics, TopicCompleted);
  }

  /** The optimistic update never lowers a batch's completed count, so never its
      progress. */
  lemma MarkNeverLowersCount(bs: seq<Batch>, p: LecturePath, at: string)
    requires at != ""
    ensures forall i :: 0 <= i < |bs| ==> BatchCompleted(MarkBatches(bs, p, at)[i]) >= BatchCompleted(bs[i])
  {
    var r := MarkBatches(bs, p, at);
    forall i | 0 <= i < |bs| ensures BatchCompleted(r[i]) >= BatchCompleted(bs[i]) {
      var b := bs[i];
      if b.id == p.batchId {
        var m := MarkBatch(b, p, at);
        forall j | 0 <= j < |b.subjects|
          ensures SubjectCompleted(b.subjects[j]) <= SubjectCompleted(m.subjects[j])
        {
          MarkSubjectCount(b.subjects[j], p, at);
        }
        SumPointwise(b.subjects, SubjectCompleted, m.subjects, SubjectCompleted);
      }
    }
  }

  /** A selected batch that is one of the listed batches stays equal to its updated
      copy in the list. */
  lemma SelectedStaysInSync(bs: seq<Batch>, b: Batch, p: LecturePath, at: string)
    requires b in bs && b.id == p.batchId
    ensures MarkBatch(b, p, at) in MarkBatches(bs, p, at)
  {
    var i :| 0 <= i < |bs| && bs[i] == b;
    assert MarkBatches(bs, p, at)[i] == MarkBatch(b, p, at);
  }

  // ---------------------------------------------------------------------------
  // The view's state

  /** How the `markLectureCompleted` request ended. */
  datatype MarkOutcome =
    | Marked                  // response.success
    | NotMarked               // a response without success
    | Threw(error: ApiError)  // the request threw

  const MarkedMessage := "Lecture marked as completed"
  const MarkFailedMessage := "Failed to mark lecture as completed"

  /** The selected batch after the update: rewritten only when it is the batch whose
      lecture was marked. */
  function SelectedAfterMark(sel: Option<Batch>, p: LecturePath, at: string): (r: Option<Batch>)
    ensures r.Some? <==> sel.Some?
    ensures sel.Some? && sel.value.id != p.batchId ==> r == sel
    ensures sel.Some? ==> Unmarked(r.value) == Unmarked(sel.value)
  {
    if sel.Some? && sel.value.id == p.batchId then
      MarkBatchShape(sel.value, p, at);
      Some(MarkBatch(sel.value, p, at))
    else sel
  }

  class MyCoursesView {
    var batches: seq<Batch>
    var selectedBatch: Option<Batch>
    var searchTerm: string
    /** The `lectureId` whose request is in flight, if any. */
    var completingLecture: Option<string>
    /** How many reloads of the batch list have been requested. */
    var reloads: nat
    /** The `lectureCompleted` notifications sent, in order. */
    var notifications: seq<LecturePath>
    const toaster: Toaster

    constructor (toaster: Toaster)
      ensures this.toaster == toaster
      ensures batches == [] && selectedBatch == None && searchTerm == ""
      ensures completingLecture == None && reloads == 0 && notifications == []
    {
      this.toaster := toaster;
      batches := [];
      selectedBatch := None;
      searchTerm := "";
      completingLecture := None;
      reloads := 0;
      notifications := [];
    }

    /** The batches listed for the current search. */
    function Visible(): (r: seq<Batch>)
      reads this
      ensures IsSublist(r, batches)
    {
      FilteredBatches(batches, searchTerm)
    }

    /** The start of `handleMarkLectureCompleted`, before the request is sent. */
    method BeginMark(p: LecturePath)
      modifies this
      ensures completingLecture == Some(p.lectureId)
      ensures batches == old(batches) && selectedBatch == old(selectedBatch)
      ensures searchTerm == old(searchTerm) && reloads == old(reloads)
      ensures notifications == old(notifications)
    {
      completingLecture := Some(p.lectureId);
    }

    /** The rest of `handleMarkLectureCompleted`, once the request has ended with
        `outcome` at ISO time `now`: on success the optimistic update, a notification and
        a delayed reload; on a thrown error the error toast and a reload unless it was an
        authentication error; on every path the in-flight flag is cleared. */
    method FinishMark(p: LecturePath, outcome: MarkOutcome, now: string)
      modifies this, toaster
      ensures completingLecture == None
      ensures batches == (if outcome.Marked? then MarkBatches(old(batches), p, now) else old(batches))
      ensures selectedBatch ==
                (if outcome.Marked? then SelectedAfterMark(old(selectedBatch), p, now)
                 else old(selectedBatch))
      ensures notifications == old(notifications) + (if outcome.Marked? then [p] else [])
      ensures reloads == old(reloads) +
                (if outcome.Marked? || (outcome.Threw? && !IsAuthError(outcome.error)) then 1 else 0)
      ensures toaster.shown == old(toaster.shown) +
                [match outcome
                 case Marked => Success(MarkedMessage)
                 case NotMarked => Error(MarkFailedMessage)
                 case Threw(e) => Error(ApiErrorMessage(e, MarkFailedMessage))]
      ensures searchTerm == old(searchTerm)
    {
      match outcome {
        case Marked =>
          toaster.ShowSuccess(MarkedMessage);
          batches := MarkBatches(batches, p, now);
          selectedBatch := SelectedAfterMark(selectedBatch, p, now);
          notifications := notifications + [p];
          reloads := reloads + 1;
        case NotMarked =>
          toaster.ShowError(MarkFailedMessage);
        case Threw(e) =>
          toaster.HandleApiError(e, MarkFailedMessage);
          if !IsAuthError(e) {
            reloads := reloads + 1;
          }
      }
      completingLecture := None;
    }
  }
}
