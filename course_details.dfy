/** The course editor: the course tree, the expand/collapse sets, the counts in the
    header, the default order of a new subject, topic or lecture, the form reset and
    the guarded dispatch of the delete confirmation. */
module CourseDetails {
  import opened Common

  datatype Lecture = Lecture(id: string, title: string, description: string, order: int, durationMinutes: int)

  datatype Topic = Topic(
    id: string,
    title: string,
    description: string,
    order: int,
    estimatedHours: int,
    lectures: seq<Lecture>)

  datatype Subject = Subject(id: string, title: string, description: string, order: int, topics: seq<Topic>)

  /** The fields of a `Course` this view uses. */
  datatype Course = Course(id: string, title: string, courseCode: string, subjects: seq<Subject>)

  // ---------------------------------------------------------------------------
  // Expand / collapse

  /** The copied set with `id` deleted when present and added otherwise. */
  function Toggle(s: set<string>, id: string): (r: set<string>)
    ensures id in r <==> id !in s
    ensures forall x :: x != id ==> (x in r <==> x in s)
  {
    if id in s then s - {id} else s + {id}
  }

  /** Toggling the same id twice restores the set. */
  lemma ToggleTwice(s: set<string>, id: string)
    ensures Toggle(Toggle(s, id), id) == s
  {
  }

  // ---------------------------------------------------------------------------
  // Header counts

  function TopicsIn(s: Subject): (r: int)
    ensures r >= 0
  {
    |s.topics|
  }

  function LecturesInTopic(t: Topic): (r: int)
    ensures r >= 0
  {
    |t.lectures|
  }

  function LecturesInSubject(s: Subject): (r: int)
    ensures r >= 0
  {
    Sum(s.topics, LecturesInTopic)
  }

  /** The "Topics" figure: the topic counts summed over the subjects. */
  function TopicCount(c: Course): nat {
    Sum(c.subjects, TopicsIn)
  }

  /** The "Lectures" figure: the nested sum over subjects and their topics. */
  function LectureCount(c: Course): nat {
    Sum(c.subjects, LecturesInSubject)
  }

  /** Every topic of the course, subject by subject. */
  function AllTopics(ss: seq<Subject>): seq<Topic> {
    if ss == [] then [] else ss[0].topics + AllTopics(ss[1..])
  }

  /** Every lecture of a list of topics, topic by topic. */
  function TopicLectures(ts: seq<Topic>): seq<Lecture> {
    if ts == [] then [] else ts[0].lectures + TopicLectures(ts[1..])
  }

  lemma {:induction false} TopicLecturesAppend(a: seq<Topic>, b: seq<Topic>)
    ensures TopicLectures(a + b) == TopicLectures(a) + TopicLectures(b)
  {
    if a == [] {
      assert a + b == b;
    } else {
      assert (a + b)[1..] == a[1..] + b;
      TopicLecturesAppend(a[1..], b);
    }
  }

  lemma {:induction false} TopicCountIsFlat(ss: seq<Subject>)
    ensures Sum(ss, TopicsIn) == |AllTopics(ss)|
  {
    if ss != [] {
      TopicCountIsFlat(ss[1..]);
    }
  }

  lemma {:induction false} LecturesInTopicsIsFlat(ts: seq<Topic>)
    ensures Sum(ts, LecturesInTopic) == |TopicLectures(ts)|
  {
    if ts != [] {
      LecturesInTopicsIsFlat(ts[1..]);
    }
  }

  lemma {:induction false} LectureCountIsFlat(ss: seq<Subject>)
    ensures Sum(ss, LecturesInSubject) == |TopicLectures(AllTopics(ss))|
  {
    if ss != [] {
      LectureCountIsFlat(ss[1..]);
      LecturesInTopicsIsFlat(ss[0].topics);
      TopicLecturesAppend(ss[0].topics, AllTopics(ss[1..]));
    }
  }

  /** The header figures count exactly the topics and the lectures in the tree. */
  lemma CountsAreFlat(c: Course)
    ensures TopicCount(c) == |AllTopics(c.subjects)|
    ensures LectureCount(c) == |TopicLectures(AllTopics(c.subjects))|
  {
    TopicCountIsFlat(c.subjects);
    LectureCountIsFlat(c.subjects);
  }

  // ---------------------------------------------------------------------------
  // Forms and default order

  datatype SubjectForm = SubjectForm(title: string, description: string, order: int)

  datatype TopicForm = TopicForm(title: string, description: string, order: int, estimatedHours: int)

  datatype LectureForm = LectureForm(title: string, description: string, order: int)

  const DefaultSubjectForm := SubjectForm("", "", 1)
  const DefaultTopicForm := TopicForm("", "", 1, 1)
  const DefaultLectureForm := LectureForm("", "", 1)

  /** The order proposed for a new item: one more than the number of its siblings. */
  function NextOrder(siblings: nat): (r: int)
    ensures r >= 1
    ensures siblings == 0 ==> r == 1
  {
    siblings + 1
  }

  /** When the siblings are numbered within 1..n, as the defaults number them, the
      proposed order is taken by none of them. */
  lemma NextOrderIsFresh(orders: seq<int>)
    requires forall i :: 0 <= i < |orders| ==> 1 <= orders[i] <= |orders|
    ensures NextOrder(|orders|) !in orders
  {
  }

  /** What a delete confirmation is about. */
  datatype DeleteType = SubjectItem | TopicItem | LectureItem

  datatype DeleteTarget = DeleteTarget(subject: Option<Subject>, topic: Option<Topic>, lecture: Option<Lecture>)

  /** The payload of the delete request `executeDelete` issues. */
  datatype DeleteRequest =
    | DeleteSubject(courseId: string, subjectId: string)
    | DeleteTopic(courseId: string, subjectId: string, topicId: string)
    | DeleteLecture(courseId: string, subjectId: string, topicId: string, lectureId: string)

  /** The request, if any, `executeDelete` issues: none for a null type, and none unless
      the course and every item on the path of the chosen type are selected. */
  function DeleteRequestFor(deleteType: Option<DeleteType>, course: Option<Course>, item: DeleteTarget)
    : (r: Option<DeleteRequest>)
    ensures deleteType.None? ==> r.None?
    ensures r.Some? <==>
              deleteType.Some? && course.Some? && item.subject.Some? &&
              (deleteType.value != SubjectItem ==> item.topic.Some?) &&
              (deleteType.value == LectureItem ==> item.lecture.Some?)
    ensures r.Some? ==> r.value.courseId == course.value.id && r.value.subjectId == item.subject.value.id
    ensures r.Some? && deleteType.value == SubjectItem ==> r.value.DeleteSubject?
    ensures r.Some? && deleteType.value == TopicItem ==>
              r.value == DeleteTopic(course.value.id, item.subject.value.id, item.topic.value.id)
    ensures r.Some? && deleteType.value == LectureItem ==>
              r.value == DeleteLecture(course.value.id, item.subject.value.id, item.topic.value.id,
                                       item.lecture.value.id)
  {
    match deleteType
    case None => None
    case Some(SubjectItem) =>
      if course.None? || item.subject.None? then None
      else Some(DeleteSubject(course.value.id, item.subject.value.id))
    case Some(TopicItem) =>
      if course.None? || item.subject.None? || item.topic.None? then None
      else Some(DeleteTopic(course.value.id, item.subject.value.id, item.topic.value.id))
    case Some(LectureItem) =>
      if course.None? || item.subject.None? || item.topic.None? || item.lecture.None? then None
      else Some(DeleteLecture(course.value.id, item.subject.value.id, item.topic.value.id, item.lecture.value.id))
  }

  /** The editor's state. */
  class CourseEditor {
    var course: Option<Course>
    var expandedSubjects: set<string>
    var expandedTopics: set<string>
    var subjectForm: SubjectForm
    var topicForm: TopicForm
    var lectureForm: LectureForm
    var selectedSubject: Option<Subject>
    var selectedTopic: Option<Topic>
    var editingSubject: Option<Subject>
    var editingTopic: Option<Topic>
    var editingLecture: Option<Lecture>
    var showDeleteModal: bool
    var deleteType: Option<DeleteType>
    var itemToDelete: DeleteTarget
    /** The delete requests issued so far. */
    var requests: seq<DeleteRequest>

    constructor ()
      ensures course.None? && expandedSubjects == {} && expandedTopics == {}
      ensures subjectForm == DefaultSubjectForm && topicForm == DefaultTopicForm && lectureForm == DefaultLectureForm
      ensures selectedSubject.None? && selectedTopic.None?
      ensures editingSubject.None? && editingTopic.None? && editingLecture.None?
      ensures !showDeleteModal && deleteType.None? && itemToDelete == DeleteTarget(None, None, None)
      ensures requests == []
    {
      course := None;
      expandedSubjects, expandedTopics := {}, {};
      subjectForm, topicForm, lectureForm := DefaultSubjectForm, DefaultTopicForm, DefaultLectureForm;
      selectedSubject, selectedTopic := None, None;
      editingSubject, editingTopic, editingLecture := None, None, None;
      showDeleteModal, deleteType, itemToDelete := false, None, DeleteTarget(None, None, None);
      requests := [];
    }

    /** The views of the state that the handlers below leave alone as a group. */
    function Expanded(): (set<string>, set<string>)
      reads this
    {
      (expandedSubjects, expandedTopics)
    }

    function Forms(): (SubjectForm, TopicForm, LectureForm)
      reads this
    {
      (subjectForm, topicForm, lectureForm)
    }

    function Selection(): (Option<Subject>, Option<Topic>)
      reads this
    {
      (selectedSubject, selectedTopic)
    }

    function Editing(): (Option<Subject>, Option<Topic>, Option<Lecture>)
      reads this
    {
      (editingSubject, editingTopic, editingLecture)
    }

    function DeleteState(): (bool, Option<DeleteType>, DeleteTarget)
      reads this
    {
      (showDeleteModal, deleteType, itemToDelete)
    }

    /** `toggleSubject`. */
    method ToggleSubject(subjectId: string)
      modifies this
      ensures expandedSubjects == Toggle(old(expandedSubjects), subjectId)
      ensures expandedTopics == old(expandedTopics)
      ensures course == old(course) && Forms() == old(Forms()) && Selection() == old(Selection())
      ensures Editing() == old(Editing()) && DeleteState() == old(DeleteState()) && requests == old(requests)
    {
      var newExpanded := expandedSubjects;
      if subjectId in newExpanded {
        newExpanded := newExpanded - {subjectId};
      } else {
        newExpanded := newExpanded + {subjectId};
      }
      expandedSubjects := newExpanded;
    }

    /** `toggleTopic`. */
    method ToggleTopic(topicId: string)
      modifies this
      ensures expandedTopics == Toggle(old(expandedTopics), topicId)
      ensures expandedSubjects == old(expandedSubjects)
      ensures course == old(course) && Forms() == old(Forms()) && Selection() == old(Selection())
      ensures Editing() == old(Editing()) && DeleteState() == old(DeleteState()) && requests == old(requests)
    {
      var newExpanded := expandedTopics;
      if topicId in newExpanded {
        newExpanded := newExpanded - {topicId};
      } else {
        newExpanded := newExpanded + {topicId};
      }
      expandedTopics := newExpanded;
    }

    /** `resetForms`: the three forms at their defaults, nothing being edited. */
    method ResetForms()
      modifies this
      ensures subjectForm == DefaultSubjectForm && topicForm == DefaultTopicForm && lectureForm == DefaultLectureForm
      ensures editingSubject.None? && editingTopic.None? && editingLecture.None?
      ensures course == old(course) && expandedSubjects == old(expandedSubjects) && expandedTopics == old(expandedTopics)
      ensures selectedSubject == old(selectedSubject) && selectedTopic == old(selectedTopic)
      ensures showDeleteModal == old(showDeleteModal) && deleteType == old(deleteType)
      ensures itemToDelete == old(itemToDelete) && requests == old(requests)
    {
      subjectForm := DefaultSubjectForm;
      topicForm := DefaultTopicForm;
      lectureForm := DefaultLectureForm;
      editingSubject := None;
      editingTopic := None;
      editingLecture := None;
    }

    /** The "Add Subject" button: the new subject's order follows the course's subjects. */
    method OpenAddSubject()
      requires course.Some?
      modifies this
      ensures course == old(course) && topicForm == old(topicForm) && lectureForm == old(lectureForm)
      ensures subjectForm == old(subjectForm).(order := NextOrder(|course.value.subjects|))
      ensures Expanded() == old(Expanded()) && Selection() == old(Selection()) && Editing() == old(Editing())
      ensures DeleteState() == old(DeleteState()) && requests == old(requests)
    {
      subjectForm := subjectForm.(order := |course.value.subjects| + 1);
    }

    /** `openAddTopicModal`. */
    method OpenAddTopic(subject: Subject)
      modifies this
      ensures selectedSubject == Some(subject)
      ensures topicForm == old(topicForm).(order := NextOrder(|subject.topics|), estimatedHours := 1)
      ensures course == old(course) && subjectForm == old(subjectForm) && lectureForm == old(lectureForm)
      ensures selectedTopic == old(selectedTopic)
      ensures Expanded() == old(Expanded()) && Editing() == old(Editing())
      ensures DeleteState() == old(DeleteState()) && requests == old(requests)
    {
      selectedSubject := Some(subject);
      topicForm := topicForm.(order := |subject.topics| + 1, estimatedHours := 1);
    }

    /** `openAddLectureModal`. */
    method OpenAddLecture(subject: Subject, topic: Topic)
      modifies this
      ensures selectedSubject == Some(subject) && selectedTopic == Some(topic)
      ensures lectureForm == old(lectureForm).(order := NextOrder(|topic.lectures|))
      ensures course == old(course) && subjectForm == old(subjectForm) && topicForm == old(topicForm)
      ensures Expanded() == old(Expanded()) && Editing() == old(Editing())
      ensures DeleteState() == old(DeleteState()) && requests == old(requests)
    {
      selectedSubject := Some(subject);
      selectedTopic := Some(topic);
      lectureForm := lectureForm.(order := |topic.lectures| + 1);
    }

    /** `confirmDelete`. */
    method ConfirmDelete(kind: DeleteType, subject: Subject, topic: Option<Topic>, lecture: Option<Lecture>)
      modifies this
      ensures deleteType == Some(kind) && itemToDelete == DeleteTarget(Some(subject), topic, lecture)
      ensures showDeleteModal
      ensures course == old(course) && requests == old(requests)
      ensures Expanded() == old(Expanded()) && Forms() == old(Forms())
      ensures Selection() == old(Selection()) && Editing() == old(Editing())
    {
      deleteType := Some(kind);
      itemToDelete := DeleteTarget(Some(subject), topic, lecture);
      showDeleteModal := true;
    }

    /** `executeDelete`: the handler of the chosen type issues its request only when its
        guard passes; a null type does nothing. */
    method ExecuteDelete()
      modifies this
      ensures var r := DeleteRequestFor(old(deleteType), old(course), old(itemToDelete));
              requests == old(requests) + (if r.Some? then [r.value] else [])
      ensures course == old(course) && deleteType == old(deleteType) && itemToDelete == old(itemToDelete)
      ensures showDeleteModal == old(showDeleteModal)
      ensures Expanded() == old(Expanded()) && Forms() == old(Forms())
      ensures Selection() == old(Selection()) && Editing() == old(Editing())
    {
      match deleteType
      case None =>
      case Some(SubjectItem) =>
        if course.Some? && itemToDelete.subject.Some? {
          requests := requests + [DeleteSubject(course.value.id, itemToDelete.subject.value.id)];
        }
      case Some(TopicItem) =>
        if course.Some? && itemToDelete.subject.Some? && itemToDelete.topic.Some? {
          requests := requests + [DeleteTopic(course.value.id, itemToDelete.subject.value.id,
                                              itemToDelete.topic.value.id)];
        }
      case Some(LectureItem) =>
        if course.Some? && itemToDelete.subject.Some? && itemToDelete.topic.Some? && itemToDelete.lecture.Some? {
          requests := requests + [DeleteLecture(course.value.id, itemToDelete.subject.value.id,
                                                itemToDelete.topic.value.id, itemToDelete.lecture.value.id)];
        }
    }

    /** After a successful delete: the modal closed and `resetDeleteState`. */
    method DeleteSucceeded()
      modifies this
      ensures !showDeleteModal && deleteType.None? && itemToDelete == DeleteTarget(None, None, None)
      ensures course == old(course) && requests == old(requests)
      ensures Expanded() == old(Expanded()) && Forms() == old(Forms())
      ensures Selection() == old(Selection()) && Editing() == old(Editing())
    {
      showDeleteModal := false;
      deleteType := None;
      itemToDelete := DeleteTarget(None, None, None);
    }
  }
}
