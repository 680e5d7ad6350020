/** The business view of faculty-to-subject assignments: the three conjunctive filters
    over the overview list, the option lists of the two drop-downs, the handlers that
    keep the two selections compatible, the summary figures and the activity search. */
module LectureTracking {
  import opened Common

  datatype Faculty = Faculty(id: string, firstName: string, lastName: string, email: string)

  /** `BusinessOverviewItem`: one faculty member teaching one subject to one batch. */
  datatype OverviewItem = OverviewItem(
    batchName: string,
    subjectTitle: string,
    totalLectures: nat,
    completedLectures: nat,
    lastLecture: Option<string>,
    faculty: Faculty,
    batchId: string,
    subjectId: string,
    facultyId: string,
    remainingLectures: nat,
    completionRate: real)

  /** `BusinessActivity`: one completion event; `completedAt` is in milliseconds. */
  datatype Activity = Activity(
    batchId: string,
    batchName: string,
    subjectId: string,
    subjectTitle: string,
    facultyId: string,
    topicId: string,
    topicTitle: string,
    lectureId: string,
    lectureTitle: string,
    completedAt: int)

  /** The faculty drop-down's value: `` `${firstName} ${lastName}` ``. */
  function FullName(i: OverviewItem): string {
    i.faculty.firstName + " " + i.faculty.lastName
  }

  function BatchNameOf(i: OverviewItem): string { i.batchName }

  /** The search condition shared by the list and both option lists. */
  predicate SearchMatches(term: string, i: OverviewItem) {
    IncludesIgnoreCase(i.faculty.firstName, term) || IncludesIgnoreCase(i.faculty.lastName, term) ||
    IncludesIgnoreCase(i.subjectTitle, term) || IncludesIgnoreCase(i.batchName, term)
  }

  /** A filter stage that runs only when its input is nonempty (a truthy string). */
  function Stage(s: seq<OverviewItem>, on: bool, p: OverviewItem -> bool): (r: seq<OverviewItem>)
    ensures forall i :: i in r <==> i in s && (on ==> p(i))
    ensures IsSublist(r, s)
  {
    if on then
      FilterIsSublist(s, p);
      Filter(s, p)
    else
      IsSublistRefl(s);
      s
  }

  /** The conjunction of the three filters, each active only when set. */
  predicate Keep(search: string, faculty: string, batch: string, i: OverviewItem) {
    (search != "" ==> SearchMatches(search, i)) &&
    (faculty != "" ==> FullName(i) == faculty) &&
    (batch != "" ==> i.batchName == batch)
  }

  /** `getFilteredData`: the search, then the faculty, then the batch filter. */
  function FilteredData(overview: seq<OverviewItem>, search: string, faculty: string, batch: string)
    : (r: seq<OverviewItem>)
    ensures search == "" && faculty == "" && batch == "" ==> r == overview
    ensures forall i :: i in r <==> i in overview && Keep(search, faculty, batch, i)
  {
    var s1 := Stage(overview, search != "", (i: OverviewItem) => SearchMatches(search, i));
    var s2 := Stage(s1, faculty != "", (i: OverviewItem) => FullName(i) == faculty);
    Stage(s2, batch != "", (i: OverviewItem) => i.batchName == batch)
  }

  /** The filtered list keeps the overview's order. */
  lemma FilteredDataIsSublist(overview: seq<OverviewItem>, search: string, faculty: string, batch: string)
    ensures IsSublist(FilteredData(overview, search, faculty, batch), overview)
  {
    var s1 := Stage(overview, search != "", (i: OverviewItem) => SearchMatches(search, i));
    var s2 := Stage(s1, faculty != "", (i: OverviewItem) => FullName(i) == faculty);
    var s3 := Stage(s2, batch != "", (i: OverviewItem) => i.batchName == batch);
    IsSublistTrans(s3, s2, s1);
    IsSublistTrans(s3, s1, overview);
  }

  /** `getAvailableFaculty`: the distinct full names among the items of the selected
      batch that match the search, in ascending order. */
  function AvailableFaculty(overview: seq<OverviewItem>, search: string, batch: string): (r: seq<string>)
    ensures StrictlySorted(r) && NoDuplicates(r)
    ensures forall n :: n in r <==>
              exists i :: i in overview && FullName(i) == n && Keep(search, "", batch, i)
  {
    var byBatch := Stage(overview, batch != "", (i: OverviewItem) => i.batchName == batch);
    var data := Stage(byBatch, search != "", (i: OverviewItem) => SearchMatches(search, i));
    var r := SortedUnique(Map(data, FullName));
    StrictlySortedNoDuplicates(r);
    forall n ensures n in r <==> exists i :: i in data && FullName(i) == n {
      MapMembership(data, FullName, n);
    }
    r
  }

  /** `getAvailableBatches`: the distinct batch names among the items of the selected
      faculty member that match the search, in ascending order. */
  function AvailableBatches(overview: seq<OverviewItem>, search: string, faculty: string): (r: seq<string>)
    ensures StrictlySorted(r) && NoDuplicates(r)
    ensures forall n :: n in r <==>
              exists i :: i in overview && i.batchName == n && Keep(search, faculty, "", i)
  {
    var byFaculty := Stage(overview, faculty != "", (i: OverviewItem) => FullName(i) == faculty);
    var data := Stage(byFaculty, search != "", (i: OverviewItem) => SearchMatches(search, i));
    var r := SortedUnique(Map(data, BatchNameOf));
    StrictlySortedNoDuplicates(r);
    forall n ensures n in r <==> exists i :: i in data && BatchNameOf(i) == n {
      MapMembership(data, BatchNameOf, n);
    }
    r
  }

  /** Some item pairs the faculty member with the batch. */
  predicate Assigned(overview: seq<OverviewItem>, faculty: string, batch: string) {
    exists i :: i in overview && FullName(i) == faculty && i.batchName == batch
  }

  /** Every option offered for one drop-down, picked while the other one's value is
      kept, yields a compatible pair. */
  lemma OptionsAreCompatible(overview: seq<OverviewItem>, search: string, faculty: string, batch: string)
    ensures batch != "" && faculty in AvailableFaculty(overview, search, batch) ==>
              Assigned(overview, faculty, batch)
    ensures faculty != "" && batch in AvailableBatches(overview, search, faculty) ==>
              Assigned(overview, faculty, batch)
  {
  }

  /** Every item the list shows contributes its names to both option lists. */
  lemma ShownItemsAreOffered(overview: seq<OverviewItem>, search: string, faculty: string, batch: string,
                             i: OverviewItem)
    requires i in FilteredData(overview, search, faculty, batch)
    ensures FullName(i) in AvailableFaculty(overview, search, batch)
    ensures i.batchName in AvailableBatches(overview, search, faculty)
  {
  }

  /** The filter state of the page. */
  class TrackingFilters {
    var overview: seq<OverviewItem>
    var searchTerm: string
    var facultyFilter: string
    var batchFilter: string

    /** A nonempty pair of selections is one some item has. */
    predicate Compatible()
      reads this
    {
      facultyFilter != "" && batchFilter != "" ==> Assigned(overview, facultyFilter, batchFilter)
    }

    constructor (overview: seq<OverviewItem>)
      ensures this.overview == overview
      ensures searchTerm == "" && facultyFilter == "" && batchFilter == ""
      ensures Compatible()
    {
      this.overview := overview;
      searchTerm, facultyFilter, batchFilter := "", "", "";
    }

    /** `filteredOverview`. */
    function Shown(): (r: seq<OverviewItem>)
      reads this
      ensures forall i :: i in r <==> i in overview && Keep(searchTerm, facultyFilter, batchFilter, i)
    {
      FilteredData(overview, searchTerm, facultyFilter, batchFilter)
    }

    /** `handleFacultyFilterChange`: store the selection, then clear the batch filter when
        the selected faculty member has no item in it. */
    method FacultyFilterChange(selected: string)
      modifies this
      ensures facultyFilter == selected
      ensures batchFilter ==
                if selected != "" && old(batchFilter) != "" && !Assigned(overview, selected, old(batchFilter))
                then "" else old(batchFilter)
      ensures overview == old(overview) && searchTerm == old(searchTerm)
      ensures Compatible()
    {
      var previous := batchFilter;
      facultyFilter := selected;
      if selected != "" && previous != "" {
        var facultyBatches := Map(Filter(overview, (i: OverviewItem) => FullName(i) == selected), BatchNameOf);
        MapMembership(Filter(overview, (i: OverviewItem) => FullName(i) == selected), BatchNameOf, previous);
        if previous !in facultyBatches {
          batchFilter := "";
        }
      }
    }

    /** `handleBatchFilterChange`: store the selection, then clear the faculty filter when
        the selected batch has no item of that faculty member. */
    method BatchFilterChange(selected: string)
      modifies this
      ensures batchFilter == selected
      ensures facultyFilter ==
                if selected != "" && old(facultyFilter) != "" && !Assigned(overview, old(facultyFilter), selected)
                then "" else old(facultyFilter)
      ensures overview == old(overview) && searchTerm == old(searchTerm)
      ensures Compatible()
    {
      var previous := facultyFilter;
      batchFilter := selected;
      if selected != "" && previous != "" {
        var batchFaculty := Map(Filter(overview, (i: OverviewItem) => i.batchName == selected), FullName);
        MapMembership(Filter(overview, (i: OverviewItem) => i.batchName == selected), FullName, previous);
        if previous !in batchFaculty {
          facultyFilter := "";
        }
      }
    }

    /** `clearFilters`: both drop-downs reset, the search kept. */
    method ClearFilters()
      modifies this
      ensures facultyFilter == "" && batchFilter == ""
      ensures overview == old(overview) && searchTerm == old(searchTerm)
      ensures Compatible()
      ensures forall i :: i in Shown() <==> i in overview && Keep(searchTerm, "", "", i)
    {
      facultyFilter := "";
      batchFilter := "";
    }
  }

  // ---------------------------------------------------------------------------
  // Summary figures

  datatype Summary = Summary(
    totalLectures: nat,
    completedLectures: nat,
    activeTeachers: nat,
    averageCompletion: real)

  function TotalOf(i: OverviewItem): (r: int)
    ensures r >= 0
  {
    i.totalLectures
  }

  function CompletedOf(i: OverviewItem): (r: int)
    ensures r >= 0
  {
    i.completedLectures
  }

  function FacultyIdOf(i: OverviewItem): string { i.facultyId }

  function RateOf(i: OverviewItem): real { i.completionRate }

  /** The mean of the items' completion rates (average-of-rates), 0 for no items. */
  function MeanRate(overview: seq<OverviewItem>): real {
    if |overview| > 0 then SumReal(overview, RateOf) / |overview| as real else 0.0
  }

  /** `calculateSummaryStats`. There are never more active teachers than items, and at
      least one when there is an item; completed lectures never exceed the total when no
      item's do; the average completion is the mean rate to within half a hundredth, 0
      without items, and a percentage when every rate is. */
  function SummaryStats(overview: seq<OverviewItem>): (r: Summary)
    ensures r.totalLectures == Sum(overview, TotalOf)
    ensures r.completedLectures == Sum(overview, CompletedOf)
    ensures r.activeTeachers == |Image(overview, FacultyIdOf)|
    ensures r.averageCompletion == ToFixed2(MeanRate(overview))
    ensures r.activeTeachers <= |overview| && (overview != [] ==> r.activeTeachers >= 1)
    ensures (forall i :: i in overview ==> i.completedLectures <= i.totalLectures) ==>
              r.completedLectures <= r.totalLectures
    ensures overview == [] ==> r.averageCompletion == 0.0
    ensures -0.005 <= r.averageCompletion - MeanRate(overview) <= 0.005
    ensures (forall i :: i in overview ==> 0.0 <= i.completionRate <= 100.0) ==>
              0.0 <= r.averageCompletion <= 100.0
  {
    ImageSize(overview, FacultyIdOf);
    CompletedAtMostTotal(overview);
    MeanRateWithin(overview, 0, 100);
    ToFixed2Bounds(MeanRate(overview), 0, 100);
    Summary(Sum(overview, TotalOf), Sum(overview, CompletedOf), |Image(overview, FacultyIdOf)|,
            ToFixed2(MeanRate(overview)))
  }

  /** No item over-completed: the summed completed lectures never exceed the summed
      totals. */
  lemma CompletedAtMostTotal(overview: seq<OverviewItem>)
    ensures (forall i :: i in overview ==> i.completedLectures <= i.totalLectures) ==>
              Sum(overview, CompletedOf) <= Sum(overview, TotalOf)
  {
    if forall i :: i in overview ==> i.completedLectures <= i.totalLectures {
      SumPointwise(overview, CompletedOf, overview, TotalOf);
    }
  }

  /** The mean rate of a nonempty list lies between any bounds on its items' rates; it
      is 0 for no items. */
  lemma MeanRateWithin(overview: seq<OverviewItem>, lo: int, hi: int)
    ensures overview == [] ==> MeanRate(overview) == 0.0
    ensures overview != [] && (forall i :: i in overview ==> lo as real <= i.completionRate <= hi as real) ==>
              lo as real <= MeanRate(overview) <= hi as real
  {
    if overview != [] && forall i :: i in overview ==> lo as real <= i.completionRate <= hi as real {
      SumRealBounds(overview, RateOf, lo as real, hi as real);
      MeanBounds(SumReal(overview, RateOf), |overview| as real, lo as real, hi as real);
    }
  }

  /** The shown average completion, rounded to hundredths, stays within any integer
      bounds on the items' rates. */
  lemma AverageCompletionBounds(overview: seq<OverviewItem>, lo: int, hi: int)
    requires forall i :: i in overview ==> lo as real <= i.completionRate <= hi as real
    ensures overview != [] ==> lo as real <= SummaryStats(overview).averageCompletion <= hi as real
  {
    MeanRateWithin(overview, lo, hi);
    ToFixed2Bounds(MeanRate(overview), lo, hi);
  }

  // ---------------------------------------------------------------------------
  // Activity

  predicate ActivityMatches(term: string, a: Activity) {
    IncludesIgnoreCase(a.batchName, term) || IncludesIgnoreCase(a.subjectTitle, term) ||
    IncludesIgnoreCase(a.lectureTitle, term) || IncludesIgnoreCase(a.topicTitle, term)
  }

  /** `filteredActivity`: the events any of whose four titles contains the search. */
  function FilteredActivity(activity: seq<Activity>, search: string): (r: seq<Activity>)
    ensures forall a :: a in r <==> a in activity && ActivityMatches(search, a)
  {
    Filter(activity, (a: Activity) => ActivityMatches(search, a))
  }

  /** The activity list filters unconditionally, yet an empty search keeps every event,
      and the kept events stay in order. */
  lemma FilteredActivityProperties(activity: seq<Activity>, search: string)
    ensures search == "" ==> FilteredActivity(activity, search) == activity
    ensures IsSublist(FilteredActivity(activity, search), activity)
  {
    FilterIsSublist(activity, (a: Activity) => ActivityMatches(search, a));
    if search == "" {
      forall a | a in activity ensures ActivityMatches(search, a) {
        EmptyTermMatches(a.batchName);
      }
      FilterAll(activity, (a: Activity) => ActivityMatches(search, a));
    }
  }
}
