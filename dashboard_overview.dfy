/** The business dashboard: the overall progress figure (sum-then-rate), the truncated
    lists with their "View All" links, the colour of a completion bar and the colour
    classes of the stat cards. */
module DashboardOverview {
  import opened Common
  import opened LectureTracking
  import opened Toast

  /** One entry of `BusinessAnalytics.batchCompletion`. */
  datatype BatchCompletion = BatchCompletion(
    id: string,
    batchName: string,
    totalLectures: nat,
    completedLectures: nat,
    batchId: string,
    completionRate: real)

  /** The fields of `BusinessAnalytics` the dashboard reads. */
  datatype Analytics = Analytics(
    totalTeachers: nat,
    activeBatches: nat,
    activeCourses: nat,
    batchCompletion: seq<BatchCompletion>)

  datatype DashStats = DashStats(totalLectures: nat, completedLectures: nat, overallCompletion: real)

  /** `Number((k / t * 100).toFixed(2))`, and 0 for no lectures. */
  function PercentTwoDecimals(k: nat, t: nat): (r: real)
    ensures t > 0 ==> r == ToFixed2(k as real / t as real * 100.0)
    ensures t == 0 ==> r == 0.0
  {
    if t > 0 then ToFixed2(k as real / t as real * 100.0) else 0.0
  }

  /** `calculateOverallStats`: zeros without analytics or without overview items;
      otherwise the summed lecture counts and the rate of the sums. When no item
      completes more lectures than it has, neither does the dashboard, and the overall
      figure is a percentage. */
  function OverallStats(analytics: Option<Analytics>, overview: seq<OverviewItem>): (r: DashStats)
    ensures analytics.None? || overview == [] ==> r == DashStats(0, 0, 0.0)
    ensures analytics.Some? && overview != [] ==>
              r.totalLectures == Sum(overview, TotalOf) && r.completedLectures == Sum(overview, CompletedOf)
    ensures analytics.Some? && overview != [] ==>
              r.overallCompletion == PercentTwoDecimals(r.completedLectures, r.totalLectures)
    ensures (forall i :: i in overview ==> i.completedLectures <= i.totalLectures) ==>
              r.completedLectures <= r.totalLectures && 0.0 <= r.overallCompletion <= 100.0
  {
    if analytics.None? || overview == [] then DashStats(0, 0, 0.0)
    else
      var total := Sum(overview, TotalOf);
      var completed := Sum(overview, CompletedOf);
      CompletedAtMostTotal(overview);
      PercentAtMost100(completed, total);
      DashStats(total, completed, PercentTwoDecimals(completed, total))
  }

  /** The two-decimal rate of `k` out of `t` is a percentage when `k <= t`. */
  lemma PercentAtMost100(k: nat, t: nat)
    ensures k <= t ==> 0.0 <= PercentTwoDecimals(k, t) <= 100.0
  {
    if 0 < t && k <= t {
      RateAtMost100(k, t);
      ToFixed2Bounds(k as real / t as real * 100.0, 0, 100);
    }
  }

  lemma RateAtMost100(k: nat, t: nat)
    requires 0 < t && k <= t
    ensures 0.0 <= k as real / t as real * 100.0 <= 100.0
  {
    assert k as real / t as real <= 1.0;
  }

  /** Sum-then-rate, used here, and the average of the item rates, used by the
      lecture-tracking summary, are different figures: one item with 1 of 1 lectures
      done and one with 0 of 3 give 25% here and 50% there. */
  lemma AggregationsDiffer()
    ensures var f := Faculty("f", "A", "B", "e");
            var overview := [OverviewItem("b", "s", 1, 1, None, f, "b", "s", "f", 0, 100.0),
                             OverviewItem("b", "t", 3, 0, None, f, "b", "t", "f", 3, 0.0)];
            OverallStats(Some(Analytics(1, 1, 1, [])), overview).overallCompletion == 25.0 &&
            SummaryStats(overview).averageCompletion == 50.0
  {
    var f := Faculty("f", "A", "B", "e");
    var overview := [OverviewItem("b", "s", 1, 1, None, f, "b", "s", "f", 0, 100.0),
                     OverviewItem("b", "t", 3, 0, None, f, "b", "t", "f", 3, 0.0)];
    var tail := overview[1..];
    assert tail[1..] == [];
    assert Sum(tail, TotalOf) == 3 && Sum(tail, CompletedOf) == 0 && SumReal(tail, RateOf) == 0.0;
    assert Sum(overview, TotalOf) == 4;
    assert Sum(overview, CompletedOf) == 1;
    assert SumReal(overview, RateOf) == 100.0;
  }

  // ---------------------------------------------------------------------------
  // Truncated lists

  const ActivityLimit := 8
  const BatchLimit := 6
  const OverviewLimit := 10

  /** The recent activity kept after loading: at most 8 events, the first ones. */
  function RecentActivity(activity: seq<Activity>): (r: seq<Activity>)
    ensures |r| == Min(ActivityLimit, |activity|) && r == activity[..|r|]
  {
    Take(activity, ActivityLimit)
  }

  /** The batch bars shown: at most 6, the first ones. */
  function ShownBatches(batches: seq<BatchCompletion>): (r: seq<BatchCompletion>)
    ensures |r| == Min(BatchLimit, |batches|) && r == batches[..|r|]
  {
    Take(batches, BatchLimit)
  }

  /** The assignment rows shown: at most 10, the first ones. */
  function ShownAssignments(overview: seq<OverviewItem>): (r: seq<OverviewItem>)
    ensures |r| == Min(OverviewLimit, |overview|) && r == overview[..|r|]
  {
    Take(overview, OverviewLimit)
  }

  predicate ViewAllBatches(batches: seq<BatchCompletion>) { |batches| > BatchLimit }

  predicate ViewAllAssignments(overview: seq<OverviewItem>) { |overview| > OverviewLimit }

  /** Each "View All" link appears exactly when its list shows fewer rows than there are. */
  lemma ViewAllIffTruncated(batches: seq<BatchCompletion>, overview: seq<OverviewItem>)
    ensures ViewAllBatches(batches) <==> |ShownBatches(batches)| < |batches|
    ensures ViewAllAssignments(overview) <==> |ShownAssignments(overview)| < |overview|
    ensures !ViewAllBatches(batches) ==> ShownBatches(batches) == batches
    ensures !ViewAllAssignments(overview) ==> ShownAssignments(overview) == overview
  {
  }

  // ---------------------------------------------------------------------------
  // Colours

  datatype BarColour = Green | Blue | Yellow | Red

  /** The colour of a completion bar. */
  function Classify(rate: real): (c: BarColour)
    ensures c == Green <==> rate == 100.0
    ensures c == Blue <==> rate != 100.0 && rate >= 75.0
    ensures c == Yellow <==> rate < 75.0 && rate >= 50.0
    ensures c == Red <==> rate < 50.0
  {
    if rate == 100.0 then Green
    else if rate >= 75.0 then Blue
    else if rate >= 50.0 then Yellow
    else Red
  }

  function Rank(c: BarColour): nat {
    match c
    case Red => 0
    case Yellow => 1
    case Blue => 2
    case Green => 3
  }

  /** Up to 100%, a higher rate never gets a lower colour; above 100% (a rate the
      backend should not send) the bar is blue, not green. */
  lemma ClassifyMonotone(a: real, b: real)
    ensures a <= b <= 100.0 ==> Rank(Classify(a)) <= Rank(Classify(b))
    ensures b > 100.0 ==> Classify(b) == Blue
  {
  }

  /** The stat-card colour classes. */
  const ColourClasses: map<string, string> := map[
    "blue" := "bg-blue-50 text-blue-600",
    "green" := "bg-green-50 text-green-600",
    "yellow" := "bg-yellow-50 text-yellow-600",
    "red" := "bg-red-50 text-red-600"]

  /** `getColorClasses`: the classes of a known key, the blue ones for any other. */
  function ColorClasses(key: string): (r: string)
    ensures key in ColourClasses ==> r == ColourClasses[key]
    ensures key !in ColourClasses ==> r == ColourClasses["blue"]
  {
    if key in ColourClasses then ColourClasses[key] else ColourClasses["blue"]
  }

  /** A stat card: its title, the figure shown and its colour key. */
  datatype StatCard = StatCard(title: string, value: string, colour: string)

  /** The figure of a count card: the count, or "0" without analytics. */
  function CountText(analytics: Option<Analytics>, count: Analytics -> nat): (r: string)
    ensures analytics.None? ==> r == "0"
    ensures analytics.Some? ==> DecimalValue(r) == count(analytics.value)
  {
    if analytics.Some? then
      NatToStringRoundTrip(count(analytics.value));
      NatToString(count(analytics.value))
    else "0"
  }

  /** The three count cards; the fourth, "Overall Progress", shows a rendered real and
      is not part of this model. */
  function CountCards(analytics: Option<Analytics>): (r: seq<StatCard>)
    ensures |r| == 3
    ensures forall i :: 0 <= i < |r| ==> r[i].colour in ColourClasses
    ensures analytics.None? ==> forall i :: 0 <= i < |r| ==> r[i].value == "0"
    ensures analytics.Some? ==> DecimalValue(r[0].value) == analytics.value.totalTeachers
    ensures analytics.Some? ==> DecimalValue(r[1].value) == analytics.value.activeCourses
    ensures analytics.Some? ==> DecimalValue(r[2].value) == analytics.value.activeBatches
    ensures r[0].title == "Total Teachers" && r[0].colour == "blue"
    ensures r[1].title == "Active Courses" && r[1].colour == "green"
    ensures r[2].title == "Active Batches" && r[2].colour == "yellow"
  {
    [StatCard("Total Teachers", CountText(analytics, (a: Analytics) => a.totalTeachers), "blue"),
     StatCard("Active Courses", CountText(analytics, (a: Analytics) => a.activeCourses), "green"),
     StatCard("Active Batches", CountText(analytics, (a: Analytics) => a.activeBatches), "yellow")]
  }

  /** Only the four known keys have classes of their own. */
  lemma ColorClassesFallback(key: string)
    ensures key != "blue" && key != "green" && key != "yellow" && key != "red" ==>
              ColorClasses(key) == "bg-blue-50 text-blue-600"
    ensures ColorClasses("red") == "bg-red-50 text-red-600"
  {
  }

  // ---------------------------------------------------------------------------
  // Loading

  /** A reply of the backend: its `success` flag and its data. */
  datatype Reply<T> = Reply(success: bool, data: T)

  /** The outcome of the three parallel requests: the combined promise rejected with an
      error, or all three replied. */
  datatype Fetch =
    | Rejected(error: ApiError)
    | Replied(analyticsReply: Reply<Analytics>, activityReply: Reply<seq<Activity>>, overviewReply: Reply<seq<OverviewItem>>)

  const ToastDefault := "Failed to fetch dashboard data"
  const BannerText := "Failed to load dashboard data"

  /** The error the load ends with, if any: the rejection, or the error thrown for the
      first unsuccessful reply in the order analytics, activity, overview. */
  function LoadFailure(f: Fetch): (r: Option<ApiError>)
    ensures r.None? <==> f.Replied? && f.analyticsReply.success && f.activityReply.success && f.overviewReply.success
    ensures f.Rejected? ==> r == Some(f.error)
    ensures f.Replied? && !f.analyticsReply.success ==> r == Some(ThrownError("Failed to fetch analytics"))
    ensures f.Replied? && f.analyticsReply.success && !f.activityReply.success ==>
              r == Some(ThrownError("Failed to fetch recent activity"))
    ensures f.Replied? && f.analyticsReply.success && f.activityReply.success && !f.overviewReply.success ==>
              r == Some(ThrownError("Failed to fetch overview"))
  {
    match f
    case Rejected(e) => Some(e)
    case Replied(a, act, o) =>
      if !a.success then Some(ThrownError("Failed to fetch analytics"))
      else if !act.success then Some(ThrownError("Failed to fetch recent activity"))
      else if !o.success then Some(ThrownError("Failed to fetch overview"))
      else None
  }

  /** The dashboard's state. */
  class DashboardView {
    var analytics: Option<Analytics>
    var recentActivity: seq<Activity>
    var overview: seq<OverviewItem>
    var loading: bool
    var error: Option<string>

    constructor ()
      ensures analytics.None? && recentActivity == [] && overview == [] && !loading && error.None?
    {
      analytics := None;
      recentActivity := [];
      overview := [];
      loading := false;
      error := None;
    }

    /** `fetchDashboardData`: each successful reply is stored before the next one is
        looked at; the first failure stops the load, toasts once and sets the banner
        unless it is an authentication error. */
    method FetchDashboardData(f: Fetch, toaster: Toaster)
      modifies this, toaster
      ensures !loading
      ensures analytics == if f.Replied? && f.analyticsReply.success then Some(f.analyticsReply.data) else old(analytics)
      ensures recentActivity ==
                if f.Replied? && f.analyticsReply.success && f.activityReply.success
                then RecentActivity(f.activityReply.data) else old(recentActivity)
      ensures overview == if LoadFailure(f).None? then f.overviewReply.data else old(overview)
      ensures error == if LoadFailure(f).Some? then FailureBanner(LoadFailure(f).value, BannerText) else None
      ensures toaster.shown ==
                old(toaster.shown) +
                if LoadFailure(f).Some? then [Toast.Error(ApiErrorMessage(LoadFailure(f).value, ToastDefault))] else []
    {
      loading := true;
      error := None;
      var failure: Option<ApiError> := None;
      match f {
        case Rejected(e) =>
          failure := Some(e);
        case Replied(a, act, o) =>
          if a.success {
            analytics := Some(a.data);
            if act.success {
              recentActivity := RecentActivity(act.data);
              if o.success {
                overview := o.data;
              } else {
                failure := Some(ThrownError("Failed to fetch overview"));
              }
            } else {
              failure := Some(ThrownError("Failed to fetch recent activity"));
            }
          } else {
            failure := Some(ThrownError("Failed to fetch analytics"));
          }
      }
      if failure.Some? {
        toaster.HandleApiError(failure.value, ToastDefault);
        if !IsAuthError(failure.value) {
          error := Some(BannerText);
        }
      }
      loading := false;
    }
  }
}
