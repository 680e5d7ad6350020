/** The teacher's dashboard: the relative time shown next to each recent completion,
    the remaining-lecture figure and the truncated lists. The same relative-time
    bucketing is used by the business dashboard and the lecture-tracking view. */
module TeacherOverview {
  import opened Common

  const MinuteMs := 60000
  const HourMs := 3600000

  /** "N minutes ago", "H hours ago" or "D days ago". */
  datatype RelativeTime = MinutesAgo(minutes: int) | HoursAgo(hours: int) | DaysAgo(days: int)

  /** `formatDate` on `elapsed = now - completedAt` milliseconds (`now` is a parameter):
      whole hours decide the bucket, and days are whole hours divided by 24. */
  function FormatElapsed(elapsed: int): (r: RelativeTime)
    ensures r.MinutesAgo? <==> elapsed < HourMs
    ensures r.HoursAgo? <==> HourMs <= elapsed < DayMs
    ensures r.DaysAgo? <==> DayMs <= elapsed
    ensures r.MinutesAgo? ==> MinuteMs * r.minutes <= elapsed < MinuteMs * r.minutes + MinuteMs
    ensures r.HoursAgo? ==> HourMs * r.hours <= elapsed < HourMs * r.hours + HourMs && 1 <= r.hours < 24
  {
    var hours := FloorDiv(elapsed, HourMs);
    if hours < 1 then MinutesAgo(FloorDiv(elapsed, MinuteMs))
    else if hours < 24 then HoursAgo(hours)
    else DaysAgo(FloorDiv(hours, 24))
  }

  /** Dividing the whole hours by 24 gives the whole days elapsed. */
  lemma DaysAreWholeDays(elapsed: int)
    requires DayMs <= elapsed
    ensures FormatElapsed(elapsed).days == FloorDiv(elapsed, DayMs)
    ensures FormatElapsed(elapsed).days >= 1
  {
    var h := FloorDiv(elapsed, HourMs);
    var d := FloorDiv(h, 24);
    assert HourMs * h <= elapsed < HourMs * h + HourMs;
    assert 24 * d <= h < 24 * d + 24;
    NestedFloor(elapsed, h, d);
  }

  lemma NestedFloor(elapsed: int, h: int, d: int)
    requires HourMs * h <= elapsed < HourMs * h + HourMs
    requires 24 * d <= h < 24 * d + 24
    ensures DayMs * d <= elapsed < DayMs * d + DayMs
  {
    assert 24 * d <= h;
    assert HourMs * (24 * d) <= HourMs * h;
    assert h + 1 <= 24 * d + 24;
    assert HourMs * (h + 1) <= HourMs * (24 * d + 24);
  }

  /** The text shown. */
  function Render(t: RelativeTime): (s: string)
    ensures t.MinutesAgo? ==> s == IntToString(t.minutes) + " minutes ago"
    ensures t.HoursAgo? ==> s == IntToString(t.hours) + " hours ago"
    ensures t.DaysAgo? ==> s == IntToString(t.days) + " days ago"
  {
    match t
    case MinutesAgo(n) => IntToString(n) + " minutes ago"
    case HoursAgo(n) => IntToString(n) + " hours ago"
    case DaysAgo(n) => IntToString(n) + " days ago"
  }

  /** The fields of `FacultyAnalytics` the card reads. */
  datatype Analytics = Analytics(totalLectures: int, completedLectures: int, completionRate: real)

  /** The "remaining" figure: total less completed, 0 without analytics. */
  function Remaining(analytics: Option<Analytics>): (r: int)
    ensures analytics.None? ==> r == 0
    ensures analytics.Some? ==> r + analytics.value.completedLectures == analytics.value.totalLectures
  {
    if analytics.Some? then analytics.value.totalLectures - analytics.value.completedLectures else 0
  }

  /** The remaining figure is never negative when no more lectures are completed than
      exist, and is 0 exactly when everything is completed. */
  lemma RemainingBounds(a: Analytics)
    requires 0 <= a.completedLectures <= a.totalLectures
    ensures 0 <= Remaining(Some(a)) <= a.totalLectures
    ensures Remaining(Some(a)) == 0 <==> a.completedLectures == a.totalLectures
  {
  }

  const ShownLimit := 5

  /** `slice(0, 5)` of the recent activity and of the upcoming lectures. */
  function Shown<T>(s: seq<T>): (r: seq<T>)
    ensures |r| == Min(ShownLimit, |s|)
    ensures r == s[..|r|]
  {
    Take(s, ShownLimit)
  }
}
