/** The business view of one teacher's completed lectures for a subject: the date-range
    filter, the summary statistics, the grouping by topic and the order in which groups
    and lectures are shown. */
module FacultyDetails {
  import opened Common

  /** One completion event; `completedAt` is in milliseconds. */
  datatype CompletedLecture = CompletedLecture(
    lectureId: string,
    lectureTitle: string,
    topicId: string,
    topicTitle: string,
    completedAt: int)

  function TimeOf(l: CompletedLecture): int { l.completedAt }

  // ---------------------------------------------------------------------------
  // Date range

  /** The filter condition; `start` and `end` are the day starts picked in the two date
      inputs, `None` for an empty input. The end bound runs through the last
      millisecond of its day. */
  predicate InRange(t: int, start: Option<int>, end: Option<int>) {
    (start.Some? ==> start.value <= t) && (end.Some? ==> t <= EndOfDay(end.value))
  }

  /** The date-range effect: the full list when both inputs are empty, otherwise the
      lectures inside the range, in their original order. */
  function DateFilter(ls: seq<CompletedLecture>, start: Option<int>, end: Option<int>)
    : (r: seq<CompletedLecture>)
    ensures start.None? && end.None? ==> r == ls
    ensures forall l :: l in r <==> l in ls && InRange(l.completedAt, start, end)
    ensures IsSublist(r, ls)
  {
    if start.None? && end.None? then
      FilterAll(ls, (l: CompletedLecture) => InRange(l.completedAt, start, end));
      FilterIsSublist(ls, (l: CompletedLecture) => InRange(l.completedAt, start, end));
      ls
    else
      FilterIsSublist(ls, (l: CompletedLecture) => InRange(l.completedAt, start, end));
      Filter(ls, (l: CompletedLecture) => InRange(l.completedAt, start, end))
  }

  /** The end day is included up to 23:59:59.999 and not a millisecond further. */
  lemma EndOfDayInclusive(ls: seq<CompletedLecture>, start: Option<int>, day: int, l: CompletedLecture)
    requires l in ls && (start.Some? ==> start.value <= l.completedAt)
    ensures l.completedAt == day + DayMs - 1 ==> l in DateFilter(ls, start, Some(day))
    ensures l.completedAt == day + DayMs ==> l !in DateFilter(ls, start, Some(day))
  {
  }

  // ---------------------------------------------------------------------------
  // Statistics

  function TopicIdOf(l: CompletedLecture): string { l.topicId }

  function DayOf(l: CompletedLecture): int { DayStart(l.completedAt) }

  /** The distinct `topicId`s. */
  function Topics(ls: seq<CompletedLecture>): set<string> { Image(ls, TopicIdOf) }

  /** The distinct days with at least one completion: the keys of `lecturesByDate`. */
  function Days(ls: seq<CompletedLecture>): set<int> { Image(ls, DayOf) }

  function CountOnDay(ls: seq<CompletedLecture>, day: int): nat {
    |Filter(ls, (l: CompletedLecture) => DayOf(l) == day)|
  }

  /** The `reduce` that keeps the later of the two, and the earlier one on a tie. */
  function Later(latest: CompletedLecture, current: CompletedLecture): CompletedLecture {
    if current.completedAt > latest.completedAt then current else latest
  }

  function FoldLatest(latest: CompletedLecture, rest: seq<CompletedLecture>): CompletedLecture
    decreases |rest|
  {
    if rest == [] then latest else FoldLatest(Later(latest, rest[0]), rest[1..])
  }

  /** `mostRecentLecture`. */
  function MostRecent(ls: seq<CompletedLecture>): Option<CompletedLecture> {
    if ls == [] then None else Some(FoldLatest(ls[0], ls[1..]))
  }

  /** Folding from position `k` at step `i`, where `ls[k]` is the first of the maximal
      elements of `ls[..i]`, ends on the first maximal element of the whole list. */
  lemma {:induction false} FoldLatestSpec(ls: seq<CompletedLecture>, k: nat, i: nat) returns (m: nat)
    requires k < i <= |ls|
    requires forall j :: 0 <= j < i ==> ls[j].completedAt <= ls[k].completedAt
    requires forall j :: 0 <= j < k ==> ls[j].completedAt < ls[k].completedAt
    ensures m < |ls| && FoldLatest(ls[k], ls[i..]) == ls[m]
    ensures forall j :: 0 <= j < |ls| ==> ls[j].completedAt <= ls[m].completedAt
    ensures forall j :: 0 <= j < m ==> ls[j].completedAt < ls[m].completedAt
    decreases |ls| - i
  {
    if i == |ls| {
      m := k;
    } else {
      assert ls[i..][0] == ls[i] && ls[i..][1..] == ls[i + 1..];
      if ls[i].completedAt > ls[k].completedAt {
        m := FoldLatestSpec(ls, i, i + 1);
      } else {
        m := FoldLatestSpec(ls, k, i + 1);
      }
    }
  }

  /** `mostRecentLecture` is null exactly for an empty list; otherwise it is the first
      of the lectures with the latest `completedAt`. */
  lemma MostRecentSpec(ls: seq<CompletedLecture>)
    ensures MostRecent(ls).None? <==> ls == []
    ensures ls != [] ==>
              exists m :: 0 <= m < |ls| && MostRecent(ls) == Some(ls[m]) &&
                (forall j :: 0 <= j < |ls| ==> ls[j].completedAt <= ls[m].completedAt) &&
                (forall j :: 0 <= j < m ==> ls[j].completedAt < ls[m].completedAt)
  {
    if ls != [] {
      var m := FoldLatestSpec(ls, 0, 1);
      assert ls[1..] == ls[1..];
    }
  }

  datatype Stats = Stats(
    totalLectures: nat,
    uniqueTopics: nat,
    averageLecturesPerDay: real,
    mostRecentLecture: Option<CompletedLecture>,
    activeDays: nat)

  lemma CountOnDaySnoc(ls: seq<CompletedLecture>, x: CompletedLecture, day: int)
    ensures CountOnDay(ls + [x], day) == CountOnDay(ls, day) + (if DayOf(x) == day then 1 else 0)
  {
    FilterAppend(ls, [x], (l: CompletedLecture) => DayOf(l) == day);
  }

  /** A day is active exactly when at least one lecture was completed on it. */
  lemma ActiveDayCounted(ls: seq<CompletedLecture>, day: int)
    ensures day in Days(ls) ==> CountOnDay(ls, day) > 0
  {
    if day in Days(ls) {
      var l :| l in ls && DayOf(l) == day;
      assert l in Filter(ls, (l: CompletedLecture) => DayOf(l) == day);
    }
  }

  lemma CountOnActiveDay(ls: seq<CompletedLecture>, day: int)
    ensures CountOnDay(ls, day) > 0 ==> day in Days(ls)
  {
    var f := Filter(ls, (l: CompletedLecture) => DayOf(l) == day);
    if f != [] {
      assert f[0] in f;
    }
  }

  /** One step of the `lecturesByDate` reduce, `acc[date] = (acc[date] || 0) + 1`, keeps
      the dictionary equal to the per-day counts of the longer list. */
  lemma ByDateStep(prefix: seq<CompletedLecture>, x: CompletedLecture, longer: seq<CompletedLecture>,
                   byDate: map<int, nat>)
    requires longer == prefix + [x]
    requires forall d :: d in byDate <==> CountOnDay(prefix, d) > 0
    requires forall d :: d in byDate ==> byDate[d] == CountOnDay(prefix, d)
    ensures var day := DayOf(x);
            var next := byDate[day := (if day in byDate then byDate[day] else 0) + 1];
            (forall d :: d in next <==> CountOnDay(longer, d) > 0) &&
            (forall d :: d in next ==> next[d] == CountOnDay(longer, d))
  {
    forall d ensures CountOnDay(longer, d) == CountOnDay(prefix, d) + (if DayOf(x) == d then 1 else 0) {
      CountOnDaySnoc(prefix, x, d);
    }
  }

  /** The `lecturesByDate` reduce: a dictionary from each active day to the number of
      lectures completed on it, filled one lecture at a time. */
  method LecturesByDate(ls: seq<CompletedLecture>) returns (byDate: map<int, nat>)
    ensures byDate.Keys == Days(ls)
    ensures forall d :: d in byDate ==> byDate[d] == CountOnDay(ls, d) && byDate[d] > 0
  {
    byDate := map[];
    var i := 0;
    while i < |ls|
      invariant 0 <= i <= |ls|
      invariant forall d :: d in byDate <==> CountOnDay(ls[..i], d) > 0
      invariant forall d :: d in byDate ==> byDate[d] == CountOnDay(ls[..i], d)
    {
      var day := DayOf(ls[i]);
      var count := if day in byDate then byDate[day] else 0;
      assert ls[..i + 1] == ls[..i] + [ls[i]];
      ByDateStep(ls[..i], ls[i], ls[..i + 1], byDate);
      byDate := byDate[day := count + 1];
      i := i + 1;
    }
    assert ls[..|ls|] == ls;
    forall d ensures d in byDate <==> d in Days(ls) {
      ActiveDayCounted(ls, d);
      CountOnActiveDay(ls, d);
    }
  }

  /** `calculateStats`. `averageLecturesPerDay` is `Math.round(total / days * 10) / 10`
      on exact values. */
  method CalculateStats(ls: seq<CompletedLecture>) returns (s: Stats)
    ensures s.totalLectures == |ls|
    ensures s.uniqueTopics == |Topics(ls)|
    ensures s.activeDays == |Days(ls)|
    ensures s.averageLecturesPerDay == AveragePerDay(|ls|, s.activeDays)
    ensures s.mostRecentLecture == MostRecent(ls)
  {
    var byDate := LecturesByDate(ls);
    var days := |byDate.Keys|;
    s := Stats(|ls|, |Topics(ls)|, AveragePerDay(|ls|, days), MostRecent(ls), days);
  }

  /** `Math.round(total / days * 10) / 10`, and 0 without days. */
  function AveragePerDay(total: nat, days: nat): (r: real)
    ensures days == 0 ==> r == 0.0
    ensures days > 0 ==> r == RoundReal(total as real / days as real * 10.0) as real / 10.0
  {
    if days > 0 then
      RoundRatioIsRound(total, days, 10);
      RoundRatio(total, days, 10) as real / 10.0
    else 0.0
  }

  /** Distinct topics never outnumber lectures; a nonempty list has between one active
      day and one per lecture, an empty one has none. */
  lemma StatsBounds(ls: seq<CompletedLecture>)
    ensures |Topics(ls)| <= |ls|
    ensures ls == [] ==> |Days(ls)| == 0
    ensures ls != [] ==> 1 <= |Days(ls)| <= |ls|
  {
    ImageSize(ls, TopicIdOf);
    ImageSize(ls, DayOf);
  }

  /** The statistics of a filtered list never exceed the all-time ones. */
  lemma FilteredStatsAtMostAllTime(ls: seq<CompletedLecture>, start: Option<int>, end: Option<int>)
    ensures |DateFilter(ls, start, end)| <= |ls|
    ensures |Topics(DateFilter(ls, start, end))| <= |Topics(ls)|
    ensures |Days(DateFilter(ls, start, end))| <= |Days(ls)|
  {
    var f := DateFilter(ls, start, end);
    if !(start.None? && end.None?) {
      assert |f| <= |ls|;
    }
    ImageSubset(f, ls, TopicIdOf);
    ImageSubset(f, ls, DayOf);
    SubsetCardinality(Topics(f), Topics(ls));
    SubsetCardinality(Days(f), Days(ls));
  }

  lemma SubsetCardinality<U>(a: set<U>, b: set<U>)
    requires a <= b
    ensures |a| <= |b|
  {
    if a != {} {
      var x :| x in a;
      SubsetCardinality(a - {x}, b - {x});
    }
  }

  // ---------------------------------------------------------------------------
  // Grouping by topic title

  function TitleOf(l: CompletedLecture): string { l.topicTitle }

  /** The lectures of one topic title, in list order. */
  function TopicGroup(ls: seq<CompletedLecture>, title: string): seq<CompletedLecture> {
    Filter(ls, (l: CompletedLecture) => l.topicTitle == title)
  }

  lemma TopicGroupSnoc(ls: seq<CompletedLecture>, x: CompletedLecture, title: string)
    ensures TopicGroup(ls + [x], title) ==
              TopicGroup(ls, title) + (if x.topicTitle == title then [x] else [])
  {
    FilterAppend(ls, [x], (l: CompletedLecture) => l.topicTitle == title);
  }

  /** One step of the `lecturesByTopic` reduce, `acc[title] = acc[title] || []` then
      `acc[title].push(lecture)`: a title seen for the first time is appended to the key
      order ... */
  lemma ByTopicTitles(prefix: seq<CompletedLecture>, x: CompletedLecture, longer: seq<CompletedLecture>,
                      titles: seq<string>)
    requires longer == prefix + [x]
    requires titles == Dedup(Map(prefix, TitleOf))
    ensures (if x.topicTitle in titles then titles else titles + [x.topicTitle]) == Dedup(Map(longer, TitleOf))
  {
    var m := Map(longer, TitleOf);
    assert m[..|m| - 1] == Map(prefix, TitleOf);
  }

  /** ... and every group becomes the group of the longer list. */
  lemma ByTopicGroups(prefix: seq<CompletedLecture>, x: CompletedLecture, longer: seq<CompletedLecture>,
                      groups: map<string, seq<CompletedLecture>>)
    requires longer == prefix + [x]
    requires forall t :: t in groups ==> groups[t] == TopicGroup(prefix, t) && groups[t] != []
    requires forall t :: t !in groups ==> TopicGroup(prefix, t) == []
    ensures var title := x.topicTitle;
            var groups' := groups[title := (if title in groups then groups[title] else []) + [x]];
            forall t :: t in groups' ==> groups'[t] == TopicGroup(longer, t) && groups'[t] != []
  {
    forall t ensures TopicGroup(longer, t) == TopicGroup(prefix, t) + (if x.topicTitle == t then [x] else []) {
      TopicGroupSnoc(prefix, x, t);
    }
  }

  /** The whole step, on the loop's state. */
  lemma ByTopicStep(prefix: seq<CompletedLecture>, x: CompletedLecture, longer: seq<CompletedLecture>,
                    titles: seq<string>, groups: map<string, seq<CompletedLecture>>)
    requires longer == prefix + [x]
    requires titles == Dedup(Map(prefix, TitleOf))
    requires forall t :: t in groups <==> t in titles
    requires forall t :: t in groups ==> groups[t] == TopicGroup(prefix, t) && groups[t] != []
    ensures var title := x.topicTitle;
            var titles' := if title in groups then titles else titles + [title];
            var groups' := groups[title := (if title in groups then groups[title] else []) + [x]];
            titles' == Dedup(Map(longer, TitleOf)) &&
            (forall t :: t in groups' <==> t in titles') &&
            (forall t :: t in groups' ==> groups'[t] == TopicGroup(longer, t) && groups'[t] != [])
  {
    ByTopicTitles(prefix, x, longer, titles);
    forall t | t !in groups ensures TopicGroup(prefix, t) == [] {
      TitleOccurs(prefix, t);
    }
    ByTopicGroups(prefix, x, longer, groups);
  }

  /** The `lecturesByTopic` reduce: a dictionary from each topic title to its lectures,
      filled by pushing one lecture at a time; `titles` is the dictionary's key order,
      the order in which titles first occur. */
  method LecturesByTopic(ls: seq<CompletedLecture>)
    returns (titles: seq<string>, groups: map<string, seq<CompletedLecture>>)
    ensures titles == Dedup(Map(ls, TitleOf))
    ensures forall t :: t in groups <==> t in titles
    ensures forall t :: t in groups ==> groups[t] == TopicGroup(ls, t) && groups[t] != []
  {
    titles, groups := [], map[];
    var i := 0;
    while i < |ls|
      invariant 0 <= i <= |ls|
      invariant titles == Dedup(Map(ls[..i], TitleOf))
      invariant forall t :: t in groups <==> t in titles
      invariant forall t :: t in groups ==> groups[t] == TopicGroup(ls[..i], t) && groups[t] != []
    {
      var title := ls[i].topicTitle;
      assert ls[..i + 1] == ls[..i] + [ls[i]];
      ByTopicStep(ls[..i], ls[i], ls[..i + 1], titles, groups);
      var group := [];
      if title in groups {
        group := groups[title];
      } else {
        titles := titles + [title];
      }
      groups := groups[title := group + [ls[i]]];
      i := i + 1;
    }
    assert ls[..|ls|] == ls;
  }

  lemma TitleOccurs(ls: seq<CompletedLecture>, title: string)
    ensures TopicGroup(ls, title) != [] ==> title in Map(ls, TitleOf)
  {
    var g := TopicGroup(ls, title);
    if g != [] {
      assert g[0] in ls;
      var k :| 0 <= k < |ls| && ls[k] == g[0];
      assert Map(ls, TitleOf)[k] == title;
    }
  }

  /** Each lecture lies in the group of its own title and in no other. */
  lemma GroupMembership(ls: seq<CompletedLecture>, l: CompletedLecture, title: string)
    requires l in ls
    ensures l in TopicGroup(ls, title) <==> l.topicTitle == title
  {
  }

  /** The groups partition the list: over the distinct titles their sizes add up to the
      number of lectures. */
  lemma {:induction false} GroupSizesSum(ls: seq<CompletedLecture>, titles: seq<string>)
    requires NoDuplicates(titles)
    requires forall l :: l in ls ==> l.topicTitle in titles
    ensures Sum(titles, t => |TopicGroup(ls, t)|) == |ls|
  {
    if ls == [] {
      SumZero(titles, t => |TopicGroup(ls, t)|);
    } else {
      var x, rest := ls[0], ls[1..];
      assert ls == [x] + rest;
      GroupSizesSum(rest, titles);
      forall t ensures |TopicGroup(ls, t)| == (if t == x.topicTitle then 1 else 0) + |TopicGroup(rest, t)| {
        FilterAppend([x], rest, (l: CompletedLecture) => l.topicTitle == t);
      }
      SumAdd(titles, t => if t == x.topicTitle then 1 else 0, t => |TopicGroup(rest, t)|,
             t => |TopicGroup(ls, t)|);
      SumIndicator(titles, x.topicTitle, t => if t == x.topicTitle then 1 else 0);
    }
  }

  lemma {:induction false} SumZero<T>(s: seq<T>, f: T -> int)
    requires forall i :: 0 <= i < |s| ==> f(s[i]) == 0
    ensures Sum(s, f) == 0
  {
    if s != [] {
      SumZero(s[1..], f);
    }
  }

  /** The titles collected by the grouping partition the list. */
  lemma GroupingPartitions(ls: seq<CompletedLecture>)
    ensures Sum(Dedup(Map(ls, TitleOf)), t => |TopicGroup(ls, t)|) == |ls|
  {
    var titles := Dedup(Map(ls, TitleOf));
    forall l | l in ls ensures l.topicTitle in titles {
      var k :| 0 <= k < |ls| && ls[k] == l;
      assert Map(ls, TitleOf)[k] == l.topicTitle;
    }
    GroupSizesSum(ls, titles);
  }

  // ---------------------------------------------------------------------------
  // Display order

  /** `Math.max` of the group's completion times; groups are never empty. */
  function Latest(g: seq<CompletedLecture>): (r: int)
    ensures g != [] ==> exists l :: l in g && l.completedAt == r
    ensures forall l :: l in g ==> l.completedAt <= r
  {
    if g == [] then 0
    else if |g| == 1 then g[0].completedAt
    else
      var rest := Latest(g[1..]);
      assert forall l :: l in g ==> l == g[0] || l in g[1..];
      Max(g[0].completedAt, rest)
  }

  function LatestOf(e: (string, seq<CompletedLecture>)): int { Latest(e.1) }

  /** The dictionary's entries in key order. */
  function Entries(titles: seq<string>, groups: map<string, seq<CompletedLecture>>)
    : (r: seq<(string, seq<CompletedLecture>)>)
    requires forall t :: t in titles ==> t in groups
    ensures |r| == |titles|
    ensures forall i :: 0 <= i < |r| ==> r[i] == (titles[i], groups[titles[i]])
  {
    if titles == [] then [] else [(titles[0], groups[titles[0]])] + Entries(titles[1..], groups)
  }

  /** `sortedTopics`: the groups ordered by their latest completion, newest first, as a
      permutation of the entries. */
  function SortedTopics(entries: seq<(string, seq<CompletedLecture>)>)
    : (r: seq<(string, seq<CompletedLecture>)>)
    ensures forall i, j :: 0 <= i < j < |r| ==> Latest(r[i].1) >= Latest(r[j].1)
    ensures multiset(r) == multiset(entries)
  {
    var r := SortDescBy(entries, LatestOf);
    assert forall i, j :: 0 <= i < j < |r| ==> LatestOf(r[i]) >= LatestOf(r[j]);
    r
  }

  /** The order in which one group's lectures are shown: newest first, a permutation
      of the group. */
  function SortByRecency(g: seq<CompletedLecture>): (r: seq<CompletedLecture>)
    ensures forall i, j :: 0 <= i < j < |r| ==> r[i].completedAt >= r[j].completedAt
    ensures multiset(r) == multiset(g)
  {
    var r := SortDescBy(g, TimeOf);
    assert forall i, j :: 0 <= i < j < |r| ==> TimeOf(r[i]) >= TimeOf(r[j]);
    r
  }
}
