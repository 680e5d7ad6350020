/** The business view of one batch: its status badge, the days-remaining figure, the
    lecture total and which lectures are shown as completed. Dates and `now` are
    integer milliseconds since the epoch. */
module BatchDetails {
  import opened Common
  import opened Hierarchy

  datatype Status = Upcoming | Completed | Expiring | Active

  /** The badge text of a status. */
  function StatusText(s: Status): string {
    match s
    case Upcoming => "upcoming"
    case Completed => "completed"
    case Expiring => "expiring"
    case Active => "active"
  }

  /** The badge classes of a status. */
  function StatusColour(s: Status): string {
    match s
    case Upcoming => "bg-blue-100 text-blue-800"
    case Completed => "bg-gray-100 text-gray-800"
    case Expiring => "bg-yellow-100 text-yellow-800"
    case Active => "bg-green-100 text-green-800"
  }

  /** Whole days left until `end`, rounded up (`Math.ceil`). */
  function DaysRemaining(end: int, now: int): (r: int)
    ensures DayMs * (r - 1) < end - now <= DayMs * r
  {
    CeilDiv(end - now, DayMs)
  }

  /** `getBatchStatus`. */
  function BatchStatus(start: int, end: int, now: int): (s: Status)
    ensures s == Upcoming <==> now < start
    ensures s == Completed <==> start <= now && end < now
    ensures s == Expiring <==> start <= now <= end && DaysRemaining(end, now) <= 7
    ensures s == Active <==> start <= now <= end && DaysRemaining(end, now) > 7
  {
    if now < start then Upcoming
    else if now > end then Completed
    else if DaysRemaining(end, now) <= 7 then Expiring
    else Active
  }

  /** Inside the batch's dates the days-to-end figure is never negative, so "expiring"
      means 0 to 7 days, and "active" more than 7 days, that is, more than a week left. */
  lemma ExpiringWindow(start: int, end: int, now: int)
    ensures BatchStatus(start, end, now) == Expiring ==> 0 <= DaysRemaining(end, now) <= 7
    ensures BatchStatus(start, end, now) == Active ==> end - now > 7 * DayMs
    ensures BatchStatus(start, end, now) == Expiring ==> end - now <= 7 * DayMs
  {
  }

  /** The days-remaining text: "Expired" for no days left, the number otherwise. */
  function DaysRemainingText(days: int): (r: string)
    ensures r == "Expired" <==> days <= 0
    ensures days > 0 ==> DecimalValue(r) == days
  {
    if days <= 0 then "Expired"
    else
      NatToStringRoundTrip(days);
      NatToString(days)
  }

  /** The colour of the days-remaining figure. */
  function DaysRemainingColour(days: int): string {
    if days <= 0 then "text-red-600" else if days <= 7 then "text-yellow-600" else "text-green-600"
  }

  /** A batch whose badge says "completed" shows "Expired"; one shown as upcoming or
      active never does. At the exact end instant the two disagree: the badge says
      "expiring" while the figure says "Expired". */
  lemma StatusAgreesWithDays(start: int, end: int, now: int)
    ensures BatchStatus(start, end, now) == Completed ==> DaysRemainingText(DaysRemaining(end, now)) == "Expired"
    ensures BatchStatus(start, end, now) == Active ==> DaysRemainingText(DaysRemaining(end, now)) != "Expired"
    ensures start <= end ==>
              BatchStatus(start, end, end) == Expiring && DaysRemainingText(DaysRemaining(end, end)) == "Expired"
  {
  }

  /** The "Total Lectures" figure: the sum of the subjects' precomputed totals. */
  lemma TotalIsSumOfSubjects(b: Batch, s: Subject)
    ensures BatchTotal(b) == Sum(b.subjects, SubjectTotal)
    ensures BatchTotal(Batch(b.id, b.name, b.startDate, b.endDate, b.subjects + [s])) == BatchTotal(b) + s.totalLectures
  {
    SumAppend(b.subjects, [s], SubjectTotal);
    assert [s][1..] == [];
  }

  /** This view marks a lecture as completed from `completedAt` alone. */
  predicate ShownCompleted(l: Lecture) {
    Truthy(l.completedAt)
  }

  /** Every lecture the teacher side counts as completed is shown as completed here, but
      not conversely: a lecture with a completion time and no `completedBy` is shown as
      completed here and not counted there. */
  lemma ShownCompletedIsWeaker(l: Lecture)
    ensures IsCompleted(l) ==> ShownCompleted(l)
    ensures var m := Lecture("l", "l", "t", "f", Some("2024-01-01"), None);
            ShownCompleted(m) && !IsCompleted(m)
  {
  }
}
