/** The teacher's progress report: per-subject completion rates grouped by batch, the
    overall figures (average-of-rates) and the per-batch figures. */
module Progress {
  import opened Common

  /** One subject of a `FacultyProgressBatch`; `completionRate` is a percentage. */
  datatype SubjectProgress = SubjectProgress(
    subjectId: string,
    subjectTitle: string,
    totalLectures: nat,
    completedLectures: nat,
    completionRate: real)

  datatype ProgressBatch = ProgressBatch(batchId: string, batchName: string, subjects: seq<SubjectProgress>)

  function SubjectCount(b: ProgressBatch): (r: int)
    ensures r >= 0
  {
    |b.subjects|
  }

  predicate IsFullyCompleted(s: SubjectProgress) { s.completionRate == 100.0 }

  function CompletedSubjectCount(b: ProgressBatch): (r: int)
    ensures r >= 0
    ensures r <= SubjectCount(b)
  {
    |Filter(b.subjects, IsFullyCompleted)|
  }

  function RateOf(s: SubjectProgress): real { s.completionRate }

  /** The mean subject rate of a batch; the division by an empty batch's zero subjects
      gives `NaN`, here `None`. */
  function BatchMean(b: ProgressBatch): (r: Option<real>)
    ensures r.None? <==> b.subjects == []
    ensures r.Some? ==> r.value * |b.subjects| as real == SumReal(b.subjects, RateOf)
  {
    if |b.subjects| > 0 then Some(SumReal(b.subjects, RateOf) / |b.subjects| as real) else None
  }

  /** The batch mean where it is a number. */
  function BatchMeanValue(b: ProgressBatch): real {
    match BatchMean(b)
    case Some(m) => m
    case None => 0.0
  }

  /** `calculateOverallStats`; `averageCompletion` is `None` where the code computes
      `NaN`. */
  datatype OverallStats = OverallStats(
    totalBatches: nat,
    totalSubjects: nat,
    completedSubjects: nat,
    averageCompletion: Option<int>)

  predicate AllBatchesHaveSubjects(data: seq<ProgressBatch>) {
    forall b :: b in data ==> b.subjects != []
  }

  /** `calculateOverallStats`. Completed subjects never outnumber the subjects, and with
      every rate a percentage the average, where it is a number, is one too. */
  function CalculateOverallStats(data: seq<ProgressBatch>): (r: OverallStats)
    ensures r.totalBatches == |data|
    ensures r.totalSubjects == Sum(data, SubjectCount)
    ensures r.completedSubjects == Sum(data, CompletedSubjectCount)
    ensures data == [] ==> r.averageCompletion == Some(0)
    ensures r.averageCompletion.None? <==> !AllBatchesHaveSubjects(data)
    ensures data != [] && AllBatchesHaveSubjects(data) ==>
              r.averageCompletion == Some(RoundReal(SumReal(data, BatchMeanValue) / |data| as real))
    ensures r.completedSubjects <= r.totalSubjects
    ensures (forall b, s :: b in data && s in b.subjects ==> 0.0 <= s.completionRate <= 100.0) ==>
              r.averageCompletion.Some? ==> 0 <= r.averageCompletion.value <= 100
  {
    SumPointwise(data, CompletedSubjectCount, data, SubjectCount);
    MeansArePercentages(data);
    var average :=
      if |data| == 0 then Some(0)
      else if AllBatchesHaveSubjects(data) then Some(RoundReal(SumReal(data, BatchMeanValue) / |data| as real))
      else None;
    OverallStats(|data|, Sum(data, SubjectCount), Sum(data, CompletedSubjectCount), average)
  }

  /** With every rate a percentage, every batch mean is one, and so is the rounded
      average of the batch means. */
  lemma MeansArePercentages(data: seq<ProgressBatch>)
    ensures (forall b, s :: b in data && s in b.subjects ==> 0.0 <= s.completionRate <= 100.0) ==>
              (forall b :: b in data ==> 0.0 <= BatchMeanValue(b) <= 100.0) &&
              (data != [] ==> 0 <= RoundReal(SumReal(data, BatchMeanValue) / |data| as real) <= 100)
  {
    if forall b, s :: b in data && s in b.subjects ==> 0.0 <= s.completionRate <= 100.0 {
      PercentagesGivenRates(data);
    }
  }

  lemma PercentagesGivenRates(data: seq<ProgressBatch>)
    requires forall b, s :: b in data && s in b.subjects ==> 0.0 <= s.completionRate <= 100.0
    ensures forall b :: b in data ==> 0.0 <= BatchMeanValue(b) <= 100.0
    ensures data != [] ==> 0 <= RoundReal(SumReal(data, BatchMeanValue) / |data| as real) <= 100
  {
    forall b | b in data ensures 0.0 <= BatchMeanValue(b) <= 100.0 {
      BatchMeanValueBound(b);
    }
    if data != [] {
      RoundedMeanIsPercentage(data, BatchMeanValue);
    }
  }

  lemma BatchMeanValueBound(b: ProgressBatch)
    requires forall s :: s in b.subjects ==> 0.0 <= s.completionRate <= 100.0
    ensures 0.0 <= BatchMeanValue(b) <= 100.0
  {
    if b.subjects != [] {
      SumRealBounds(b.subjects, RateOf, 0.0, 100.0);
      MeanBounds(SumReal(b.subjects, RateOf), |b.subjects| as real, 0.0, 100.0);
    }
  }

  /** The rounded mean of percentages is a percentage. */
  lemma RoundedMeanIsPercentage<T>(s: seq<T>, f: T -> real)
    requires s != []
    requires forall x :: x in s ==> 0.0 <= f(x) <= 100.0
    ensures 0 <= RoundReal(SumReal(s, f) / |s| as real) <= 100
  {
    SumRealBounds(s, f, 0.0, 100.0);
    MeanBounds(SumReal(s, f), |s| as real, 0.0, 100.0);
    RoundRealBounds(SumReal(s, f) / |s| as real, 0, 100);
  }

  // ---------------------------------------------------------------------------
  // Per-batch figures

  function TotalOf(s: SubjectProgress): (r: int)
    ensures r >= 0
  {
    s.totalLectures
  }

  function CompletedOf(s: SubjectProgress): (r: int)
    ensures r >= 0
  {
    s.completedLectures
  }

  /** A batch card: its mean rate as `toFixed(2)` shows it (`None` for the `NaN` of a
      batch without subjects) and its lecture totals. */
  datatype BatchFigures = BatchFigures(completion: Option<real>, totalLectures: nat, completedLectures: nat)

  /** A batch card. It never shows more completed lectures than it has when none of
      its subjects does; its completion is the mean rate to within half a hundredth, and
      a percentage when every rate is. */
  function Figures(b: ProgressBatch): (r: BatchFigures)
    ensures r.completion.None? <==> b.subjects == []
    ensures r.completion.Some? ==> r.completion.value == ToFixed2(BatchMean(b).value)
    ensures r.totalLectures == Sum(b.subjects, TotalOf)
    ensures r.completedLectures == Sum(b.subjects, CompletedOf)
    ensures (forall s :: s in b.subjects ==> s.completedLectures <= s.totalLectures) ==>
              r.completedLectures <= r.totalLectures
    ensures r.completion.Some? ==> -0.005 <= r.completion.value - BatchMean(b).value <= 0.005
    ensures (forall s :: s in b.subjects ==> 0.0 <= s.completionRate <= 100.0) ==>
              r.completion.Some? ==> 0.0 <= r.completion.value <= 100.0
  {
    SubjectsCompletedAtMostTotal(b);
    var total, completed := Sum(b.subjects, TotalOf), Sum(b.subjects, CompletedOf);
    if b.subjects == [] then BatchFigures(None, total, completed)
    else
      MeanWithin(b, 0, 100);
      ToFixed2Bounds(BatchMean(b).value, 0, 100);
      BatchFigures(Some(ToFixed2(BatchMean(b).value)), total, completed)
  }

  /** No subject over-completed: the summed completed lectures never exceed the summed
      totals. */
  lemma SubjectsCompletedAtMostTotal(b: ProgressBatch)
    ensures (forall s :: s in b.subjects ==> s.completedLectures <= s.totalLectures) ==>
              Sum(b.subjects, CompletedOf) <= Sum(b.subjects, TotalOf)
  {
    if forall s :: s in b.subjects ==> s.completedLectures <= s.totalLectures {
      SumPointwise(b.subjects, CompletedOf, b.subjects, TotalOf);
    }
  }

  /** A batch's mean rate, rounded to hundredths, stays within any integer bounds on its
      subjects' rates. */
  lemma FiguresBounds(b: ProgressBatch, lo: int, hi: int)
    requires forall s :: s in b.subjects ==> lo as real <= s.completionRate <= hi as real
    ensures b.subjects != [] ==> lo as real <= Figures(b).completion.value <= hi as real
  {
    if b.subjects != [] {
      MeanWithin(b, lo, hi);
      ToFixed2Bounds(BatchMean(b).value, lo, hi);
    }
  }

  /** The mean of a nonempty batch lies within any bounds on its subjects' rates. */
  lemma MeanWithin(b: ProgressBatch, lo: int, hi: int)
    ensures b.subjects != [] && (forall s :: s in b.subjects ==> lo as real <= s.completionRate <= hi as real) ==>
              lo as real <= BatchMean(b).value <= hi as real
  {
    if b.subjects != [] && forall s :: s in b.subjects ==> lo as real <= s.completionRate <= hi as real {
      SumRealBounds(b.subjects, RateOf, lo as real, hi as real);
      MeanBounds(SumReal(b.subjects, RateOf), |b.subjects| as real, lo as real, hi as real);
    }
  }
}
