/**
 * `calculate_basic_drift_stats`: one record per numeric reference column
 * that the current frame also has, holding the two-sample KS statistic, its
 * p-value, the drift flag `p < 0.05`, both means and their difference.
 */
module DriftStats {
  import opened Wrappers
  import opened Frames
  import opened Samples
  import opened KolmogorovSmirnov

  /** A feature drifts when its p-value is strictly below this level. */
  const DriftThreshold: real := 0.05

  type Probability = p: real | 0.0 <= p <= 1.0

  /**
   * The p-value `stats.ks_2samp` computes for a statistic D and the two
   * sample sizes. Its numerics are scipy's and are not modelled: it is a
   * parameter of the model, promised only to lie in [0, 1].
   */
  type PValueFunction = (real, nat, nat) -> Probability

  datatype FeatureDrift = FeatureDrift(
    ksStatistic: real,
    pValue: real,
    driftDetected: bool,
    referenceMean: real,
    currentMean: real,
    meanDifference: real)

  /** One `drift_results[col] = {...}` item; the results are a list of these in insertion order. */
  datatype Entry = Entry(feature: string, stats: FeatureDrift)

  /** An empty sample: older scipy raises ValueError here, and the model fails. */
  datatype DriftError = EmptySample(feature: string)

  /** What every record promises: both statistics in range, the flag and the mean difference consistent. */
  predicate Consistent(r: FeatureDrift)
  {
    && 0.0 <= r.ksStatistic <= 1.0
    && 0.0 <= r.pValue <= 1.0
    && r.driftDetected == (r.pValue < DriftThreshold)
    && r.meanDifference == r.currentMean - r.referenceMean
  }

  /** The record for one feature, from its reference and current samples. */
  function FeatureDriftOf(reference: seq<real>, current: seq<real>, pValue: PValueFunction): (r: FeatureDrift)
    requires |reference| > 0 && |current| > 0
    ensures Consistent(r)
    ensures r.ksStatistic == KsStatistic(reference, current)
    ensures r.pValue == pValue(r.ksStatistic, |reference|, |current|)
    ensures r.referenceMean == Mean(reference) && r.currentMean == Mean(current)
  {
    var d := KsStatistic(reference, current);
    var p := pValue(d, |reference|, |current|);
    FeatureDrift(d, p, p < DriftThreshold, Mean(reference), Mean(current), Mean(current) - Mean(reference))
  }

  /**
   * A current sample holding the same values as the reference, in any order,
   * gives the record of the reference compared with itself: D = 0 and no
   * change of mean.
   */
  lemma IdenticalSamples(reference: seq<real>, current: seq<real>, pValue: PValueFunction)
    requires |reference| > 0 && multiset(reference) == multiset(current)
    ensures |current| > 0
    ensures var r := FeatureDriftOf(reference, current, pValue);
            && r == FeatureDriftOf(reference, reference, pValue)
            && r.ksStatistic == 0.0 && r.meanDifference == 0.0
            && r.pValue == pValue(0.0, |reference|, |reference|)
  {
    PermutationInvariant(reference, current);
    KsOfPermutation(reference, current);
    KsOfPermutation(reference, reference);
  }

  /** The keys of the results: numeric reference columns present in the current frame, in reference order. */
  function CommonNumericColumns(reference: Frame, current: Frame): (r: seq<string>)
    ensures forall x :: x in r <==> x in NumericNames(reference.columns) && x in NameSet(current.columns)
    ensures |r| <= |NumericNames(reference.columns)|
  {
    KeepPresent(NumericNames(reference.columns), NameSet(current.columns))
  }

  /** With unique reference names, the keys are the reference column names, in reference order, filtered by "numeric and in the current frame". */
  lemma CommonNumericColumnsInOrder(reference: Frame, current: Frame)
    requires Distinct(Names(reference.columns))
    ensures CommonNumericColumns(reference, current)
         == KeepPresent(Names(reference.columns), NumericSet(reference.columns) * NameSet(current.columns))
  {
    NumericNamesAsFilter(reference.columns);
    KeepPresentTwice(Names(reference.columns), NumericSet(reference.columns), NameSet(current.columns));
  }

  /** Each key occurs once, and a name is a key exactly when it is a numeric reference column that the current frame has. */
  lemma CommonNumericColumnsSpec(reference: Frame, current: Frame)
    requires WellFormed(reference)
    ensures Distinct(CommonNumericColumns(reference, current))
    ensures forall x :: x in CommonNumericColumns(reference, current)
              <==> (exists i :: 0 <= i < |reference.columns| && reference.columns[i] == Column(x, true))
                   && x in NameSet(current.columns)
  {
    NumericNamesAsFilter(reference.columns);
    KeepPresentDistinct(Names(reference.columns), NumericSet(reference.columns));
    KeepPresentDistinct(NumericNames(reference.columns), NameSet(current.columns));
    forall x ensures x in NumericNames(reference.columns)
                 <==> exists i :: 0 <= i < |reference.columns| && reference.columns[i] == Column(x, true)
    {
      if x in NumericNames(reference.columns) {
        var i :| 0 <= i < |reference.columns| && reference.columns[i].name == x && reference.columns[i].numeric;
        assert reference.columns[i] == Column(x, true);
      }
    }
  }

  function EntryFor(reference: Frame, current: Frame, col: string, pValue: PValueFunction): (e: Entry)
    requires WellFormed(reference) && Complete(reference) && col in NameSet(reference.columns)
    requires WellFormed(current) && Complete(current) && col in NameSet(current.columns)
    requires |reference.rows| > 0 && |current.rows| > 0
    ensures e.feature == col && Consistent(e.stats)
    ensures e.stats.ksStatistic == KsStatistic(Values(reference, col), Values(current, col))
    ensures e.stats.referenceMean == Mean(Values(reference, col))
    ensures e.stats.currentMean == Mean(Values(current, col))
  {
    Entry(col, FeatureDriftOf(Values(reference, col), Values(current, col), pValue))
  }

  /** The entries for the given columns, in their order. */
  function EntriesFor(reference: Frame, current: Frame, cols: seq<string>, pValue: PValueFunction): (es: seq<Entry>)
    requires WellFormed(reference) && Complete(reference) && |reference.rows| > 0
    requires WellFormed(current) && Complete(current) && |current.rows| > 0
    requires forall x :: x in cols ==> x in NameSet(reference.columns) && x in NameSet(current.columns)
    ensures |es| == |cols|
    ensures forall i :: 0 <= i < |cols| ==> es[i] == EntryFor(reference, current, cols[i], pValue)
  {
    seq(|cols|, i requires 0 <= i < |cols| => EntryFor(reference, current, cols[i], pValue))
  }

  lemma EntriesForSnoc(reference: Frame, current: Frame, cols: seq<string>, col: string, pValue: PValueFunction)
    requires WellFormed(reference) && Complete(reference) && |reference.rows| > 0
    requires WellFormed(current) && Complete(current) && |current.rows| > 0
    requires forall x :: x in cols + [col] ==> x in NameSet(reference.columns) && x in NameSet(current.columns)
    ensures EntriesFor(reference, current, cols + [col], pValue)
         == EntriesFor(reference, current, cols, pValue) + [EntryFor(reference, current, col, pValue)]
  {
  }

  /** The results the loop is to produce, one entry per common numeric column, in that order. */
  function ExpectedResults(reference: Frame, current: Frame, pValue: PValueFunction): (es: seq<Entry>)
    requires WellFormed(reference) && Complete(reference) && |reference.rows| > 0
    requires WellFormed(current) && Complete(current) && |current.rows| > 0
    ensures var common := CommonNumericColumns(reference, current);
            && |es| == |common|
            && forall i :: 0 <= i < |common| ==> es[i] == EntryFor(reference, current, common[i], pValue)
  {
    EntriesFor(reference, current, CommonNumericColumns(reference, current), pValue)
  }

  /** The loop over the numeric reference columns. */
  method CalculateBasicDriftStats(reference: Frame, current: Frame, pValue: PValueFunction)
    returns (r: Result<seq<Entry>, DriftError>)
    requires WellFormed(reference) && Complete(reference)
    requires WellFormed(current) && Complete(current)
    ensures var common := CommonNumericColumns(reference, current);
            r.Failure? <==> common != [] && (|reference.rows| == 0 || |current.rows| == 0)
    ensures r.Failure? ==> r.error == EmptySample(CommonNumericColumns(reference, current)[0])
    ensures r.Success? && (|reference.rows| == 0 || |current.rows| == 0) ==> r.value == []
    ensures r.Success? && |reference.rows| > 0 && |current.rows| > 0 ==>
              r.value == ExpectedResults(reference, current, pValue)
  {
    var numericCols := NumericNames(reference.columns);
    var present := NameSet(current.columns);
    var nonEmpty := |reference.rows| > 0 && |current.rows| > 0;
    var results: seq<Entry> := [];
    var i := 0;
    while i < |numericCols|
      invariant 0 <= i <= |numericCols|
      invariant var done := KeepPresent(numericCols[..i], present);
                && (forall x :: x in done ==> x in NameSet(reference.columns) && x in present)
                && (!nonEmpty ==> done == [] && results == [])
                && (nonEmpty ==> results == EntriesFor(reference, current, done, pValue))
    {
      var col := numericCols[i];
      KeepPresentSnoc(numericCols, i, present);
      if col in present {
        if !nonEmpty {
          KeepPresentFirst(numericCols, i, present);
          return Failure(EmptySample(col));
        }
        EntriesForSnoc(reference, current, KeepPresent(numericCols[..i], present), col, pValue);
        results := results + [EntryFor(reference, current, col, pValue)];
      }
      i := i + 1;
    }
    assert numericCols[..i] == numericCols;
    return Success(results);
  }
}
