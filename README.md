# Drift monitoring core of the NYC taxi duration pipeline

This project models, in Dafny, the data-drift monitor of the taxi-duration
pipeline (`monitoring_script.py`). The monitor takes a reference month and a
current month of trip records and cleans both the same way: it derives the trip
duration in minutes, keeps trips of 1 to 60 minutes, projects onto an
allow-list of features and drops rows with nulls. Then, for every numeric
reference column that the current frame also has, it computes the two-sample
Kolmogorov–Smirnov statistic, its p-value, a drift flag (`p < 0.05`), both
means and their difference. Finally it builds an HTML report (summary counts,
a guarded drift percentage, one row per feature) and a JSON payload holding
the same records.

Layout, one module per file:

- `wrappers.dfy`: `Option` (a null cell) and `Result` (an operation that raises).
- `frames.dfy`: the data frame. It has a header of `Column(name, numeric)`,
  where the numeric flag stands for pandas' dtype inference. Each row maps
  column names to `Option<real>`. The module also holds the order-preserving
  name filter `KeepPresent`, used both for the allow-list and for the column
  intersection, and `NumericNames` (`select_dtypes`).
- `preprocess.dfy`: the `preprocess` helper nested in `main`.
- `samples.dfy`: sum, mean and "values at most x" counts, and their invariance
  under reordering.
- `kolmogorov_smirnov.dfy`: empirical distribution functions and the statistic D.
- `drift_stats.dfy`: the per-feature record and `calculate_basic_drift_stats`.
- `report.dfy`: the counts, the percentage and the row loop of `generate_html_report`.
- `monitoring.dfy`: the JSON-safe rebuild loop and the whole run of `main`.

Modelling choices:

- Floats are `real`. Timestamps are seconds held as reals, so the duration is
  `(dropoff - pickup) / 60`. A null timestamp gives a null duration. A null
  duration fails both comparisons of the filter, so its row is dropped.
- The p-value of `stats.ks_2samp` is a parameter of type
  `(real, nat, nat) -> Probability`: a function of D and the two sample sizes
  whose only promise is a value in [0, 1]. The statistic D itself is modelled
  exactly. It is the largest absolute difference between the two ECDFs, taken
  over the pooled sample.
- What `stats.ks_2samp` does with an empty sample depends on the scipy
  version. Older scipy raises `ValueError`, which `main` catches like every
  other exception. Newer scipy returns NaN for the statistic and the p-value,
  and the script would then write NaN records. The model makes this an
  explicit failure: `Failure(EmptySample(col))`, where `col` is the first
  column to be compared. Every column of a frame has the same length, so this
  happens exactly when a cleaned frame has no rows.
- A missing timestamp column raises `AttributeError` in pandas. The model
  returns `Failure(MissingColumn(name))`. The dropoff column is checked first,
  because Python evaluates the left operand of the subtraction first.
- Python dictionaries keep insertion order. The drift results and the JSON
  payload are therefore sequences of entries, in the order the loops insert them.
- The report timestamp (`datetime.now()`) is a parameter.

Points where the code's behaviour is easy to misread:

- A column is compared when its reference column is numeric and the current
  frame has a column of that name. The code does not check the current
  column's dtype. `CommonNumericColumns` does the same.
- Results are keyed in the reference frame's column order. After
  preprocessing, this is also the allow-list order, and
  `Monitoring.ComparedFeatures` proves it.
- Two snapshots holding the same values give D = 0 and a mean difference of 0
  (`DriftStats.IdenticalSamples`). The p-value of that case comes from scipy's
  numerics and is left to the p-value parameter.

## Model

| member | source | states |
|---|---|---|
| `Preprocess.DurationMinutes` | monitoring_script.py:118 | the duration is null exactly when a timestamp is null; otherwise 60 times it is dropoff minus pickup |
| `Preprocess.TripRangeInSeconds` | monitoring_script.py:119 | the minute filter [1, 60] is the second filter [60, 3600], both bounds inclusive |
| `Preprocess.WithDuration` | monitoring_script.py:118 | adding the duration column keeps the frame well formed and sets each row's duration cell from its timestamps |
| `Preprocess.WithDurationRow` | monitoring_script.py:118 | a row gains the `duration` cell computed from its timestamps, and every other cell is unchanged |
| `Preprocess.WithDurationColumns` | monitoring_script.py:118 | an existing `duration` column becomes a float column in place; otherwise a float `duration` column is appended. Every other column keeps its name, flag and position, and names stay unique |
| `Preprocess.FilterByDuration` | monitoring_script.py:119 | a row is kept exactly when its duration is present and in [1, 60], and no row is added |
| `Preprocess.FilterByDurationConcat` | monitoring_script.py:119 | the filter keeps input order: filtering a concatenation filters each part |
| `Preprocess.AvailableFeatures` | monitoring_script.py:120-121 | a name is selected exactly when it is in the allow-list and in the frame; the selection has no repeats and is in allow-list order |
| `Preprocess.SelectColumns` | monitoring_script.py:120-122 | the projected header has exactly the requested names, in the requested order |
| `Preprocess.ProjectRow` | monitoring_script.py:122 | a projected row has exactly the feature cells, unchanged |
| `Preprocess.ProjectRows` | monitoring_script.py:122 | one projected row per input row, in order |
| `Preprocess.DropNulls` | monitoring_script.py:122 | a row is kept exactly when none of its features is null, and no row is added |
| `Preprocess.DropNullsConcat` | monitoring_script.py:122 | `dropna` keeps input order: filtering a concatenation filters each part |
| `Preprocess.CleanFrame` | monitoring_script.py:119-122 | the filtered, projected, null-free frame has the available features as its header, each an input column, and no more rows than its input |
| `Preprocess.PreprocessFrame` | monitoring_script.py:116-122 | a missing timestamp raises (dropoff first); otherwise the output columns are the allow-list names present (with `duration`) in allow-list order, the duration column is numeric, the output is well formed and null-free, every duration lies in [1, 60], every output column other than `duration` is an input column with its flag, and there are no more rows than in the input |
| `Preprocess.KeptFrom` | monitoring_script.py:119-122 | the kept indices are ascending, in range, and are exactly the rows whose duration is in range and whose features are non-null |
| `Preprocess.PreprocessRows` | monitoring_script.py:116-122 | the output rows are exactly the projections of the kept input rows, each once and in input order |
| `Frames.Values` | monitoring_script.py:19 | extracting a column gives one value per row, the value of that row's cell |
| `Frames.KeepPresent` | monitoring_script.py:121 | a name is kept exactly when it is listed and present, and the result is never longer than the list |
| `Frames.KeepPresentDistinct` | monitoring_script.py:121 | filtering a list without repeats gives a list without repeats |
| `Frames.KeepPresentTwice` | monitoring_script.py:17 | filtering by one set after another is filtering by their intersection |
| `Frames.KeepPresentSelf` | monitoring_script.py:121 | a filtered list keeps the list's order: it is the list filtered by its own elements |
| `Frames.NumericNames` | monitoring_script.py:14 | every numeric column is listed, and every listed name is a numeric column of the frame |
| `Frames.NumericNamesAsFilter` | monitoring_script.py:14 | with unique names, the numeric columns are the column names, in column order, filtered by the numeric ones |
| `Samples.Mean` | monitoring_script.py:25-27 | `.mean()` of a null-free column is the arithmetic mean; a constant column has that constant as its mean |
| `Samples.Concat` | monitoring_script.py:25-27 | the sum and every at-most count of a concatenation add up over the parts |
| `Samples.PermutationInvariant` | monitoring_script.py:25-27 | the sum and the count of values at most x depend only on the multiset of values |
| `Samples.MeanBounds` | monitoring_script.py:25-26 | the mean of a non-empty sample lies between any lower and any upper bound of its values |
| `KolmogorovSmirnov.Ecdf` | monitoring_script.py:19 | each empirical distribution value lies in [0, 1] |
| `KolmogorovSmirnov.MaxGap` | monitoring_script.py:19 | the maximum is in [0, 1], bounds the gap at every point, and is attained at some point |
| `KolmogorovSmirnov.KsStatistic` | monitoring_script.py:19 | D lies in [0, 1], is at least the ECDF gap at every point of either sample, and equals the gap at one of those points |
| `KolmogorovSmirnov.KsIsSupremum` | monitoring_script.py:19 | D bounds the ECDF gap at every real x, not only at the sample points |
| `KolmogorovSmirnov.KsZeroIff` | monitoring_script.py:19 | D is 0 exactly when the two ECDFs agree everywhere |
| `KolmogorovSmirnov.KsSymmetric` | monitoring_script.py:19 | D does not depend on which sample is the reference |
| `KolmogorovSmirnov.KsOfPermutation` | monitoring_script.py:19 | two samples with the same multiset of values have D = 0 |
| `DriftStats.FeatureDriftOf` | monitoring_script.py:19-28 | the record has D in [0, 1] and p in [0, 1]; the flag holds exactly when p < 0.05; the mean difference is current mean minus reference mean; the means are the samples' arithmetic means |
| `DriftStats.IdenticalSamples` | monitoring_script.py:19-27 | a current sample with the reference's values in any order gives D = 0, mean difference 0, and the record of the reference compared with itself |
| `DriftStats.CommonNumericColumns` | monitoring_script.py:14-17 | a name is compared exactly when it is a numeric reference column and the current frame has it, with no more keys than numeric reference columns |
| `DriftStats.CommonNumericColumnsInOrder` | monitoring_script.py:14-17 | with unique reference names, the keys are the reference column names in reference order, kept exactly when numeric and present in the current frame |
| `DriftStats.CommonNumericColumnsSpec` | monitoring_script.py:14-17 | result keys are unique, and a name is a key exactly when it is a numeric reference column that the current frame has |
| `DriftStats.EntryFor` | monitoring_script.py:19-28 | the entry for a column is keyed by that column; its record is consistent, its D is the statistic of the two columns, and its means are the two columns' means |
| `DriftStats.EntriesFor` | monitoring_script.py:21-28 | one entry per requested column, in order, each that column's record |
| `DriftStats.ExpectedResults` | monitoring_script.py:16-28 | the results have one entry per common numeric column, in reference-column order, each that column's record |
| `DriftStats.CalculateBasicDriftStats` | monitoring_script.py:9-30 | the loop raises exactly when there is a common column and a frame is empty, naming the first common column; otherwise it returns exactly the expected results |
| `Report.DriftCount` | monitoring_script.py:35 | the drifted count never exceeds the number of results |
| `Report.DriftedFeatures` | monitoring_script.py:158-162 | the listed features number at most the results, and each listed feature belongs to a drifted result |
| `Report.DriftedFeaturesSpec` | monitoring_script.py:155-162 | the drifted-feature list has `drift_count` names, and a feature is listed exactly when one of its results drifted |
| `Report.DriftCountExtremes` | monitoring_script.py:35 | the count equals the total exactly when every result drifted, and is 0 exactly when none did |
| `Report.DriftPercentage` | monitoring_script.py:34-36 | the percentage lies in [0, 100], is 0 without features, and otherwise times the total equals 100 times the drifted count |
| `Report.PercentageExtremes` | monitoring_script.py:36 | with at least one feature, the percentage is 100 exactly when all drifted and 0 exactly when none did |
| `Report.RowFor` | monitoring_script.py:40-53 | a row has the DRIFT DETECTED status, the red background and the alarm icon exactly when the flag is set, and NO DRIFT, green and the check mark otherwise; it carries the feature and its five numbers unchanged |
| `Report.FeatureRows` | monitoring_script.py:38-53 | the row loop emits exactly one row per result, in result order |
| `Report.RowsAgreeWithSummary` | monitoring_script.py:34-53 | the table has as many DRIFT DETECTED rows as the summary counts drifted features, and the rest are NO DRIFT |
| `Report.GenerateHtmlReport` | monitoring_script.py:32-102 | the report carries the given timestamp, the total, the drifted count, the percentage and the rows for the results |
| `Monitoring.ToJson` | monitoring_script.py:139-146 | a JSON record has exactly the six field names, and the record is read back from it unchanged |
| `Monitoring.JsonSafeResults` | monitoring_script.py:137-146 | the rebuild has the same features in the same order, each with the six fields decoding to the original record |
| `Monitoring.BuildOutputs` | monitoring_script.py:131-146 | the report and the JSON payload describe the same results |
| `Monitoring.ComparedFeatures` | monitoring_script.py:116-128 | after preprocessing, the compared features always include `duration`, never repeat, and follow the allow-list order |
| `Monitoring.CompareFrames` | monitoring_script.py:128-146 | comparing two cleaned frames raises exactly on an empty sample with a column to compare; otherwise both outputs are built from the expected results, or from no results (the zero-feature report) when a frame is empty and nothing is compared |
| `Monitoring.RunMonitoring` | monitoring_script.py:104-149 | the first error raised (reference preprocessing, current preprocessing, empty sample) aborts the run; otherwise the outputs cover exactly the compared features, including `duration`, and both come from the same results |

## Left out

- Reading the two parquet files, writing `drift_report.html` and `drift_results.json`, console printing and the traceback dump are I/O. The run returns its outputs or its error instead.
- `datetime.now()` in the report header is nondeterministic, so the timestamp is a parameter.
- HTML and CSS template text and the `:.4f`, `:+.4f` and `:.1f` renderings are presentation and float formatting. Each row is a record of its marker strings and the stored numbers, and the report is a record of its summary and rows.
- scipy's p-value computation (exact or asymptotic) is foreign numerics. It is a parameter promised only to lie in [0, 1]. Hence the claim that identical samples give a p-value of 1 is not stated.
- pandas dtype inference is abstracted as the per-column numeric flag. Every column holds reals in the model. The reference column's flag decides whether a column is compared. A current column with a numeric reference column is compared as reals, whatever its own flag. In the source, comparing a non-numeric current column could raise or compare values that are not numbers.
- IEEE floating point (rounding, NaN, infinities) is modelled as exact real arithmetic.
- DriftStats.CalculateBasicDriftStats: fails with `EmptySample` on an empty cleaned frame. Newer scipy returns NaN records there instead, and that NaN output is not modelled.
- DriftStats.CalculateBasicDriftStats: requires null-free frames, because scipy and pandas treat NaN with floating-point semantics the model does not have. Its only caller passes `dropna` output, which `Preprocess.PreprocessFrame` proves null-free.
- Frames.WellFormed is assumed of every input frame: column names are unique and every row has exactly those cells. pandas frames with duplicate column names are not modelled.
- The other files of the repository (training, serving, metrics, download, the frontend, the Evidently report wrapper and the feature processing script) are not part of this model.
