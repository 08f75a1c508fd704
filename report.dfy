/**
 * The arithmetic and row structure of `generate_html_report`: total and
 * drifted feature counts, the guarded drift percentage, and one table row
 * per result with a marker chosen by the drift flag. HTML text, CSS and
 * number formatting are presentation and are not modelled.
 */
module Report {
  import opened DriftStats

  /** `sum(1 for result in drift_results.values() if result['drift_detected'])`. */
  function DriftCount(results: seq<Entry>): (n: nat)
    ensures n <= |results|
  {
    if results == [] then 0
    else (if results[0].stats.driftDetected then 1 else 0) + DriftCount(results[1..])
  }

  /** The features whose flag is set, in result order (the list `main` prints). */
  function DriftedFeatures(results: seq<Entry>): (r: seq<string>)
    ensures |r| <= |results|
    ensures forall x :: x in r ==> exists i :: 0 <= i < |results| && results[i].feature == x && results[i].stats.driftDetected
  {
    if results == [] then []
    else (if results[0].stats.driftDetected then [results[0].feature] else []) + DriftedFeatures(results[1..])
  }

  /** The count is the number of drifted features, and a feature is listed exactly when some result for it drifted. */
  lemma {:induction false} DriftedFeaturesSpec(results: seq<Entry>)
    ensures |DriftedFeatures(results)| == DriftCount(results)
    ensures forall f :: f in DriftedFeatures(results)
              <==> exists i :: 0 <= i < |results| && results[i].feature == f && results[i].stats.driftDetected
  {
    if results != [] {
      DriftedFeaturesSpec(results[1..]);
      assert forall i :: 1 <= i < |results| ==> results[i] == results[1..][i - 1];
    }
  }

  /** All results drifted exactly when the count is the total; none drifted exactly when it is 0. */
  lemma {:induction false} DriftCountExtremes(results: seq<Entry>)
    ensures DriftCount(results) == |results| <==> forall i :: 0 <= i < |results| ==> results[i].stats.driftDetected
    ensures DriftCount(results) == 0 <==> forall i :: 0 <= i < |results| ==> !results[i].stats.driftDetected
  {
    if results != [] {
      DriftCountExtremes(results[1..]);
      assert forall i :: 1 <= i < |results| ==> results[i] == results[1..][i - 1];
    }
  }

  /** `drift_count / total_features * 100`, or 0 when there are no features. */
  function DriftPercentage(results: seq<Entry>): (p: real)
    ensures 0.0 <= p <= 100.0
    ensures |results| == 0 ==> p == 0.0
    ensures |results| > 0 ==> p * |results| as real == 100.0 * DriftCount(results) as real
  {
    var total := |results|;
    if total > 0 then DriftCount(results) as real / total as real * 100.0 else 0.0
  }

  /** With at least one feature, the rate is 100 exactly when all drifted and 0 exactly when none did. */
  lemma PercentageExtremes(results: seq<Entry>)
    requires |results| > 0
    ensures DriftPercentage(results) == 100.0 <==> forall i :: 0 <= i < |results| ==> results[i].stats.driftDetected
    ensures DriftPercentage(results) == 0.0 <==> forall i :: 0 <= i < |results| ==> !results[i].stats.driftDetected
  {
    DriftCountExtremes(results);
    var n := |results| as real;
    var c := DriftCount(results) as real;
    var p := DriftPercentage(results);
    assert p * n == 100.0 * c;
    assert (p - 100.0) * n == 100.0 * (c - n);
    if p == 100.0 {
      assert c == n;
    }
    if c == n {
      assert (p - 100.0) * n == 0.0;
    }
    if c == 0.0 {
      assert p * n == 0.0;
    }
  }

  const DriftStatus: string := "DRIFT DETECTED"
  const NoDriftStatus: string := "NO DRIFT"
  const DriftBackground: string := "#ffe6e6"
  const NoDriftBackground: string := "#e6ffe6"
  const DriftIcon: string := "\U{1F6A8}"
  const NoDriftIcon: string := "\U{2705}"

  /** One `<tr>` of the feature table; the numbers are the stored values, before formatting. */
  datatype ReportRow = ReportRow(
    icon: string,
    feature: string,
    status: string,
    background: string,
    ksStatistic: real,
    pValue: real,
    referenceMean: real,
    currentMean: real,
    meanDifference: real)

  /** The row for one result: the marker follows the flag, the numbers are the record's. */
  function RowFor(e: Entry): (row: ReportRow)
    ensures row.status == DriftStatus <==> e.stats.driftDetected
    ensures row.status == NoDriftStatus <==> !e.stats.driftDetected
    ensures row.feature == e.feature
    ensures row.ksStatistic == e.stats.ksStatistic && row.pValue == e.stats.pValue
    ensures row.referenceMean == e.stats.referenceMean && row.currentMean == e.stats.currentMean
    ensures row.meanDifference == e.stats.meanDifference
    ensures row.icon == DriftIcon <==> e.stats.driftDetected
    ensures row.background == DriftBackground <==> e.stats.driftDetected
    ensures row.icon == NoDriftIcon <==> !e.stats.driftDetected
    ensures row.background == NoDriftBackground <==> !e.stats.driftDetected
  {
    var drift := e.stats.driftDetected;
    ReportRow(
      if drift then DriftIcon else NoDriftIcon,
      e.feature,
      if drift then DriftStatus else NoDriftStatus,
      if drift then DriftBackground else NoDriftBackground,
      e.stats.ksStatistic, e.stats.pValue, e.stats.referenceMean, e.stats.currentMean, e.stats.meanDifference)
  }

  /** The `feature_rows += ...` loop: one row per result, in result order. */
  method FeatureRows(results: seq<Entry>) returns (rows: seq<ReportRow>)
    ensures |rows| == |results|
    ensures forall i :: 0 <= i < |results| ==> rows[i] == RowFor(results[i])
  {
    rows := [];
    for i := 0 to |results|
      invariant |rows| == i
      invariant forall k :: 0 <= k < i ==> rows[k] == RowFor(results[k])
    {
      rows := rows + [RowFor(results[i])];
    }
  }

  function CountStatus(rows: seq<ReportRow>, status: string): nat
  {
    if rows == [] then 0
    else (if rows[0].status == status then 1 else 0) + CountStatus(rows[1..], status)
  }

  /** The table shows as many DRIFT DETECTED rows as the summary counts drifted features. */
  lemma {:induction false} RowsAgreeWithSummary(results: seq<Entry>, rows: seq<ReportRow>)
    requires |rows| == |results|
    requires forall i :: 0 <= i < |results| ==> rows[i] == RowFor(results[i])
    ensures CountStatus(rows, DriftStatus) == DriftCount(results)
    ensures CountStatus(rows, NoDriftStatus) == |results| - DriftCount(results)
  {
    if results != [] {
      RowsAgreeWithSummary(results[1..], rows[1..]);
    }
  }

  datatype HtmlReport = HtmlReport(
    generated: string,
    totalFeatures: nat,
    driftCount: nat,
    driftPercentage: real,
    rows: seq<ReportRow>)

  /**
   * The report for the results; `generated` stands for the
   * `datetime.now()` header timestamp, which is passed in.
   */
  method GenerateHtmlReport(results: seq<Entry>, generated: string) returns (report: HtmlReport)
    ensures report.generated == generated
    ensures report.totalFeatures == |results|
    ensures report.driftCount == DriftCount(results) <= report.totalFeatures
    ensures report.driftPercentage == DriftPercentage(results)
    ensures |report.rows| == |results|
    ensures forall i :: 0 <= i < |results| ==> report.rows[i] == RowFor(results[i])
  {
    var total := |results|;
    var count := DriftCount(results);
    var percentage := DriftPercentage(results);
    var rows := FeatureRows(results);
    report := HtmlReport(generated, total, count, percentage, rows);
  }
}
