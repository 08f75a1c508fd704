/**
 * The monitoring run in `main`: preprocess both frames, compute the drift
 * results, build the report, and rebuild the results as plain JSON values.
 * Reading parquet files, writing the two output files and printing are I/O
 * and are left to the caller; the p-value function and the report timestamp
 * are parameters.
 */
module Monitoring {
  import opened Wrappers
  import opened Frames
  import opened Preprocess
  import opened DriftStats
  import opened Report

  /** The JSON values `json.dump` receives: plain floats and booleans. */
  datatype JsonValue = JNumber(number: real) | JBool(flag: bool)

  type JsonObject = map<string, JsonValue>

  /** One `json_safe_results[feature] = {...}` item, in insertion order. */
  datatype JsonEntry = JsonEntry(feature: string, fields: JsonObject)

  /** The six keys of every JSON record. */
  const FieldNames: set<string> := {"ks_statistic", "p_value", "drift_detected", "reference_mean", "current_mean", "mean_difference"}

  /** Reads a record back from its JSON object; None when a field is missing or has the wrong kind. */
  function FromJson(o: JsonObject): Option<FeatureDrift>
  {
    if && "ks_statistic" in o && o["ks_statistic"].JNumber?
       && "p_value" in o && o["p_value"].JNumber?
       && "drift_detected" in o && o["drift_detected"].JBool?
       && "reference_mean" in o && o["reference_mean"].JNumber?
       && "current_mean" in o && o["current_mean"].JNumber?
       && "mean_difference" in o && o["mean_difference"].JNumber?
    then Some(FeatureDrift(
           o["ks_statistic"].number,
           o["p_value"].number,
           o["drift_detected"].flag,
           o["reference_mean"].number,
           o["current_mean"].number,
           o["mean_difference"].number))
    else None
  }

  /** The six fields of a record as `float(...)` and `bool(...)` values; the record is recovered from them. */
  function ToJson(r: FeatureDrift): (o: JsonObject)
    ensures o.Keys == FieldNames
    ensures FromJson(o) == Some(r)
  {
    map[
      "ks_statistic" := JNumber(r.ksStatistic),
      "p_value" := JNumber(r.pValue),
      "drift_detected" := JBool(r.driftDetected),
      "reference_mean" := JNumber(r.referenceMean),
      "current_mean" := JNumber(r.currentMean),
      "mean_difference" := JNumber(r.meanDifference)]
  }

  /** The rebuild loop: same features in the same order, each record copied field for field. */
  method JsonSafeResults(results: seq<Entry>) returns (json: seq<JsonEntry>)
    ensures |json| == |results|
    ensures forall i :: 0 <= i < |results| ==>
              && json[i].feature == results[i].feature
              && json[i].fields.Keys == FieldNames
              && FromJson(json[i].fields) == Some(results[i].stats)
  {
    json := [];
    var i := 0;
    while i < |results|
      invariant 0 <= i <= |results|
      invariant |json| == i
      invariant forall k :: 0 <= k < i ==>
                  && json[k].feature == results[k].feature
                  && json[k].fields.Keys == FieldNames
                  && FromJson(json[k].fields) == Some(results[k].stats)
    {
      var e := results[i];
      json := json + [JsonEntry(e.feature, ToJson(e.stats))];
      i := i + 1;
    }
  }

  datatype MonitoringError = PreprocessFailed(cause: PreprocessError) | DriftFailed(drift: DriftError)

  datatype Outputs = Outputs(html: HtmlReport, json: seq<JsonEntry>)

  function JsonFeatures(json: seq<JsonEntry>): seq<string>
  {
    seq(|json|, i requires 0 <= i < |json| => json[i].feature)
  }

  /** The common columns of two frames whose headers are allow-list filters. */
  lemma CommonOfFiltered(reference: Frame, current: Frame, kept: set<string>, present: set<string>)
    requires WellFormed(reference)
    requires Names(reference.columns) == KeepPresent(AllowList, kept)
    requires Names(current.columns) == KeepPresent(AllowList, present)
    requires Duration in present && Duration in NumericNames(reference.columns)
    ensures var common := CommonNumericColumns(reference, current);
            && Duration in common
            && Distinct(common)
            && common == KeepPresent(AllowList, set x | x in common)
  {
    var common := CommonNumericColumns(reference, current);
    CommonNumericColumnsSpec(reference, current);
    NumericNamesAsFilter(reference.columns);
    var numeric := NumericSet(reference.columns);
    var here := NameSet(current.columns);
    assert AllowList[1] == Duration;
    assert Duration in here;
    KeepPresentTwice(AllowList, kept, numeric);
    KeepPresentTwice(AllowList, kept * numeric, here);
    assert common == KeepPresent(AllowList, kept * numeric * here);
    KeepPresentSelf(AllowList, kept * numeric * here);
  }

  /**
   * After preprocessing, the compared features always include the duration,
   * never repeat, and follow the allow-list order.
   */
  lemma ComparedFeatures(referenceRaw: Frame, currentRaw: Frame)
    requires WellFormed(referenceRaw) && HasTimestamps(referenceRaw)
    requires WellFormed(currentRaw) && HasTimestamps(currentRaw)
    ensures var common := CommonNumericColumns(PreprocessFrame(referenceRaw).value, PreprocessFrame(currentRaw).value);
            && Duration in common
            && Distinct(common)
            && common == KeepPresent(AllowList, set x | x in common)
  {
    CommonOfFiltered(PreprocessFrame(referenceRaw).value, PreprocessFrame(currentRaw).value,
                     NameSet(referenceRaw.columns) + {Duration}, NameSet(currentRaw.columns) + {Duration});
  }

  /** Both outputs describe the same results: the report's summary and rows, and the JSON records. */
  ghost predicate BuiltFrom(o: Outputs, results: seq<Entry>, generated: string)
  {
    && o.html.generated == generated
    && o.html.totalFeatures == |results|
    && o.html.driftCount == DriftCount(results)
    && o.html.driftPercentage == DriftPercentage(results)
    && |o.html.rows| == |results| == |o.json|
    && forall i :: 0 <= i < |results| ==>
         && o.html.rows[i] == RowFor(results[i])
         && o.json[i].feature == results[i].feature
         && FromJson(o.json[i].fields) == Some(results[i].stats)
  }

  /** Generating the report, then rebuilding the JSON payload, from one set of results. */
  method BuildOutputs(results: seq<Entry>, generated: string) returns (o: Outputs)
    ensures BuiltFrom(o, results, generated)
    ensures JsonFeatures(o.json) == seq(|results|, i requires 0 <= i < |results| => results[i].feature)
  {
    var html := GenerateHtmlReport(results, generated);
    var json := JsonSafeResults(results);
    o := Outputs(html, json);
  }

  /** Comparing two cleaned frames and building both outputs; an empty sample raises. */
  method CompareFrames(reference: Frame, current: Frame, pValue: PValueFunction, generated: string)
    returns (r: Result<Outputs, DriftError>)
    requires WellFormed(reference) && Complete(reference)
    requires WellFormed(current) && Complete(current)
    ensures var common := CommonNumericColumns(reference, current);
            r.Failure? <==> common != [] && (|reference.rows| == 0 || |current.rows| == 0)
    ensures r.Failure? ==> r.error == EmptySample(CommonNumericColumns(reference, current)[0])
    ensures r.Success? ==> JsonFeatures(r.value.json) == CommonNumericColumns(reference, current)
    ensures r.Success? && |reference.rows| > 0 && |current.rows| > 0 ==>
              BuiltFrom(r.value, ExpectedResults(reference, current, pValue), generated)
    ensures r.Success? && (|reference.rows| == 0 || |current.rows| == 0) ==> BuiltFrom(r.value, [], generated)
  {
    var results := CalculateBasicDriftStats(reference, current, pValue);
    if results.Failure? {
      return Failure(results.error);
    }
    var outputs := BuildOutputs(results.value, generated);
    assert JsonFeatures(outputs.json) == CommonNumericColumns(reference, current);
    r := Success(outputs);
  }

  /** The whole run: the first error raised aborts it, otherwise both outputs are built from the same results. */
  method RunMonitoring(referenceRaw: Frame, currentRaw: Frame, pValue: PValueFunction, generated: string)
    returns (r: Result<Outputs, MonitoringError>)
    requires WellFormed(referenceRaw) && WellFormed(currentRaw)
    ensures PreprocessFrame(referenceRaw).Failure? ==> r == Failure(PreprocessFailed(PreprocessFrame(referenceRaw).error))
    ensures PreprocessFrame(referenceRaw).Success? && PreprocessFrame(currentRaw).Failure? ==>
              r == Failure(PreprocessFailed(PreprocessFrame(currentRaw).error))
    ensures PreprocessFrame(referenceRaw).Success? && PreprocessFrame(currentRaw).Success? ==>
              var reference, current := PreprocessFrame(referenceRaw).value, PreprocessFrame(currentRaw).value;
              && (r.Failure? <==> |reference.rows| == 0 || |current.rows| == 0)
              && (r.Failure? ==> r.error == DriftFailed(EmptySample(CommonNumericColumns(reference, current)[0])))
              && (r.Success? ==>
                    && JsonFeatures(r.value.json) == CommonNumericColumns(reference, current)
                    && Duration in JsonFeatures(r.value.json)
                    && BuiltFrom(r.value, ExpectedResults(reference, current, pValue), generated))
  {
    var reference := PreprocessFrame(referenceRaw);
    if reference.Failure? {
      return Failure(PreprocessFailed(reference.error));
    }
    var current := PreprocessFrame(currentRaw);
    if current.Failure? {
      return Failure(PreprocessFailed(current.error));
    }
    ComparedFeatures(referenceRaw, currentRaw);
    var outcome := CompareFrames(reference.value, current.value, pValue, generated);
    if outcome.Failure? {
      return Failure(DriftFailed(outcome.error));
    }
    r := Success(outcome.value);
  }
}
