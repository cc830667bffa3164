/** `ToxicClauseDetector.detect` (src/toxic_detector.py): build one test case per clause with
    its retrieval context, hand them all to DeepEval's `evaluate` (a parameter here), and turn
    each test result that carries metric data into a detection result. */
module Detector {
  import opened Scoring

  /** `LLMTestCase(input=..., actual_output="평가 대상", retrieval_context=[...])`. */
  datatype TestCase = TestCase(input: string, actualOutput: string, retrievalContext: seq<string>)

  const ActualOutput := "평가 대상"

  /** The first metric's `score` and `reason`. */
  datatype MetricData = MetricData(score: real, reason: string)

  datatype TestResult = TestResult(input: string, metricsData: seq<MetricData>)

  /** The three shapes `detect` distinguishes in what `evaluate` returns: an object with
      `test_results`, a plain list, or anything else. */
  datatype EvalResults =
    | WithTestResults(testResults: seq<TestResult>)
    | PlainList(items: seq<TestResult>)
    | Unrecognised

  function MakeTestCase(clause: string, context: string): TestCase {
    TestCase(clause, ActualOutput, [context])
  }

  /** The test cases built by the first loop, in clause order. */
  function TestCases(clauses: seq<string>, retrieve: string -> string): (r: seq<TestCase>)
    ensures |r| == |clauses|
    ensures forall i :: 0 <= i < |r| ==> r[i] == MakeTestCase(clauses[i], retrieve(clauses[i]))
  {
    if clauses == [] then []
    else TestCases(clauses[..|clauses| - 1], retrieve) + [MakeTestCase(clauses[|clauses| - 1], retrieve(clauses[|clauses| - 1]))]
  }

  /** The list the formatting loop walks; an unrecognised shape gives nothing. */
  function ActualTestResults(e: EvalResults): (r: seq<TestResult>)
    ensures e == Unrecognised ==> r == []
  {
    match e
    case WithTestResults(t) => t
    case PlainList(l) => l
    case Unrecognised => []
  }

  /** The detection result for a test result that has metric data. */
  function FormatOne(tr: TestResult, originalMap: map<string, string>): (r: DetectionResult)
    requires tr.metricsData != []
    ensures r.clause == tr.input && r.reason == tr.metricsData[0].reason
    ensures r.isToxic <==> (0.4 <= tr.metricsData[0].score <= 1.0 || tr.metricsData[0].score >= 4.0)
    ensures r.riskScore == Round1(NormaliseScore(tr.metricsData[0].score))
    ensures r.contextUsed == if tr.input in originalMap then originalMap[tr.input] else ""
  {
    var m := tr.metricsData[0];
    var score := NormaliseScore(m.score);
    ToxicIffRaw(m.score);
    DetectionResult(tr.input, IsToxicScore(score), Round1(score), m.reason, LookupContext(originalMap, tr.input))
  }

  /** The formatting loop as a function of the results seen so far. */
  function FormatResults(trs: seq<TestResult>, originalMap: map<string, string>): seq<DetectionResult> {
    if trs == [] then []
    else
      var init := FormatResults(trs[..|trs| - 1], originalMap);
      var last := trs[|trs| - 1];
      if last.metricsData == [] then init else init + [FormatOne(last, originalMap)]
  }

  /** The test results that `detect` keeps: those with metric data, in order. */
  function WithMetrics(trs: seq<TestResult>): (r: seq<TestResult>)
    ensures |r| <= |trs|
    ensures forall k :: 0 <= k < |r| ==> r[k].metricsData != [] && r[k] in trs
  {
    if trs == [] then []
    else
      var init := WithMetrics(trs[..|trs| - 1]);
      var last := trs[|trs| - 1];
      if last.metricsData == [] then init else init + [last]
  }

  /** Formatting drops exactly the results without metric data and formats the rest one for
      one, in the order `evaluate` returned them. */
  lemma {:induction false} FormatResultsKeepsMetricResults(trs: seq<TestResult>, originalMap: map<string, string>)
    ensures |FormatResults(trs, originalMap)| == |WithMetrics(trs)| <= |trs|
    ensures forall k :: 0 <= k < |WithMetrics(trs)| ==>
              FormatResults(trs, originalMap)[k] == FormatOne(WithMetrics(trs)[k], originalMap)
  {
    if trs != [] {
      FormatResultsKeepsMetricResults(trs[..|trs| - 1], originalMap);
    }
  }

  /** When every test result carries metric data, nothing is dropped. */
  lemma {:induction false} WithMetricsAll(trs: seq<TestResult>)
    requires forall k :: 0 <= k < |trs| ==> trs[k].metricsData != []
    ensures WithMetrics(trs) == trs
  {
    if trs != [] {
      WithMetricsAll(trs[..|trs| - 1]);
      assert trs == trs[..|trs| - 1] + [trs[|trs| - 1]];
    }
  }

  /** The first loop of `detect`: one test case per clause, and the clause-to-context map. */
  method BuildTestCases(clauses: seq<string>, retrieve: string -> string)
    returns (testCases: seq<TestCase>, originalMap: map<string, string>)
    ensures testCases == TestCases(clauses, retrieve)
    ensures originalMap == ContextMap(clauses, retrieve)
  {
    testCases := [];
    originalMap := map[];
    for k := 0 to |clauses|
      invariant testCases == TestCases(clauses[..k], retrieve)
      invariant originalMap == ContextMap(clauses[..k], retrieve)
    {
      var text := clauses[k];
      var retrievedContext := retrieve(text);
      testCases := testCases + [MakeTestCase(text, retrievedContext)];
      originalMap := originalMap[text := retrievedContext];
      assert clauses[..k + 1][..k] == clauses[..k];
    }
    assert clauses[..|clauses|] == clauses;
  }

  /** The second loop of `detect`: skip results without metric data, format the others. */
  method FormatAll(actual: seq<TestResult>, originalMap: map<string, string>)
    returns (results: seq<DetectionResult>)
    ensures results == FormatResults(actual, originalMap)
  {
    results := [];
    for k := 0 to |actual|
      invariant results == FormatResults(actual[..k], originalMap)
    {
      assert actual[..k + 1][..k] == actual[..k];
      var result := actual[k];
      if result.metricsData == [] {
        continue;
      }
      var metricData := result.metricsData[0];
      var clauseText := result.input;
      var riskScore := metricData.score;
      if riskScore <= 1.0 {
        riskScore := riskScore * 10.0;
      }
      var isToxic := riskScore >= 4.0;
      var contextUsed := if clauseText in originalMap then originalMap[clauseText] else "";
      results := results + [DetectionResult(clauseText, isToxic, Round1(riskScore), metricData.reason, contextUsed)];
    }
    assert actual[..|actual|] == actual;
  }

  /** `detect(clause_texts)`: `retrieve` is `_retrieve_context` and `evaluate` is DeepEval's
      parallel evaluation, both as parameters. In the detector `retrieve` is
      `c => Scoring.RetrieveContext(searchLaws, searchPrecedents, noLaws, c)`
      (src/toxic_detector.py:106-113); the contract holds for any `retrieve`. */
  method Detect(clauses: seq<string>, retrieve: string -> string, evaluate: seq<TestCase> -> EvalResults)
    returns (results: seq<DetectionResult>)
    ensures results == FormatResults(
              ActualTestResults(evaluate(TestCases(clauses, retrieve))), ContextMap(clauses, retrieve))
  {
    var testCases, originalMap := BuildTestCases(clauses, retrieve);
    var actual := ActualTestResults(evaluate(testCases));
    results := FormatAll(actual, originalMap);
  }

  /** End to end: when `evaluate` reports every clause it was given, with metric data and in
      the same order, `detect` returns one result per clause, in clause order, each carrying
      that clause's own retrieval context. */
  lemma DetectOnePerClause(
    clauses: seq<string>, retrieve: string -> string, evaluate: seq<TestCase> -> EvalResults)
    requires var trs := ActualTestResults(evaluate(TestCases(clauses, retrieve)));
             |trs| == |clauses| && forall k :: 0 <= k < |trs| ==> trs[k].input == clauses[k] && trs[k].metricsData != []
    ensures var out := FormatResults(ActualTestResults(evaluate(TestCases(clauses, retrieve))), ContextMap(clauses, retrieve));
            |out| == |clauses| &&
            forall k :: 0 <= k < |out| ==> out[k].clause == clauses[k] && out[k].contextUsed == retrieve(clauses[k])
  {
    var trs := ActualTestResults(evaluate(TestCases(clauses, retrieve)));
    var m := ContextMap(clauses, retrieve);
    FormatResultsKeepsMetricResults(trs, m);
    WithMetricsAll(trs);
    forall k | 0 <= k < |trs|
      ensures FormatResults(trs, m)[k].contextUsed == retrieve(clauses[k])
    {
      ContextMapLookup(clauses, retrieve, clauses[k]);
    }
  }
}
