/** The Ollama detector (src/ollama_detctor.py): the adapter's `generate`, which turns every
    failure of the chat call into text, and `ToxicClauseDetectorOllama.detect`, which measures
    the clauses one after another and turns a failed measurement into a safe result instead of
    aborting. */
module Ollama {
  import opened Text
  import opened Scoring

  /** What `ollama.chat(...)['message']['content']` yields: the reply, or the text of whatever
      was raised on the way (a connection error, a missing key). */
  datatype ChatOutcome = Reply(content: string) | ChatFailed(error: string)

  const GenerationErrorPrefix := "Ollama Generation Error: "

  /** `OllamaDeepEvalAdapter.generate(prompt)`: it never raises. */
  function Generate(chat: string -> ChatOutcome, prompt: string): (r: string)
    ensures chat(prompt).Reply? ==> r == chat(prompt).content
    ensures chat(prompt).ChatFailed? ==>
              StartsWith(r, GenerationErrorPrefix) && r[|GenerationErrorPrefix|..] == chat(prompt).error
  {
    match chat(prompt)
    case Reply(content) => content
    case ChatFailed(e) => GenerationErrorPrefix + e
  }

  /** What `self.toxic_metric.measure(test_case)` leaves behind: the metric's score and reason,
      or the text of the exception it raised. */
  datatype Measurement = Measured(score: real, reason: string) | Raised(error: string)

  const MeasureErrorPrefix := "Ollama 모델 출력 오류 (JSON Parsing Failed): "

  /** The result for one clause, given its retrieval context and how measuring it went. */
  function ClauseResult(clause: string, context: string, m: Measurement): (r: DetectionResult)
    ensures r.clause == clause && r.contextUsed == context
    ensures m.Raised? ==> !r.isToxic && r.riskScore == 0.0
                          && StartsWith(r.reason, MeasureErrorPrefix)
                          && r.reason[|MeasureErrorPrefix|..] == m.error
    ensures m.Measured? ==> (r.isToxic <==> (0.4 <= m.score <= 1.0 || m.score >= 4.0))
                            && r.riskScore == Round1(NormaliseScore(m.score)) && r.reason == m.reason
  {
    match m
    case Measured(score, reason) =>
      ToxicIffRaw(score);
      var s := NormaliseScore(score);
      DetectionResult(clause, IsToxicScore(s), Round1(s), reason, context)
    case Raised(e) =>
      Round1OfTenth(0);
      DetectionResult(clause, false, Round1(0.0), MeasureErrorPrefix + e, context)
  }

  /** `detect(clause_texts)` as a function of the clauses processed so far; `measure` judges
      a clause together with its context. */
  function DetectAll(
    clauses: seq<string>, retrieve: string -> string, measure: (string, string) -> Measurement): seq<DetectionResult>
  {
    if clauses == [] then []
    else
      var last := clauses[|clauses| - 1];
      DetectAll(clauses[..|clauses| - 1], retrieve, measure) + [ClauseResult(last, retrieve(last), measure(last, retrieve(last)))]
  }

  /** One result per clause, in clause order; result `i` depends on clause `i` alone, so a
      failure on one clause neither stops nor changes the others. */
  lemma {:induction false} DetectAllPerClause(
    clauses: seq<string>, retrieve: string -> string, measure: (string, string) -> Measurement)
    ensures |DetectAll(clauses, retrieve, measure)| == |clauses|
    ensures forall i :: 0 <= i < |clauses| ==>
              DetectAll(clauses, retrieve, measure)[i]
                == ClauseResult(clauses[i], retrieve(clauses[i]), measure(clauses[i], retrieve(clauses[i])))
  {
    if clauses != [] {
      DetectAllPerClause(clauses[..|clauses| - 1], retrieve, measure);
    }
  }

  /** Detecting a longer list extends the results of its prefix: later clauses never rewrite
      earlier results. */
  lemma {:induction false} DetectAllAppend(
    a: seq<string>, b: seq<string>, retrieve: string -> string, measure: (string, string) -> Measurement)
    ensures DetectAll(a + b, retrieve, measure) == DetectAll(a, retrieve, measure) + DetectAll(b, retrieve, measure)
  {
    if b == [] {
      assert a + b == a;
    } else {
      var init := b[..|b| - 1];
      DetectAllAppend(a, init, retrieve, measure);
      assert (a + b)[..|a + b| - 1] == a + init;
      assert (a + b)[|a + b| - 1] == b[|b| - 1];
    }
  }

  /** `ToxicClauseDetectorOllama.detect(clause_texts, max_concurrent)`: `max_concurrent` is
      accepted and ignored, and the clauses are measured strictly in turn. In the detector
      `retrieve` is `c => Scoring.RetrieveContext(searchLaws, searchPrecedents, noLaws, c)`
      (src/ollama_detctor.py:121-128); the contract holds for any `retrieve`. */
  method Detect(
    clauses: seq<string>, maxConcurrent: int,
    retrieve: string -> string, measure: (string, string) -> Measurement)
    returns (results: seq<DetectionResult>)
    ensures results == DetectAll(clauses, retrieve, measure)
  {
    results := [];
    var originalMap: map<string, string> := map[];
    for i := 0 to |clauses|
      invariant results == DetectAll(clauses[..i], retrieve, measure)
      invariant originalMap == ContextMap(clauses[..i], retrieve)
    {
      assert clauses[..i + 1][..i] == clauses[..i];
      var text := clauses[i];
      var retrievedContext := retrieve(text);
      originalMap := originalMap[text := retrievedContext];
      var riskScore: real;
      var isToxic: bool;
      var metricReason: string;
      match measure(text, retrievedContext) {
        case Measured(metricScore, reason) =>
          metricReason := reason;
          riskScore := metricScore;
          if riskScore <= 1.0 {
            riskScore := riskScore * 10.0;
          }
          isToxic := riskScore >= 4.0;
        case Raised(e) =>
          riskScore := 0.0;
          isToxic := false;
          metricReason := MeasureErrorPrefix + e;
      }
      var res := DetectionResult(text, isToxic, Round1(riskScore), metricReason, retrievedContext);
      assert res == ClauseResult(text, retrievedContext, measure(text, retrievedContext));
      results := results + [res];
    }
    assert clauses[..|clauses|] == clauses;
  }

  /** `generate_easy_suggestion`: the safe message for a non-toxic result, otherwise the
      adapter's answer to the prompt built from the result. */
  function EasySuggestionOllama(
    res: DetectionResult, chat: string -> ChatOutcome, prompt: DetectionResult -> string): (s: string)
    ensures !res.isToxic ==> s == SafeMessage
    ensures res.isToxic ==> s == Generate(chat, prompt(res))
    ensures res.isToxic && chat(prompt(res)).ChatFailed? ==>
              StartsWith(s, GenerationErrorPrefix)
  {
    EasySuggestion(res, r => Generate(chat, prompt(r)))
  }
}
