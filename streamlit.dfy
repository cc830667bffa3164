/** The Streamlit front end (src/streamlit_test.py): choose the contract text, check the API
    key, and on the analysis button parse the text, run the detector, post-process its results
    and report the toxic clauses with a severity label. */
module Streamlit {
  import opened Wrappers
  import opened Scoring
  import opened Segmenter
  import opened Postprocess
  import opened Fixture

  /** The text offered in the editor: the extracted PDF text when a file was uploaded and the
      extraction gave a non-empty text, the dummy contract otherwise. `extracted` is `None`
      when the extraction raised. */
  function ContractContent(uploaded: bool, extracted: Option<string>): (r: string)
    ensures uploaded && extracted.Some? && extracted.value != "" ==> r == extracted.value
    ensures !uploaded || extracted == None || extracted == Some("") ==> r == DummyContract
  {
    if uploaded && extracted.Some? && extracted.value != "" then extracted.value else DummyContract
  }

  const NoChunksMessage := "분석할 조항을 찾지 못했습니다. 텍스트에 '제N조' 형식이 포함되어 있는지 확인해주세요."
  const FatalErrorPrefix := "분석 중 치명적인 오류 발생: "

  /** How a press of the analysis button ends. `Crashed` is an exception that escapes `main`:
      Streamlit shows its traceback, not one of the page's messages. */
  datatype Outcome =
    | NeedsApiKey
    | Stopped(message: string)
    | Crashed(error: string)
    | Report(clauseCount: nat, results: seq<Processed>, toxicCount: nat)

  /** `os.environ.get("GEMINI_API_KEY")` is set to a non-empty value. */
  predicate HasApiKey(apiKey: Option<string>) {
    apiKey.Some? && apiKey.value != ""
  }

  /** What `main` shows for the text in the editor. `constructionError` is what
      `get_detector(api_key_input)` raised, if anything: it runs outside the `try`, so its
      failure escapes. `detect` is the detector's `detect(chunks, max_concurrent=5)` and
      `suggest` its `generate_easy_suggestion`. */
  function AnalysisOutcome(
    apiKey: Option<string>, text: string, constructionError: Option<string>,
    detect: seq<string> -> Attempt<seq<DetectionResult>>, suggest: DetectionResult -> Attempt<string>): Outcome
  {
    if !HasApiKey(apiKey) then NeedsApiKey
    else
      var chunks := ParseTextToChunks(Some(text));
      if chunks == [] then Stopped(NoChunksMessage)
      else if constructionError.Some? then Crashed(constructionError.value)
      else match detect(chunks)
        case Failed(e) => Stopped(FatalErrorPrefix + e)
        case Ok(raw) => Report(|chunks|, Finalise(raw, suggest), CountToxic(raw))
  }

  /** The analysis as `main` runs it. `detectorCalled` records whether the detector was
      asked for anything. */
  method Analyse(
    apiKey: Option<string>, text: string, constructionError: Option<string>,
    detect: seq<string> -> Attempt<seq<DetectionResult>>, suggest: DetectionResult -> Attempt<string>)
    returns (outcome: Outcome, detectorCalled: bool)
    ensures outcome == AnalysisOutcome(apiKey, text, constructionError, detect, suggest)
    ensures detectorCalled <==>
      HasApiKey(apiKey) && ParseTextToChunks(Some(text)) != [] && constructionError == None
  {
    detectorCalled := false;
    if !HasApiKey(apiKey) {
      outcome := NeedsApiKey;
      return;
    }
    var chunks := ParseTextToChunks(Some(text));
    if chunks == [] {
      outcome := Stopped(NoChunksMessage);
      return;
    }
    if constructionError.Some? {
      outcome := Crashed(constructionError.value);
      return;
    }
    detectorCalled := true;
    var rawResults: seq<DetectionResult>;
    match detect(chunks) {
      case Failed(e) =>
        outcome := Stopped(FatalErrorPrefix + e);
        return;
      case Ok(r) =>
        rawResults := r;
    }
    var processedResults, toxicIndices, announced := PostProcess(rawResults, suggest);
    var toxicCount := |toxicIndices|;
    outcome := Report(|chunks|, processedResults, toxicCount);
  }

  /** A detector is never consulted for a text without article markers long enough to form a
      chunk: the run stops with the parsing message. */
  lemma NoChunksStops(
    apiKey: Option<string>, text: string, constructionError: Option<string>,
    detect: seq<string> -> Attempt<seq<DetectionResult>>, suggest: DetectionResult -> Attempt<string>)
    requires HasApiKey(apiKey) && ParseTextToChunks(Some(text)) == []
    ensures AnalysisOutcome(apiKey, text, constructionError, detect, suggest) == Stopped(NoChunksMessage)
  {
  }

  /** A detector that cannot be built (for instance, a retrieval database fails to load) ends
      the run with the escaping exception, never with the page's fatal-error message, and the
      detector is not asked for anything. */
  lemma ConstructionFailureEscapes(
    apiKey: Option<string>, text: string, e: string,
    detect: seq<string> -> Attempt<seq<DetectionResult>>, suggest: DetectionResult -> Attempt<string>)
    requires HasApiKey(apiKey) && ParseTextToChunks(Some(text)) != []
    ensures AnalysisOutcome(apiKey, text, Some(e), detect, suggest) == Crashed(e)
    ensures forall m :: AnalysisOutcome(apiKey, text, Some(e), detect, suggest) != Stopped(m)
  {
  }

  /** A report numbers every result the detector returned, keeps suggestions for toxic
      results only, and its toxic count is the number of entries the risk tab lists. */
  lemma ReportShape(
    apiKey: Option<string>, text: string, constructionError: Option<string>,
    detect: seq<string> -> Attempt<seq<DetectionResult>>, suggest: DetectionResult -> Attempt<string>)
    requires AnalysisOutcome(apiKey, text, constructionError, detect, suggest).Report?
    ensures var o := AnalysisOutcome(apiKey, text, constructionError, detect, suggest);
            var raw := detect(ParseTextToChunks(Some(text))).value;
            o.clauseCount == |ParseTextToChunks(Some(text))| > 0
            && |o.results| == |raw|
            && (forall i :: 0 <= i < |raw| ==>
                  o.results[i].id == i + 1 && o.results[i].result == raw[i]
                  && (!raw[i].isToxic ==> o.results[i].suggestion == ""))
            && o.toxicCount == |ToxicOnly(o.results)|
  {
    var raw := detect(ParseTextToChunks(Some(text))).value;
    ToxicOnlyOfFinalise(raw, suggest);
  }

  /** `"치명적" if res['risk_score'] >= 9 else "위험"`. */
  function RiskLabel(riskScore: real): (l: string)
    ensures l == "치명적" || l == "위험"
  {
    if riskScore >= 9.0 then "치명적" else "위험"
  }

  /** On whole scores the label singles out the rubric's top band (9..10) and nothing else. */
  lemma RiskLabelIsTopBand(score: int)
    requires 0 <= score <= 10
    ensures RiskLabel(score as real) == "치명적" <==> BandOf(score) == |Rubric| - 1
  {
  }
}
