/** The FastAPI back end (src/fast_api.py): the `.pdf` check of `/upload` and the NDJSON event
    stream of `/analyze`, which reports progress, runs the detector and the post-processing, and
    ends with exactly one terminal record. */
module Stream {
  import opened Wrappers
  import opened Text
  import opened Scoring
  import opened Segmenter
  import opened Postprocess

  // ----- /upload -----

  /** Python's `s.endswith(suffix)`. */
  predicate EndsWith(s: string, suffix: string) {
    |suffix| <= |s| && s[|s| - |suffix|..] == suffix
  }

  datatype UploadResponse =
    | UploadSuccess(filename: string, text: string)
    | HttpError(statusCode: int, detail: string)

  const PdfOnly := "PDF 파일만 업로드 가능합니다."

  /** `upload_pdf`: a name not ending in `.pdf` (compared case-sensitively) is refused with 400
      before anything is read; otherwise the text extraction `extract` decides between success
      and a 500 carrying the exception's text. */
  function Upload(filename: string, extract: Attempt<string>): (r: UploadResponse)
    ensures !EndsWith(filename, ".pdf") ==> r == HttpError(400, PdfOnly)
    ensures EndsWith(filename, ".pdf") && extract.Ok? ==> r == UploadSuccess(filename, extract.value)
    ensures EndsWith(filename, ".pdf") && extract.Failed? ==> r == HttpError(500, extract.error)
  {
    if !EndsWith(filename, ".pdf") then HttpError(400, PdfOnly)
    else match extract
      case Ok(text) => UploadSuccess(filename, text)
      case Failed(e) => HttpError(500, e)
  }

  /** The check is case-sensitive: an upper-case extension is refused whatever the file holds. */
  lemma UpperCaseExtensionRefused(extract: Attempt<string>)
    ensures Upload("contract.PDF", extract) == HttpError(400, PdfOnly)
  {
    assert "contract.PDF"[8..] == ".PDF";
  }

  // ----- /analyze -----

  /** One NDJSON record: `{"status": "progress" | "error", "message": ...}` or
      `{"status": "complete", "results": [...]}`. */
  datatype Event =
    | Progress(message: string)
    | Error(message: string)
    | Complete(results: seq<Processed>)

  predicate IsTerminal(e: Event) {
    !e.Progress?
  }

  const LoadingMessage := "법령, 판례 DB 불러오는 중..."
  const AnalysisErrorPrefix := "분석 단계 오류: "

  function CountMessage(n: nat): string {
    "총 " + NatToString(n) + "개의 조항을 분석 중..."
  }

  function SuggestingMessage(id: nat): string {
    "위험 조항(" + NatToString(id) + ")에 대한 개선안 생성 중..."
  }

  /** Exactly one terminal record, and it is the last one. */
  predicate EndsWithOneTerminal(events: seq<Event>) {
    |events| >= 1 && IsTerminal(events[|events| - 1])
    && forall k :: 0 <= k < |events| - 1 ==> !IsTerminal(events[k])
  }

  /** One progress record per announced id, in the order given. */
  function SuggestingEvents(ids: seq<nat>): (r: seq<Event>)
    ensures |r| == |ids|
    ensures forall k :: 0 <= k < |r| ==> r[k] == Progress(SuggestingMessage(ids[k]))
  {
    seq(|ids|, k requires 0 <= k < |ids| => Progress(SuggestingMessage(ids[k])))
  }

  /** The records `event_stream()` yields for the chunks parsed from the request text.
      `constructionError` is what constructing the detector raised, if anything; `detect` and
      `suggest` are the detector's `detect` and `generate_easy_suggestion`. */
  function StreamEvents(
    chunks: seq<string>, constructionError: Option<string>,
    detect: seq<string> -> Attempt<seq<DetectionResult>>, suggest: DetectionResult -> Attempt<string>): seq<Event>
  {
    if constructionError.Some? then
      [Progress(LoadingMessage), Error(AnalysisErrorPrefix + constructionError.value)]
    else match detect(chunks)
      case Failed(e) => [Progress(LoadingMessage), Progress(CountMessage(|chunks|)), Error(AnalysisErrorPrefix + e)]
      case Ok(raw) =>
        [Progress(LoadingMessage), Progress(CountMessage(|chunks|))]
        + SuggestingEvents(IdsOf(ToxicPositions(raw))) + [Complete(Finalise(raw, suggest))]
  }

  /** Whatever fails, the stream opens with the loading record and ends with exactly one
      terminal record; an error is never followed by `complete`. */
  lemma StreamEndsWithOneTerminal(
    chunks: seq<string>, constructionError: Option<string>,
    detect: seq<string> -> Attempt<seq<DetectionResult>>, suggest: DetectionResult -> Attempt<string>)
    ensures var events := StreamEvents(chunks, constructionError, detect, suggest);
            EndsWithOneTerminal(events) && events[0] == Progress(LoadingMessage)
            && (events[|events| - 1].Error? ==> forall k :: 0 <= k < |events| ==> !events[k].Complete?)
  {
    var events := StreamEvents(chunks, constructionError, detect, suggest);
    if constructionError.None? && detect(chunks).Ok? {
      var raw := detect(chunks).value;
      var mid := SuggestingEvents(IdsOf(ToxicPositions(raw)));
      forall k | 0 <= k < |events| - 1 ensures !IsTerminal(events[k]) {
        if k >= 2 { assert events[k] == mid[k - 2]; }
      }
    }
  }

  /** A failure before post-processing gives exactly one error record carrying the
      exception's text, right after the progress already sent. */
  lemma StreamFailureEvents(
    chunks: seq<string>, constructionError: Option<string>,
    detect: seq<string> -> Attempt<seq<DetectionResult>>, suggest: DetectionResult -> Attempt<string>)
    ensures constructionError.Some? ==>
              StreamEvents(chunks, constructionError, detect, suggest)
                == [Progress(LoadingMessage), Error(AnalysisErrorPrefix + constructionError.value)]
    ensures constructionError.None? && detect(chunks).Failed? ==>
              StreamEvents(chunks, constructionError, detect, suggest)[2..]
                == [Error(AnalysisErrorPrefix + detect(chunks).error)]
  {
  }

  /** On success: one suggestion progress per toxic result, then `complete` carrying every
      result once, numbered by position, with suggestions only for toxic ones. */
  lemma StreamSuccessEvents(
    chunks: seq<string>, detect: seq<string> -> Attempt<seq<DetectionResult>>,
    suggest: DetectionResult -> Attempt<string>)
    requires detect(chunks).Ok?
    ensures var raw := detect(chunks).value;
            var events := StreamEvents(chunks, None, detect, suggest);
            |events| == 3 + CountToxic(raw)
            && events[1] == Progress(CountMessage(|chunks|))
            && events[|events| - 1].Complete?
            && |events[|events| - 1].results| == |raw|
            && (forall i :: 0 <= i < |raw| ==>
                  events[|events| - 1].results[i].result == raw[i]
                  && events[|events| - 1].results[i].id == i + 1
                  && (!raw[i].isToxic ==> events[|events| - 1].results[i].suggestion == ""))
  {
  }

  /** The progress records of the suggestion loop, one per announced id. */
  method AnnounceSuggestions(ids: seq<nat>) returns (events: seq<Event>)
    ensures events == SuggestingEvents(ids)
  {
    events := [];
    for k := 0 to |ids|
      invariant events == SuggestingEvents(ids[..k])
    {
      events := events + [Progress(SuggestingMessage(ids[k]))];
      assert ids[..k + 1] == ids[..k] + [ids[k]];
    }
    assert ids[..|ids|] == ids;
  }

  /** `event_stream()`, returning the records in the order they are yielded. */
  method EventStream(
    text: string, constructionError: Option<string>,
    detect: seq<string> -> Attempt<seq<DetectionResult>>, suggest: DetectionResult -> Attempt<string>)
    returns (events: seq<Event>)
    ensures events == StreamEvents(ParseTextToChunks(Some(text)), constructionError, detect, suggest)
  {
    events := [Progress(LoadingMessage)];
    if constructionError.Some? {
      events := events + [Error(AnalysisErrorPrefix + constructionError.value)];
      return;
    }
    var chunks := ParseTextToChunks(Some(text));
    events := events + [Progress(CountMessage(|chunks|))];
    var rawResults: seq<DetectionResult>;
    match detect(chunks) {
      case Failed(e) =>
        events := events + [Error(AnalysisErrorPrefix + e)];
        return;
      case Ok(r) =>
        rawResults := r;
    }

    var processedResults, toxicIndices, announced := PostProcess(rawResults, suggest);
    var progress := AnnounceSuggestions(announced);
    events := events + progress + [Complete(processedResults)];
  }

  /** The NDJSON body: each record encoded by `encode` (`json.dumps`) and followed by `\n`. */
  function Wire(events: seq<Event>, encode: Event -> string): string {
    if events == [] then "" else encode(events[0]) + "\n" + Wire(events[1..], encode)
  }

  /** The records as the encoder writes them. */
  function Encoded(events: seq<Event>, encode: Event -> string): (r: seq<string>)
    ensures |r| == |events|
    ensures forall k :: 0 <= k < |r| ==> r[k] == encode(events[k])
  {
    if events == [] then [] else [encode(events[0])] + Encoded(events[1..], encode)
  }

  /** Every record is newline-terminated, and since `json.dumps` writes no raw newline,
      splitting the body at `\n` gives back exactly the records, then an empty tail. */
  lemma {:induction false} WireSplitsIntoRecords(events: seq<Event>, encode: Event -> string)
    requires forall e :: '\n' !in encode(e)
    ensures SplitOn(Wire(events, encode), '\n') == Encoded(events, encode) + [""]
  {
    if events != [] {
      WireSplitsIntoRecords(events[1..], encode);
      SplitOnCut(encode(events[0]), Wire(events[1..], encode), '\n');
      assert encode(events[0]) + "\n" + Wire(events[1..], encode)
          == encode(events[0]) + ['\n'] + Wire(events[1..], encode);
    }
  }
}
