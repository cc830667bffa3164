# SafeSign in Dafny

SafeSign reviews Korean employment contracts for toxic clauses. A contract's text is cut into
articles (`제N조`). Each article is scored by an LLM-judged metric against retrieved statutes
and precedents. The scores are normalised to a 0–10 risk score, and toxic articles get an
easy-to-read suggestion. Progress and the results reach the browser as a newline-delimited JSON
stream, which the React page frames, dispatches and renders. Three offline pieces feed retrieval:
- a collector that pages through the Ministry of Employment and Labor's interpretations and cleans each page;
- the nearest-neighbour lookup over the resulting index;
- the precedent store built from a court-decision dataset.

This project models that core and proves properties of the model. Every foreign call is a
function parameter of the member that makes it: the LLMs, DeepEval's `evaluate`, the embedding
models, FAISS, HTTP, BeautifulSoup and JSON encoding and decoding.

| file | module | models |
|---|---|---|
| `wrappers.dfy` | `Wrappers` | `Option`, and `Attempt` for a value or a raised error |
| `text.dfy` | `Text` | Python's `str.strip`, `find`, `in`, `split('\n')`, `'\n'.join` and decimal formatting |
| `segmenter.dfy` | `Segmenter` | `parse_text_to_chunks` (identical in `fast_api.py` and `streamlit_test.py`) |
| `scoring.dfy` | `Scoring` | context assembly, score normalisation, `round(x, 1)`, the rubric, the easy suggestion |
| `detector.dfy` | `Detector` | `ToxicClauseDetector.detect` (DeepEval batch evaluation) |
| `ollama.dfy` | `Ollama` | the Ollama detector: per-clause measurement with error fallback |
| `postprocess.dfy` | `Postprocess` | id numbering, toxic indices and the suggestion loop shared by the API and the Streamlit page |
| `stream.dfy` | `Stream` | `/upload` and the `/analyze` event stream |
| `streamlit.dfy` | `Streamlit` | the Streamlit page's analysis flow and report |
| `fixture.dfy` | `Fixture` | the Streamlit page's sample contract and what the parser makes of it |
| `frontend.dfy` | `Frontend` | `App.jsx`: stream framing and dispatch, highlighting, the page state |
| `mock.dfy` | `Mock` | the mock pipeline in `main.py` |
| `ingestion.dfy` | `Ingestion` | `clean_detail_content`, paging in `fetch_and_process_all_data`, the metadata map, `fetch_single_item` |
| `lawsearch.dfy` | `LawSearch` | `rag_search` |
| `precedent.dfy` | `Precedent` | `PrecedentContextManager` |

Code that loops in the source is a `method` with a loop, proved equal to a specification function:
- `AssignIds`, `FillSuggestions`, `EventStream`;
- `DispatchLines`, `AnalyzeTextStream`;
- `FilterLines`, `FetchAndProcessAllData`, `RagSearch`, `CreateDatabase`.

The properties are then proved about those functions. The React component's state is the class
`Frontend.Dashboard`, and `PrecedentContextManager` is a class whose `vectorstore` field its
methods update.

## Model

| member | source | states |
|---|---|---|
| Text.Strip | src/fast_api.py:58 | `str.strip()`: the result has no surrounding whitespace and is no longer than the input |
| Text.StripSlice | src/fast_api.py:58 | the stripped text is a contiguous slice of the input with only whitespace cut on either side |
| Text.StripAround | src/law/precedent_context.py:54-59 | stripping whitespace-only framing off an already stripped text gives that text back |
| Text.Find | src/parser/lawProcessing.py:65-66 | `str.find`: the first occurrence, and -1 exactly when the substring is absent |
| Text.JoinSplitOn | src/parser/lawProcessing.py:84 | joining the pieces of `split(c)` with `c` restores the text |
| Text.SplitOnJoin | src/toxic_detector.py:108 | splitting a `c`-join of pieces free of `c` gives the pieces back |
| Text.SplitFrames | frontend/src/App.jsx:60-62 | a buffer is its complete lines, each newline-terminated, followed by the newline-free remainder |
| Text.NatToStringValue | src/fast_api.py:72 | the decimal rendering of a count reads back as that count |
| Segmenter.SkipSpaces | src/fast_api.py:55 | `\s*`: advances exactly over the maximal run of whitespace |
| Segmenter.SkipDigits | src/fast_api.py:55 | `\d+` scanning: advances exactly over the maximal run of digits |
| Segmenter.ArticleHeadIsPattern | src/fast_api.py:55 | the hand-written matcher accepts at a position exactly when `\n\s*제\s*\d+\s*조` matches there (both directions) |
| Segmenter.ArticleHeadSound | src/fast_api.py:55 | every accepted position decomposes into newline, spaces, 제, spaces, digits, spaces, 조 |
| Segmenter.ArticleHeadComplete | src/fast_api.py:55 | every such decomposition is accepted |
| Segmenter.RawSplitCutsAtBoundaries | src/fast_api.py:56 | `re.split` with the lookahead cuts exactly at article boundaries; a boundary at 0 yields a leading empty piece |
| Segmenter.RawSplitLossless | src/fast_api.py:56 | the pieces concatenate back to the text, and every piece after the first starts with a newline |
| Segmenter.CleanChunksShape | src/fast_api.py:58 | kept chunks are stripped, longer than 10 characters, and no more numerous than the pieces |
| Segmenter.CleanChunksFromPieces | src/fast_api.py:58 | every chunk is the strip of some piece |
| Segmenter.CleanChunksAppend | src/fast_api.py:58 | filtering distributes over concatenation, so chunk order follows piece order |
| Segmenter.ParseTextToChunks | src/fast_api.py:51-59 | no text or empty text gives no chunks |
| Segmenter.ChunksAreCleanPieces | src/fast_api.py:51-59 | each chunk of a non-empty text is a stripped piece of the split, longer than 10 characters |
| Segmenter.NoMarkerOneChunk | src/streamlit_test.py:63-71 | a text with no article head gives its whole stripped self if longer than 10 characters, else nothing |
| Segmenter.BoundaryIsMarkerCut | src/fast_api.py:55-56 | the lookahead split never cuts at a character other than a newline, nor before a character that is neither whitespace nor `제`, nor at the text's last character; it always cuts at a newline followed by `제<digit>조`, and at the first of two newlines followed by it |
| Segmenter.DocumentSplit | src/fast_api.py:56 | a text of articles, each set off by newlines with blank lines between, splits at any such cut rule into an empty piece and then, per article, the newline-led article and a lone newline |
| Segmenter.ArticlePiecesChunks | src/fast_api.py:58 | stripping and filtering those pieces gives back exactly the articles |
| Segmenter.DocumentChunks | src/fast_api.py:51-59 | a text of well-formed articles (head `제<digit>조`, longer than 10 characters, no line inside starting with a space or `제`) parses into exactly those articles, in order |
| Fixture.ArticleWordsText | src/streamlit_test.py:38-61 | an article written as a `제N조` head line and body lines of words meeting the shape conditions is a well-formed article opening with `제N조` |
| Fixture.NumberedDocumentChunks | src/streamlit_test.py:63-71 | a document of such articles numbered from one parses into exactly those articles, the k-th opening with `제k조` |
| Fixture.DummyContractSevenArticles | src/streamlit_test.py:36-61 | the sample contract parses into exactly its seven articles, in order, the k-th opening with `제k조` |
| Scoring.LawSection | src/toxic_detector.py:107-108 | no law hits give the sentinel sentence; one hit is passed through |
| Scoring.LawSectionRecoversHits | src/toxic_detector.py:108 | the newline-joined law section splits back into exactly the hits |
| Scoring.PrecedentSection | src/toxic_detector.py:110-111 | the first precedent hit, or the no-precedent sentence |
| Scoring.HeadersInOrder | src/toxic_detector.py:113 | the context starts with the law header, and the precedent header follows the law text after a blank line |
| Scoring.RetrieveContext | src/toxic_detector.py:106-113 | when a search finds nothing, its sentinel sentence sits right under its header |
| Scoring.ToxicIffRaw | src/toxic_detector.py:168-172 | a clause is toxic exactly when the raw metric score is in [0.4, 1.0] or at least 4.0 |
| Scoring.NormaliseRange | src/toxic_detector.py:168-170 | a raw score in [0, 10] normalises into [0, 10] |
| Scoring.NormaliseNotMonotone | src/toxic_detector.py:168-170 | normalisation is not monotone: raw 1.0 outranks raw 1.5 |
| Scoring.Round1 | src/toxic_detector.py:177 | `round(x, 1)` yields a multiple of 0.1 within 0.05 of `x` |
| Scoring.Round1OfTenth | src/toxic_detector.py:177 | rounding leaves multiples of 0.1 unchanged |
| Scoring.ToxicShownAtLeastThreshold | src/toxic_detector.py:172-177 | a toxic clause never shows a rounded score below 4.0 |
| Scoring.RoundedScoreDisagrees | src/toxic_detector.py:172-177 | raw 0.396 is not toxic yet is shown as 4.0, the toxic threshold |
| Scoring.BandOf | src/toxic_detector.py:79-84 | every integer score 0–10 falls in exactly one rubric band |
| Scoring.RubricContiguous | src/toxic_detector.py:79-84 | the rubric bands cover 0–10 without gaps or overlaps |
| Scoring.EasySuggestion | src/toxic_detector.py:184-200 | a safe clause gets the fixed safe message; a toxic one gets exactly the model's answer to the prompt built from the result |
| Scoring.SafeNeedsNoModel | src/toxic_detector.py:185-186 | for a safe clause the suggestion does not depend on the model at all |
| Scoring.ContextMapLookup | src/toxic_detector.py:123-134 | `original_map` has exactly the clauses as keys, each mapped to its retrieved context |
| Detector.TestCases | src/toxic_detector.py:126-133 | one test case per clause, in order, carrying the clause and its retrieved context |
| Detector.ActualTestResults | src/toxic_detector.py:146-153 | an unrecognised evaluation result yields no test results |
| Detector.FormatOne | src/toxic_detector.py:163-180 | a result keeps the clause and reason, is toxic by the normalised threshold, shows the rounded score, and carries the mapped context or "" |
| Detector.WithMetrics | src/toxic_detector.py:159-160 | results without metric data are dropped, and the survivors come from the input |
| Detector.FormatResultsKeepsMetricResults | src/toxic_detector.py:155-180 | exactly the results with metric data are formatted, in order, each by the per-result rule |
| Detector.WithMetricsAll | src/toxic_detector.py:159-160 | when every result has metric data, none is dropped |
| Detector.BuildTestCases | src/toxic_detector.py:122-134 | the loop builds the test cases and `original_map` |
| Detector.FormatAll | src/toxic_detector.py:155-182 | the formatting loop computes the formatted results |
| Detector.Detect | src/toxic_detector.py:116-182 | `detect` formats what evaluation returns for the built test cases |
| Detector.DetectOnePerClause | src/toxic_detector.py:116-182 | when evaluation returns one metric-bearing result per clause in order, `detect` returns one result per clause with that clause's context |
| Ollama.Generate | src/ollama_detctor.py:33-50 | the model's reply, or an error text when the call fails |
| Ollama.ClauseResult | src/ollama_detctor.py:157-185 | a failed measurement gives a safe result with score 0; a measured one is toxic by the normalised threshold |
| Ollama.DetectAllPerClause | src/ollama_detctor.py:132-188 | one result per clause, in order, each from that clause's context and measurement |
| Ollama.DetectAllAppend | src/ollama_detctor.py:142-188 | clauses are judged independently: results of a concatenation are the concatenated results |
| Ollama.Detect | src/ollama_detctor.py:132-188 | the loop computes the per-clause results |
| Ollama.EasySuggestionOllama | src/ollama_detctor.py:190-206 | safe clauses get the safe message; a toxic clause gets exactly the adapter's answer to its prompt, which is the error text when the model call fails |
| Postprocess.CountToxic | src/fast_api.py:84-85 | the number of toxic results is at most the number of results |
| Postprocess.ToxicPositions | src/fast_api.py:84-85 | `toxic_indices` has one valid index per toxic result |
| Postprocess.ToxicPositionsExact | src/fast_api.py:78-85 | `toxic_indices` is strictly ascending and holds exactly the indices of toxic results |
| Postprocess.AssignIds | src/fast_api.py:75-85 | the loop numbers results from 1 with empty suggestions and collects the toxic indices |
| Postprocess.SuggestionText | src/fast_api.py:99-103 | a failed suggestion becomes the fixed failure text |
| Postprocess.FillSuggestions | src/fast_api.py:91-103 | the loop fills in each toxic result's suggestion and announces each toxic id in order |
| Postprocess.PostProcess | src/fast_api.py:75-103 | the whole post-processing: numbered results with suggestions, the toxic indices and the announced ids |
| Postprocess.ToxicOnly | frontend/src/App.jsx:207-212 | the toxic results keep their order and lose nothing toxic |
| Postprocess.ToxicOnlyAppend | frontend/src/App.jsx:207-212 | filtering distributes over concatenation |
| Postprocess.ToxicOnlyOfFinalise | src/streamlit_test.py:202 | after post-processing, the toxic results number exactly the toxic raw results |
| Stream.Upload | src/fast_api.py:31-48 | a non-`.pdf` name is refused with 400; otherwise 200 with name and text, or 500 with the error |
| Stream.UpperCaseExtensionRefused | src/fast_api.py:33-34 | `contract.PDF` is refused: the extension test is case-sensitive |
| Stream.SuggestingEvents | src/fast_api.py:92-93 | one progress event per toxic id, in order |
| Stream.StreamEndsWithOneTerminal | src/fast_api.py:67-110 | every stream ends with exactly one complete or error event, and nothing before it is terminal |
| Stream.StreamFailureEvents | src/fast_api.py:68-88 | a construction failure gives loading then error; a detection failure gives loading, count, error |
| Stream.StreamSuccessEvents | src/fast_api.py:69-106 | a successful run gives loading, count, one announcement per toxic id, then complete with the post-processed results |
| Stream.AnnounceSuggestions | src/fast_api.py:91-93 | the loop emits the announcement events |
| Stream.EventStream | src/fast_api.py:67-110 | the generator emits the event sequence of the specification |
| Stream.Encoded | src/fast_api.py:69-109 | one record per event, each the event's JSON |
| Stream.WireSplitsIntoRecords | src/fast_api.py:69-109 | splitting the wire text on newlines gives back the records and one trailing empty piece |
| Streamlit.ContractContent | src/streamlit_test.py:101-113 | the extracted PDF text when there is some, else the dummy contract |
| Streamlit.Analyse | src/streamlit_test.py:119-202 | the page's outcome, and the detector is called exactly when a key is set, chunks exist and the detector could be built |
| Streamlit.ConstructionFailureEscapes | src/streamlit_test.py:134-139 | a detector that cannot be built ends the run with the escaping exception, not the fatal-error message |
| Streamlit.NoChunksStops | src/streamlit_test.py:129-131 | no chunks stops the page with the no-article message |
| Streamlit.ReportShape | src/streamlit_test.py:158-202 | a report lists the post-processed results and counts exactly the toxic ones |
| Streamlit.RiskLabel | src/streamlit_test.py:218 | the label is "치명적" or "위험" |
| Streamlit.RiskLabelIsTopBand | src/streamlit_test.py:218 | an integer score is labelled "치명적" exactly when it is in the top rubric band |
| Mock.MockRetriever | main.py:35-42 | the fixed law and precedent placeholders |
| Mock.MockEvaluator | main.py:45-63 | toxic exactly when the clause mentions 포괄임금 or 손해배상, with the fixed toxic or safe verdict |
| Mock.MockGenerator | main.py:66-72 | the toxic or the safe explanation, by the verdict |
| Mock.MockResults | main.py:119-136 | one result per chunk |
| Mock.AnalyzeAll | main.py:119-136 | the loop builds the per-chunk results |
| Mock.ToxicCount | main.py:149 | the toxic count is at most the number of results |
| Mock.MockResultsFaithful | main.py:119-136 | result `i` has id `i+1`, its clause, and the evaluator's and generator's answers for it |
| Mock.SafeClausesNameNoKeyword | main.py:28-30 | articles 1 and 3 mention neither keyword |
| Mock.ToxicClausesNameKeyword | main.py:29-31 | article 2 mentions 포괄임금 and article 4 mentions 손해배상 |
| Mock.MockPipelineFlagsTwo | main.py:22-32 | on the mock contract exactly articles 2 and 4 are toxic, and the count is 2 |
| Frontend.JsTrim | frontend/src/App.jsx:65 | `String.prototype.trim`: no JavaScript whitespace at either end |
| Frontend.BlankIffAllJsSpace | frontend/src/App.jsx:65 | a line is skipped as blank exactly when it is all JavaScript whitespace |
| Frontend.Handle | frontend/src/App.jsx:64-78 | blank lines are skipped; a finish needs a complete record and a report a progress record |
| Frontend.ErrorRecordSwallowed | frontend/src/App.jsx:73-77 | an error record, or a line that fails to parse, is swallowed by the `catch` and skipped |
| Frontend.RecordDispatched | frontend/src/App.jsx:69-72 | a progress record reports its fields; a complete record finishes with its results |
| Frontend.NothingAfterComplete | frontend/src/App.jsx:71-72 | after a complete record, later lines change nothing |
| Frontend.ConsumeWithoutComplete | frontend/src/App.jsx:64-79 | lines without a complete record report every progress record and leave the stream open |
| Frontend.ConsumeFirstComplete | frontend/src/App.jsx:64-79 | the first complete record ends the run with its results after the progress reports before it |
| Frontend.DispatchLines | frontend/src/App.jsx:64-79 | the inner loop computes the dispatch of the lines |
| Frontend.RejectionMessage | frontend/src/App.jsx:47-50 | a rejected request throws its `detail`, or the fallback when it is missing or empty |
| Frontend.ReadFraming | frontend/src/App.jsx:60-62 | each read moves exactly the complete lines out of the buffer and keeps the partial line |
| Frontend.ReadChunk | frontend/src/App.jsx:57-79 | one read: the complete lines, the new buffer, and their dispatch |
| Frontend.AnalyzeTextStream | frontend/src/App.jsx:39-85 | the reader loop computes the specified run, whatever the chunking |
| Frontend.PartialLineNeverParsed | frontend/src/App.jsx:56-62 | text after the last newline is never parsed, even at the end of the stream |
| Frontend.ConsumeEncoded | frontend/src/App.jsx:64-79 | over a decode that inverts the encoder, the records dispatch as the events they encode |
| Frontend.WireRead | frontend/src/App.jsx:56-79 | however the wire text is chunked, the page sees the events the back end sent |
| Frontend.SeenConstructionError | frontend/src/App.jsx:69-75 | a construction failure shows one report and returns nothing |
| Frontend.SeenDetectFailure | frontend/src/App.jsx:69-75 | a detection failure shows two reports and returns nothing |
| Frontend.SeenSuccess | frontend/src/App.jsx:69-72 | a successful back-end run shows every progress event and returns its results |
| Frontend.FrontendOnBackendStream | src/fast_api.py:67-110 | end to end: the page's run is determined by the back end's event stream |
| Frontend.HighlightFor | frontend/src/App.jsx:326-336 | safe lines are plain; a toxic line is red when the score is missing, zero or above 0.8, yellow otherwise |
| Frontend.MatchIndex | frontend/src/App.jsx:321-324 | `find`: the first matching result |
| Frontend.MatchedResult | frontend/src/App.jsx:321-324 | no match exactly when no result matches the line |
| Frontend.BackendToxicAlwaysRed | frontend/src/App.jsx:333 | with back-end results, which have no `score` field, no line is ever yellow |
| Frontend.ClauseHeadMatches | frontend/src/App.jsx:322 | a line starting with a clause's trimmed first 15 characters finds a result |
| Frontend.Toggled | frontend/src/App.jsx:175 | toggling closes the open card and opens any other |
| Frontend.ToggleTwice | frontend/src/App.jsx:175 | toggling the same card twice reopens it, or closes it if another was open |
| Frontend.ClampedWidth | frontend/src/App.jsx:189-192 | the width is at most half the window and at least 350 when the window allows it |
| Frontend.ShownProgress | frontend/src/App.jsx:149-156 | the last progress report, or the preparing status |
| Frontend.ProgressCountsUndefined | frontend/src/App.jsx:265-271 | back-end progress records carry no counts, so the page never shows a current or total |
| Frontend.AnalysisStateAsWritten | frontend/src/App.jsx:160-164 | as written, any returned value becomes the list and switches to the results |
| Frontend.BackendErrorLeavesNoList | frontend/src/App.jsx:160-161 | a back-end error leaves the page on the results step with an undefined list |
| Frontend.Dashboard.constructor | frontend/src/App.jsx:95-112 | the initial state |
| Frontend.Dashboard.FilteredResults | frontend/src/App.jsx:207-210 | the toxic results when filtered, all otherwise |
| Frontend.Dashboard.ToxicCount | frontend/src/App.jsx:212 | the number of toxic results |
| Frontend.Dashboard.ToggleExpand | frontend/src/App.jsx:171-175 | updates only the expanded card |
| Frontend.Dashboard.SetResizing | frontend/src/App.jsx:195 | updates only the resizing flag |
| Frontend.Dashboard.MouseMove | frontend/src/App.jsx:187-194 | only while resizing, the width becomes the clamped width |
| Frontend.Dashboard.HandleAnalyze | frontend/src/App.jsx:147-168 | corrected: only an arriving list switches to results; otherwise an alert and the page stays |
| Frontend.BackendRunOnDashboard | frontend/src/App.jsx:147-168 | with the correction, an error keeps the page and a success shows every result with the back end's toxic count |
| Ingestion.FromStart | src/parser/lawProcessing.py:64-66 | from the first start marker on, when present; the text unchanged otherwise |
| Ingestion.EndIndex | src/parser/lawProcessing.py:68-75 | the earliest end-marker position, or the length; no marker occurs before it |
| Ingestion.KeptLines | src/parser/lawProcessing.py:84-96 | kept lines are non-empty, stripped and not noise |
| Ingestion.MatchesPattern | src/parser/lawProcessing.py:88-92 | the pattern loop finds noise exactly when some pattern matches |
| Ingestion.FilterLines | src/parser/lawProcessing.py:79-96 | the line loop keeps exactly the specified lines |
| Ingestion.CleanDetailContent | src/parser/lawProcessing.py:55-98 | the whole cleaning equals its specification, including the missing-body text |
| Ingestion.KeptLinesAppend | src/parser/lawProcessing.py:84-96 | lines are judged independently and keep their order |
| Ingestion.NoEndMarkerInOutput | src/parser/lawProcessing.py:68-98 | the cleaned text never contains either end marker |
| Ingestion.CoreStartsAtMarker | src/parser/lawProcessing.py:64-77 | when the start marker is present, the cut text starts with it |
| Ingestion.SingleNoiseIsBulkNoise | src/parser/ex.py:98-115 | the single-item rule drops only lines the bulk rule drops |
| Ingestion.AgencyRulesDiffer | src/parser/ex.py:111-112 | a short agency line without the pension division is dropped in bulk but kept singly |
| Ingestion.BulkKeptAlsoSingleKept | src/parser/ex.py:98-115 | every line the bulk cleaner keeps the single-item cleaner keeps |
| Ingestion.DetailUrl | src/parser/lawProcessing.py:215 | the base URL followed by the formatted link |
| Ingestion.ExtractItem | src/parser/lawProcessing.py:210-227 | a record carries the item's serial and title, the source type, its URL and the fetched content |
| Ingestion.ExtractAll | src/parser/lawProcessing.py:210-227 | one record per item, in order |
| Ingestion.TotalPages | src/parser/lawProcessing.py:191 | `ceil(total/20)`: enough pages of 20 for the total and no more |
| Ingestion.PageNumbers | src/parser/lawProcessing.py:194 | pages 1 to n |
| Ingestion.GatheredAppend | src/parser/lawProcessing.py:194-230 | pages are collected independently, in page order |
| Ingestion.FailedPageSkipped | src/parser/lawProcessing.py:205-208 | a failed page contributes nothing and later pages are still collected |
| Ingestion.ExtractPage | src/parser/lawProcessing.py:210-227 | the item loop computes the page's records |
| Ingestion.ProcessPage | src/parser/lawProcessing.py:196-227 | one page: the first response's items for page 1, a fetched page otherwise |
| Ingestion.FetchAndProcessAllData | src/parser/lawProcessing.py:170-247 | collects the specified records and requests exactly pages 2 to the last |
| Ingestion.NothingWithoutResults | src/parser/lawProcessing.py:186-191 | a total of 0 collects nothing and requests no page |
| Ingestion.FirstPageFirst | src/parser/lawProcessing.py:194-227 | the first response's items come first, in order |
| Ingestion.EmbeddedTexts | src/parser/lawProcessing.py:136 | one embedded text per record |
| Ingestion.MetadataMap | src/parser/lawProcessing.py:150-158 | one metadata entry per record |
| Ingestion.MetadataAligned | src/parser/lawProcessing.py:136-158 | entry `i` describes the record whose text is vector `i` |
| Ingestion.FetchSingleItem | src/parser/ex.py:152-199 | nothing exactly when the request failed or found no item, else the first item's record |
| Ingestion.SingleItemIsFirstGathered | src/parser/ex.py:175-199 | given one detail fetcher for both, the single-item record is the bulk collector's first record |
| Ingestion.SingleItemBesideFirstGathered | src/parser/ex.py:120-199 | with each script's own fetcher, the single-item record agrees with the bulk collector's first record in every field but `contentRaw`; that text is equal when the detail request failed, and otherwise the bulk collector keeps only lines the single-item script also keeps |
| LawSearch.Lookup | src/parser/lawSearch.py:69 | Python list indexing: negative indices wrap, and out of range raises |
| LawSearch.Mapped | src/parser/lawSearch.py:64-79 | at most one record per hit; a failure is the index error |
| LawSearch.RagSearch | src/parser/lawSearch.py:46-88 | the loop computes the specified results |
| LawSearch.MappedDescribes | src/parser/lawSearch.py:64-79 | one record per non-`-1` hit, each from its hit, ranked by hit position and ascending |
| LawSearch.MappedFailsOnlyOnBadIndex | src/parser/lawSearch.py:65-69 | the search fails exactly when a non-`-1` hit points outside the metadata |
| LawSearch.AtMostTopK | src/parser/lawSearch.py:15 | a search returns at most `TOP_K` records |
| LawSearch.ScoreBounds | src/parser/lawSearch.py:74 | scores lie in (0, 1] |
| LawSearch.ScoreAntitone | src/parser/lawSearch.py:74 | a farther hit never scores higher |
| LawSearch.ScriptRun | src/parser/lawSearch.py:95 | the search runs exactly when everything loaded and the metadata is non-empty |
| LawSearch.RetrievedTextIsEmbedded | src/parser/lawSearch.py:72-79 | a record returns the text, id, title and link that were embedded for that vector |
| Precedent.Take | src/law/precedent_context.py:58 | `s[:n]`: a prefix of at most n, the whole when short enough |
| Precedent.Sample | src/law/precedent_context.py:35-36 | at most 1000 leading rows; all rows when fewer |
| Precedent.PageContentIsLabelled | src/law/precedent_context.py:54-59 | the stripped text is exactly the labelled text |
| Precedent.DocumentShape | src/law/precedent_context.py:54-59 | the text starts with the case number and ends with at most 2000 characters of the full text and "..." |
| Precedent.EmptyRowDefaults | src/law/precedent_context.py:48-51 | missing columns take their defaults, and an empty summary excludes the row |
| Precedent.Built | src/law/precedent_context.py:46-68 | no more documents than rows |
| Precedent.BuiltAppend | src/law/precedent_context.py:46-68 | rows are judged independently and keep their order |
| Precedent.BuiltOne | src/law/precedent_context.py:67-68 | a row gives its document exactly when its summary is longer than 10 |
| Precedent.BuiltMembers | src/law/precedent_context.py:46-68 | the documents are exactly those of the kept rows |
| Precedent.LaterRowsIgnored | src/law/precedent_context.py:35-36 | rows past the sample size never affect the documents |
| Precedent.NothingKept | src/law/precedent_context.py:67-68 | rows with only short summaries give no documents |
| Precedent.NoDocumentsNoStore | src/law/precedent_context.py:100-102 | with no documents no store is created |
| Precedent.Initialized | src/law/precedent_context.py:73-115 | a set store stays; else the local store loads; else a store is built exactly when there are documents |
| Precedent.InitializeIdempotent | src/law/precedent_context.py:77-79 | initialising twice is initialising once |
| Precedent.PrecedentContextManager.constructor | src/law/precedent_context.py:20-21 | no store |
| Precedent.PrecedentContextManager.CreateDatabase | src/law/precedent_context.py:26-71 | the loop builds the specified documents, or none when the dataset failed to load |
| Precedent.PrecedentContextManager.InitializeDatabase | src/law/precedent_context.py:73-115 | the store becomes the specified initialisation of the old one |
| Precedent.PrecedentContextManager.SearchRelevantPrecedents | src/law/precedent_context.py:117-139 | initialises when unset; no store gives nothing; otherwise the hits' texts in order |

## Left out

- Network calls are parameters: the LLMs (Gemini, Ollama), DeepEval's `evaluate` and `measure`, HTTP requests, the law.go.kr API and the Hugging Face dataset download. Concurrency inside `evaluate` is not modelled.
- The embedding models and FAISS are parameters. Index construction, `faiss.write_index` and the JSON metadata file are not modelled; `embed_and_save_faiss` is modelled only through `EmbeddedTexts` and `MetadataMap`, and it runs only when data was collected.
- HTML handling is a parameter: `soup.body.get_text(...)`, `extract_final_detail_url` and `fetch_and_clean_detail_content`. The cleaner starts from the body text, or `None` when there is no body.
- `int(totalCnt)` parsing of the response is not modelled; the total arrives as an integer.
- File I/O, `time.sleep`, timing, logging and `print`/`console` output are not modelled. This includes the printed summary of the first record (`first_item_output`, src/parser/lawProcessing.py:173,229-244).
- UI rendering is not modelled: Streamlit widgets, spinners, progress bars and the JSX markup beyond the highlight, filter and resize logic. The `isLoading` flag and `processUpload` are not modelled.
- Streamlit.Analyse: `@st.cache_resource` on `get_detector` (src/streamlit_test.py:134-139) keeps one detector per key across runs; the model takes each run's construction result as the parameter `constructionError`, so it does not capture that a failed build is retried while a successful one is reused.
- `TextDecoder`, UTF-8 and UTF-16 are not modelled. Strings are sequences of code points, as Python's `len` counts them. `JSON.parse` and `json.dumps` are a decode/encode pair of parameters.
- Scores are exact reals, not IEEE doubles. NaN is not modelled.
- Scoring.Round1: rounds half to even on exact reals; binary floating-point representation effects of `round(x, 1)` are not modelled.
- Precedent.Row: a column that is present with value `None` (where `item.get` returns `None`, not the default) is not modelled; a missing value is an absent column.
- LawSearch.RagSearch: requires the distances of real hits to be non-negative, which FAISS's L2 search guarantees but the script does not check.
- LawSearch.AtMostTopK: assumes FAISS answers with exactly `TOP_K` columns, which is its documented behaviour rather than something the script checks.
- Ingestion.SingleItemBesideFirstGathered: the single-item script asks for one row (`numOfRows: 1`, src/parser/ex.py:19) and the bulk collector for twenty; that both answers start with the same item depends on the search service's ordering, which is not modelled, so the lemma takes it as a premise.
- Frontend.AnalyzeTextStream: a `reader.read()` that rejects partway through the body (frontend/src/App.jsx:56-58, a network failure after some progress calls) is not expressible: `Response` is either refused before any read or streamed in full, so the model never ends in `Thrown` after progress calls.
- Stream.StreamEvents: the second handler (src/fast_api.py:108-110, the `개선안 생성 오류: …` record) is not modelled. Records are values here, so encoding them cannot fail, and a failing `generate_easy_suggestion` is caught per clause (src/fast_api.py:99-103, `Postprocess.SuggestionText`), so nothing modelled reaches that handler.
- Text.IsDigit: `\d` is taken as the ASCII digits 0-9. Python's `re` also matches other Unicode decimal digits (for example full-width digits) in src/fast_api.py:55 and src/parser/lawProcessing.py:81; those are not modelled.
- `src/law/precedent_search.py` is entirely commented out, so there is nothing to model. `LawContextManager` (`law.legal_context`) is not part of this model; its search is a parameter.
- The regular expression `에서 수집한 데이터입니다.` has an unescaped dot that matches any character. It is modelled as the phrase up to its last character, followed by any one character.

## Findings

| source | as written | input that shows it | evidently intended | confidence | as-written member | corrected member |
|---|---|---|---|---|---|---|
| frontend/src/App.jsx:160-161 | `handleAnalyze` stores whatever `analyzeTextStream` returns and switches to the result view. When the back end sends an error record, the inner `catch` swallows the thrown error and the stream ends, so the function returns `undefined`. The result view then calls `resultList.filter` on `undefined`. | a stream of progress records followed by `{"status": "error", ...}`, e.g. a detection failure | on an error, alert and stay on the review step | not executed | Frontend.BackendErrorLeavesNoList | Frontend.Dashboard.HandleAnalyze |
