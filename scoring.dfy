/** What the two clause detectors (src/toxic_detector.py, backed by DeepEval's `evaluate`, and
    src/ollama_detctor.py, which measures clause by clause) have in common: the result record,
    the retrieval context handed to the judge, the score normalisation, the toxicity
    threshold, `round(x, 1)`, the rubric bands and the suggestion gate. */
module Scoring {
  import opened Text

  /** One entry of `formatted_results`. */
  datatype DetectionResult = DetectionResult(
    clause: string,
    isToxic: bool,
    riskScore: real,
    reason: string,
    contextUsed: string)

  // ----- retrieval context -----

  const LawHeader := "=== [관련 법령] ==="
  const PrecedentHeader := "=== [관련 판례] ==="

  /** The law section when the DeepEval detector's law search finds nothing. */
  const NoLawsDeepEval := "관련 법령 검색 결과 없음 (일반 법률 지식으로 판단 요망)"
  /** The law section when the Ollama detector's law search finds nothing. */
  const NoLawsOllama := "관련 법령 검색 결과 없음"
  /** The precedent section when the precedent search finds nothing (both detectors). */
  const NoPrecedents := "관련 판례 검색 결과 없음"

  /** `"\n".join(laws) if laws else sentinel`. */
  function LawSection(laws: seq<string>, sentinel: string): (r: string)
    ensures laws == [] ==> r == sentinel
    ensures |laws| == 1 ==> r == laws[0]
  {
    if laws == [] then sentinel else Join(laws, "\n")
  }

  /** The law hits can be read back from a non-empty law section when none of them spans
      several lines. */
  lemma LawSectionRecoversHits(laws: seq<string>, sentinel: string)
    requires laws != []
    requires forall k :: 0 <= k < |laws| ==> '\n' !in laws[k]
    ensures SplitOn(LawSection(laws, sentinel), '\n') == laws
  {
    SplitOnJoin(laws, '\n');
  }

  /** `precedents[0] if precedents else "관련 판례 검색 결과 없음"`: only the first hit is used. */
  function PrecedentSection(precedents: seq<string>): (r: string)
    ensures precedents == [] ==> r == NoPrecedents
    ensures precedents != [] ==> r == precedents[0]
  {
    if precedents == [] then NoPrecedents else precedents[0]
  }

  /** The f-string that `_retrieve_context` returns. */
  function CombinedContext(lawText: string, precedentText: string): string {
    LawHeader + "\n" + lawText + "\n\n" + PrecedentHeader + "\n" + precedentText
  }

  /** The law header opens the context and the precedent header follows it, after the law
      text: the first occurrence of the law header is at 0, and the precedent header occurs
      first at some later index. */
  lemma HeadersInOrder(lawText: string, precedentText: string)
    ensures Find(CombinedContext(lawText, precedentText), LawHeader) == 0
    ensures Find(CombinedContext(lawText, precedentText), PrecedentHeader) > 0
    ensures OccursAt(CombinedContext(lawText, precedentText), PrecedentHeader, |LawHeader| + |lawText| + 3)
  {
    var r := CombinedContext(lawText, precedentText);
    var at := |LawHeader| + |lawText| + 3;
    assert r == LawHeader + ("\n" + lawText + "\n\n") + PrecedentHeader + ("\n" + precedentText);
    assert r[..|LawHeader|] == LawHeader;
    assert OccursAt(r, LawHeader, 0);
    assert r[at..at + |PrecedentHeader|] == PrecedentHeader;
    assert OccursAt(r, PrecedentHeader, at);
    assert !OccursAt(r, PrecedentHeader, 0) by {
      assert r[8] == LawHeader[8] == '법';
      assert PrecedentHeader[8] == '판';
    }
  }

  /** `_retrieve_context(clause)` with the two searches as parameters; `noLaws` is the
      detector's own sentinel. */
  function RetrieveContext(
    searchLaws: string -> seq<string>, searchPrecedents: string -> seq<string>,
    noLaws: string, clause: string): (r: string)
    ensures searchLaws(clause) == [] ==> OccursAt(r, noLaws, |LawHeader| + 1)
    ensures searchPrecedents(clause) == [] ==>
              |r| >= |NoPrecedents| && r[|r| - |NoPrecedents|..] == NoPrecedents
  {
    var law := LawSection(searchLaws(clause), noLaws);
    var r := CombinedContext(law, PrecedentSection(searchPrecedents(clause)));
    assert r[|LawHeader| + 1..|LawHeader| + 1 + |law|] == law;
    r
  }

  // ----- scores -----

  /** The judge reports on 0..1 or already on 0..10; a score up to 1.0 is scaled by ten. */
  function NormaliseScore(raw: real): real {
    if raw <= 1.0 then raw * 10.0 else raw
  }

  const ToxicThreshold: real := 4.0

  /** `is_toxic = risk_score >= 4.0`, on the normalised score before rounding. */
  predicate IsToxicScore(score: real) {
    score >= ToxicThreshold
  }

  /** A raw score is judged toxic exactly when it is at least 0.4 on the unit scale or at least
      4.0 above it; between 1.0 and 4.0 it is never toxic. */
  lemma ToxicIffRaw(raw: real)
    ensures IsToxicScore(NormaliseScore(raw)) <==> (0.4 <= raw <= 1.0 || raw >= 4.0)
  {
  }

  /** Normalisation maps the judge's two scales onto 0..10. */
  lemma NormaliseRange(raw: real)
    requires 0.0 <= raw <= 10.0
    ensures 0.0 <= NormaliseScore(raw) <= 10.0
  {
  }

  /** Normalisation is not monotone: a raw 1.0 becomes 10.0 while a larger raw 1.5 stays 1.5. */
  lemma NormaliseNotMonotone()
    ensures NormaliseScore(1.0) > NormaliseScore(1.5)
  {
  }

  predicate IsTenth(r: real) {
    (r * 10.0).Floor as real == r * 10.0
  }

  /** Python's `round(x, 1)` on the exact value: the nearest multiple of 0.1, ties to even
      tenths. */
  function Round1(x: real): (r: real)
    ensures IsTenth(r)
    ensures -0.05 <= r - x <= 0.05
  {
    var y := x * 10.0;
    var f := y.Floor;
    var frac := y - f as real;
    var n := if frac > 0.5 then f + 1 else if frac < 0.5 then f else if f % 2 == 0 then f else f + 1;
    assert n as real - y <= 0.5 && y - n as real <= 0.5;
    assert (n as real / 10.0) * 10.0 == n as real;
    n as real / 10.0
  }

  /** Rounding leaves a value that is already a whole number of tenths unchanged. */
  lemma Round1OfTenth(n: int)
    ensures Round1(n as real / 10.0) == n as real / 10.0
  {
    var x := n as real / 10.0;
    assert x * 10.0 == n as real;
    assert (x * 10.0).Floor == n;
  }

  /** A toxic score is never shown below the threshold: rounding cannot take a score of at
      least 4.0 under 4.0. */
  lemma ToxicShownAtLeastThreshold(score: real)
    requires IsToxicScore(score)
    ensures Round1(score) >= ToxicThreshold
  {
    var y := score * 10.0;
    assert y >= 40.0;
    assert y.Floor >= 40;
  }

  /** The converse fails: a score just below 4.0 is not toxic, yet the stored, rounded
      `risk_score` is 4.0. A raw 0.396 on the unit scale is such a score. */
  lemma RoundedScoreDisagrees()
    ensures NormaliseScore(0.396) == 3.96
    ensures !IsToxicScore(NormaliseScore(0.396)) && Round1(NormaliseScore(0.396)) == 4.0
  {
    var y := 3.96 * 10.0;
    assert y == 39.6;
    assert y.Floor == 39;
  }

  // ----- rubric -----

  /** `Rubric(score_range=(low, high), ...)`; the expected outcome texts are prompt text and
      not part of this model. */
  datatype Band = Band(low: int, high: int)

  const Rubric: seq<Band> := [Band(0, 2), Band(3, 5), Band(6, 8), Band(9, 10)]

  /** The band a whole score falls in: the rubric's bands are ascending, adjacent and cover
      0..10, so each such score lies in exactly one band. */
  function BandOf(score: int): (i: nat)
    requires 0 <= score <= 10
    ensures i < |Rubric| && Rubric[i].low <= score <= Rubric[i].high
    ensures forall j :: 0 <= j < |Rubric| && Rubric[j].low <= score <= Rubric[j].high ==> j == i
  {
    if score <= 2 then 0 else if score <= 5 then 1 else if score <= 8 then 2 else 3
  }

  /** The bands are ordered and leave no gap: each starts right after the previous one ends. */
  lemma RubricContiguous()
    ensures Rubric[0].low == 0 && Rubric[|Rubric| - 1].high == 10
    ensures forall i :: 0 <= i < |Rubric| ==> Rubric[i].low <= Rubric[i].high
    ensures forall i :: 0 < i < |Rubric| ==> Rubric[i].low == Rubric[i - 1].high + 1
  {
  }

  // ----- suggestion gate -----

  const SafeMessage := "✅ **안전한 조항입니다.**"

  /** `generate_easy_suggestion`: a non-toxic result gets the fixed safe message; a toxic one
      gets what the language model answers to the prompt built from the result. */
  function EasySuggestion(res: DetectionResult, ask: DetectionResult -> string): (s: string)
    ensures !res.isToxic ==> s == SafeMessage
    ensures res.isToxic ==> s == ask(res)
  {
    if !res.isToxic then SafeMessage else ask(res)
  }

  /** The model is never consulted for a safe clause: any two models give the same answer. */
  lemma SafeNeedsNoModel(res: DetectionResult, ask1: DetectionResult -> string, ask2: DetectionResult -> string)
    requires !res.isToxic
    ensures EasySuggestion(res, ask1) == EasySuggestion(res, ask2) == SafeMessage
  {
  }

  // ----- the clause-to-context map -----

  /** `original_map` after `original_map[text] = retrieve(text)` for each clause in turn. */
  function ContextMap(clauses: seq<string>, retrieve: string -> string): map<string, string> {
    if clauses == [] then map[]
    else ContextMap(clauses[..|clauses| - 1], retrieve)[clauses[|clauses| - 1] := retrieve(clauses[|clauses| - 1])]
  }

  /** The map has one key per distinct clause, and each clause's entry is its own context, so
      a repeated clause does not change what is looked up. */
  lemma {:induction false} ContextMapLookup(clauses: seq<string>, retrieve: string -> string, c: string)
    ensures c in ContextMap(clauses, retrieve) <==> c in clauses
    ensures c in clauses ==> ContextMap(clauses, retrieve)[c] == retrieve(c)
  {
    if clauses != [] {
      var init := clauses[..|clauses| - 1];
      ContextMapLookup(init, retrieve, c);
      assert clauses == init + [clauses[|clauses| - 1]];
    }
  }

  /** `original_map.get(clause, "")`. */
  function LookupContext(m: map<string, string>, clause: string): string {
    if clause in m then m[clause] else ""
  }
}
