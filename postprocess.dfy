/** The post-processing both front ends run on the detector's output (src/fast_api.py inside
    `event_stream`, src/streamlit_test.py inside `main`): number the results by position, note
    which are toxic, then ask for a suggestion for each toxic one, isolating failures. */
module Postprocess {
  import opened Wrappers
  import opened Scoring

  /** A result dict after `res['id'] = i + 1` and `res['suggestion'] = ...`. */
  datatype Processed = Processed(result: DetectionResult, id: nat, suggestion: string)

  predicate StrictlyAscending(s: seq<nat>) {
    forall j, k :: 0 <= j < k < |s| ==> s[j] < s[k]
  }

  /** How many detection results are toxic: the number of indices `toxic_indices` collects
      (src/fast_api.py:84-85), which src/streamlit_test.py:202 reports as `len(toxic_indices)`.
      `Mock.ToxicCount` counts the mock pipeline's own records the same way. */
  function CountToxic(raw: seq<DetectionResult>): (n: nat)
    ensures n <= |raw|
  {
    if raw == [] then 0
    else CountToxic(raw[..|raw| - 1]) + (if raw[|raw| - 1].isToxic then 1 else 0)
  }

  /** The positions of the toxic results, in order. */
  function ToxicPositions(raw: seq<DetectionResult>): (r: seq<nat>)
    ensures |r| == CountToxic(raw)
    ensures forall k :: 0 <= k < |r| ==> r[k] < |raw|
  {
    if raw == [] then []
    else
      var init := ToxicPositions(raw[..|raw| - 1]);
      if raw[|raw| - 1].isToxic then init + [|raw| - 1] else init
  }

  /** The toxic positions are listed in ascending order, each exactly once, and a position is
      listed exactly when its result is toxic. */
  lemma {:induction false} ToxicPositionsExact(raw: seq<DetectionResult>)
    ensures StrictlyAscending(ToxicPositions(raw))
    ensures forall i: nat :: i in ToxicPositions(raw) <==> i < |raw| && raw[i].isToxic
  {
    if raw != [] {
      var init := raw[..|raw| - 1];
      ToxicPositionsExact(init);
      forall i: nat | i < |init| ensures init[i] == raw[i] { }
    }
  }

  /** The results after the first loop: numbered by position, suggestions still empty. */
  function Numbered(raw: seq<DetectionResult>): (r: seq<Processed>)
    ensures |r| == |raw|
  {
    seq(|raw|, i requires 0 <= i < |raw| => Processed(raw[i], i + 1, ""))
  }

  /** The results once both loops have run. */
  function Finalise(raw: seq<DetectionResult>, suggest: DetectionResult -> Attempt<string>): (r: seq<Processed>)
    ensures |r| == |raw|
  {
    seq(|raw|, i requires 0 <= i < |raw| =>
      Processed(raw[i], i + 1, if raw[i].isToxic then SuggestionText(suggest(raw[i])) else ""))
  }

  /** One more result extends the toxic positions by its own position when it is toxic. */
  lemma ToxicPositionsStep(raw: seq<DetectionResult>, i: nat)
    requires i < |raw|
    ensures ToxicPositions(raw[..i + 1]) == ToxicPositions(raw[..i]) + (if raw[i].isToxic then [i] else [])
  {
    assert raw[..i + 1][..i] == raw[..i] && raw[..i + 1][i] == raw[i];
  }

  /** The first loop: result `i` gets id `i + 1` and an empty suggestion, nothing is
      reordered, and the toxic positions are collected in order. */
  method AssignIds(raw: seq<DetectionResult>) returns (processed: seq<Processed>, toxicIndices: seq<nat>)
    ensures processed == Numbered(raw)
    ensures toxicIndices == ToxicPositions(raw)
  {
    processed := [];
    toxicIndices := [];
    for i := 0 to |raw|
      invariant |processed| == i
      invariant forall j :: 0 <= j < i ==> processed[j] == Processed(raw[j], j + 1, "")
      invariant toxicIndices == ToxicPositions(raw[..i])
    {
      var res := raw[i];
      ToxicPositionsStep(raw, i);
      processed := processed + [Processed(res, i + 1, "")];
      if res.isToxic {
        toxicIndices := toxicIndices + [i];
      }
    }
    assert raw[..|raw|] == raw;
    assert forall j :: 0 <= j < |raw| ==> processed[j] == Numbered(raw)[j];
  }

  const SuggestionFailure := "개선안 생성 실패"

  /** The suggestion stored for a toxic result: the generated text, or the fixed failure text
      when generation raised. */
  function SuggestionText(a: Attempt<string>): (s: string)
    ensures a.Failed? ==> s == SuggestionFailure
    ensures a.Ok? ==> s == a.value
  {
    match a
    case Ok(text) => text
    case Failed(_) => SuggestionFailure
  }

  /** `processed` once the suggestion of every index in `done` has been stored: ids, results
      and the other suggestions are untouched. */
  function WithSuggestions(processed: seq<Processed>, done: seq<nat>, suggest: DetectionResult -> Attempt<string>)
    : (r: seq<Processed>)
    ensures |r| == |processed|
  {
    seq(|processed|, i requires 0 <= i < |processed| =>
      if i in done then processed[i].(suggestion := SuggestionText(suggest(processed[i].result))) else processed[i])
  }

  /** The second loop: for each toxic index in turn, announce the result's id and store its
      suggestion; a failure affects only that result. `suggest` is the detector's
      `generate_easy_suggestion`. */
  method FillSuggestions(processed: seq<Processed>, toxicIndices: seq<nat>, suggest: DetectionResult -> Attempt<string>)
    returns (out: seq<Processed>, announced: seq<nat>)
    requires forall k :: 0 <= k < |toxicIndices| ==> toxicIndices[k] < |processed|
    ensures out == WithSuggestions(processed, toxicIndices, suggest)
    ensures |announced| == |toxicIndices|
    ensures forall k :: 0 <= k < |toxicIndices| ==> announced[k] == processed[toxicIndices[k]].id
  {
    out := processed;
    announced := [];
    for idx := 0 to |toxicIndices|
      invariant out == WithSuggestions(processed, toxicIndices[..idx], suggest)
      invariant |announced| == idx
      invariant forall k :: 0 <= k < idx ==> announced[k] == processed[toxicIndices[k]].id
    {
      var listIdx := toxicIndices[idx];
      announced := announced + [out[listIdx].id];
      var targetResult := out[listIdx];
      var suggestion: string;
      match suggest(targetResult.result) {
        case Ok(text) => suggestion := text;
        case Failed(_) => suggestion := SuggestionFailure;
      }
      out := out[listIdx := targetResult.(suggestion := suggestion)];
      ghost var done := toxicIndices[..idx + 1];
      assert done == toxicIndices[..idx] + [listIdx];
      forall i | 0 <= i < |out| ensures out[i] == WithSuggestions(processed, done, suggest)[i] {
        assert i in done <==> i in toxicIndices[..idx] || i == listIdx;
      }
    }
    assert toxicIndices[..|toxicIndices|] == toxicIndices;
  }

  /** The ids of the results at `positions`. */
  function IdsOf(positions: seq<nat>): (r: seq<nat>)
    ensures |r| == |positions|
  {
    seq(|positions|, k requires 0 <= k < |positions| => positions[k] + 1)
  }

  /** Both loops together, as the front ends run them: every result keeps its place and gets
      id `i + 1`; a non-toxic result keeps the empty suggestion; a toxic one gets its own
      suggestion or the failure text, and its id is announced first. */
  method PostProcess(raw: seq<DetectionResult>, suggest: DetectionResult -> Attempt<string>)
    returns (out: seq<Processed>, toxicIndices: seq<nat>, announced: seq<nat>)
    ensures out == Finalise(raw, suggest)
    ensures toxicIndices == ToxicPositions(raw)
    ensures announced == IdsOf(toxicIndices)
  {
    var processed;
    processed, toxicIndices := AssignIds(raw);
    ToxicPositionsExact(raw);
    out, announced := FillSuggestions(processed, toxicIndices, suggest);
    forall i | 0 <= i < |raw| ensures out[i] == Finalise(raw, suggest)[i] {
      assert processed[i] == Processed(raw[i], i + 1, "");
      assert i in toxicIndices <==> raw[i].isToxic;
    }
  }

  /** `[r for r in results if r['is_toxic']]`, as the report views filter it. */
  function ToxicOnly(results: seq<Processed>): (r: seq<Processed>)
    ensures |r| <= |results|
    ensures forall k :: 0 <= k < |r| ==> r[k].result.isToxic
    ensures forall x :: x in r <==> x in results && x.result.isToxic
  {
    if results == [] then []
    else
      var last := results[|results| - 1];
      ToxicOnly(results[..|results| - 1]) + (if last.result.isToxic then [last] else [])
  }

  /** The filter keeps order: filtering a concatenation filters each part in turn. */
  lemma {:induction false} ToxicOnlyAppend(a: seq<Processed>, b: seq<Processed>)
    ensures ToxicOnly(a + b) == ToxicOnly(a) + ToxicOnly(b)
  {
    if b == [] {
      assert a + b == a;
    } else {
      var init := b[..|b| - 1];
      var last := b[|b| - 1];
      var keep := if last.result.isToxic then [last] else [];
      assert (a + b)[..|a + b| - 1] == a + init && (a + b)[|a + b| - 1] == last;
      calc {
        ToxicOnly(a + b);
        ToxicOnly(a + init) + keep;
        { ToxicOnlyAppend(a, init); }
        ToxicOnly(a) + ToxicOnly(init) + keep;
        ToxicOnly(a) + (ToxicOnly(init) + keep);
      }
    }
  }

  /** After post-processing, the toxic entries are as many as the toxic detector results. */
  lemma {:induction false} ToxicOnlyOfFinalise(raw: seq<DetectionResult>, suggest: DetectionResult -> Attempt<string>)
    ensures |ToxicOnly(Finalise(raw, suggest))| == CountToxic(raw)
  {
    if raw != [] {
      var init := raw[..|raw| - 1];
      var out := Finalise(raw, suggest);
      ToxicOnlyOfFinalise(init, suggest);
      assert out[..|out| - 1] == Finalise(init, suggest);
    }
  }
}
