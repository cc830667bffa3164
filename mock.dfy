/** The prototype dashboard (main.py): a stub pipeline whose parser returns four fixed
    clauses, whose evaluator flags a clause by keyword, and whose generator answers with one of
    two fixed explanations; `main` runs them clause by clause and counts the toxic results. */
module Mock {
  import opened Text

  const Clause1 := "제1조 (목적) 본 계약은 사용자와 근로자의 근로조건을 정함을 목적으로 한다."
  const Clause2 := "제2조 (임금) 월 급여는 200만원으로 하며, 이는 연장근로수당을 포함한 포괄임금으로 한다."
  const Clause3 := "제3조 (근로시간) 근로시간은 09:00부터 18:00까지로 한다."
  const Clause4 := "제4조 (퇴직금) 1년 미만 근무 후 퇴사 시 퇴직금은 지급하지 않으며 손해배상을 청구한다."

  /** `mock_parser(uploaded_file)`: the file is not read. */
  const MockClauses: seq<string> := [Clause1, Clause2, Clause3, Clause4]

  /** `mock_retriever(clause_text)`: the same law and case text for every clause. */
  datatype Retrieved = Retrieved(law: string, precedent: string)

  function MockRetriever(clause: string): (r: Retrieved)
    ensures r.law == "근로기준법 제N조..." && r.precedent == "대법원 20XX다XXXX 판결..."
  {
    Retrieved("근로기준법 제N조...", "대법원 20XX다XXXX 판결...")
  }

  /** What `mock_evaluator` returns. */
  datatype Evaluation = Evaluation(score: int, isToxic: bool, reason: string, faithfulness: real)

  const WageKeyword := "포괄임금"
  const DamagesKeyword := "손해배상"
  const ToxicReason := "포괄임금제 오남용 및 위약금 예정 금지 조항 위반 가능성이 높음."
  const SafeReason := "법적 문제 없음."

  /** `mock_evaluator(clause, context)`: a clause naming an all-inclusive wage or damages is
      toxic with score 8 and faithfulness 0.95; any other scores 1, is safe and has
      faithfulness 1.0. The context is not read. */
  function MockEvaluator(clause: string, context: Retrieved): (e: Evaluation)
    ensures e.isToxic <==> Contains(clause, WageKeyword) || Contains(clause, DamagesKeyword)
    ensures e.isToxic ==> e == Evaluation(8, true, ToxicReason, 0.95)
    ensures !e.isToxic ==> e == Evaluation(1, false, SafeReason, 1.0)
  {
    if Contains(clause, WageKeyword) || Contains(clause, DamagesKeyword) then
      Evaluation(8, true, ToxicReason, 0.95)
    else
      Evaluation(1, false, SafeReason, 1.0)
  }

  const ToxicExplanation := "이 조항은 당신이 야근을 해도 추가 수당을 받기 어렵게 만들 수 있어요. '포괄임금'이라는 단어를 주의하세요."
  const SafeExplanation := "표준적인 근로계약 조항입니다. 안심하셔도 됩니다."

  /** `mock_generator(clause, evaluation)`: the warning for a toxic evaluation, the reassurance
      otherwise. */
  function MockGenerator(clause: string, evaluation: Evaluation): (s: string)
    ensures evaluation.isToxic ==> s == ToxicExplanation
    ensures !evaluation.isToxic ==> s == SafeExplanation
  {
    if evaluation.isToxic then ToxicExplanation else SafeExplanation
  }

  /** One entry of `results`. */
  datatype MockResult = MockResult(
    id: nat, clause: string, score: int, isToxic: bool, reason: string,
    explanation: string, faithfulness: real)

  /** The entry for clause `i`. */
  function ResultFor(i: nat, clause: string): MockResult {
    var evaluation := MockEvaluator(clause, MockRetriever(clause));
    MockResult(i + 1, clause, evaluation.score, evaluation.isToxic, evaluation.reason,
               MockGenerator(clause, evaluation), evaluation.faithfulness)
  }

  /** The results of the analysis loop: one entry per clause, in clause order. */
  function MockResults(chunks: seq<string>): (r: seq<MockResult>)
    ensures |r| == |chunks|
  {
    seq(|chunks|, i requires 0 <= i < |chunks| => ResultFor(i, chunks[i]))
  }

  /** The analysis loop of `main`. */
  method AnalyzeAll(chunks: seq<string>) returns (results: seq<MockResult>)
    ensures results == MockResults(chunks)
  {
    results := [];
    for i := 0 to |chunks|
      invariant |results| == i
      invariant forall j :: 0 <= j < i ==> results[j] == ResultFor(j, chunks[j])
    {
      var clause := chunks[i];
      var context := MockRetriever(clause);
      var evalResult := MockEvaluator(clause, context);
      var easyExplanation := MockGenerator(clause, evalResult);
      results := results + [MockResult(i + 1, clause, evalResult.score, evalResult.isToxic,
                                       evalResult.reason, easyExplanation, evalResult.faithfulness)];
    }
  }

  /** `sum(1 for r in results if r["is_toxic"])` (main.py:149), over the mock pipeline's own
      records; `Postprocess.CountToxic` is the same count over the detector's results. */
  function ToxicCount(results: seq<MockResult>): (n: nat)
    ensures n <= |results|
  {
    if results == [] then 0
    else ToxicCount(results[..|results| - 1]) + (if results[|results| - 1].isToxic then 1 else 0)
  }

  /** Each entry is numbered by position and copies the clause and the evaluation; its
      explanation is the warning exactly when it is toxic, and it is toxic exactly when the
      clause names a keyword. */
  lemma MockResultsFaithful(chunks: seq<string>, i: nat)
    requires i < |chunks|
    ensures var r := MockResults(chunks)[i];
            r.id == i + 1 && r.clause == chunks[i]
            && (r.isToxic <==> Contains(chunks[i], WageKeyword) || Contains(chunks[i], DamagesKeyword))
            && (r.explanation == ToxicExplanation <==> r.isToxic)
            && (r.isToxic ==> r.score == 8) && (!r.isToxic ==> r.score == 1)
  {
  }

  /** A keyword cannot occur in a text that lacks its first character. */
  lemma AbsentFirstChar(s: string, sub: string)
    requires |sub| > 0 && sub[0] !in s
    ensures !Contains(s, sub)
  {
    forall i ensures !OccursAt(s, sub, i) {
      if 0 <= i && i + |sub| <= |s| {
        assert s[i..i + |sub|][0] == s[i] != sub[0];
      }
    }
  }

  /** The keywords' first characters are absent from clauses 1 and 3. */
  lemma Clause1LacksWageStart() ensures WageKeyword[0] !in Clause1 { }
  lemma Clause1LacksDamagesStart() ensures DamagesKeyword[0] !in Clause1 { }
  lemma Clause3LacksWageStart() ensures WageKeyword[0] !in Clause3 { }
  lemma Clause3LacksDamagesStart() ensures DamagesKeyword[0] !in Clause3 { }

  /** Clauses 1 and 3 name neither keyword: they lack the keywords' first characters. */
  lemma SafeClausesNameNoKeyword()
    ensures !Contains(Clause1, WageKeyword) && !Contains(Clause1, DamagesKeyword)
    ensures !Contains(Clause3, WageKeyword) && !Contains(Clause3, DamagesKeyword)
  {
    Clause1LacksWageStart();
    AbsentFirstChar(Clause1, WageKeyword);
    Clause1LacksDamagesStart();
    AbsentFirstChar(Clause1, DamagesKeyword);
    Clause3LacksWageStart();
    AbsentFirstChar(Clause3, WageKeyword);
    Clause3LacksDamagesStart();
    AbsentFirstChar(Clause3, DamagesKeyword);
  }

  /** Clause 2 names an all-inclusive wage and clause 4 names damages. */
  lemma ToxicClausesNameKeyword()
    ensures Contains(Clause2, WageKeyword) && Contains(Clause4, DamagesKeyword)
  {
    assert OccursAt(Clause2, WageKeyword, 42);
    assert OccursAt(Clause4, DamagesKeyword, 40);
  }

  /** The count over four entries, entry by entry. */
  lemma ToxicCountOfFour(r: seq<MockResult>)
    requires |r| == 4
    ensures ToxicCount(r) == (if r[0].isToxic then 1 else 0) + (if r[1].isToxic then 1 else 0)
                           + (if r[2].isToxic then 1 else 0) + (if r[3].isToxic then 1 else 0)
  {
    assert ToxicCount(r[..1]) == (if r[0].isToxic then 1 else 0) by {
      assert r[..1][..0] == [];
    }
    assert r[..2][..1] == r[..1];
    assert r[..3][..2] == r[..2];
    assert r[..4] == r;
    assert r[..3][..2] == r[..2];
  }

  /** On the stub parser's clauses exactly clauses 2 and 4 are flagged, so the dashboard
      counts two toxic clauses. */
  lemma MockPipelineFlagsTwo()
    ensures var results := MockResults(MockClauses);
            !results[0].isToxic && results[1].isToxic && !results[2].isToxic && results[3].isToxic
            && ToxicCount(results) == 2
  {
    SafeClausesNameNoKeyword();
    ToxicClausesNameKeyword();
    ToxicCountOfFour(MockResults(MockClauses));
  }
}
