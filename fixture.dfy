/** The sample contract of the Streamlit front end (src/streamlit_test.py) and what its parse
    gives: the fixture is a document of seven well-formed articles, so the clause parser returns
    exactly those seven articles, numbered one to seven. */
module Fixture {
  import opened Wrappers
  import opened Text
  import opened Segmenter

  /** `get_dummy_contract_text()`: a seven-article employment contract used when no PDF text
      is available. Article N is given by its lines, the head line `제N조 (title)` first, and
      each line by its words, which the fixture separates by single spaces. */
  const DummyArticle1: seq<seq<string>> := [
    ["제1조", "(목적)"],
    ["본", "계약은", "사용자", "(주)악덕상사(이하", "\"갑\")와", "근로자", "홍길동(이하", "\"을\")의", "근로조건을", "정함을",
     "목적으로", "한다."]
  ]

  const DummyArticle2: seq<seq<string>> := [
    ["제2조", "(근로장소", "및", "업무)"],
    ["\"을\"은", "\"갑\"의", "본사", "및", "\"갑\"이", "지정하는", "장소에서", "소프트웨어", "개발", "업무를", "수행한다."]
  ]

  const DummyArticle3: seq<seq<string>> := [
    ["제3조", "(근로시간)"],
    ["1.", "근로시간은", "09:00부터", "18:00까지로", "한다", "(휴게시간", "1시간", "포함)."],
    ["2.", "\"갑\"은", "업무상", "필요한", "경우", "\"을\"에게", "연장,", "야간", "및", "휴일근로를", "명할", "수", "있으며",
     "\"을\"은", "이에", "동의한", "것으로", "간주한다."]
  ]

  const DummyArticle4: seq<seq<string>> := [
    ["제4조", "(임금)"],
    ["1.", "월", "급여는", "2,500,000원으로", "한다."],
    ["2.", "위", "급여에는", "식대,", "교통비", "및", "법정", "제수당(연장,", "야간,", "휴일근로수당", "등)이", "모두", "포함된",
     "포괄임금으로", "산정하며,", "\"을\"은", "추가적인", "수당을", "청구하지", "않는다."]
  ]

  const DummyArticle5: seq<seq<string>> := [
    ["제5조", "(퇴직금)"],
    ["\"을\"이", "입사", "후", "1년", "미만에", "퇴사하는", "경우,", "수습기간", "동안의", "교육비", "및", "손해배상", "명목으로",
     "퇴직금은", "지급하지", "아니한다."]
  ]

  const DummyArticle6: seq<seq<string>> := [
    ["제6조", "(계약해지)"],
    ["\"을\"이", "무단결근", "3일", "이상", "지속하거나", "업무", "능력이", "현저히", "부족하다고", "판단될", "경우", "\"갑\"은",
     "즉시", "계약을", "해지할", "수", "있다."]
  ]

  const DummyArticle7: seq<seq<string>> := [
    ["제7조", "(손해배상)"],
    ["\"을\"이", "계약기간", "중", "퇴사하여", "\"갑\"에게", "손해를", "입힌", "경우,", "\"을\"은", "\"갑\"에게", "일금",
     "1,000만원을", "배상하여야", "한다."]
  ]

  /** The fixture's seven articles, in order. */
  const DummyArticleWords: seq<seq<seq<string>>> := [
    DummyArticle1, DummyArticle2, DummyArticle3, DummyArticle4, DummyArticle5, DummyArticle6,
    DummyArticle7
  ]

  /** Each line's words joined by single spaces. */
  function SpacedLines(lines: seq<seq<string>>): (r: seq<string>)
    ensures |r| == |lines| && forall i :: 0 <= i < |lines| ==> r[i] == Join(lines[i], " ")
  {
    if lines == [] then [] else [Join(lines[0], " ")] + SpacedLines(lines[1..])
  }

  /** Each article's lines joined by newlines. */
  function ArticleTexts(articles: seq<seq<seq<string>>>): (r: seq<string>)
    ensures |r| == |articles|
    ensures forall k :: 0 <= k < |articles| ==> r[k] == Join(SpacedLines(articles[k]), "\n")
  {
    if articles == [] then [] else [Join(SpacedLines(articles[0]), "\n")] + ArticleTexts(articles[1..])
  }

  /** The fixture's articles as texts. */
  const DummyArticles: seq<string> := ArticleTexts(DummyArticleWords)

  /** The fixture's text: every article on its own lines, with a newline before and after it, so
      that a blank line separates neighbours and the text opens and closes with a newline. */
  const DummyContract: string := Document(DummyArticles)

  /** A line of words: at least one word, every word non-empty and without a newline. */
  predicate PlainWords(words: seq<string>) {
    words != [] && forall w :: 0 <= w < |words| ==> words[w] != "" && '\n' !in words[w]
  }

  /** A line of words joined by spaces has no newline, opens with its first word and ends with
      its last word's last character. */
  lemma SpacedLine(words: seq<string>)
    requires PlainWords(words)
    ensures var line, last := Join(words, " "), words[|words| - 1];
      line != "" && '\n' !in line && |line| >= 2 * |words| - 1
      && |words[0]| <= |line| && line[..|words[0]|] == words[0]
      && line[|line| - 1] == last[|last| - 1]
  {
    JoinBounds(words, " ", '\n');
    var line, last := Join(words, " "), words[|words| - 1];
    assert line[|line| - 1] == line[|line| - |last|..][|last| - 1];
  }

  /** Lines of words joined by spaces: each line is non-empty, has no newline and opens with
      its first word's first character. */
  lemma LinesOfWords(a: seq<seq<string>>)
    requires forall i :: 0 <= i < |a| ==> PlainWords(a[i])
    ensures forall i :: 0 <= i < |a| ==>
      SpacedLines(a)[i] != "" && '\n' !in SpacedLines(a)[i]
      && a[i][0] != "" && SpacedLines(a)[i][0] == a[i][0][0]
  {
    var lines := SpacedLines(a);
    forall i | 0 <= i < |a|
      ensures lines[i] != "" && '\n' !in lines[i] && a[i][0] != "" && lines[i][0] == a[i][0][0]
    {
      SpacedLine(a[i]);
      assert lines[i][0] == lines[i][..|a[i][0]|][0];
    }
  }

  /** An article given by its lines of words, numbered `n`: its head line opens with `제n조`,
      every later line opens with neither a space nor `제`, and its last line has at least six
      words (so at least eleven characters) and does not end in a space. */
  predicate ArticleWords(a: seq<seq<string>>, n: nat) {
    1 <= n < 10 && |a| >= 1
    && (forall i :: 0 <= i < |a| ==> PlainWords(a[i]))
    && StartsWith(a[0][0], "제" + NatToString(n) + "조")
    && (forall i :: 1 <= i < |a| ==> PlainStart(a[i][0][0]))
    && |a[|a| - 1]| >= 6
    && !IsSpace(a[|a| - 1][|a[|a| - 1]| - 1][|a[|a| - 1][|a[|a| - 1]| - 1]| - 1])
  }

  /** The conditions of `ArticleWords`, one at a time. */
  lemma ArticleWordsIntro(a: seq<seq<string>>, n: nat)
    requires 1 <= n < 10 && |a| >= 1
    requires forall i :: 0 <= i < |a| ==>
      a[i] != [] && forall w :: 0 <= w < |a[i]| ==> a[i][w] != "" && '\n' !in a[i][w]
    requires StartsWith(a[0][0], "제" + NatToString(n) + "조")
    requires forall i :: 1 <= i < |a| ==> PlainStart(a[i][0][0])
    requires |a[|a| - 1]| >= 6
    requires !IsSpace(a[|a| - 1][|a[|a| - 1]| - 1][|a[|a| - 1][|a[|a| - 1]| - 1]| - 1])
    ensures ArticleWords(a, n)
  {
  }

  /** The text of an article given by its lines of words is a well-formed article opening with
      its number. */
  lemma ArticleWordsText(a: seq<seq<string>>, n: nat)
    requires ArticleWords(a, n)
    ensures ArticleBody(Join(SpacedLines(a), "\n"))
    ensures StartsWith(Join(SpacedLines(a), "\n"), "제" + NatToString(n) + "조")
  {
    var lines := SpacedLines(a);
    LinesOfWords(a);
    SpacedLine(a[0]);
    assert lines[0][..3] == a[0][0][..3];
    SpacedLine(a[|a| - 1]);
    ArticleFromLines(lines);
  }

  /** A document made of articles given by their lines of words, the k-th numbered `k + 1`,
      parses into exactly those articles, the k-th opening with `제(k+1)조`. */
  lemma NumberedDocumentChunks(articles: seq<seq<seq<string>>>)
    requires articles != []
    requires forall k :: 0 <= k < |articles| ==> ArticleWords(articles[k], k + 1)
    ensures var texts := ArticleTexts(articles); var c := ParseTextToChunks(Some(Document(texts)));
      c == texts && forall k :: 0 <= k < |c| ==> StartsWith(c[k], "제" + NatToString(k + 1) + "조")
  {
    var texts := ArticleTexts(articles);
    forall k | 0 <= k < |texts|
      ensures ArticleBody(texts[k]) && StartsWith(texts[k], "제" + NatToString(k + 1) + "조")
    {
      ArticleWordsText(articles[k], k + 1);
    }
    DocumentChunks(texts);
  }

  /** Seven articles numbered one to seven, given one by one. */
  lemma SevenNumbered(a1: seq<seq<string>>, a2: seq<seq<string>>, a3: seq<seq<string>>,
                      a4: seq<seq<string>>, a5: seq<seq<string>>, a6: seq<seq<string>>,
                      a7: seq<seq<string>>)
    requires ArticleWords(a1, 1) && ArticleWords(a2, 2) && ArticleWords(a3, 3)
    requires ArticleWords(a4, 4) && ArticleWords(a5, 5) && ArticleWords(a6, 6)
    requires ArticleWords(a7, 7)
    ensures var all := [a1, a2, a3, a4, a5, a6, a7];
      forall k :: 0 <= k < |all| ==> ArticleWords(all[k], k + 1)
  {
  }

  /** Article N of the fixture meets `ArticleWords` with number N (one lemma per article keeps
      each proof about the literal text small). */
  lemma DummyArticle1Words()
    ensures ArticleWords(DummyArticle1, 1)
  {
    ArticleWordsIntro(DummyArticle1, 1);
  }

  lemma DummyArticle2Words()
    ensures ArticleWords(DummyArticle2, 2)
  {
    ArticleWordsIntro(DummyArticle2, 2);
  }

  lemma DummyArticle3Words()
    ensures ArticleWords(DummyArticle3, 3)
  {
    ArticleWordsIntro(DummyArticle3, 3);
  }

  lemma DummyArticle4Words()
    ensures ArticleWords(DummyArticle4, 4)
  {
    ArticleWordsIntro(DummyArticle4, 4);
  }

  lemma DummyArticle5Words()
    ensures ArticleWords(DummyArticle5, 5)
  {
    ArticleWordsIntro(DummyArticle5, 5);
  }

  lemma DummyArticle6Words()
    ensures ArticleWords(DummyArticle6, 6)
  {
    ArticleWordsIntro(DummyArticle6, 6);
  }

  lemma DummyArticle7Words()
    ensures ArticleWords(DummyArticle7, 7)
  {
    ArticleWordsIntro(DummyArticle7, 7);
  }

  /** The fixture parses into exactly its seven articles, in order, the k-th opening with
      `제k조`. */
  lemma DummyContractSevenArticles()
    ensures ParseTextToChunks(Some(DummyContract)) == DummyArticles
    ensures var c := ParseTextToChunks(Some(DummyContract));
            |c| == 7 && forall k :: 0 <= k < 7 ==> StartsWith(c[k], "제" + NatToString(k + 1) + "조")
  {
    DummyArticle1Words();
    DummyArticle2Words();
    DummyArticle3Words();
    DummyArticle4Words();
    DummyArticle5Words();
    DummyArticle6Words();
    DummyArticle7Words();
    SevenNumbered(DummyArticle1, DummyArticle2, DummyArticle3, DummyArticle4, DummyArticle5,
                  DummyArticle6, DummyArticle7);
    NumberedDocumentChunks(DummyArticleWords);
  }
}
