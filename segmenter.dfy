/** The clause segmenter `parse_text_to_chunks` (src/fast_api.py and its identical copy in
    src/streamlit_test.py): split the contract text in front of every line that starts an
    article `제N조`, strip each piece, and keep the pieces longer than ten characters. */
module Segmenter {
  import opened Text
  import opened Wrappers

  /** Pieces shorter than this many characters (after stripping), or equal to it, are dropped. */
  const MinChunkLength := 10

  function SkipSpaces(s: string, i: nat): (j: nat)
    requires i <= |s|
    ensures i <= j <= |s| && (j == |s| || !IsSpace(s[j]))
    ensures forall k :: i <= k < j ==> IsSpace(s[k])
    decreases |s| - i
  {
    if i < |s| && IsSpace(s[i]) then SkipSpaces(s, i + 1) else i
  }

  function SkipDigits(s: string, i: nat): (j: nat)
    requires i <= |s|
    ensures i <= j <= |s| && (j == |s| || !IsDigit(s[j]))
    ensures forall k :: i <= k < j ==> IsDigit(s[k])
    decreases |s| - i
  {
    if i < |s| && IsDigit(s[i]) then SkipDigits(s, i + 1) else i
  }

  /** `\s*제\s*\d+\s*조` matches at `p`, decided by one left-to-right scan. */
  predicate ArticleHeadAt(s: string, p: nat)
    requires p <= |s|
  {
    var a := SkipSpaces(s, p);
    a < |s| && s[a] == '제' &&
    var b := SkipSpaces(s, a + 1);
    var c := SkipDigits(s, b);
    c > b &&
    var d := SkipSpaces(s, c);
    d < |s| && s[d] == '조'
  }

  /** The zero-width lookahead `(?=\n\s*제\s*\d+\s*조)` succeeds at index `i`. */
  predicate Boundary(s: string, i: nat) {
    i < |s| && s[i] == '\n' && ArticleHeadAt(s, i + 1)
  }

  // ----- the pattern read as a regular expression, with backtracking -----

  ghost predicate Run(s: string, x: int, y: int, digits: bool) {
    0 <= x <= y <= |s| && forall k :: x <= k < y ==> if digits then IsDigit(s[k]) else IsSpace(s[k])
  }

  /** One way of matching `\s*제\s*\d+\s*조` at `p`: `제` at `a`, the digits in `[b, c)`,
      `조` at `d`, whitespace everywhere else. */
  ghost predicate HeadParts(s: string, p: int, a: int, b: int, c: int, d: int) {
    Run(s, p, a, false) && a < |s| && s[a] == '제'
    && Run(s, a + 1, b, false) && b < c && Run(s, b, c, true)
    && Run(s, c, d, false) && d < |s| && s[d] == '조'
  }

  lemma {:induction false} SkipSpacesExact(s: string, i: nat, j: nat)
    requires Run(s, i, j, false) && j < |s| && !IsSpace(s[j])
    ensures SkipSpaces(s, i) == j
    decreases j - i
  {
    if i < j { SkipSpacesExact(s, i + 1, j); }
  }

  lemma {:induction false} SkipDigitsExact(s: string, i: nat, j: nat)
    requires Run(s, i, j, true) && j < |s| && !IsDigit(s[j])
    ensures SkipDigits(s, i) == j
    decreases j - i
  {
    if i < j { SkipDigitsExact(s, i + 1, j); }
  }

  /** What the scan accepts is a match of the pattern. */
  lemma ArticleHeadSound(s: string, p: nat)
    requires p <= |s| && ArticleHeadAt(s, p)
    ensures exists a, b, c, d :: HeadParts(s, p, a, b, c, d)
  {
    var a := SkipSpaces(s, p);
    var b := SkipSpaces(s, a + 1);
    var c := SkipDigits(s, b);
    var d := SkipSpaces(s, c);
    assert HeadParts(s, p, a, b, c, d);
  }

  /** The tail `\d+\s*조` of a match: scanning the digits from `b` stops at `c`, and scanning
      the whitespace after them stops at `조`. */
  lemma DigitsThenArticle(s: string, b: int, c: int, d: int)
    requires 0 <= b < c && Run(s, b, c, true) && Run(s, c, d, false) && d < |s| && s[d] == '조'
    ensures SkipDigits(s, b) == c && SkipSpaces(s, c) == d
  {
    if c < d {
      assert IsSpace(s[c]);
      if IsDigit(s[c]) { DigitNotSpace(s[c]); }
    } else {
      assert s[c] == '조';
    }
    SkipDigitsExact(s, b, c);
    assert !IsSpace(s[d]) by { assert s[d] == '조'; }
    SkipSpacesExact(s, c, d);
  }

  /** The head `\s*제\s*` of a match followed by a digit at `b`: scanning the whitespace from
      `p` stops at `제`, and scanning the whitespace after it stops at the first digit. */
  lemma SpacesThenJe(s: string, p: nat, a: int, b: int, c: int)
    requires Run(s, p, a, false) && a < |s| && s[a] == '제'
    requires Run(s, a + 1, b, false) && b < c && Run(s, b, c, true)
    ensures SkipSpaces(s, p) == a && SkipSpaces(s, a + 1) == b
  {
    assert !IsSpace(s[a]) by { assert s[a] == '제'; }
    SkipSpacesExact(s, p, a);
    assert IsDigit(s[b]);
    DigitNotSpace(s[b]);
    SkipSpacesExact(s, a + 1, b);
  }

  /** Every match of the pattern is found by the scan: greedy scanning loses nothing, because
      `제`, the digits and `조` are never whitespace and `조` is not a digit. */
  lemma ArticleHeadComplete(s: string, p: nat, a: int, b: int, c: int, d: int)
    requires p <= |s| && HeadParts(s, p, a, b, c, d)
    ensures ArticleHeadAt(s, p)
  {
    SpacesThenJe(s, p, a, b, c);
    DigitsThenArticle(s, b, c, d);
  }

  /** The scan accepts exactly when some way of matching the pattern exists. */
  lemma ArticleHeadIsPattern(s: string, p: nat)
    requires p <= |s|
    ensures ArticleHeadAt(s, p) <==> exists a, b, c, d :: HeadParts(s, p, a, b, c, d)
  {
    if ArticleHeadAt(s, p) {
      ArticleHeadSound(s, p);
    }
    if exists a, b, c, d :: HeadParts(s, p, a, b, c, d) {
      var a, b, c, d :| HeadParts(s, p, a, b, c, d);
      ArticleHeadComplete(s, p, a, b, c, d);
    }
  }

  // ----- re.split at a zero-width lookahead -----

  /** The split below is stated for any zero-width cut predicate `cut`; the segmenter's is
      `BoundaryAt(s)`. */
  function BoundaryAt(s: string): nat -> bool {
    (j: nat) => Boundary(s, j)
  }

  /** The pieces of `s[start..]`, where the current piece began at `start` and `i` is the next
      index to test for a cut. */
  function SplitFrom(s: string, cut: nat -> bool, start: nat, i: nat): (r: seq<string>)
    requires start <= i <= |s|
    ensures |r| >= 1
    decreases |s| - i
  {
    if i == |s| then [s[start..]]
    else if cut(i) then [s[start..i]] + SplitFrom(s, cut, i, i + 1)
    else SplitFrom(s, cut, start, i + 1)
  }

  /** `re.split(r'(?=\n\s*제\s*\d+\s*조)', s)` (Python 3.7 and later, which split at empty
      matches; a match at index 0 yields a leading empty piece). */
  function RawSplit(s: string): seq<string> {
    SplitFrom(s, BoundaryAt(s), 0, 0)
  }

  /** `pieces` lie end to end in `s` from index `base` to the end of `s`; every piece after the
      first begins at a cut, and no cut lies strictly inside a piece. */
  ghost predicate CutAt(s: string, cut: nat -> bool, base: nat, pieces: seq<string>)
    decreases |pieces|
  {
    |pieces| >= 1 && base + |pieces[0]| <= |s| && s[base..base + |pieces[0]|] == pieces[0]
    && (forall j: nat :: base < j < base + |pieces[0]| ==> !cut(j))
    && if |pieces| == 1 then base + |pieces[0]| == |s|
       else cut(base + |pieces[0]|) && CutAt(s, cut, base + |pieces[0]|, pieces[1..])
  }

  lemma {:induction false} SplitFromCuts(s: string, cut: nat -> bool, start: nat, i: nat)
    requires start <= i <= |s|
    requires forall j: nat :: start < j < i ==> !cut(j)
    ensures CutAt(s, cut, start, SplitFrom(s, cut, start, i))
    decreases |s| - i
  {
    if i == |s| {
    } else if cut(i) {
      SplitFromCuts(s, cut, i, i + 1);
      var rest := SplitFrom(s, cut, i, i + 1);
      assert ([s[start..i]] + rest)[1..] == rest;
    } else {
      SplitFromCuts(s, cut, start, i + 1);
    }
  }

  /** The split cuts `s` exactly at the article markers: in front of each, never inside a
      piece; a marker at index 0 gives a leading empty piece. */
  lemma RawSplitCutsAtBoundaries(s: string)
    ensures CutAt(s, BoundaryAt(s), 0, RawSplit(s))
    ensures Boundary(s, 0) ==> RawSplit(s)[0] == ""
  {
    SplitFromCuts(s, BoundaryAt(s), 0, 0);
  }

  lemma {:induction false} SplitFromConcat(s: string, cut: nat -> bool, start: nat, i: nat)
    requires start <= i <= |s|
    ensures Concat(SplitFrom(s, cut, start, i)) == s[start..]
    decreases |s| - i
  {
    if i == |s| {
      calc {
        Concat([s[start..]]);
        { assert [s[start..]][1..] == []; }
        s[start..] + Concat([]);
      }
    } else if cut(i) {
      SplitFromConcat(s, cut, i, i + 1);
      var rest := SplitFrom(s, cut, i, i + 1);
      calc {
        Concat([s[start..i]] + rest);
        { assert ([s[start..i]] + rest)[1..] == rest; }
        s[start..i] + Concat(rest);
        s[start..i] + s[i..];
        { assert s[start..] == s[start..i] + s[i..]; }
        s[start..];
      }
    } else {
      SplitFromConcat(s, cut, start, i + 1);
    }
  }

  lemma {:induction false} SplitFromPieces(s: string, cut: nat -> bool, start: nat, i: nat)
    requires start <= i <= |s|
    requires forall j: nat :: j < |s| && cut(j) ==> s[j] == '\n'
    ensures start < i ==> |SplitFrom(s, cut, start, i)[0]| > 0
    ensures |SplitFrom(s, cut, start, i)[0]| > 0 ==> SplitFrom(s, cut, start, i)[0][0] == s[start]
    ensures forall k :: 0 < k < |SplitFrom(s, cut, start, i)| ==>
              |SplitFrom(s, cut, start, i)[k]| > 0 && SplitFrom(s, cut, start, i)[k][0] == '\n'
    decreases |s| - i
  {
    if i == |s| {
    } else if cut(i) {
      SplitFromPieces(s, cut, i, i + 1);
      var rest := SplitFrom(s, cut, i, i + 1);
      var r := [s[start..i]] + rest;
      forall k | 0 < k < |r| ensures |r[k]| > 0 && r[k][0] == '\n' {
        assert r[k] == rest[k - 1];
      }
    } else {
      SplitFromPieces(s, cut, start, i + 1);
    }
  }

  /** The split is lossless and keeps each article marker at the start of the piece that
      follows the cut: concatenating the pieces gives `s` back, and every piece after the
      first begins with the marker's newline. */
  lemma RawSplitLossless(s: string)
    ensures Concat(RawSplit(s)) == s
    ensures forall k :: 0 < k < |RawSplit(s)| ==> |RawSplit(s)[k]| > 0 && RawSplit(s)[k][0] == '\n'
  {
    SplitFromConcat(s, BoundaryAt(s), 0, 0);
    SplitFromPieces(s, BoundaryAt(s), 0, 0);
    assert s[0..] == s;
  }

  lemma {:induction false} SplitFromNoCut(s: string, cut: nat -> bool, start: nat, i: nat)
    requires start <= i <= |s|
    requires forall j: nat :: i <= j < |s| ==> !cut(j)
    ensures SplitFrom(s, cut, start, i) == [s[start..]]
    decreases |s| - i
  {
    if i < |s| { SplitFromNoCut(s, cut, start, i + 1); }
  }

  // ----- the comprehension over the pieces -----

  /** What the comprehension contributes for one piece: its stripped form, if that is longer
      than ten characters. */
  function Keep(piece: string): seq<string> {
    var c := Strip(piece);
    if |c| > MinChunkLength then [c] else []
  }

  /** What `f` makes of each piece, in order. */
  function FlatMap(pieces: seq<string>, f: string -> seq<string>): seq<string> {
    if pieces == [] then []
    else f(pieces[0]) + FlatMap(pieces[1..], f)
  }

  lemma {:induction false} FlatMapAppend(a: seq<string>, b: seq<string>, f: string -> seq<string>)
    ensures FlatMap(a + b, f) == FlatMap(a, f) + FlatMap(b, f)
  {
    if a != [] {
      FlatMapAppend(a[1..], b, f);
      var ab := a + b;
      assert ab[0] == a[0] && ab[1..] == a[1..] + b;
      calc {
        FlatMap(ab, f);
        f(a[0]) + (FlatMap(a[1..], f) + FlatMap(b, f));
        (f(a[0]) + FlatMap(a[1..], f)) + FlatMap(b, f);
      }
    } else {
      assert a + b == b;
    }
  }

  /** `[c.strip() for c in pieces if len(c.strip()) > 10]`. */
  function CleanChunks(pieces: seq<string>): seq<string> {
    FlatMap(pieces, Keep)
  }

  /** No more chunks than pieces, and every chunk is stripped and longer than ten characters. */
  lemma {:induction false} CleanChunksShape(pieces: seq<string>)
    ensures |CleanChunks(pieces)| <= |pieces|
    ensures forall k :: 0 <= k < |CleanChunks(pieces)| ==>
              |CleanChunks(pieces)[k]| > MinChunkLength && IsStripped(CleanChunks(pieces)[k])
  {
    if pieces != [] {
      CleanChunksShape(pieces[1..]);
      var head := Keep(pieces[0]);
      var rest := CleanChunks(pieces[1..]);
      forall k | 0 <= k < |head + rest|
        ensures |(head + rest)[k]| > MinChunkLength && IsStripped((head + rest)[k])
      {
        if k >= |head| { assert (head + rest)[k] == rest[k - |head|]; }
      }
    }
  }

  /** Every chunk is the stripped form of one of the pieces. */
  lemma {:induction false} CleanChunksFromPieces(pieces: seq<string>, k: nat)
    requires k < |CleanChunks(pieces)|
    ensures exists j :: 0 <= j < |pieces| && CleanChunks(pieces)[k] == Strip(pieces[j])
  {
    var head := Keep(pieces[0]);
    var rest := CleanChunks(pieces[1..]);
    if k < |head| {
      assert CleanChunks(pieces)[k] == Strip(pieces[0]);
    } else {
      CleanChunksFromPieces(pieces[1..], k - |head|);
      var j :| 0 <= j < |pieces[1..]| && rest[k - |head|] == Strip(pieces[1..][j]);
      assert pieces[1..][j] == pieces[j + 1];
    }
  }

  /** The filter keeps document order: chunks of a prefix come before chunks of what follows. */
  lemma CleanChunksAppend(a: seq<string>, b: seq<string>)
    ensures CleanChunks(a + b) == CleanChunks(a) + CleanChunks(b)
  {
    FlatMapAppend(a, b, Keep);
  }

  /** `parse_text_to_chunks(text)`; `None` is Python's `None`. */
  function ParseTextToChunks(text: Option<string>): (r: seq<string>)
    ensures text == None || text == Some("") ==> r == []
  {
    match text
    case None => []
    case Some(t) => if t == "" then [] else CleanChunks(RawSplit(t))
  }

  /** Every chunk is stripped, longer than ten characters, and the stripped form of one of the
      pieces of the split, and there are no more chunks than pieces. */
  lemma ChunksAreCleanPieces(t: string)
    requires t != ""
    ensures |ParseTextToChunks(Some(t))| <= |RawSplit(t)|
    ensures forall k :: 0 <= k < |ParseTextToChunks(Some(t))| ==>
              |ParseTextToChunks(Some(t))[k]| > MinChunkLength && IsStripped(ParseTextToChunks(Some(t))[k])
              && exists j :: 0 <= j < |RawSplit(t)| && ParseTextToChunks(Some(t))[k] == Strip(RawSplit(t)[j])
  {
    CleanChunksShape(RawSplit(t));
    forall k | 0 <= k < |ParseTextToChunks(Some(t))|
      ensures exists j :: 0 <= j < |RawSplit(t)| && ParseTextToChunks(Some(t))[k] == Strip(RawSplit(t)[j])
    {
      CleanChunksFromPieces(RawSplit(t), k);
    }
  }

  /** Text without any article marker gives at most one chunk: the whole text, stripped. */
  lemma NoMarkerOneChunk(t: string)
    requires forall i :: !Boundary(t, i)
    ensures ParseTextToChunks(Some(t)) == if |Strip(t)| > MinChunkLength then [Strip(t)] else []
  {
    SplitFromNoCut(t, BoundaryAt(t), 0, 0);
    assert t[0..] == t;
    if t != "" {
      calc {
        CleanChunks([t]);
        { assert [t][1..] == []; }
        Keep(t) + CleanChunks([]);
      }
    }
  }

  // ----- a document made of whole articles -----

  /** A character a line may start with so that the newline in front of it is no article
      marker. */
  predicate PlainStart(c: char) {
    !IsSpace(c) && c != '제'
  }

  predicate NewlineAt(b: string, j: int) {
    0 <= j < |b| && b[j] == '\n'
  }

  /** Every newline inside `b` is followed by a character that cannot begin a marker. */
  predicate QuietNewlines(b: string) {
    forall j :: 0 <= j < |b| && NewlineAt(b, j) ==> j + 1 < |b| && PlainStart(b[j + 1])
  }

  /** The text of one article as the segmenter should return it: it opens with `제N조` for a
      one-digit N, ends in a non-space character, is longer than ten characters, and none of
      its own lines looks like the start of another article. */
  predicate ArticleBody(b: string) {
    |b| > MinChunkLength && b[0] == '제' && IsDigit(b[1]) && b[2] == '조'
    && !IsSpace(b[|b| - 1]) && QuietNewlines(b)
  }

  predicate AllArticles(bodies: seq<string>) {
    forall k :: 0 <= k < |bodies| ==> ArticleBody(bodies[k])
  }

  /** Articles laid out one after another, each preceded and followed by a newline, so that a
      blank line separates neighbours. */
  function Document(bodies: seq<string>): (d: string)
    ensures |d| >= 2 * |bodies|
  {
    if bodies == [] then "" else "\n" + bodies[0] + "\n" + Document(bodies[1..])
  }

  /** The pieces `re.split` should make of `Document(bodies)` after its leading empty piece: each
      article with the newline in front of it, and between two articles the lone newline that
      ends the first (both newlines of the blank line are markers). */
  function ArticlePieces(bodies: seq<string>): seq<string>
    requires bodies != []
  {
    if |bodies| == 1 then ["\n" + bodies[0] + "\n"]
    else ["\n" + bodies[0], "\n"] + ArticlePieces(bodies[1..])
  }

  /** `제`, one digit and `조` start at index `p`. */
  predicate HeadAt(s: string, p: nat) {
    p + 2 < |s| && s[p] == '제' && IsDigit(s[p + 1]) && s[p + 2] == '조'
  }

  /** What a document proof needs to know of a cut predicate on `s`: it never cuts at a
      character other than a newline, nor in front of a plain character, nor at the last
      character, and it cuts at a newline followed by `제`, one digit and `조`, directly or after
      one more newline. */
  ghost predicate MarkerCut(s: string, cut: nat -> bool) {
    (forall j: nat {:trigger cut(j)} :: j < |s| && s[j] != '\n' ==> !cut(j))
    && (forall j: nat {:trigger cut(j)} :: j + 1 < |s| && PlainStart(s[j + 1]) ==> !cut(j))
    && (|s| > 0 ==> !cut(|s| - 1))
    && (forall j: nat {:trigger cut(j)} :: j < |s| && s[j] == '\n' && HeadAt(s, j + 1) ==> cut(j))
    && (forall j: nat {:trigger cut(j)} ::
          j + 1 < |s| && s[j] == '\n' && s[j + 1] == '\n' && HeadAt(s, j + 2) ==> cut(j))
  }

  /** A newline followed by optional whitespace and then `제`, one digit and `조` is a marker. */
  lemma HeadIsBoundary(s: string, i: nat, p: nat)
    requires i < p && p + 3 <= |s| && s[i] == '\n'
    requires forall k :: i < k < p ==> IsSpace(s[k])
    requires s[p] == '제' && IsDigit(s[p + 1]) && s[p + 2] == '조'
    ensures Boundary(s, i)
  {
    SkipSpacesExact(s, i + 1, p);
    DigitNotSpace(s[p + 1]);
    assert SkipSpaces(s, p + 1) == p + 1;
    assert SkipDigits(s, p + 2) == p + 2;
    assert SkipDigits(s, p + 1) == p + 2;
    assert SkipSpaces(s, p + 2) == p + 2;
  }

  /** A newline followed by a character that cannot start a marker is no marker. */
  lemma PlainNewlineNoBoundary(s: string, i: nat)
    requires i + 1 < |s| && PlainStart(s[i + 1])
    ensures !Boundary(s, i)
  {
    assert SkipSpaces(s, i + 1) == i + 1;
  }

  /** The segmenter's markers have the properties `MarkerCut` asks for. */
  lemma BoundaryIsMarkerCut(s: string)
    ensures MarkerCut(s, BoundaryAt(s))
  {
    PlainNewlinesNoBoundary(s);
    HeadsAreBoundaries(s);
  }

  lemma PlainNewlinesNoBoundary(s: string)
    ensures forall j: nat :: j + 1 < |s| && PlainStart(s[j + 1]) ==> !Boundary(s, j)
  {
    forall j: nat | j + 1 < |s| && PlainStart(s[j + 1]) ensures !Boundary(s, j) {
      PlainNewlineNoBoundary(s, j);
    }
  }

  lemma HeadsAreBoundaries(s: string)
    ensures forall j: nat :: j < |s| && s[j] == '\n' && HeadAt(s, j + 1) ==> Boundary(s, j)
    ensures forall j: nat :: j + 1 < |s| && s[j] == '\n' && s[j + 1] == '\n' && HeadAt(s, j + 2) ==> Boundary(s, j)
  {
    forall j: nat | j < |s| && s[j] == '\n' && HeadAt(s, j + 1) ensures Boundary(s, j) {
      HeadIsBoundary(s, j, j + 1);
    }
    forall j: nat | j + 1 < |s| && s[j] == '\n' && s[j + 1] == '\n' && HeadAt(s, j + 2) ensures Boundary(s, j) {
      HeadIsBoundary(s, j, j + 2);
    }
  }

  /** Past the last cut before `e`, the split goes straight to the cut at `e`. */
  lemma {:induction false} SplitFromUpTo(s: string, cut: nat -> bool, start: nat, i: nat, e: nat)
    requires start <= i <= e < |s|
    requires forall j: nat :: i <= j < e ==> !cut(j)
    requires cut(e)
    ensures SplitFrom(s, cut, start, i) == [s[start..e]] + SplitFrom(s, cut, e, e + 1)
    decreases e - i
  {
    if i < e { SplitFromUpTo(s, cut, start, i + 1, e); }
  }

  /** Cuts at `e` and `e + 1` and none in between from `o + 1` make two pieces. */
  lemma TwoCuts(s: string, cut: nat -> bool, o: nat, e: nat)
    requires o < e && e + 2 <= |s|
    requires forall j: nat :: o + 1 <= j < e ==> !cut(j)
    requires cut(e) && cut(e + 1)
    ensures SplitFrom(s, cut, o, o + 1) == [s[o..e], s[e..e + 1]] + SplitFrom(s, cut, e + 1, e + 2)
  {
    SplitFromUpTo(s, cut, o, o + 1, e);
    SplitFromUpTo(s, cut, e, e + 1, e + 1);
    var tail := SplitFrom(s, cut, e + 1, e + 2);
    assert [s[o..e]] + ([s[e..e + 1]] + tail) == [s[o..e], s[e..e + 1]] + tail;
  }

  /** Where the first article of a document sits, read from index `o` of `s`. */
  lemma DocumentLayout(s: string, o: nat, bodies: seq<string>)
    requires bodies != [] && o <= |s| && s[o..] == Document(bodies)
    ensures var e := o + 1 + |bodies[0]|;
      e < |s| && s[o] == '\n' && s[o + 1..e] == bodies[0] && s[e] == '\n'
      && s[e + 1..] == Document(bodies[1..])
  {
    var n := |bodies[0]|;
    var d := Document(bodies);
    DocumentHead(bodies);
    SuffixSlice(s, o, 0, 1);
    SuffixSlice(s, o, 1, 1 + n);
    SuffixSlice(s, o, 1 + n, 2 + n);
    SuffixSlice(s, o, 2 + n, |d|);
  }

  /** The pieces of a non-empty document: a newline, the first article, a newline, the rest. */
  lemma DocumentHead(bodies: seq<string>)
    requires bodies != []
    ensures var d, n := Document(bodies), |bodies[0]|;
      |d| >= n + 2 && d[..1] == "\n" && d[1..1 + n] == bodies[0] && d[1 + n..2 + n] == "\n"
      && d[2 + n..] == Document(bodies[1..])
  {
    var d := Document(bodies);
    assert d == "\n" + bodies[0] + "\n" + Document(bodies[1..]);
    ConcatSlices("\n", bodies[0], "\n", Document(bodies[1..]));
  }

  /** The four parts of a concatenation are slices of it. */
  lemma ConcatSlices(a: string, b: string, c: string, r: string)
    ensures var x, i, j, k := a + b + c + r, |a|, |a| + |b|, |a| + |b| + |c|;
      x[..i] == a && x[i..j] == b && x[j..k] == c && x[k..] == r
  {
    var x := a + b + c + r;
    assert x == (a + b) + (c + r);
    assert x[|a| + |b|..] == c + r;
  }

  /** A slice of a suffix of `s` is a slice of `s`. */
  lemma SuffixSlice(s: string, o: nat, i: nat, j: nat)
    requires o <= |s| && i <= j <= |s| - o
    ensures s[o..][i..j] == s[o + i..o + j]
  {
  }

  /** A marker cut falls nowhere inside an article's text. */
  lemma BodyHasNoCut(s: string, cut: nat -> bool, o: nat, b: string)
    requires MarkerCut(s, cut) && ArticleBody(b) && o + |b| <= |s| && s[o..o + |b|] == b
    ensures forall j: nat :: o <= j < o + |b| ==> !cut(j)
  {
    forall j: nat | o <= j < o + |b| ensures !cut(j) {
      assert s[j] == b[j - o];
      if s[j] == '\n' {
        assert NewlineAt(b, j - o);
        assert s[j + 1] == b[j - o + 1];
      }
    }
  }

  /** A document opens with a marker cut. */
  lemma FirstArticleCut(s: string, cut: nat -> bool, bodies: seq<string>)
    requires MarkerCut(s, cut) && bodies != [] && ArticleBody(bodies[0]) && s == Document(bodies)
    ensures cut(0)
  {
    var b := bodies[0];
    assert s[0..] == s;
    DocumentLayout(s, 0, bodies);
    assert s[1..1 + |b|] == b;
    assert s[1] == b[0] && s[2] == b[1] && s[3] == b[2];
    assert HeadAt(s, 1);
  }

  /** Between two articles, both newlines of the blank line are marker cuts. */
  lemma BlankLineCuts(s: string, cut: nat -> bool, e: nat, rest: seq<string>)
    requires MarkerCut(s, cut) && rest != [] && ArticleBody(rest[0])
    requires e + 1 <= |s| && s[e] == '\n' && s[e + 1..] == Document(rest)
    ensures cut(e) && cut(e + 1)
  {
    var n := rest[0];
    DocumentLayout(s, e + 1, rest);
    assert s[e + 2..e + 2 + |n|] == n;
    assert s[e + 1] == '\n' && s[e + 2] == n[0] && s[e + 3] == n[1] && s[e + 4] == n[2];
    assert HeadAt(s, e + 2);
  }

  /** From the newline in front of an article onwards, a document cut at its markers splits into
      the article pieces. */
  lemma {:induction false} DocumentSplitFrom(s: string, cut: nat -> bool, o: nat, bodies: seq<string>)
    requires MarkerCut(s, cut) && bodies != [] && AllArticles(bodies)
    requires o <= |s| && s[o..] == Document(bodies)
    ensures SplitFrom(s, cut, o, o + 1) == ArticlePieces(bodies)
    decreases |bodies|
  {
    assert ArticleBody(bodies[0]);
    if |bodies| == 1 {
      LastArticlePiece(s, cut, o, bodies);
      assert ArticlePieces(bodies) == ["\n" + bodies[0] + "\n"];
    } else {
      assert ArticleBody(bodies[1]);
      assert ArticlePieces(bodies) == ["\n" + bodies[0], "\n"] + ArticlePieces(bodies[1..]);
      var e := NextArticlePieces(s, cut, o, bodies);
      assert AllArticles(bodies[1..]) by {
        assert forall k :: 0 <= k < |bodies[1..]| ==> bodies[1..][k] == bodies[k + 1];
      }
      DocumentSplitFrom(s, cut, e + 1, bodies[1..]);
    }
  }

  /** The last article of a document is one piece, with the newlines on both sides. */
  lemma LastArticlePiece(s: string, cut: nat -> bool, o: nat, bodies: seq<string>)
    requires MarkerCut(s, cut) && |bodies| == 1 && ArticleBody(bodies[0])
    requires o <= |s| && s[o..] == Document(bodies)
    ensures SplitFrom(s, cut, o, o + 1) == ["\n" + bodies[0] + "\n"]
  {
    var b := bodies[0];
    var e := o + 1 + |b|;
    DocumentLayout(s, o, bodies);
    BodyHasNoCut(s, cut, o + 1, b);
    assert e + 1 == |s| by {
      assert Document(bodies[1..]) == "";
    }
    SplitFromNoCut(s, cut, o, o + 1);
    assert s[o..] == "\n" + b + "\n";
  }

  /** An article followed by another is a piece of its own, and the newline that ends it is a
      piece too; the split goes on at the blank line's second newline. */
  lemma NextArticlePieces(s: string, cut: nat -> bool, o: nat, bodies: seq<string>) returns (e: nat)
    requires MarkerCut(s, cut) && |bodies| > 1 && ArticleBody(bodies[0]) && ArticleBody(bodies[1])
    requires o <= |s| && s[o..] == Document(bodies)
    ensures e == o + 1 + |bodies[0]| && e + 1 < |s| && s[e + 1..] == Document(bodies[1..])
    ensures SplitFrom(s, cut, o, o + 1) == ["\n" + bodies[0], "\n"] + SplitFrom(s, cut, e + 1, e + 2)
  {
    var b, rest := bodies[0], bodies[1..];
    e := o + 1 + |b|;
    DocumentLayout(s, o, bodies);
    BodyHasNoCut(s, cut, o + 1, b);
    assert s[o..e] == "\n" + b by {
      assert s[o..e] == [s[o]] + s[o + 1..e];
    }
    assert ArticleBody(rest[0]);
    BlankLineCuts(s, cut, e, rest);
    TwoCuts(s, cut, o, e);
    assert s[e..e + 1] == "\n";
  }

  /** A document cut at its markers splits into an empty piece (the marker at index 0) followed
      by the article pieces. */
  lemma DocumentSplit(s: string, cut: nat -> bool, bodies: seq<string>)
    requires MarkerCut(s, cut) && bodies != [] && AllArticles(bodies) && s == Document(bodies)
    ensures SplitFrom(s, cut, 0, 0) == [""] + ArticlePieces(bodies)
  {
    assert ArticleBody(bodies[0]);
    FirstArticleCut(s, cut, bodies);
    SplitFromUpTo(s, cut, 0, 0, 0);
    assert s[0..] == s;
    DocumentSplitFrom(s, cut, 0, bodies);
  }

  /** Filtering the article pieces gives the articles back, in order. */
  lemma {:induction false} ArticlePiecesChunks(bodies: seq<string>)
    requires bodies != [] && AllArticles(bodies)
    ensures CleanChunks(ArticlePieces(bodies)) == bodies
    decreases |bodies|
  {
    var b := bodies[0];
    assert ArticleBody(b);
    assert IsStripped(b);
    StripAround("\n", b, "\n");
    StripAround("\n", b, "");
    assert "\n" + b + "" == "\n" + b;
    if |bodies| == 1 {
      assert ArticlePieces(bodies) == ["\n" + b + "\n"];
      assert Keep("\n" + b + "\n") == [b];
      assert ["\n" + b + "\n"][1..] == [];
      assert CleanChunks(["\n" + b + "\n"]) == Keep("\n" + b + "\n") + CleanChunks([]);
    } else {
      StripAround("\n", "", "");
      assert "\n" + "" + "" == "\n";
      assert AllArticles(bodies[1..]) by {
        assert forall k :: 0 <= k < |bodies[1..]| ==> bodies[1..][k] == bodies[k + 1];
      }
      ArticlePiecesChunks(bodies[1..]);
      CleanChunksAppend(["\n" + b, "\n"], ArticlePieces(bodies[1..]));
      CleanChunksAppend(["\n" + b], ["\n"]);
      assert CleanChunks(["\n" + b]) == Keep("\n" + b) + CleanChunks([]);
      assert CleanChunks(["\n"]) == Keep("\n") + CleanChunks([]);
      assert ["\n" + b] + ["\n"] == ["\n" + b, "\n"];
    }
  }

  /** A document made of whole articles parses into exactly those articles, in order: the
      marker at its start only adds an empty piece, and the blank lines between articles
      only add pieces the length filter drops. */
  lemma DocumentChunks(bodies: seq<string>)
    requires bodies != [] && AllArticles(bodies)
    ensures ParseTextToChunks(Some(Document(bodies))) == bodies
  {
    var s := Document(bodies);
    BoundaryIsMarkerCut(s);
    DocumentSplit(s, BoundaryAt(s), bodies);
    CleanChunksAppend([""], ArticlePieces(bodies));
    ArticlePiecesChunks(bodies);
    assert CleanChunks([""]) == [] by {
      assert Strip("") == "";
      assert CleanChunks([""]) == Keep("") + CleanChunks([]);
    }
  }

  /** The lines of an article joined with newlines: the first line's head and the last line's
      end stay at the ends, and no inner newline starts a marker when every line after the
      first starts with a plain character. */
  lemma {:induction false} JoinedLines(lines: seq<string>)
    requires |lines| >= 1
    requires forall k :: 0 <= k < |lines| ==> lines[k] != "" && '\n' !in lines[k]
    requires forall k :: 1 <= k < |lines| ==> PlainStart(lines[k][0])
    ensures var j := Join(lines, "\n"); var last := lines[|lines| - 1];
      |lines[0]| <= |j| && j[..|lines[0]|] == lines[0]
      && |last| <= |j| && j[|j| - |last|..] == last && QuietNewlines(j)
  {
    var j := Join(lines, "\n");
    if |lines| > 1 {
      var rest := lines[1..];
      JoinedLines(rest);
      var t := Join(rest, "\n");
      assert j == lines[0] + "\n" + t;
      assert rest[0] == lines[1] && rest[|rest| - 1] == lines[|lines| - 1];
      forall i | 0 <= i < |lines[0]| ensures j[i] != '\n' {
        assert j[i] == lines[0][i];
        assert lines[0][i] in lines[0];
      }
      forall i | |lines[0]| < i < |j| && j[i] == '\n' ensures i + 1 < |j| && PlainStart(j[i + 1]) {
        assert j[i] == t[i - |lines[0]| - 1];
        assert NewlineAt(t, i - |lines[0]| - 1);
      }
      assert j[|lines[0]| + 1] == t[0] == t[..|rest[0]|][0] == lines[1][0];
      assert j[|j| - |lines[|lines| - 1]|..] == t[|t| - |lines[|lines| - 1]|..];
    } else {
      forall i | 0 <= i < |j| ensures j[i] != '\n' {
        assert j[i] in lines[0];
      }
    }
  }

  /** Lines that meet the conditions of `JoinedLines`, with an article head first and a last
      line longer than ten characters ending in a non-space, join into an article's text. */
  lemma ArticleFromLines(lines: seq<string>)
    requires |lines| >= 1 && |lines[0]| >= 3
    requires forall k :: 0 <= k < |lines| ==> lines[k] != "" && '\n' !in lines[k]
    requires forall k :: 1 <= k < |lines| ==> PlainStart(lines[k][0])
    requires lines[0][0] == '제' && IsDigit(lines[0][1]) && lines[0][2] == '조'
    requires |lines[|lines| - 1]| > MinChunkLength
    requires !IsSpace(lines[|lines| - 1][|lines[|lines| - 1]| - 1])
    ensures ArticleBody(Join(lines, "\n"))
    ensures Join(lines, "\n")[..3] == lines[0][..3]
  {
    JoinedLines(lines);
    var j := Join(lines, "\n");
    var last := lines[|lines| - 1];
    assert j[0] == lines[0][0] && j[1] == lines[0][1] && j[2] == lines[0][2];
    assert j[|j| - 1] == last[|last| - 1];
  }
}
