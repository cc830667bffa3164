/** Building the administrative-interpretation corpus (src/parser/lawProcessing.py, and its
    single-item variant src/parser/ex.py): the text of each interpretation page is cut between
    its start and end markers and cleaned line by line; the search API is paged through; and
    the metadata stored beside the index is kept in embedding order. The HTTP requests, the
    HTML parsing and the embedding model are parameters or left out. */
module Ingestion {
  import opened Wrappers
  import opened Text

  // ----- cleaning one page -----

  const StartMarker := "【질의요지】"
  const EndMarker1 := "【중앙부처 1차 해석에 대한 안내】"
  const EndMarker2 := "검색조문선택"
  const ExtractionFailed := "콘텐츠 추출 실패"

  /** The text from the first start marker on, or all of it when there is none. */
  function FromStart(text: string): (r: string)
    ensures Contains(text, StartMarker) ==>
              |r| <= |text| && StartsWith(r, StartMarker) && r == text[|text| - |r|..]
              && forall j :: 0 <= j < |text| - |r| ==> !OccursAt(text, StartMarker, j)
    ensures !Contains(text, StartMarker) ==> r == text
  {
    if Contains(text, StartMarker) then
      var i := Find(text, StartMarker);
      assert text[i..][..|StartMarker|] == text[i..i + |StartMarker|];
      text[i..]
    else text
  }

  function Min(a: int, b: int): int {
    if a <= b then a else b
  }

  /** An occurrence in a prefix is an occurrence at the same place in the whole. */
  lemma OccursInPrefix(text: string, e: nat, sub: string, j: int)
    requires e <= |text| && OccursAt(text[..e], sub, j)
    ensures OccursAt(text, sub, j)
  {
    assert text[..e][j..j + |sub|] == text[j..j + |sub|];
  }

  /** `end_index`: where the text is cut, the first occurrence of either end marker, or its
      length when neither occurs. */
  function EndIndex(text: string): (e: nat)
    ensures e <= |text|
    ensures !Contains(text[..e], EndMarker1) && !Contains(text[..e], EndMarker2)
    ensures e < |text| ==> OccursAt(text, EndMarker1, e) || OccursAt(text, EndMarker2, e)
  {
    var e1 := if Contains(text, EndMarker1) then Find(text, EndMarker1) else |text|;
    var e := if Contains(text, EndMarker2) then Min(e1, Find(text, EndMarker2)) else e1;
    forall j ensures !OccursAt(text[..e], EndMarker1, j) && !OccursAt(text[..e], EndMarker2, j) {
      if OccursAt(text[..e], EndMarker1, j) {
        OccursInPrefix(text, e, EndMarker1, j);
      }
      if OccursAt(text[..e], EndMarker2, j) {
        OccursInPrefix(text, e, EndMarker2, j);
      }
    }
    e
  }

  /** The text between the markers, stripped. */
  function CoreText(text: string): string {
    var fromStart := FromStart(text);
    Strip(fromStart[..EndIndex(fromStart)])
  }

  /** What a line is searched for. `re.search` treats the last phrase's final `.` as "any
      character but a newline", so that phrase is a prefix that must be followed by one more
      character. */
  datatype Pattern = Phrase(text: string) | PhraseThenAny(text: string) | Phone

  const LinePatterns: seq<Pattern> :=
    [Phrase("본문 바로가기"), Phrase("고용노동부 누리집"), PhraseThenAny("에서 수집한 데이터입니다"), Phone]

  predicate DigitsAt(line: string, i: nat, n: nat)
    requires i + n <= |line|
  {
    forall k :: i <= k < i + n ==> IsDigit(line[k])
  }

  /** `\d{3}-\d{3}-\d{4}` matches at `i`. */
  predicate PhoneAt(line: string, i: nat)
    requires i + 12 <= |line|
  {
    DigitsAt(line, i, 3) && line[i + 3] == '-' && DigitsAt(line, i + 4, 3) && line[i + 7] == '-'
    && DigitsAt(line, i + 8, 4)
  }

  /** `re.search(pattern, line)` finds a match. */
  predicate Search(p: Pattern, line: string) {
    match p
      case Phrase(t) => Contains(line, t)
      case PhraseThenAny(t) =>
        exists i :: 0 <= i && i + |t| < |line| && OccursAt(line, t, i) && line[i + |t|] != '\n'
      case Phone => exists i: nat :: i + 12 <= |line| && PhoneAt(line, i)
  }

  /** Some pattern among the first ones matches. */
  predicate AnyMatch(patterns: seq<Pattern>, line: string) {
    exists j :: 0 <= j < |patterns| && Search(patterns[j], line)
  }

  /** Which agency-line rule applies: the bulk collector's, or the single-item script's,
      which also asks for the department name. */
  datatype AgencyRule = Bulk | Single

  const AgencyOpen := "고용노동부("
  const PensionDivision := "퇴직연금복지과"

  /** The agency line dropped under each rule. */
  predicate AgencyLine(line: string, rule: AgencyRule) {
    match rule
      case Bulk => Contains(line, AgencyOpen) && |line| < 50
      case Single => Contains(line, AgencyOpen) && Contains(line, PensionDivision) && |line| < 50
  }

  predicate IsNoise(line: string, rule: AgencyRule) {
    AnyMatch(LinePatterns, line) || AgencyLine(line, rule)
  }

  /** The stripped lines that are kept, in order. */
  function KeptLines(pieces: seq<string>, rule: AgencyRule): (r: seq<string>)
    ensures |r| <= |pieces|
    ensures forall k :: 0 <= k < |r| ==> r[k] != "" && IsStripped(r[k]) && !IsNoise(r[k], rule)
  {
    if pieces == [] then []
    else
      var line := Strip(pieces[|pieces| - 1]);
      KeptLines(pieces[..|pieces| - 1], rule) + (if line != "" && !IsNoise(line, rule) then [line] else [])
  }

  /** `clean_detail_content(detail_html)`, from the text `soup.body.get_text('\n', strip=True)`
      gives; `None` when the page has no body. */
  function CleanedText(body: Option<string>, rule: AgencyRule): string {
    match body
      case None => ExtractionFailed
      case Some(text) => Join(KeptLines(SplitOn(CoreText(text), '\n'), rule), "\n")
  }

  /** The pattern loop of `clean_detail_content`: stop at the first pattern that matches. */
  method MatchesPattern(line: string) returns (isNoise: bool)
    ensures isNoise <==> AnyMatch(LinePatterns, line)
  {
    isNoise := false;
    for p := 0 to |LinePatterns|
      invariant isNoise <==> exists j :: 0 <= j < p && Search(LinePatterns[j], line)
    {
      if Search(LinePatterns[p], line) {
        isNoise := true;
        break;
      }
    }
  }

  /** The line loop of `clean_detail_content`: strip each piece, skip it when empty, and keep
      it unless a pattern or the agency rule marks it as noise. */
  method FilterLines(pieces: seq<string>, rule: AgencyRule) returns (finalLines: seq<string>)
    ensures finalLines == KeptLines(pieces, rule)
  {
    finalLines := [];
    for k := 0 to |pieces|
      invariant finalLines == KeptLines(pieces[..k], rule)
    {
      assert pieces[..k + 1][..k] == pieces[..k];
      var line := Strip(pieces[k]);
      if line == "" {
        continue;
      }
      var isNoise := MatchesPattern(line);
      if AgencyLine(line, rule) {
        isNoise := true;
      }
      if !isNoise {
        finalLines := finalLines + [line];
      }
    }
    assert pieces[..|pieces|] == pieces;
  }

  /** `clean_detail_content`: cut after the start marker, cut at the first end marker, strip,
      and filter the lines. */
  method CleanDetailContent(body: Option<string>, rule: AgencyRule) returns (cleaned: string)
    ensures cleaned == CleanedText(body, rule)
  {
    if body.None? {
      return ExtractionFailed;
    }
    var textContent := body.value;
    if Contains(textContent, StartMarker) {
      textContent := textContent[Find(textContent, StartMarker)..];
    }
    assert textContent == FromStart(body.value);
    var endIndex := |textContent|;
    if Contains(textContent, EndMarker1) {
      endIndex := Min(endIndex, Find(textContent, EndMarker1));
    }
    if Contains(textContent, EndMarker2) {
      endIndex := Min(endIndex, Find(textContent, EndMarker2));
    }
    assert endIndex == EndIndex(textContent);
    textContent := Strip(textContent[..endIndex]);
    var finalLines := FilterLines(SplitOn(textContent, '\n'), rule);
    cleaned := Join(finalLines, "\n");
  }

  /** The filter keeps order: filtering a concatenation filters each part in turn. */
  lemma {:induction false} KeptLinesAppend(a: seq<string>, b: seq<string>, rule: AgencyRule)
    ensures KeptLines(a + b, rule) == KeptLines(a, rule) + KeptLines(b, rule)
  {
    if b == [] {
      assert a + b == a;
    } else {
      var init := b[..|b| - 1];
      var line := Strip(b[|b| - 1]);
      var keep := if line != "" && !IsNoise(line, rule) then [line] else [];
      assert (a + b)[..|a + b| - 1] == a + init && (a + b)[|a + b| - 1] == b[|b| - 1];
      calc {
        KeptLines(a + b, rule);
        KeptLines(a + init, rule) + keep;
        { KeptLinesAppend(a, init, rule); }
        KeptLines(a, rule) + KeptLines(init, rule) + keep;
        KeptLines(a, rule) + (KeptLines(init, rule) + keep);
      }
    }
  }

  /** A kept line is a stripped piece, so whatever occurs in it occurs in some piece. */
  lemma {:induction false} KeptLinesFromPieces(pieces: seq<string>, rule: AgencyRule, sub: string)
    requires forall k :: 0 <= k < |pieces| ==> !Contains(pieces[k], sub)
    ensures forall k :: 0 <= k < |KeptLines(pieces, rule)| ==> !Contains(KeptLines(pieces, rule)[k], sub)
  {
    if pieces != [] {
      var init := pieces[..|pieces| - 1];
      var last := pieces[|pieces| - 1];
      KeptLinesFromPieces(init, rule, sub);
      var i := StripSlice(last);
      if Contains(Strip(last), sub) {
        ContainsInSlice(last, i, i + |Strip(last)|, sub);
      }
    }
  }

  /** Neither end marker survives the cleaning: not in the core text, not in any kept line,
      and not in the joined output. */
  lemma NoEndMarkerInOutput(text: string, rule: AgencyRule)
    ensures !Contains(CleanedText(Some(text), rule), EndMarker1)
    ensures !Contains(CleanedText(Some(text), rule), EndMarker2)
  {
    CleanedAvoids(text, rule, EndMarker1);
    CleanedAvoids(text, rule, EndMarker2);
  }

  /** The cut text holds no end marker. */
  lemma CutAvoids(t: string, m: string)
    requires m == EndMarker1 || m == EndMarker2
    ensures !Contains(t[..EndIndex(t)], m)
  {
  }

  /** What a text avoids, its stripped form avoids. */
  lemma StripAvoids(s: string, m: string)
    requires !Contains(s, m)
    ensures !Contains(Strip(s), m)
  {
    var i := StripSlice(s);
    if Contains(Strip(s), m) {
      ContainsInSlice(s, i, i + |Strip(s)|, m);
    }
  }

  /** An end marker is not in the core text: the cut ends before its first occurrence. */
  lemma CoreAvoids(text: string, m: string)
    requires m == EndMarker1 || m == EndMarker2
    ensures !Contains(CoreText(text), m)
  {
    var fromStart := FromStart(text);
    CutAvoids(fromStart, m);
    StripAvoids(fromStart[..EndIndex(fromStart)], m);
  }

  /** What a text avoids, each of its lines avoids. */
  lemma LinesAvoid(s: string, m: string)
    requires !Contains(s, m)
    ensures forall k :: 0 <= k < |SplitOn(s, '\n')| ==> !Contains(SplitOn(s, '\n')[k], m)
  {
    var pieces := SplitOn(s, '\n');
    JoinSplitOn(s, '\n');
    forall k | 0 <= k < |pieces| ensures !Contains(pieces[k], m) {
      if Contains(pieces[k], m) {
        ContainsInJoin(pieces, ['\n'], k, m);
      }
    }
  }

  /** The filtered and joined lines of a text avoid what the text avoids. */
  lemma FilteredAvoids(core: string, rule: AgencyRule, m: string)
    requires m == EndMarker1 || m == EndMarker2
    requires !Contains(core, m)
    ensures !Contains(Join(KeptLines(SplitOn(core, '\n'), rule), "\n"), m)
  {
    LinesAvoid(core, m);
    KeptLinesFromPieces(SplitOn(core, '\n'), rule, m);
    JoinAvoids(KeptLines(SplitOn(core, '\n'), rule), '\n', m);
  }

  lemma CleanedAvoids(text: string, rule: AgencyRule, m: string)
    requires m == EndMarker1 || m == EndMarker2
    ensures !Contains(CleanedText(Some(text), rule), m)
  {
    CoreAvoids(text, m);
    FilteredAvoids(CoreText(text), rule, m);
  }

  /** Neither end marker starts inside a leading start marker. */
  lemma EndNotInStart(t: string, e: int)
    requires StartsWith(t, StartMarker) && 0 <= e < |StartMarker|
    ensures !OccursAt(t, EndMarker1, e) && !OccursAt(t, EndMarker2, e)
  {
    assert t[e] == StartMarker[e] by { assert t[..|StartMarker|][e] == t[e]; }
    assert t[e] != EndMarker2[0];
    if e + |EndMarker2| <= |t| {
      assert t[e..e + |EndMarker2|][0] == t[e];
    }
    if e + 1 < |StartMarker| {
      assert t[e + 1] == StartMarker[e + 1] by { assert t[..|StartMarker|][e + 1] == t[e + 1]; }
      assert t[e + 1] != EndMarker1[1];
      if e + |EndMarker1| <= |t| {
        assert t[e..e + |EndMarker1|][1] == t[e + 1];
      }
    } else {
      assert t[e] != EndMarker1[0];
      if e + |EndMarker1| <= |t| {
        assert t[e..e + |EndMarker1|][0] == t[e];
      }
    }
  }

  /** Stripping keeps a prefix whose first and last characters are not whitespace. */
  lemma StripKeepsHead(s: string, n: nat)
    requires 0 < n <= |s| && !IsSpace(s[0]) && !IsSpace(s[n - 1])
    ensures n <= |Strip(s)| && Strip(s)[..n] == s[..n]
  {
    var i := StripSlice(s);
    assert Strip(s)[..n] == s[i..i + |Strip(s)|][..n];
  }

  /** The start marker, when present, begins the core text: the text before its first
      occurrence is gone. */
  lemma CoreStartsAtMarker(text: string)
    requires Contains(text, StartMarker)
    ensures StartsWith(CoreText(text), StartMarker)
  {
    var fromStart := FromStart(text);
    var e := EndIndex(fromStart);
    if e < |StartMarker| {
      EndNotInStart(fromStart, e);
    }
    var cut := fromStart[..e];
    assert cut[..|StartMarker|] == StartMarker;
    assert cut[0] == StartMarker[0] && cut[|StartMarker| - 1] == StartMarker[|StartMarker| - 1];
    StripKeepsHead(cut, |StartMarker|);
  }

  /** The single-item script drops fewer lines: what it treats as noise the bulk collector does
      too. */
  lemma SingleNoiseIsBulkNoise(line: string)
    ensures IsNoise(line, Single) ==> IsNoise(line, Bulk)
  {
  }

  /** A short line naming the ministry's office but another department is dropped by the bulk
      collector and kept by the single-item script. */
  lemma AgencyRulesDiffer(line: string)
    requires Contains(line, AgencyOpen) && !Contains(line, PensionDivision) && |line| < 50
    requires !AnyMatch(LinePatterns, line)
    ensures IsNoise(line, Bulk) && !IsNoise(line, Single)
  {
  }

  /** Every line the bulk collector keeps, the single-item script keeps as well. */
  lemma {:induction false} BulkKeptAlsoSingleKept(pieces: seq<string>)
    ensures forall x :: x in KeptLines(pieces, Bulk) ==> x in KeptLines(pieces, Single)
  {
    if pieces != [] {
      BulkKeptAlsoSingleKept(pieces[..|pieces| - 1]);
    }
  }

  // ----- the search API -----

  const BaseUrl := "http://www.law.go.kr"
  const MaxRows := 20
  const SourceType := "행정해석"

  /** One entry of `cgmExpc`; a missing key is `None`. */
  datatype Item = Item(
    serial: Option<string>, title: Option<string>, link: Option<string>,
    issueDate: Option<string>, agency: Option<string>)

  /** One collected record. */
  datatype Extracted = Extracted(
    sourceId: Option<string>, sourceType: string, title: Option<string>,
    issueDate: Option<string>, agency: Option<string>, contentRaw: string, detailUrl: string)

  /** `f"{x}"`: `None` formats as `None`. */
  function Format(x: Option<string>): string {
    match x
      case None => "None"
      case Some(s) => s
  }

  /** `f"{BASE_URL}{detail_link}"`. */
  function DetailUrl(link: Option<string>): (u: string)
    ensures StartsWith(u, BaseUrl) && u[|BaseUrl|..] == Format(link)
  {
    assert (BaseUrl + Format(link))[..|BaseUrl|] == BaseUrl;
    BaseUrl + Format(link)
  }

  /** The record of one item; `fetchDetail` is `fetch_and_clean_detail_content`. */
  function ExtractItem(item: Item, fetchDetail: string -> string): (r: Extracted)
    ensures r.detailUrl == DetailUrl(item.link) && r.contentRaw == fetchDetail(r.detailUrl)
    ensures r.sourceId == item.serial && r.title == item.title && r.sourceType == SourceType
  {
    var url := DetailUrl(item.link);
    Extracted(item.serial, SourceType, item.title, item.issueDate, item.agency, fetchDetail(url), url)
  }

  function ExtractAll(items: seq<Item>, fetchDetail: string -> string): (r: seq<Extracted>)
    ensures |r| == |items| && forall k :: 0 <= k < |r| ==> r[k] == ExtractItem(items[k], fetchDetail)
  {
    seq(|items|, k requires 0 <= k < |items| => ExtractItem(items[k], fetchDetail))
  }

  /** `math.ceil(total_count / MAX_ROWS)`. */
  function TotalPages(total: int): (n: int)
    ensures total > 0 ==> n >= 1 && (n - 1) * MaxRows < total <= n * MaxRows
    ensures total <= 0 ==> n <= 0
  {
    -((-total) / MaxRows)
  }

  /** `range(1, total_pages + 1)`. */
  function PageNumbers(n: int): (r: seq<int>)
    ensures n <= 0 ==> r == []
    ensures n > 0 ==> |r| == n && forall k :: 0 <= k < |r| ==> r[k] == k + 1
  {
    if n <= 0 then [] else seq(n, k requires 0 <= k < n => k + 1)
  }

  /** The items of one page: page 1 from the first response, every other page from its own
      request, `None` when the request failed. */
  function PageItems(page: int, firstItems: seq<Item>, fetchPage: int -> Option<seq<Item>>): seq<Item> {
    if page == 1 then firstItems
    else match fetchPage(page)
      case None => []
      case Some(items) => items
  }

  /** The records of one page. */
  function PageRecords(
    page: int, firstItems: seq<Item>, fetchPage: int -> Option<seq<Item>>, fetchDetail: string -> string)
    : seq<Extracted>
  {
    ExtractAll(PageItems(page, firstItems, fetchPage), fetchDetail)
  }

  /** The records of the pages, in page order. */
  function Gathered(
    pages: seq<int>, firstItems: seq<Item>, fetchPage: int -> Option<seq<Item>>, fetchDetail: string -> string)
    : seq<Extracted>
  {
    if pages == [] then []
    else
      Gathered(pages[..|pages| - 1], firstItems, fetchPage, fetchDetail)
      + PageRecords(pages[|pages| - 1], firstItems, fetchPage, fetchDetail)
  }

  lemma {:induction false} GatheredAppend(
    a: seq<int>, b: seq<int>, firstItems: seq<Item>, fetchPage: int -> Option<seq<Item>>,
    fetchDetail: string -> string)
    ensures Gathered(a + b, firstItems, fetchPage, fetchDetail)
            == Gathered(a, firstItems, fetchPage, fetchDetail) + Gathered(b, firstItems, fetchPage, fetchDetail)
  {
    if b == [] {
      assert a + b == a;
    } else {
      var init := b[..|b| - 1];
      var recs := PageRecords(b[|b| - 1], firstItems, fetchPage, fetchDetail);
      assert (a + b)[..|a + b| - 1] == a + init && (a + b)[|a + b| - 1] == b[|b| - 1];
      var gi := Gathered(init, firstItems, fetchPage, fetchDetail);
      var ga := Gathered(a, firstItems, fetchPage, fetchDetail);
      calc {
        Gathered(a + b, firstItems, fetchPage, fetchDetail);
        Gathered(a + init, firstItems, fetchPage, fetchDetail) + recs;
        { GatheredAppend(a, init, firstItems, fetchPage, fetchDetail); }
        ga + gi + recs;
        ga + (gi + recs);
      }
    }
  }

  /** A failed page contributes nothing, and the pages after it are still collected. */
  lemma FailedPageSkipped(
    a: seq<int>, page: int, b: seq<int>, firstItems: seq<Item>, fetchPage: int -> Option<seq<Item>>,
    fetchDetail: string -> string)
    requires page != 1 && fetchPage(page) == None
    ensures Gathered(a + [page] + b, firstItems, fetchPage, fetchDetail)
            == Gathered(a, firstItems, fetchPage, fetchDetail) + Gathered(b, firstItems, fetchPage, fetchDetail)
  {
    var ga := Gathered(a, firstItems, fetchPage, fetchDetail);
    assert Gathered(a + [page], firstItems, fetchPage, fetchDetail) == ga by {
      assert (a + [page])[..|a + [page]| - 1] == a && (a + [page])[|a + [page]| - 1] == page;
      assert PageItems(page, firstItems, fetchPage) == [];
      assert PageRecords(page, firstItems, fetchPage, fetchDetail) == [];
      assert ga + [] == ga;
    }
    GatheredAppend(a + [page], b, firstItems, fetchPage, fetchDetail);
  }

  /** The first search response: `totalCnt` and the items of page 1. */
  datatype Listing = Listing(totalCount: int, items: seq<Item>)

  /** What `fetch_and_process_all_data` collects and hands to `embed_and_save_faiss`: nothing
      when the first request failed or reported no results, the records of pages
      `1..ceil(total/20)` otherwise. */
  function AllData(initial: Option<Listing>, fetchPage: int -> Option<seq<Item>>, fetchDetail: string -> string)
    : seq<Extracted>
  {
    match initial
      case None => []
      case Some(listing) =>
        if listing.totalCount == 0 then []
        else Gathered(PageNumbers(TotalPages(listing.totalCount)), listing.items, fetchPage, fetchDetail)
  }

  /** The pages requested after the first: `2..ceil(total/20)`. */
  function PagesRequested(initial: Option<Listing>): seq<int> {
    if initial.None? || initial.value.totalCount == 0 then []
    else
      var pages := PageNumbers(TotalPages(initial.value.totalCount));
      if pages == [] then [] else pages[1..]
  }

  /** The inner loop over the items of one page. */
  method ExtractPage(items: seq<Item>, fetchDetail: string -> string) returns (records: seq<Extracted>)
    ensures records == ExtractAll(items, fetchDetail)
  {
    records := [];
    for k := 0 to |items|
      invariant records == ExtractAll(items[..k], fetchDetail)
    {
      records := records + [ExtractItem(items[k], fetchDetail)];
    }
    assert items[..|items|] == items;
  }

  /** One turn of the page loop: page 1 reuses the first response, any other page is
      requested, and a failed request is skipped. */
  method ProcessPage(
    page: int, firstItems: seq<Item>, fetchPage: int -> Option<seq<Item>>, fetchDetail: string -> string)
    returns (records: seq<Extracted>)
    ensures records == PageRecords(page, firstItems, fetchPage, fetchDetail)
  {
    var listData: seq<Item>;
    if page == 1 {
      listData := firstItems;
    } else {
      match fetchPage(page) {
        case None =>
          return [];
        case Some(items) =>
          listData := items;
      }
    }
    records := ExtractPage(listData, fetchDetail);
  }

  lemma SliceStep<T>(s: seq<T>, lo: nat, n: nat)
    requires lo <= n < |s|
    ensures s[lo..n + 1] == s[lo..n] + [s[n]]
  {
  }

  /** One more page extends the gathered records by that page's records. */
  lemma GatheredStep(
    pages: seq<int>, n: nat, firstItems: seq<Item>, fetchPage: int -> Option<seq<Item>>, fetchDetail: string -> string)
    requires n < |pages|
    ensures Gathered(pages[..n + 1], firstItems, fetchPage, fetchDetail)
            == Gathered(pages[..n], firstItems, fetchPage, fetchDetail) + PageRecords(pages[n], firstItems, fetchPage, fetchDetail)
  {
    assert pages[..n + 1][..n] == pages[..n] && pages[..n + 1][n] == pages[n];
  }

  /** `fetch_and_process_all_data`: the page loop. `requested` lists the pages asked for. */
  method FetchAndProcessAllData(
    initial: Option<Listing>, fetchPage: int -> Option<seq<Item>>, fetchDetail: string -> string)
    returns (allExtractedData: seq<Extracted>, ghost requested: seq<int>)
    ensures allExtractedData == AllData(initial, fetchPage, fetchDetail)
    ensures requested == PagesRequested(initial)
  {
    allExtractedData := [];
    requested := [];
    if initial.None? {
      return;
    }
    var initialData := initial.value;
    var totalCount := initialData.totalCount;
    if totalCount == 0 {
      return;
    }
    var totalPages := TotalPages(totalCount);
    ghost var pages := PageNumbers(totalPages);
    var page := 1;
    while page <= totalPages
      invariant totalPages > 0 ==> 1 <= page <= totalPages + 1
      invariant totalPages <= 0 ==> page == 1
      invariant allExtractedData == Gathered(pages[..page - 1], initialData.items, fetchPage, fetchDetail)
      invariant requested == if page <= 1 then [] else pages[1..page - 1]
      decreases totalPages - page
    {
      GatheredStep(pages, page - 1, initialData.items, fetchPage, fetchDetail);
      if page != 1 {
        requested := requested + [page];
        SliceStep(pages, 1, page - 1);
      }
      var records := ProcessPage(page, initialData.items, fetchPage, fetchDetail);
      allExtractedData := allExtractedData + records;
      page := page + 1;
    }
    if totalPages > 0 {
      assert pages[..page - 1] == pages;
    }
  }

  /** A first response reporting no results ends the collection before any page is read. */
  lemma NothingWithoutResults(items: seq<Item>, fetchPage: int -> Option<seq<Item>>, fetchDetail: string -> string)
    ensures AllData(Some(Listing(0, items)), fetchPage, fetchDetail) == []
    ensures PagesRequested(Some(Listing(0, items))) == []
  {
  }

  /** When results were reported, the first page's records come first, in item order, from the
      first response's items. */
  lemma FirstPageFirst(listing: Listing, fetchPage: int -> Option<seq<Item>>, fetchDetail: string -> string)
    requires listing.totalCount > 0
    ensures var data := AllData(Some(listing), fetchPage, fetchDetail);
            |data| >= |listing.items| && data[..|listing.items|] == ExtractAll(listing.items, fetchDetail)
  {
    var pages := PageNumbers(TotalPages(listing.totalCount));
    var first := ExtractAll(listing.items, fetchDetail);
    assert pages == [1] + pages[1..];
    assert Gathered([1], listing.items, fetchPage, fetchDetail) == first by {
      assert [1][..0] == [];
      assert PageRecords(1, listing.items, fetchPage, fetchDetail) == first;
    }
    GatheredAppend([1], pages[1..], listing.items, fetchPage, fetchDetail);
    var data := first + Gathered(pages[1..], listing.items, fetchPage, fetchDetail);
    assert data[..|first|] == first;
  }

  // ----- the metadata stored beside the index -----

  /** One entry of `metadata_map`. */
  datatype Metadata = Metadata(id: Option<string>, title: Option<string>, detailUrl: string, chunkText: string)

  /** `texts`: what is embedded, vector `i` from text `i`. */
  function EmbeddedTexts(data: seq<Extracted>): (r: seq<string>)
    ensures |r| == |data|
  {
    seq(|data|, i requires 0 <= i < |data| => data[i].contentRaw)
  }

  /** `metadata_map`. */
  function MetadataMap(data: seq<Extracted>): (r: seq<Metadata>)
    ensures |r| == |data|
  {
    seq(|data|, i requires 0 <= i < |data| => Metadata(data[i].sourceId, data[i].title, data[i].detailUrl, data[i].contentRaw))
  }

  /** The metadata is aligned with the vectors: entry `i` describes the record whose text is
      embedded as vector `i`. */
  lemma MetadataAligned(data: seq<Extracted>)
    ensures |MetadataMap(data)| == |EmbeddedTexts(data)|
    ensures forall i :: 0 <= i < |data| ==>
              MetadataMap(data)[i].chunkText == EmbeddedTexts(data)[i]
              && MetadataMap(data)[i].id == data[i].sourceId && MetadataMap(data)[i].title == data[i].title
              && MetadataMap(data)[i].detailUrl == data[i].detailUrl
  {
  }

  // ----- the single-item script -----

  /** `fetch_single_item`: nothing when the search request failed or found no items,
      otherwise the record of the first item only. */
  function FetchSingleItem(response: Option<seq<Item>>, fetchDetail: string -> string): (r: Option<Extracted>)
    ensures r.None? <==> response.None? || response.value == []
    ensures r.Some? ==> r.value == ExtractItem(response.value[0], fetchDetail)
  {
    match response
      case None => None
      case Some(items) => if items == [] then None else Some(ExtractItem(items[0], fetchDetail))
  }

  /** Given one detail fetcher for both, the single-item script's record is the first record the
      bulk collector gathers from the same first response. The two scripts' fetchers differ in
      their agency rule; `SingleItemBesideFirstGathered` states what that changes. */
  lemma SingleItemIsFirstGathered(
    listing: Listing, fetchPage: int -> Option<seq<Item>>, fetchDetail: string -> string)
    requires listing.totalCount > 0 && listing.items != []
    ensures |AllData(Some(listing), fetchPage, fetchDetail)| >= 1
            && FetchSingleItem(Some(listing.items), fetchDetail) == Some(AllData(Some(listing), fetchPage, fetchDetail)[0])
  {
    FirstPageFirst(listing, fetchPage, fetchDetail);
    var data := AllData(Some(listing), fetchPage, fetchDetail);
    assert data[0] == data[..|listing.items|][0];
  }

  /** `fetch_and_clean_detail_content(url)` of either script. `page(url)` is what the wrapper
      and final requests give: a failure's text (the same three texts in both scripts) or the
      final page's body. Only the cleaning rule differs between the scripts. */
  function FetchDetail(page: string -> Attempt<Option<string>>, rule: AgencyRule, url: string): string {
    match page(url)
      case Failed(e) => e
      case Ok(body) => CleanedText(body, rule)
  }

  /** A script's detail fetcher as the function `ExtractItem` takes. */
  function Fetcher(page: string -> Attempt<Option<string>>, rule: AgencyRule): string -> string {
    url => FetchDetail(page, rule, url)
  }

  /** The single-item script (its own fetcher, and a response whose first item is the bulk
      listing's first item) against the bulk collector's first record: every field agrees except
      `contentRaw`, which is the same text when the detail page failed or had no body, and
      otherwise the same cut page's lines with the bulk collector keeping no line the single-item
      script drops. */
  lemma SingleItemBesideFirstGathered(
    listing: Listing, single: seq<Item>, fetchPage: int -> Option<seq<Item>>,
    page: string -> Attempt<Option<string>>)
    requires listing.totalCount > 0 && listing.items != []
    requires single != [] && single[0] == listing.items[0]
    ensures var data := AllData(Some(listing), fetchPage, Fetcher(page, Bulk));
            var one := FetchSingleItem(Some(single), Fetcher(page, Single));
            |data| >= 1 && one.Some? && one.value.(contentRaw := data[0].contentRaw) == data[0]
    ensures var data := AllData(Some(listing), fetchPage, Fetcher(page, Bulk));
            var one := FetchSingleItem(Some(single), Fetcher(page, Single));
            var fetched := page(DetailUrl(listing.items[0].link));
            |data| >= 1 && one.Some? &&
            (fetched.Failed? || fetched.value.None? ==> one.value.contentRaw == data[0].contentRaw) &&
            (fetched.Ok? && fetched.value.Some? ==>
              var pieces := SplitOn(CoreText(fetched.value.value), '\n');
              data[0].contentRaw == Join(KeptLines(pieces, Bulk), "\n") &&
              one.value.contentRaw == Join(KeptLines(pieces, Single), "\n") &&
              forall x :: x in KeptLines(pieces, Bulk) ==> x in KeptLines(pieces, Single))
  {
    SingleItemIsFirstGathered(listing, fetchPage, Fetcher(page, Bulk));
    var fetched := page(DetailUrl(listing.items[0].link));
    if fetched.Ok? && fetched.value.Some? {
      BulkKeptAlsoSingleKept(SplitOn(CoreText(fetched.value.value), '\n'));
    }
  }
}
