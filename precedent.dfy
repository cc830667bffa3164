/** The precedent vector store (src/law/precedent_context.py): court decisions from a public
    dataset become documents whose text labels the case number, case name, summary and the
    start of the full text; the store is built or loaded lazily and then searched. Loading
    the dataset, the embedding model, FAISS itself and the file system are parameters. */
module Precedent {
  import opened Wrappers
  import opened Text

  /** `SAMPLE_SIZE`: how many dataset rows are turned into documents at most. */
  const SampleSize := 1000
  /** How much of a decision's full text a document carries. */
  const BodyLimit := 2000
  /** Summaries of this length or shorter are left out. */
  const MinSummary := 10

  const NoCaseName := "사건명 정보 없음"
  const NoCaseNumber := "N/A"
  const SourceName := "HuggingFace Precedent DB"

  /** One dataset row; a column the row lacks is `None`. */
  datatype Row = Row(body: Option<string>, summary: Option<string>, caseName: Option<string>, caseNumber: Option<string>)

  /** A LangChain `Document`: its text and its metadata. */
  datatype Document = Document(pageContent: string, caseName: string, source: string, caseNumber: string)

  /** A Python slice `s[:n]`. */
  function Take<T>(s: seq<T>, n: nat): (r: seq<T>)
    ensures |r| <= n && |r| <= |s| && r == s[..|r|]
    ensures |s| <= n ==> r == s
  {
    if |s| <= n then s else s[..n]
  }

  /** `dataset.select(range(SAMPLE_SIZE))` when the dataset is larger. */
  function Sample(rows: seq<Row>): (r: seq<Row>)
    ensures |r| <= SampleSize && |r| <= |rows| && r == rows[..|r|]
    ensures |rows| <= SampleSize ==> r == rows
  {
    Take(rows, SampleSize)
  }

  /** The labelled text of a row, before `.strip()`. */
  function Labelled(caseNumber: string, caseName: string, summary: string, body: string): string {
    "[사건번호] " + caseNumber + "\n[사건명] " + caseName + "\n[판결요지] " + summary
    + "\n[전문] " + Take(body, BodyLimit) + "..."
  }

  /** The document of a row, with the column defaults. */
  function DocumentOf(row: Row): Document {
    var content := row.body.GetOr("");
    var summary := row.summary.GetOr("");
    var caseName := row.caseName.GetOr(NoCaseName);
    var caseNumber := row.caseNumber.GetOr(NoCaseNumber);
    Document(Strip("\n" + Labelled(caseNumber, caseName, summary, content) + "\n"), caseName, SourceName, caseNumber)
  }

  /** `len(summary) > 10`, with a missing summary read as the empty string. */
  predicate Kept(row: Row) {
    |row.summary.GetOr("")| > MinSummary
  }

  /** The documents of the rows, in row order. */
  function Built(rows: seq<Row>): (r: seq<Document>)
    ensures |r| <= |rows|
  {
    if rows == [] then []
    else Built(rows[..|rows| - 1]) + (if Kept(rows[|rows| - 1]) then [DocumentOf(rows[|rows| - 1])] else [])
  }

  /** What `create_database` returns: nothing when the dataset could not be loaded, otherwise
      the documents of at most the first `SAMPLE_SIZE` rows. */
  function Documents(dataset: Option<seq<Row>>): seq<Document> {
    match dataset
      case None => []
      case Some(rows) => Built(Sample(rows))
  }

  /** The stored text is the labelled text: `.strip()` removes only the surrounding newlines. */
  lemma PageContentIsLabelled(row: Row)
    ensures DocumentOf(row).pageContent
            == Labelled(row.caseNumber.GetOr(NoCaseNumber), row.caseName.GetOr(NoCaseName),
                        row.summary.GetOr(""), row.body.GetOr(""))
  {
    var l := Labelled(row.caseNumber.GetOr(NoCaseNumber), row.caseName.GetOr(NoCaseName),
                      row.summary.GetOr(""), row.body.GetOr(""));
    assert l[0] == '[' && l[|l| - 1] == '.';
    StripAround("\n", l, "\n");
  }

  /** A document names the case number first and ends with at most 2000 characters of the
      full text and an ellipsis; a full text that short is carried whole. */
  lemma DocumentShape(row: Row)
    ensures var body := row.body.GetOr("");
            var text := DocumentOf(row).pageContent;
            StartsWith(text, "[사건번호] " + row.caseNumber.GetOr(NoCaseNumber))
            && |Take(body, BodyLimit)| <= BodyLimit && Take(body, BodyLimit) == body[..|Take(body, BodyLimit)|]
            && |text| >= |Take(body, BodyLimit)| + 3
            && text[|text| - |Take(body, BodyLimit)| - 3..] == Take(body, BodyLimit) + "..."
            && (|body| <= BodyLimit ==> Take(body, BodyLimit) == body)
  {
    PageContentIsLabelled(row);
    var head := "[사건번호] " + row.caseNumber.GetOr(NoCaseNumber);
    var t := Take(row.body.GetOr(""), BodyLimit) + "...";
    var l := DocumentOf(row).pageContent;
    var mid := "\n[사건명] " + row.caseName.GetOr(NoCaseName) + "\n[판결요지] " + row.summary.GetOr("") + "\n[전문] ";
    assert l == head + mid + t;
    assert l[..|head|] == head;
    assert l[|l| - |t|..] == t;
  }

  /** A row with every column missing gets the defaults, and its empty summary excludes it. */
  lemma EmptyRowDefaults()
    ensures var d := DocumentOf(Row(None, None, None, None));
            d.caseName == NoCaseName && d.caseNumber == NoCaseNumber && d.source == SourceName
            && d.pageContent == "[사건번호] " + NoCaseNumber + "\n[사건명] " + NoCaseName + "\n[판결요지] \n[전문] ..."
            && !Kept(Row(None, None, None, None))
  {
    PageContentIsLabelled(Row(None, None, None, None));
    assert Take("", BodyLimit) == "";
    assert Labelled(NoCaseNumber, NoCaseName, "", "")
           == "[사건번호] " + NoCaseNumber + "\n[사건명] " + NoCaseName + "\n[판결요지] " + "" + "\n[전문] " + "" + "...";
  }

  /** Building keeps order: the documents of a concatenation are those of each part in turn. */
  lemma {:induction false} BuiltAppend(a: seq<Row>, b: seq<Row>)
    ensures Built(a + b) == Built(a) + Built(b)
  {
    if b == [] {
      assert a + b == a;
    } else {
      var init := b[..|b| - 1];
      var last := b[|b| - 1];
      var keep := if Kept(last) then [DocumentOf(last)] else [];
      assert (a + b)[..|a + b| - 1] == a + init && (a + b)[|a + b| - 1] == last;
      calc {
        Built(a + b);
        Built(a + init) + keep;
        { BuiltAppend(a, init); }
        Built(a) + Built(init) + keep;
        Built(a) + (Built(init) + keep);
      }
    }
  }

  /** A row becomes a document exactly when its summary is longer than ten characters. */
  lemma BuiltOne(row: Row)
    ensures Built([row]) == if Kept(row) then [DocumentOf(row)] else []
  {
    assert [row][..0] == [];
  }

  /** Every document is that of a row with a long enough summary, and every such row gives
      one. */
  lemma {:induction false} BuiltMembers(rows: seq<Row>)
    ensures forall d :: d in Built(rows) ==> exists i :: 0 <= i < |rows| && Kept(rows[i]) && d == DocumentOf(rows[i])
    ensures forall i :: 0 <= i < |rows| && Kept(rows[i]) ==> DocumentOf(rows[i]) in Built(rows)
  {
    if rows != [] {
      var init := rows[..|rows| - 1];
      BuiltMembers(init);
      forall i | 0 <= i < |init| ensures init[i] == rows[i] { }
    }
  }

  /** The dataset's first `SAMPLE_SIZE` rows are all that matter: rows after them never reach
      the store. */
  lemma LaterRowsIgnored(rows: seq<Row>, extra: seq<Row>)
    requires |rows| >= SampleSize
    ensures Documents(Some(rows + extra)) == Documents(Some(rows[..SampleSize]))
  {
    assert (rows + extra)[..SampleSize] == rows[..SampleSize];
  }

  /** The FAISS store: the documents it holds. */
  datatype Store = Store(docs: seq<Document>)

  /** The store after `initialize_database`: unchanged when one is set; the local copy when it
      loads; otherwise one built from the dataset's documents, or none when there are none. */
  function Initialized(current: Option<Store>, local: Option<Store>, dataset: Option<seq<Row>>): (r: Option<Store>)
    ensures current.Some? ==> r == current
    ensures current.None? && local.Some? ==> r == local
    ensures current.None? && local.None? ==> (r.None? <==> Documents(dataset) == [])
    ensures current.None? && local.None? && r.Some? ==> r.value.docs == Documents(dataset)
  {
    if current.Some? then current
    else if local.Some? then local
    else
      var docs := Documents(dataset);
      if docs == [] then None else Some(Store(docs))
  }

  /** Initialising twice is initialising once. */
  lemma InitializeIdempotent(current: Option<Store>, local: Option<Store>, dataset: Option<seq<Row>>)
    ensures Initialized(Initialized(current, local, dataset), local, dataset) == Initialized(current, local, dataset)
  {
  }

  /** `PrecedentContextManager`. `local` is what `FAISS.load_local` gives (`None` when the
      directory is missing or the load raises), `dataset` what `load_dataset` gives (`None`
      when it raises), and `similaritySearch` the store's search. */
  class PrecedentContextManager {
    var vectorstore: Option<Store>

    constructor ()
      ensures vectorstore == None
    {
      vectorstore := None;
    }

    /** `create_database`: the document loop over the sampled rows. */
    method CreateDatabase(dataset: Option<seq<Row>>) returns (documents: seq<Document>)
      ensures documents == Documents(dataset)
    {
      if dataset.None? {
        return [];
      }
      var rows := Sample(dataset.value);
      documents := [];
      for i := 0 to |rows|
        invariant documents == Built(rows[..i])
      {
        assert rows[..i + 1][..i] == rows[..i];
        var item := rows[i];
        var doc := DocumentOf(item);
        if |item.summary.GetOr("")| > MinSummary {
          documents := documents + [doc];
        }
      }
      assert rows[..|rows|] == rows;
    }

    /** `initialize_database`. */
    method InitializeDatabase(local: Option<Store>, dataset: Option<seq<Row>>)
      modifies this
      ensures vectorstore == Initialized(old(vectorstore), local, dataset)
    {
      if vectorstore.Some? {
        return;
      }
      if local.Some? {
        vectorstore := local;
        return;
      }
      var allDocs := CreateDatabase(dataset);
      if allDocs == [] {
        return;
      }
      vectorstore := Some(Store(allDocs));
    }

    /** `search_relevant_precedents(query, k)`: initialise when no store is set, answer nothing
      when there is still none, otherwise the texts of the hits in hit order. The source's
      default `k=2` (src/law/precedent_context.py:117) is not a default here: callers pass `k`. */
    method SearchRelevantPrecedents(
      query: string, k: int, local: Option<Store>, dataset: Option<seq<Row>>,
      similaritySearch: (Store, string, int) -> seq<Document>)
      returns (contents: seq<string>)
      modifies this
      ensures vectorstore == Initialized(old(vectorstore), local, dataset)
      ensures vectorstore.None? ==> contents == []
      ensures vectorstore.Some? ==>
                var docs := similaritySearch(vectorstore.value, query, k);
                |contents| == |docs| && forall j :: 0 <= j < |docs| ==> contents[j] == docs[j].pageContent
    {
      if vectorstore.None? {
        InitializeDatabase(local, dataset);
      }
      if vectorstore.None? {
        return [];
      }
      var docs := similaritySearch(vectorstore.value, query, k);
      contents := seq(|docs|, j requires 0 <= j < |docs| => docs[j].pageContent);
    }
  }

  /** Rows whose summaries are all too short give no documents. */
  lemma {:induction false} NothingKept(rows: seq<Row>)
    requires forall i :: 0 <= i < |rows| ==> !Kept(rows[i])
    ensures Built(rows) == []
  {
    if rows != [] {
      var init := rows[..|rows| - 1];
      assert forall i :: 0 <= i < |init| ==> init[i] == rows[i];
      NothingKept(init);
    }
  }

  /** With no local copy and no row whose summary is long enough, no store is ever set, so a
      search answers nothing. */
  lemma NoDocumentsNoStore(rows: seq<Row>)
    requires forall i :: 0 <= i < |rows| ==> !Kept(rows[i])
    ensures Initialized(None, None, Some(rows)) == None
  {
    var s := Sample(rows);
    assert forall i :: 0 <= i < |s| ==> s[i] == rows[i];
    NothingKept(s);
  }
}
