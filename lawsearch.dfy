/** Retrieval over the interpretation index (src/parser/lawSearch.py): the nearest-neighbour
    hits FAISS returns for a query are mapped to result records through the metadata stored
    beside the index. The embedding model and the index search are parameters. */
module LawSearch {
  import opened Wrappers
  import opened Ingestion

  /** `TOP_K`: how many neighbours are asked for. */
  const TopK := 3

  /** One column of FAISS's answer: the vector's position (`-1` when the index has fewer vectors
      than asked for) and its distance to the query. */
  datatype Hit = Hit(docIndex: int, distance: real)

  /** One entry of `retrieved_results`. */
  datatype Retrieved = Retrieved(
    rank: nat, score: real, title: Option<string>, sourceId: Option<string>,
    detailUrl: string, contentRaw: string)

  const IndexErrorMessage := "list index out of range"

  /** `metadata_map[doc_index]` on a Python list: a negative position counts from the end, and
      one outside the list raises. */
  function Lookup(metadata: seq<Metadata>, i: int): (r: Option<Metadata>)
    ensures 0 <= i < |metadata| ==> r == Some(metadata[i])
    ensures r.None? <==> i < -|metadata| || |metadata| <= i
  {
    if 0 <= i < |metadata| then Some(metadata[i])
    else if -|metadata| <= i < 0 then Some(metadata[|metadata| + i])
    else None
  }

  /** `1 / (1 + distance)`. */
  function Score(distance: real): real
    requires distance >= 0.0
  {
    1.0 / (1.0 + distance)
  }

  /** FAISS's L2 distances are never negative for real hits. */
  predicate DistancesValid(hits: seq<Hit>) {
    forall p :: 0 <= p < |hits| && hits[p].docIndex != -1 ==> hits[p].distance >= 0.0
  }

  /** The record for the hit at zero-based position `p`. */
  function Entry(p: nat, hit: Hit, md: Metadata): Retrieved
    requires hit.distance >= 0.0
  {
    Retrieved(p + 1, Score(hit.distance), md.title, md.id, md.detailUrl, md.chunkText)
  }

  /** The results of `rag_search` for the hits, in hit order; the first position whose lookup
      raises ends the search with the error. */
  function Mapped(hits: seq<Hit>, metadata: seq<Metadata>): (r: Attempt<seq<Retrieved>>)
    requires DistancesValid(hits)
    ensures r.Ok? ==> |r.value| <= |hits|
    ensures r.Failed? ==> r.error == IndexErrorMessage
  {
    if hits == [] then Ok([])
    else
      var p := |hits| - 1;
      match Mapped(hits[..p], metadata)
        case Failed(e) => Failed(e)
        case Ok(rs) =>
          if hits[p].docIndex == -1 then Ok(rs)
          else match Lookup(metadata, hits[p].docIndex)
            case None => Failed(IndexErrorMessage)
            case Some(md) => Ok(rs + [Entry(p, hits[p], md)])
  }

  /** `rag_search(user_query, model, index, metadata_map)`; `search` stands for encoding the
      query and `index.search(query_vector, TOP_K)`. */
  method RagSearch(userQuery: string, search: string -> seq<Hit>, metadata: seq<Metadata>)
    returns (r: Attempt<seq<Retrieved>>)
    requires DistancesValid(search(userQuery))
    ensures r == Mapped(search(userQuery), metadata)
  {
    var hits := search(userQuery);
    var retrievedResults := [];
    for rank := 0 to |hits|
      invariant Mapped(hits[..rank], metadata) == Ok(retrievedResults)
    {
      assert hits[..rank + 1][..rank] == hits[..rank];
      var hit := hits[rank];
      if hit.docIndex == -1 {
        continue;
      }
      var docMetadata := Lookup(metadata, hit.docIndex);
      if docMetadata.None? {
        MappedFailsOnlyOnBadIndex(hits, metadata);
        return Failed(IndexErrorMessage);
      }
      retrievedResults := retrievedResults + [Entry(rank, hit, docMetadata.value)];
    }
    assert hits[..|hits|] == hits;
    r := Ok(retrievedResults);
  }

  /** The number of hits that are not `-1`. */
  function ValidCount(hits: seq<Hit>): (n: nat)
    ensures n <= |hits|
  {
    if hits == [] then 0
    else ValidCount(hits[..|hits| - 1]) + (if hits[|hits| - 1].docIndex != -1 then 1 else 0)
  }

  /** `r` is the record of the hit at position `r.rank - 1`: that hit is not `-1`, its lookup
      succeeds, and score and fields come from its distance and metadata entry. */
  predicate Fits(hits: seq<Hit>, metadata: seq<Metadata>, r: Retrieved)
    requires DistancesValid(hits)
  {
    1 <= r.rank <= |hits| && hits[r.rank - 1].docIndex != -1
    && Lookup(metadata, hits[r.rank - 1].docIndex).Some?
    && r == Entry(r.rank - 1, hits[r.rank - 1], Lookup(metadata, hits[r.rank - 1].docIndex).value)
  }

  /** What a successful search returns: one record per hit that is not `-1`, each fitting its
      hit, ranked by the hit's position among all hits (so skipped hits leave gaps) and in
      strictly increasing rank order. */
  predicate Describes(hits: seq<Hit>, metadata: seq<Metadata>, rs: seq<Retrieved>)
    requires DistancesValid(hits)
  {
    |rs| == ValidCount(hits)
    && (forall k :: 0 <= k < |rs| ==> Fits(hits, metadata, rs[k]))
    && (forall k, l :: 0 <= k < l < |rs| ==> rs[k].rank < rs[l].rank)
  }

  /** A record fitting a prefix of the hits fits the whole. */
  lemma FitsWiden(hits: seq<Hit>, n: nat, metadata: seq<Metadata>, r: Retrieved)
    requires n <= |hits| && DistancesValid(hits) && Fits(hits[..n], metadata, r)
    ensures Fits(hits, metadata, r) && r.rank <= n
  {
    assert hits[..n][r.rank - 1] == hits[r.rank - 1];
  }

  lemma DescribesStep(hits: seq<Hit>, metadata: seq<Metadata>, rs: seq<Retrieved>)
    requires |hits| >= 1 && DistancesValid(hits)
    requires Describes(hits[..|hits| - 1], metadata, rs)
    requires hits[|hits| - 1].docIndex == -1
    ensures Describes(hits, metadata, rs)
  {
    forall k | 0 <= k < |rs| ensures Fits(hits, metadata, rs[k]) {
      FitsWiden(hits, |hits| - 1, metadata, rs[k]);
    }
  }

  lemma DescribesExtend(hits: seq<Hit>, metadata: seq<Metadata>, rs: seq<Retrieved>, md: Metadata)
    requires |hits| >= 1 && DistancesValid(hits)
    requires Describes(hits[..|hits| - 1], metadata, rs)
    requires hits[|hits| - 1].docIndex != -1 && Lookup(metadata, hits[|hits| - 1].docIndex) == Some(md)
    ensures Describes(hits, metadata, rs + [Entry(|hits| - 1, hits[|hits| - 1], md)])
  {
    var p := |hits| - 1;
    var out := rs + [Entry(p, hits[p], md)];
    forall k | 0 <= k < |rs| ensures Fits(hits, metadata, out[k]) && out[k].rank <= p {
      FitsWiden(hits, p, metadata, rs[k]);
      assert out[k] == rs[k];
    }
    assert Fits(hits, metadata, out[|rs|]);
  }

  /** A successful search describes its hits exactly. */
  lemma {:induction false} MappedDescribes(hits: seq<Hit>, metadata: seq<Metadata>)
    requires DistancesValid(hits) && Mapped(hits, metadata).Ok?
    ensures Describes(hits, metadata, Mapped(hits, metadata).value)
  {
    if hits != [] {
      var p := |hits| - 1;
      MappedDescribes(hits[..p], metadata);
      var rs := Mapped(hits[..p], metadata).value;
      if hits[p].docIndex == -1 {
        DescribesStep(hits, metadata, rs);
      } else {
        DescribesExtend(hits, metadata, rs, Lookup(metadata, hits[p].docIndex).value);
      }
    }
  }

  /** A search fails only when some hit that is not `-1` points outside the metadata. */
  lemma {:induction false} MappedFailsOnlyOnBadIndex(hits: seq<Hit>, metadata: seq<Metadata>)
    requires DistancesValid(hits)
    ensures Mapped(hits, metadata).Failed? <==>
              exists p :: 0 <= p < |hits| && hits[p].docIndex != -1 && Lookup(metadata, hits[p].docIndex).None?
  {
    if hits != [] {
      var p := |hits| - 1;
      MappedFailsOnlyOnBadIndex(hits[..p], metadata);
      if exists q :: 0 <= q < p && hits[..p][q].docIndex != -1 && Lookup(metadata, hits[..p][q].docIndex).None? {
        var q :| 0 <= q < p && hits[..p][q].docIndex != -1 && Lookup(metadata, hits[..p][q].docIndex).None?;
        assert hits[q] == hits[..p][q];
      } else {
        forall q | 0 <= q < p ensures hits[q] == hits[..p][q] { }
      }
    }
  }

  /** FAISS answers with `TOP_K` columns, so a search returns at most three results. */
  lemma AtMostTopK(hits: seq<Hit>, metadata: seq<Metadata>)
    requires |hits| == TopK && DistancesValid(hits) && Mapped(hits, metadata).Ok?
    ensures |Mapped(hits, metadata).value| <= TopK
  {
  }

  /** A score lies in (0, 1], and a farther hit never scores higher. */
  lemma ScoreBounds(d: real)
    requires d >= 0.0
    ensures 0.0 < Score(d) <= 1.0
  {
  }

  lemma ScoreAntitone(d1: real, d2: real)
    requires 0.0 <= d1 <= d2
    ensures Score(d2) <= Score(d1)
  {
    var s1 := Score(d1);
    var s2 := Score(d2);
    assert s1 * (1.0 + d1) == 1.0 && s2 * (1.0 + d2) == 1.0;
    assert s2 * (1.0 + d1) <= s2 * (1.0 + d2) == s1 * (1.0 + d1);
  }

  /** What `load_db` returns: nothing when a file or the model could not be loaded. */
  datatype Loaded = Loaded(metadata: seq<Metadata>)

  /** The guard of the script: `model and index and metadata_map` — an empty metadata list is
      false, so no search runs over it. */
  predicate SearchRuns(db: Option<Loaded>) {
    db.Some? && db.value.metadata != []
  }

  /** The script's run: the search, when the guard lets it run. */
  function ScriptRun(db: Option<Loaded>, testQuery: string, search: string -> seq<Hit>): (r: Option<Attempt<seq<Retrieved>>>)
    requires DistancesValid(search(testQuery))
    ensures r.Some? <==> db.Some? && db.value.metadata != []
    ensures r.Some? ==> r.value == Mapped(search(testQuery), db.value.metadata)
  {
    if SearchRuns(db) then Some(Mapped(search(testQuery), db.value.metadata)) else None
  }

  /** Over the metadata the collector saved, a record fitting a hit at a non-negative
      position carries the very text embedded as that vector, and that record's id, title and
      link. */
  lemma RetrievedTextIsEmbedded(data: seq<Extracted>, hits: seq<Hit>, r: Retrieved)
    requires DistancesValid(hits) && Fits(hits, MetadataMap(data), r)
    requires hits[r.rank - 1].docIndex >= 0
    ensures var i := hits[r.rank - 1].docIndex;
            0 <= i < |data| && r.contentRaw == EmbeddedTexts(data)[i]
            && r.sourceId == data[i].sourceId && r.title == data[i].title && r.detailUrl == data[i].detailUrl
  {
    MetadataAligned(data);
  }
}
