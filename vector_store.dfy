// The retrieval side of `PGVectorStore` (backend/services/vector_store/pgvector.py):
// a BM25 first pass over a cached corpus that yields candidate document ids, a
// ranked full-text query restricted to those candidates, an unrestricted
// nearest-neighbour query, and Reciprocal Rank Fusion of the two result lists.
//
// The table `chunks_embeddings` is a sequence of rows in scan order. The three
// scoring primitives (the BM25 scorer, PostgreSQL's `ts_rank` and pgvector's
// `<=>` distance) are uninterpreted functions handed in as `Oracles`; SQL
// `ORDER BY` is a stable sort on them, so ties come back in scan order.

module VectorStore {
  import opened Values
  import opened Sorting
  import opened Fusion

  /** The JSONB `data` column of a chunk: `page_content` may be missing; a missing
      `metadata` entry reads as `{}`. */
  datatype ChunkData = ChunkData(pageContent: Option<string>, metadata: Metadata)

  /** One row of `chunks_embeddings`; its embedding is seen only through the distance oracle. */
  datatype ChunkRow = ChunkRow(id: string, documentId: string, userId: string, data: ChunkData)

  datatype SearchError =
    | MissingPageContent  // `chunk.data["page_content"]` raises KeyError while loading the corpus
    | EmptyCorpus         // the BM25 retriever cannot be built over no documents
    | InvalidSql          // the text query without candidate ids reads `WHERE ORDER BY`
    | NegativeLimit       // PostgreSQL refuses a negative LIMIT

  const BM25_K1: real := 1.2
  const BM25_B: real := 0.75
  const RRF_K: nat := 60

  /** The scoring primitives: BM25 of a document for a query over a corpus with
      parameters k1 and b; `ts_rank(to_tsvector(language, text), plainto_tsquery(language, query))`;
      and the cosine distance between a row's embedding and the query's embedding. */
  datatype Oracles = Oracles(
    bm25: (seq<Document>, real, real, string, Document) -> real,
    tsRank: (string, string, string) -> real,
    distance: (string, ChunkRow) -> real)

  /** A built BM25 retriever: its corpus, the number of documents it returns, and k1, b. */
  datatype Bm25Index = Bm25Index(docs: seq<Document>, k: int, k1: real, b: real)

  /** The cached fields `_bm25_retriever` and `_bm25_docs`. */
  datatype Bm25Cache = Bm25Cache(retriever: Option<Bm25Index>, docs: Option<seq<Document>>)

  /** The arguments of `similarity_search`. */
  datatype Query = Query(text: string, userId: string, topK: int, bm25K: int, denseK: int,
                         useBm25: bool, language: string)

  // ---------------------------------------------------------------------
  // Rows and documents

  /** The corpus entry for a chunk: its text, and its metadata with `"document_id"` set from the row. */
  function ChunkDocument(c: ChunkRow): Document
    requires c.data.pageContent.Some?
  {
    Document(c.data.pageContent.value, c.data.metadata["document_id" := Str(c.documentId)])
  }

  /** `get_all_documents`: every chunk of the table, whoever owns it. It can only fail
      on a chunk without text, and on success gives one document per chunk, each
      carrying a `"document_id"`. */
  function AllDocuments(chunks: seq<ChunkRow>): (r: Result<seq<Document>, SearchError>)
    ensures r.Err? ==> r.error == MissingPageContent
    ensures r.Ok? ==> |r.value| == |chunks| && forall d :: d in r.value ==> "document_id" in d.metadata
  {
    if chunks == [] then Ok([])
    else if chunks[0].data.pageContent.None? then Err(MissingPageContent)
    else match AllDocuments(chunks[1..])
      case Err(e) => Err(e)
      case Ok(rest) => Ok([ChunkDocument(chunks[0])] + rest)
  }

  /** A result row as a Document: the chunk metadata with `"id"` and `"document_id"`
      taken from the row, and an empty text when the chunk has none. */
  function RowToDocument(row: ChunkRow): (d: Document)
    ensures d.pageContent == if row.data.pageContent.Some? then row.data.pageContent.value else ""
    ensures d.metadata.Keys == row.data.metadata.Keys + {"id", "document_id"}
    ensures d.metadata["id"] == Str(row.id) && d.metadata["document_id"] == Str(row.documentId)
    ensures forall key :: key in row.data.metadata && key != "id" && key != "document_id" ==>
              d.metadata[key] == row.data.metadata[key]
    ensures IdOf(d) == Str(row.id)
  {
    var text := if row.data.pageContent.Some? then row.data.pageContent.value else "";
    Document(text, row.data.metadata["id" := Str(row.id)]["document_id" := Str(row.documentId)])
  }

  function MapRows(rows: seq<ChunkRow>): (docs: seq<Document>)
    ensures |docs| == |rows| && forall i :: 0 <= i < |rows| ==> docs[i] == RowToDocument(rows[i])
  {
    seq(|rows|, i requires 0 <= i < |rows| => RowToDocument(rows[i]))
  }

  /** The loop shared by both queries that turns fetched rows into Documents. */
  method RowsToDocuments(rows: seq<ChunkRow>) returns (results: seq<Document>)
    ensures results == MapRows(rows)
  {
    results := [];
    var i := 0;
    while i < |rows|
      invariant 0 <= i <= |rows|
      invariant |results| == i
      invariant forall j :: 0 <= j < i ==> results[j] == RowToDocument(rows[j])
    {
      results := results + [RowToDocument(rows[i])];
      i := i + 1;
    }
  }

  // ---------------------------------------------------------------------
  // The BM25 first pass and its cache

  predicate CacheBuilt(c: Bm25Cache)
  {
    c.retriever.Some? && c.docs.Some?
  }

  /** What every reachable cache satisfies: a retriever is only ever built over the
      cached corpus, which is non-empty and whose entries all carry a `"document_id"`. */
  ghost predicate CacheValid(c: Bm25Cache)
  {
    c.retriever.Some? ==>
      && c.docs == Some(c.retriever.value.docs)
      && c.retriever.value.docs != []
      && c.retriever.value.k1 == BM25_K1 && c.retriever.value.b == BM25_B
      && forall d :: d in c.retriever.value.docs ==> "document_id" in d.metadata
  }

  /** `_get_bm25_retriever`: the cache as it is left and the retriever returned. */
  function CacheStep(c: Bm25Cache, chunks: seq<ChunkRow>, k: int): (r: (Bm25Cache, Result<Bm25Index, SearchError>))
    requires CacheValid(c)
    ensures CacheValid(r.0)
    ensures r.1.Ok? ==> CacheBuilt(r.0) && r.0.retriever == Some(r.1.value)
  {
    if CacheBuilt(c) then (c, Ok(c.retriever.value))
    else match AllDocuments(chunks)
      case Err(e) => (c, Err(e))
      case Ok(docs) =>
        if docs == [] then (Bm25Cache(c.retriever, Some(docs)), Err(EmptyCorpus))
        else
          AllDocumentsFacts(chunks);
          var index := Bm25Index(docs, k, BM25_K1, BM25_B);
          (Bm25Cache(Some(index), Some(docs)), Ok(index))
  }

  /** The BM25 score of a corpus document for `query`. */
  function Bm25Key(index: Bm25Index, query: string, bm25: (seq<Document>, real, real, string, Document) -> real): Document -> real
  {
    d => bm25(index.docs, index.k1, index.b, query, d)
  }

  /** `get_relevant_documents`, which is rank_bm25's `get_top_n`:
      `np.argsort(scores)[::-1][:k]`. A stable ascending argsort read backwards is a
      stable descending sort of the reversed corpus: best score first and, among
      equal scores, the later corpus document first. The hits are corpus documents,
      `min(k, #corpus)` of them for `k >= 0`. */
  function TopDocs(index: Bm25Index, query: string, bm25: (seq<Document>, real, real, string, Document) -> real): (top: seq<Document>)
    ensures forall d :: d in top ==> d in index.docs
    ensures |top| <= |index.docs|
    ensures index.k >= 0 ==> |top| == Min(index.k, |index.docs|)
  {
    var key := Bm25Key(index, query, bm25);
    var sorted := SortDesc(Reversed(index.docs), key);
    SortFacts(Reversed(index.docs), key);
    ReversedPermutes(index.docs);
    var top := PySlice(sorted, index.k);
    assert forall d :: d in top ==> d in index.docs by {
      forall d | d in top ensures d in index.docs {
        assert d in multiset(sorted);
      }
    }
    top
  }

  function DocumentIds(docs: seq<Document>): (ids: seq<Value>)
    requires forall d :: d in docs ==> "document_id" in d.metadata
    ensures |ids| == |docs| && forall i :: 0 <= i < |docs| ==> ids[i] == docs[i].metadata["document_id"]
  {
    seq(|docs|, i requires 0 <= i < |docs| => docs[i].metadata["document_id"])
  }

  /** `list({doc.metadata["document_id"] for doc in docs})`; the set's iteration order
      is not fixed by Python, first-appearance order is one of the orders it can take. */
  function CandidateIds(docs: seq<Document>): seq<Value>
    requires forall d :: d in docs ==> "document_id" in d.metadata
  {
    Dedup(DocumentIds(docs))
  }

  /** `_retrieve_with_bm25`: the cache after the call and the candidate document ids. */
  function Bm25Ids(c: Bm25Cache, chunks: seq<ChunkRow>, query: string, k: int,
                   bm25: (seq<Document>, real, real, string, Document) -> real): (r: (Bm25Cache, Result<seq<Value>, SearchError>))
    requires CacheValid(c)
    ensures CacheValid(r.0)
  {
    var (c1, index) := CacheStep(c, chunks, k);
    if index.Err? then (c1, Err(index.error))
    else (c1, Ok(CandidateIds(TopDocs(index.value, query, bm25))))
  }

  // ---------------------------------------------------------------------
  // The two SQL queries

  function InCandidates(ids: seq<Value>): ChunkRow -> bool
  {
    (row: ChunkRow) => Str(row.documentId) in ids
  }

  /** The `ts_rank` of a row; rows without text have a NULL rank and are kept apart. */
  function TextKey(query: string, language: string, tsRank: (string, string, string) -> real): ChunkRow -> real
  {
    (row: ChunkRow) => if row.data.pageContent.Some? then tsRank(language, row.data.pageContent.value, query) else 0.0
  }

  predicate HasText(row: ChunkRow) { row.data.pageContent.Some? }

  predicate NoText(row: ChunkRow) { row.data.pageContent.None? }

  /** `ORDER BY ts_rank(...) DESC`: PostgreSQL puts NULLs first in a descending order. */
  function TextOrder(rows: seq<ChunkRow>, key: ChunkRow -> real): seq<ChunkRow>
  {
    Filter(rows, NoText) + SortDesc(Filter(rows, HasText), key)
  }

  /** The rows the full-text query fetches. Without candidate ids the statement reads
      `WHERE ORDER BY`, which PostgreSQL rejects as a syntax error. */
  function TextRows(chunks: seq<ChunkRow>, query: string, topK: int, ids: seq<Value>, language: string,
                    tsRank: (string, string, string) -> real): Result<seq<ChunkRow>, SearchError>
  {
    if ids == [] then Err(InvalidSql)
    else if topK < 0 then Err(NegativeLimit)
    else Ok(PySlice(TextOrder(Filter(chunks, InCandidates(ids)), TextKey(query, language, tsRank)), topK))
  }

  /** `_retrieve_with_text_search`: it fails exactly without candidates or on a negative
      limit; otherwise it returns at most `top_k` table rows, each of a candidate document. */
  function TextSearch(chunks: seq<ChunkRow>, query: string, topK: int, ids: seq<Value>, language: string,
                      tsRank: (string, string, string) -> real): (r: Result<seq<Document>, SearchError>)
    ensures r.Err? <==> ids == [] || topK < 0
    ensures r.Ok? ==> |r.value| <= topK
    ensures r.Ok? ==> forall d :: d in r.value ==>
              d in MapRows(chunks) && "document_id" in d.metadata && d.metadata["document_id"] in ids
  {
    TextRowsFacts(chunks, query, topK, ids, language, tsRank);
    match TextRows(chunks, query, topK, ids, language, tsRank)
    case Err(e) => Err(e)
    case Ok(rows) =>
      MapRowsFrom(rows, chunks);
      Ok(MapRows(rows))
  }

  /** Nearest first: ascending distance is descending negated distance. */
  function Closeness(query: string, distance: (string, ChunkRow) -> real): ChunkRow -> real
  {
    (row: ChunkRow) => -distance(query, row)
  }

  /** The rows the nearest-neighbour query fetches; the WHERE clause appears only for a non-empty id list. */
  function DenseRows(chunks: seq<ChunkRow>, query: string, topK: int, ids: seq<Value>,
                     distance: (string, ChunkRow) -> real): Result<seq<ChunkRow>, SearchError>
  {
    if topK < 0 then Err(NegativeLimit)
    else
      var pool := if ids != [] then Filter(chunks, InCandidates(ids)) else chunks;
      Ok(PySlice(SortDesc(pool, Closeness(query, distance)), topK))
  }

  /** `_retrieve_with_dense_vector`: it fails exactly on a negative limit; otherwise it
      returns at most `top_k` table rows, each of a listed document when ids are given. */
  function DenseSearch(chunks: seq<ChunkRow>, query: string, topK: int, ids: seq<Value>,
                       distance: (string, ChunkRow) -> real): (r: Result<seq<Document>, SearchError>)
    ensures r.Err? <==> topK < 0
    ensures r.Ok? ==> |r.value| <= topK
    ensures r.Ok? ==> forall d :: d in r.value ==>
              d in MapRows(chunks) && "document_id" in d.metadata && (ids != [] ==> d.metadata["document_id"] in ids)
  {
    DenseRowsFacts(chunks, query, topK, ids, distance);
    match DenseRows(chunks, query, topK, ids, distance)
    case Err(e) => Err(e)
    case Ok(rows) =>
      MapRowsFrom(rows, chunks);
      Ok(MapRows(rows))
  }

  // ---------------------------------------------------------------------
  // similarity_search

  /** Step 3: fuse, sparse list first, when the first pass is on and found something;
      otherwise the dense results cut to `top_k`. Either way only documents of the two
      lists come back, at most `top_k` of them. */
  function Combine(useBm25: bool, sparse: seq<Document>, dense: seq<Document>, topK: int): (r: seq<Document>)
    ensures forall d :: d in r ==> d in sparse || d in dense
    ensures topK >= 0 ==> |r| <= topK
  {
    if useBm25 && sparse != [] then
      var r := Fuse([sparse, dense], RRF_K, topK);
      FuseFromInputs([sparse, dense], RRF_K, topK);
      FuseLength([sparse, dense], RRF_K, topK);
      assert forall d :: d in r ==> d in sparse || d in dense by {
        forall d | d in r ensures d in sparse || d in dense {
          var i :| 0 <= i < |r| && r[i] == d;
          var j :| 0 <= j < 2 && r[i] in [sparse, dense][j];
        }
      }
      r
    else PySlice(dense, topK)
  }

  /** Step 2 (always unrestricted) followed by step 3. */
  function DenseThenCombine(chunks: seq<ChunkRow>, q: Query, o: Oracles, sparse: seq<Document>): Result<seq<Document>, SearchError>
  {
    match DenseSearch(chunks, q.text, q.denseK, [], o.distance)
    case Err(e) => Err(e)
    case Ok(dense) => Ok(Combine(q.useBm25, sparse, dense, q.topK))
  }

  /** `similarity_search`: the cache as it is left, and the documents returned. */
  function Search(c: Bm25Cache, chunks: seq<ChunkRow>, q: Query, o: Oracles): (r: (Bm25Cache, Result<seq<Document>, SearchError>))
    requires CacheValid(c)
    ensures CacheValid(r.0)
  {
    if q.useBm25 then
      var (c1, ids) := Bm25Ids(c, chunks, q.text, q.bm25K, o.bm25);
      if ids.Err? then (c1, Err(ids.error))
      else match TextSearch(chunks, q.text, q.bm25K, ids.value, q.language, o.tsRank)
        case Err(e) => (c1, Err(e))
        case Ok(sparse) => (c1, DenseThenCombine(chunks, q, o, sparse))
    else (c, DenseThenCombine(chunks, q, o, []))
  }

  // ---------------------------------------------------------------------
  // The store object

  class PGVectorStore {
    /** The `chunks_embeddings` table, in scan order. */
    var chunks: seq<ChunkRow>
    var bm25Retriever: Option<Bm25Index>
    var bm25Docs: Option<seq<Document>>

    function Cache(): Bm25Cache
      reads this
    {
      Bm25Cache(bm25Retriever, bm25Docs)
    }

    ghost predicate Valid()
      reads this
    {
      CacheValid(Cache())
    }

    constructor(table: seq<ChunkRow>)
      ensures chunks == table && bm25Retriever == None && bm25Docs == None
      ensures Valid()
    {
      chunks := table;
      bm25Retriever := None;
      bm25Docs := None;
    }

    /** `_get_bm25_retriever`. `userId` is handed to `get_all_documents`, which ignores it. */
    method GetBm25Retriever(userId: string, k: int) returns (r: Result<Bm25Index, SearchError>)
      requires Valid()
      modifies this
      ensures Valid() && chunks == old(chunks)
      ensures (Cache(), r) == CacheStep(old(Cache()), chunks, k)
    {
      if bm25Retriever.None? || bm25Docs.None? {
        var all := AllDocuments(chunks);
        AllDocumentsFacts(chunks);
        if all.Err? {
          return Err(all.error);
        }
        bm25Docs := Some(all.value);
        if all.value == [] {
          return Err(EmptyCorpus);
        }
        bm25Retriever := Some(Bm25Index(all.value, k, BM25_K1, BM25_B));
      }
      r := Ok(bm25Retriever.value);
    }

    /** `_retrieve_with_bm25` */
    method RetrieveWithBm25(query: string, userId: string, k: int,
                            bm25: (seq<Document>, real, real, string, Document) -> real)
      returns (r: Result<seq<Value>, SearchError>)
      requires Valid()
      modifies this
      ensures Valid() && chunks == old(chunks)
      ensures (Cache(), r) == Bm25Ids(old(Cache()), chunks, query, k, bm25)
    {
      var index := GetBm25Retriever(userId, k);
      if index.Err? {
        return Err(index.error);
      }
      var firstPass := TopDocs(index.value, query, bm25);
      r := Ok(CandidateIds(firstPass));
    }

    /** `_retrieve_with_text_search` */
    method RetrieveWithTextSearch(query: string, topK: int, ids: seq<Value>, language: string,
                                  tsRank: (string, string, string) -> real)
      returns (r: Result<seq<Document>, SearchError>)
      ensures r == TextSearch(chunks, query, topK, ids, language, tsRank)
    {
      var rows := TextRows(chunks, query, topK, ids, language, tsRank);
      if rows.Err? {
        return Err(rows.error);
      }
      var results := RowsToDocuments(rows.value);
      r := Ok(results);
    }

    /** `_retrieve_with_dense_vector` */
    method RetrieveWithDenseVector(query: string, topK: int, ids: seq<Value>,
                                   distance: (string, ChunkRow) -> real)
      returns (r: Result<seq<Document>, SearchError>)
      ensures r == DenseSearch(chunks, query, topK, ids, distance)
    {
      var rows := DenseRows(chunks, query, topK, ids, distance);
      if rows.Err? {
        return Err(rows.error);
      }
      var results := RowsToDocuments(rows.value);
      r := Ok(results);
    }

    /** `similarity_search` */
    method SimilaritySearch(q: Query, o: Oracles) returns (r: Result<seq<Document>, SearchError>)
      requires Valid()
      modifies this
      ensures Valid() && chunks == old(chunks)
      ensures (Cache(), r) == Search(old(Cache()), chunks, q, o)
    {
      var sparse: seq<Document> := [];
      if q.useBm25 {
        var ids := RetrieveWithBm25(q.text, q.userId, q.bm25K, o.bm25);
        if ids.Err? {
          return Err(ids.error);
        }
        var text := RetrieveWithTextSearch(q.text, q.bm25K, ids.value, q.language, o.tsRank);
        if text.Err? {
          return Err(text.error);
        }
        sparse := text.value;
      }
      var dense := RetrieveWithDenseVector(q.text, q.denseK, [], o.distance);
      if dense.Err? {
        return Err(dense.error);
      }
      if q.useBm25 && sparse != [] {
        var fused := FuseResultsRrf([sparse, dense.value], RRF_K, q.topK);
        r := Ok(fused);
      } else {
        r := Ok(PySlice(dense.value, q.topK));
      }
    }
  }

  // ---------------------------------------------------------------------
  // Properties

  /** `get_all_documents` returns one entry per chunk, in table order, for any owner,
      each with `"document_id"` set from its row; it fails iff some chunk has no text. */
  lemma AllDocumentsFacts(chunks: seq<ChunkRow>)
    ensures AllDocuments(chunks).Ok? <==> forall i :: 0 <= i < |chunks| ==> chunks[i].data.pageContent.Some?
    ensures AllDocuments(chunks).Err? ==> AllDocuments(chunks).error == MissingPageContent
    ensures AllDocuments(chunks).Ok? ==>
              var docs := AllDocuments(chunks).value;
              && |docs| == |chunks|
              && (forall i :: 0 <= i < |chunks| ==>
                    && docs[i].pageContent == chunks[i].data.pageContent.value
                    && docs[i].metadata == chunks[i].data.metadata["document_id" := Str(chunks[i].documentId)])
              && (forall d :: d in docs ==> "document_id" in d.metadata)
  {
    AllDocumentsSucceeds(chunks);
    if AllDocuments(chunks).Ok? {
      AllDocumentsContents(chunks);
      var docs := AllDocuments(chunks).value;
      forall d | d in docs ensures "document_id" in d.metadata {
        var i :| 0 <= i < |docs| && docs[i] == d;
      }
    }
  }

  /** Loading the corpus fails exactly when some chunk has no text. */
  lemma {:induction false} AllDocumentsSucceeds(chunks: seq<ChunkRow>)
    ensures AllDocuments(chunks).Ok? <==> forall i :: 0 <= i < |chunks| ==> chunks[i].data.pageContent.Some?
    ensures AllDocuments(chunks).Err? ==> AllDocuments(chunks).error == MissingPageContent
  {
    if chunks != [] {
      AllDocumentsSucceeds(chunks[1..]);
      if exists i :: 0 <= i < |chunks| && chunks[i].data.pageContent.None? {
        var i :| 0 <= i < |chunks| && chunks[i].data.pageContent.None?;
        if i > 0 {
          assert chunks[1..][i - 1] == chunks[i];
        }
      } else {
        assert forall i :: 0 <= i < |chunks[1..]| ==> chunks[1..][i] == chunks[i + 1];
      }
    }
  }

  /** A loaded corpus has the chunks' texts and their metadata with `"document_id"` set. */
  lemma {:induction false} AllDocumentsContents(chunks: seq<ChunkRow>)
    requires AllDocuments(chunks).Ok?
    ensures var docs := AllDocuments(chunks).value;
            && |docs| == |chunks|
            && forall i :: 0 <= i < |chunks| ==>
                 && chunks[i].data.pageContent.Some?
                 && docs[i].pageContent == chunks[i].data.pageContent.value
                 && docs[i].metadata == chunks[i].data.metadata["document_id" := Str(chunks[i].documentId)]
  {
    if chunks != [] {
      AllDocumentsContents(chunks[1..]);
      var rest := AllDocuments(chunks[1..]).value;
      var docs := AllDocuments(chunks).value;
      assert docs == [ChunkDocument(chunks[0])] + rest;
      forall i | 0 < i < |chunks|
        ensures && chunks[i].data.pageContent.Some?
                && docs[i].pageContent == chunks[i].data.pageContent.value
                && docs[i].metadata == chunks[i].data.metadata["document_id" := Str(chunks[i].documentId)]
      {
        assert docs[i] == rest[i - 1] && chunks[1..][i - 1] == chunks[i];
      }
    }
  }

  /** The first pass yields each candidate once, and exactly the `"document_id"`s of the documents BM25 returned. */
  lemma CandidateIdsFacts(docs: seq<Document>)
    requires forall d :: d in docs ==> "document_id" in d.metadata
    ensures Distinct(CandidateIds(docs))
    ensures forall x :: x in CandidateIds(docs) <==> exists d :: d in docs && d.metadata["document_id"] == x
  {
    var ids := DocumentIds(docs);
    DedupFacts(ids);
    forall x ensures x in ids <==> exists d :: d in docs && d.metadata["document_id"] == x {
      if x in ids {
        var i :| 0 <= i < |ids| && ids[i] == x;
        assert docs[i] in docs;
      }
      if exists d :: d in docs && d.metadata["document_id"] == x {
        var d :| d in docs && d.metadata["document_id"] == x;
        var i :| 0 <= i < |docs| && docs[i] == d;
        assert ids[i] == x;
      }
    }
  }

  /** BM25 returns its hits best score first, and no corpus document left out scores
      higher than one returned. */
  lemma TopDocsFacts(index: Bm25Index, query: string, bm25: (seq<Document>, real, real, string, Document) -> real)
    ensures NonIncreasing(TopDocs(index, query, bm25), Bm25Key(index, query, bm25))
    ensures forall d, x :: d in TopDocs(index, query, bm25) && x in multiset(index.docs) - multiset(TopDocs(index, query, bm25)) ==>
              Bm25Key(index, query, bm25)(d) >= Bm25Key(index, query, bm25)(x)
  {
    var key := Bm25Key(index, query, bm25);
    ReversedPermutes(index.docs);
    var top := TopFacts(Reversed(index.docs), index.k, key);
  }

  /** When every document scores the same (a query sharing no term with the corpus
      scores 0 everywhere), the hits are the last k documents of the corpus, last first. */
  lemma TopDocsAllTied(index: Bm25Index, query: string, bm25: (seq<Document>, real, real, string, Document) -> real)
    requires forall d, e :: d in index.docs && e in index.docs ==> Bm25Key(index, query, bm25)(d) == Bm25Key(index, query, bm25)(e)
    ensures TopDocs(index, query, bm25) == PySlice(Reversed(index.docs), index.k)
  {
    var key := Bm25Key(index, query, bm25);
    var rev := Reversed(index.docs);
    assert NonIncreasing(rev, key) by {
      forall i, j | 0 <= i < j < |rev| ensures key(rev[i]) >= key(rev[j]) {
        assert rev[i] in index.docs && rev[j] in index.docs;
      }
    }
    SortOfSorted(rev, key);
  }

  /** The retriever is built once. A built cache is returned as it is, whatever the
      table, the user or k; an unbuilt one is built over every chunk with k1 = 1.2 and
      b = 0.75 and the k of this call, unless the table has a chunk without text or no
      chunk at all, in which case the call fails and the next call tries again. */
  lemma CacheStepFacts(c: Bm25Cache, chunks: seq<ChunkRow>, k: int)
    requires CacheValid(c)
    ensures CacheBuilt(c) ==> CacheStep(c, chunks, k) == (c, Ok(c.retriever.value))
    ensures !CacheBuilt(c) ==>
              var (c1, r) := CacheStep(c, chunks, k);
              && (r.Ok? <==> chunks != [] && forall i :: 0 <= i < |chunks| ==> chunks[i].data.pageContent.Some?)
              && (r.Ok? ==> r.value == Bm25Index(AllDocuments(chunks).value, k, 1.2, 0.75)
                            && c1 == Bm25Cache(Some(r.value), Some(r.value.docs))
                            && |r.value.docs| == |chunks|)
              && (chunks == [] ==> r == Err(EmptyCorpus) && c1 == Bm25Cache(c.retriever, Some([])))
              && (r.Err? ==> !CacheBuilt(c1))
  {
    AllDocumentsFacts(chunks);
  }

  /** A successful first pass leaves a cache that every later call, for any user and
      any k, reuses unchanged. */
  lemma CacheBuiltOnce(c: Bm25Cache, chunks: seq<ChunkRow>, k: int, later: seq<ChunkRow>, k2: int)
    requires CacheValid(c) && CacheStep(c, chunks, k).1.Ok?
    ensures CacheStep(CacheStep(c, chunks, k).0, later, k2) == CacheStep(c, chunks, k)
  {
  }

  /** The candidate ids are distinct and are the document ids of the BM25 hits. */
  lemma Bm25IdsFacts(c: Bm25Cache, chunks: seq<ChunkRow>, query: string, k: int,
                     bm25: (seq<Document>, real, real, string, Document) -> real)
    requires CacheValid(c)
    ensures var (c1, ids) := Bm25Ids(c, chunks, query, k, bm25);
            ids.Ok? ==>
              && CacheBuilt(c1)
              && Distinct(ids.value)
              && forall x :: x in ids.value <==>
                   exists d :: d in TopDocs(c1.retriever.value, query, bm25) && "document_id" in d.metadata
                                && d.metadata["document_id"] == x
  {
    var (c1, index) := CacheStep(c, chunks, k);
    if index.Ok? {
      TopDocsFacts(index.value, query, bm25);
      CandidateIdsFacts(TopDocs(index.value, query, bm25));
    }
  }

  /** Where a row stands against another under `ORDER BY ts_rank(...) DESC`: a row
      without text (a NULL rank) may come before any row; a row with text comes only
      before rows with text and a rank no higher. */
  ghost predicate RanksAtLeast(a: ChunkRow, b: ChunkRow, key: ChunkRow -> real)
  {
    NoText(a) || (HasText(b) && key(a) >= key(b))
  }

  /** Rows without text come first; the others follow by descending key. */
  ghost predicate NullsFirst(rows: seq<ChunkRow>, key: ChunkRow -> real)
  {
    forall i, j :: 0 <= i < j < |rows| ==> RanksAtLeast(rows[i], rows[j], key)
  }

  /** The text order is a reordering of its rows, rows without text first, the others
      by descending rank. */
  lemma TextOrderFacts(pool: seq<ChunkRow>, key: ChunkRow -> real)
    ensures multiset(TextOrder(pool, key)) == multiset(pool)
    ensures |TextOrder(pool, key)| == |pool|
    ensures NullsFirst(TextOrder(pool, key), key)
  {
    var n := Filter(pool, NoText);
    var withText := Filter(pool, HasText);
    var sorted := SortDesc(withText, key);
    SortFacts(withText, key);
    FilterSplits(pool);
    var all := n + sorted;
    assert |multiset(all)| == |all| && |multiset(pool)| == |pool|;
    forall i, j | 0 <= i < j < |all| ensures RanksAtLeast(all[i], all[j], key) {
      if i < |n| {
        assert all[i] in n;
      } else {
        assert all[i] == sorted[i - |n|] && all[j] == sorted[j - |n|];
        assert all[j] in multiset(withText);
      }
    }
  }

  /** The full-text query: it fails without candidates (a syntax error) and on a
      negative limit. Otherwise its rows are `min(top_k, #candidate rows)` distinct
      candidate rows (distinct as the table's rows are), rows without text first, then
      by descending `ts_rank`, and no candidate row left out ranks above one returned. */
  lemma TextRowsFacts(chunks: seq<ChunkRow>, query: string, topK: int, ids: seq<Value>, language: string,
                      tsRank: (string, string, string) -> real)
    ensures ids == [] ==> TextRows(chunks, query, topK, ids, language, tsRank) == Err(InvalidSql)
    ensures ids != [] && topK < 0 ==> TextRows(chunks, query, topK, ids, language, tsRank) == Err(NegativeLimit)
    ensures ids != [] && topK >= 0 ==>
              var pool := Filter(chunks, InCandidates(ids));
              var key := TextKey(query, language, tsRank);
              var rows := TextRows(chunks, query, topK, ids, language, tsRank).value;
              && |rows| == Min(topK, |pool|)
              && multiset(rows) <= multiset(pool)
              && (forall row :: row in rows ==> row in chunks && Str(row.documentId) in ids)
              && NullsFirst(rows, key)
              && (forall r, x :: r in rows && x in multiset(pool) - multiset(rows) ==> RanksAtLeast(r, x, key))
              && (Distinct(chunks) ==> Distinct(rows))
  {
    if ids != [] && topK >= 0 {
      var key := TextKey(query, language, tsRank);
      var pool := Filter(chunks, InCandidates(ids));
      var all := TextOrder(pool, key);
      TextOrderFacts(pool, key);
      var rows := PySlice(all, topK);
      assert rows == all[..|rows|];
      var before := (a, b) => RanksAtLeast(a, b, key);
      CutFacts(all, pool, |rows|, before);
      assert forall r, x :: r in rows && x in multiset(pool) - multiset(rows) ==> RanksAtLeast(r, x, key) by {
        forall r, x | r in rows && x in multiset(pool) - multiset(rows) ensures RanksAtLeast(r, x, key) {
          assert before(r, x);
        }
      }
      assert NullsFirst(rows, key) by {
        forall i, j | 0 <= i < j < |rows| ensures RanksAtLeast(rows[i], rows[j], key) {
          assert before(rows[i], rows[j]);
        }
      }
      forall row | row in rows ensures row in chunks && Str(row.documentId) in ids {
        assert row in pool;
      }
      if Distinct(chunks) {
        FilterSubMultiset(chunks, InCandidates(ids));
        SubMultisetKeepsDistinct(pool, chunks);
      }
    }
  }

  /** Splitting rows by whether they have text loses none of them. */
  lemma {:induction false} FilterSplits(rows: seq<ChunkRow>)
    ensures multiset(Filter(rows, NoText)) + multiset(Filter(rows, HasText)) == multiset(rows)
  {
    if rows != [] {
      var rest := rows[1..];
      FilterSplits(rest);
      assert rows == [rows[0]] + rest;
      if NoText(rows[0]) {
        assert Filter(rows, NoText) == [rows[0]] + Filter(rest, NoText);
        assert Filter(rows, HasText) == Filter(rest, HasText);
      } else {
        assert Filter(rows, NoText) == Filter(rest, NoText);
        assert Filter(rows, HasText) == [rows[0]] + Filter(rest, HasText);
      }
    }
  }

  /** The nearest-neighbour query: it fails only on a negative limit. Otherwise its rows
      are `min(top_k, #rows considered)` distinct rows considered, nearest first, and no
      row considered but left out is nearer than one returned; the rows considered are
      all rows unless a non-empty id list restricts them. */
  lemma DenseRowsFacts(chunks: seq<ChunkRow>, query: string, topK: int, ids: seq<Value>,
                       distance: (string, ChunkRow) -> real)
    ensures DenseRows(chunks, query, topK, ids, distance).Err? <==> topK < 0
    ensures topK >= 0 ==>
              var pool := if ids != [] then Filter(chunks, InCandidates(ids)) else chunks;
              var rows := DenseRows(chunks, query, topK, ids, distance).value;
              && |rows| == Min(topK, |pool|)
              && multiset(rows) <= multiset(pool)
              && (forall row :: row in rows ==> row in chunks && (ids != [] ==> Str(row.documentId) in ids))
              && (forall i, j :: 0 <= i < j < |rows| ==> distance(query, rows[i]) <= distance(query, rows[j]))
              && (forall r, x :: r in rows && x in multiset(pool) - multiset(rows) ==> distance(query, r) <= distance(query, x))
              && (Distinct(chunks) ==> Distinct(rows))
  {
    if topK >= 0 {
      var pool := if ids != [] then Filter(chunks, InCandidates(ids)) else chunks;
      NearestRows(pool, query, topK, distance);
      if Distinct(chunks) && ids != [] {
        FilterSubMultiset(chunks, InCandidates(ids));
        SubMultisetKeepsDistinct(pool, chunks);
      }
    }
  }

  /** The first `n` rows of a pool by ascending distance: `min(n, #pool)` of its rows,
      nearest first, none farther than a row left out, none repeated unless the pool
      repeats it. */
  lemma NearestRows(pool: seq<ChunkRow>, query: string, n: nat, distance: (string, ChunkRow) -> real)
    ensures var rows := PySlice(SortDesc(pool, Closeness(query, distance)), n);
            && |rows| == Min(n, |pool|)
            && multiset(rows) <= multiset(pool)
            && (forall row :: row in rows ==> row in pool)
            && (forall i, j :: 0 <= i < j < |rows| ==> distance(query, rows[i]) <= distance(query, rows[j]))
            && (forall r, x :: r in rows && x in multiset(pool) - multiset(rows) ==> distance(query, r) <= distance(query, x))
            && (Distinct(pool) ==> Distinct(rows))
  {
    var key := Closeness(query, distance);
    var rows := TopFacts(pool, n, key);
    forall i, j | 0 <= i < j < |rows| ensures distance(query, rows[i]) <= distance(query, rows[j]) {
      assert key(rows[i]) >= key(rows[j]);
    }
    forall r, x | r in rows && x in multiset(pool) - multiset(rows) ensures distance(query, r) <= distance(query, x) {
      assert key(r) >= key(x);
    }
  }

  // ---------------------------------------------------------------------
  // similarity_search as a whole

  /** Only a first pass touches the cache, and a built cache is never rebuilt. */
  lemma SearchCache(c: Bm25Cache, chunks: seq<ChunkRow>, q: Query, o: Oracles)
    requires CacheValid(c)
    ensures !q.useBm25 || CacheBuilt(c) ==> Search(c, chunks, q, o).0 == c
    ensures q.useBm25 && Search(c, chunks, q, o).1.Ok? ==> CacheBuilt(Search(c, chunks, q, o).0)
  {
    if q.useBm25 {
      CacheStepFacts(c, chunks, q.bm25K);
    }
  }

  /** On an empty table the first search with a first pass fails: the corpus is cached
      as empty, the retriever is left unbuilt, and the next search tries again. */
  lemma SearchEmptyTable(c: Bm25Cache, q: Query, o: Oracles)
    requires CacheValid(c) && !CacheBuilt(c) && q.useBm25
    ensures Search(c, [], q, o) == (Bm25Cache(c.retriever, Some([])), Err(EmptyCorpus))
    ensures !CacheBuilt(Search(c, [], q, o).0)
  {
    CacheStepFacts(c, [], q.bm25K);
  }

  /** With no first pass, the search is the nearest-neighbour query over the whole table
      cut to `top_k`; it fails only on a negative `dense_k`. */
  lemma SearchDenseOnly(c: Bm25Cache, chunks: seq<ChunkRow>, q: Query, o: Oracles)
    requires CacheValid(c) && !q.useBm25
    ensures Search(c, chunks, q, o).1.Ok? <==> q.denseK >= 0
    ensures q.denseK < 0 ==> Search(c, chunks, q, o).1 == Err(NegativeLimit)
    ensures q.denseK >= 0 && q.topK >= 0 ==>
              |Search(c, chunks, q, o).1.value| == Min(q.topK, Min(q.denseK, |chunks|))
    ensures q.denseK >= 0 ==>
              Search(c, chunks, q, o) == (c, Ok(PySlice(DenseSearch(chunks, q.text, q.denseK, [], o.distance).value, q.topK)))
  {
    DenseRowsFacts(chunks, q.text, q.denseK, [], o.distance);
  }

  /** An empty sparse list makes the first pass irrelevant: the result is that of the
      same search without it. */
  lemma SearchEmptySparse(c: Bm25Cache, chunks: seq<ChunkRow>, q: Query, o: Oracles)
    requires CacheValid(c) && q.useBm25
    requires var ids := Bm25Ids(c, chunks, q.text, q.bm25K, o.bm25).1;
             ids.Ok? && TextSearch(chunks, q.text, q.bm25K, ids.value, q.language, o.tsRank) == Ok([])
    ensures Search(c, chunks, q, o).1 == Search(c, chunks, q.(useBm25 := false), o).1
  {
  }

  /** The user id plays no part: two users asking the same question get the same
      answer and leave the same cache. This holds by construction, because no
      function on the search path reads `userId`: `get_all_documents` loads every
      user's chunks and neither query has a user filter; the lemma records that fact. */
  lemma SearchIgnoresUser(c: Bm25Cache, chunks: seq<ChunkRow>, q: Query, o: Oracles, other: string)
    requires CacheValid(c)
    ensures Search(c, chunks, q.(userId := other), o) == Search(c, chunks, q, o)
  {
  }

  /** Every document is a table row turned into a Document. */
  ghost predicate FromTable(docs: seq<Document>, chunks: seq<ChunkRow>)
  {
    forall d :: d in docs ==> d in MapRows(chunks)
  }

  /** Converting rows of the table gives documents of the table, each carrying its row's
      `"document_id"`. */
  lemma MapRowsFrom(rows: seq<ChunkRow>, chunks: seq<ChunkRow>)
    requires forall row :: row in rows ==> row in chunks
    ensures FromTable(MapRows(rows), chunks)
    ensures forall d :: d in MapRows(rows) ==> exists row :: row in rows && d == RowToDocument(row)
  {
    forall d | d in MapRows(rows) ensures d in MapRows(chunks) && exists row :: row in rows && d == RowToDocument(row) {
      var m :| 0 <= m < |rows| && MapRows(rows)[m] == d;
      assert rows[m] in rows;
      var p :| 0 <= p < |chunks| && chunks[p] == rows[m];
      assert MapRows(chunks)[p] == d;
    }
  }

  /** Every document a search returns is a table row with its `"id"` and `"document_id"`
      merged into the chunk metadata (an element of `MapRows(chunks)`), so each has an
      id; at most `top_k` come back. */
  lemma SearchResults(c: Bm25Cache, chunks: seq<ChunkRow>, q: Query, o: Oracles)
    requires CacheValid(c)
    ensures Search(c, chunks, q, o).1.Ok? ==>
              var r := Search(c, chunks, q, o).1.value;
              && (forall d :: d in r ==> d in MapRows(chunks))
              && (forall d :: d in r ==> IdOf(d) != Null)
              && (q.topK >= 0 ==> |r| <= q.topK)
  {
    if Search(c, chunks, q, o).1.Ok? {
      var sparse: seq<Document> := [];
      if q.useBm25 {
        var ids := Bm25Ids(c, chunks, q.text, q.bm25K, o.bm25).1;
        sparse := TextSearch(chunks, q.text, q.bm25K, ids.value, q.language, o.tsRank).value;
      }
      var dense := DenseSearch(chunks, q.text, q.denseK, [], o.distance).value;
      var r := Combine(q.useBm25, sparse, dense, q.topK);
      assert Search(c, chunks, q, o).1 == Ok(r);
      forall d | d in r ensures IdOf(d) != Null {
        var p :| 0 <= p < |chunks| && MapRows(chunks)[p] == d;
      }
    }
  }
}
