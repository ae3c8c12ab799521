/** The vector store and the article indexer `index_wikipedia_article`
    (app.py, and the per-chunk variant in wiki_rag.py). The store stands in
    for a ChromaDB collection: a map from record id to the stored document,
    metadata and embedding. Vector similarity is not modelled. */
module KnowledgeStore {
  import opened Common
  import opened Chunking
  import opened Embeddings

  /** The metadata written with every chunk. */
  datatype ChunkMeta = ChunkMeta(source: string, title: string, url: string, chunkId: nat)

  datatype StoredRecord = StoredRecord(document: string, metadata: ChunkMeta, embedding: Vector)

  /** What `get_wikipedia_content` returns for an existing page. */
  datatype Article = Article(title: string, url: string, summary: string, content: string)

  /** How one indexing call ends: the probe found the article, the chunks were
      added, or an exception escaped (from the embedder or from `add`). */
  datatype IndexOutcome = AlreadyIndexed | Indexed(count: nat) | Failed(reason: string)

  const SourceName: string := "wikipedia"
  const EmbedBatchSize: nat := 20

  /** `f"{title}_chunk_{i}"`. */
  function ChunkId(title: string, i: nat): string
  {
    title + "_chunk_" + NatToString(i)
  }

  /** `f"article_{title}"`, the id the presence probe looks up. */
  function ProbeId(title: string): string
  {
    "article_" + title
  }

  function ChunkIds(title: string, n: nat): (ids: seq<string>)
    ensures |ids| == n
  {
    seq(n, i requires 0 <= i < n => ChunkId(title, i))
  }

  function ChunkMetas(article: Article, n: nat): (ms: seq<ChunkMeta>)
    ensures |ms| == n
  {
    seq(n, i requires 0 <= i < n => ChunkMeta(SourceName, article.title, article.url, i))
  }

  /** The records `add` would store, position by position. */
  function Records(documents: seq<string>, metadatas: seq<ChunkMeta>, embeddings: seq<Vector>): (rs: seq<StoredRecord>)
    requires |documents| == |metadatas| == |embeddings|
    ensures |rs| == |documents|
  {
    seq(|documents|, k requires 0 <= k < |documents| => StoredRecord(documents[k], metadatas[k], embeddings[k]))
  }

  /** What the store accepts in one `add`: parallel lists, at least one id,
      no id twice. */
  predicate AddAccepted(ids: seq<string>, documents: seq<string>, metadatas: seq<ChunkMeta>, embeddings: seq<Vector>)
  {
    |ids| == |documents| == |metadatas| == |embeddings| && |ids| > 0 && NoDup(ids)
  }

  /** Storing records under ids; an id already present keeps its record. */
  function Insert(m: map<string, StoredRecord>, ids: seq<string>, rs: seq<StoredRecord>): map<string, StoredRecord>
    requires |ids| == |rs|
    decreases |ids|
  {
    if ids == [] then m
    else Insert(if ids[0] in m then m else m[ids[0] := rs[0]], ids[1..], rs[1..])
  }

  class Collection {
    var records: map<string, StoredRecord>

    constructor ()
      ensures records == map[]
    {
      records := map[];
    }

    /** `collection.add(documents=…, metadatas=…, ids=…, embeddings=…)`. */
    method Add(ids: seq<string>, documents: seq<string>, metadatas: seq<ChunkMeta>, embeddings: seq<Vector>)
      returns (r: Result<nat>)
      modifies this
      ensures r.Ok? <==> AddAccepted(ids, documents, metadatas, embeddings)
      ensures r.Ok? ==>
        r.value == |ids| && records == Insert(old(records), ids, Records(documents, metadatas, embeddings))
      ensures r.Err? ==> r.reason == "invalid add" && records == old(records)
    {
      if !AddAccepted(ids, documents, metadatas, embeddings) {
        return Err("invalid add");
      }
      records := Insert(records, ids, Records(documents, metadatas, embeddings));
      return Ok(|ids|);
    }
  }

  // ------------------------------------------------------------- indexers

  /** The shared body of the app.py indexer, for a given probe id: probe, chunk
      with the defaults, build the three parallel lists, embed in batches of
      20, add. */
  method IndexWithProbe(c: Collection, article: Article, probe: string, probeRaises: bool,
                        batchEmbed: BatchProvider, single: SingleProvider)
    returns (outcome: IndexOutcome)
    modifies c
    ensures !probeRaises && probe in old(c.records) ==> outcome == AlreadyIndexed && c.records == old(c.records)
    ensures probeRaises || probe !in old(c.records) ==>
      var chunks := Chunks(article.content, DefaultChunkSize, DefaultOverlap);
      var n := |chunks|;
      var embs := EmbedAll(batchEmbed, single, chunks, EmbedBatchSize).value;
      if AddAccepted(ChunkIds(article.title, n), chunks, ChunkMetas(article, n), embs) then
        outcome == Indexed(n) &&
        c.records == Insert(old(c.records), ChunkIds(article.title, n), Records(chunks, ChunkMetas(article, n), embs))
      else outcome.Failed? && c.records == old(c.records)
  {
    if !probeRaises && probe in c.records {
      return AlreadyIndexed;
    }
    var chunks := ChunkText(article.content, DefaultChunkSize, DefaultOverlap);
    var documents, metadatas, ids := PrepareLists(article, chunks);
    var embedded := GetEmbeddingsBatch(documents, EmbedBatchSize, batchEmbed, single);
    var added := c.Add(ids, documents, metadatas, embedded.value);
    if added.Ok? {
      return Indexed(|chunks|);
    }
    return Failed(added.reason);
  }

  /** The loop of app.py's indexer: the three parallel lists for the chunks. */
  method PrepareLists(article: Article, chunks: seq<string>)
    returns (documents: seq<string>, metadatas: seq<ChunkMeta>, ids: seq<string>)
    ensures documents == chunks
    ensures metadatas == ChunkMetas(article, |chunks|)
    ensures ids == ChunkIds(article.title, |chunks|)
  {
    documents, metadatas, ids := [], [], [];
    for i := 0 to |chunks|
      invariant documents == chunks[..i]
      invariant metadatas == ChunkMetas(article, i)
      invariant ids == ChunkIds(article.title, i)
    {
      documents := documents + [chunks[i]];
      metadatas := metadatas + [ChunkMeta(SourceName, article.title, article.url, i)];
      ids := ids + [ChunkId(article.title, i)];
    }
    assert documents == chunks;
  }

  /** `index_wikipedia_article` in app.py: a probe that raises is ignored. */
  method IndexArticle(c: Collection, article: Article, probeRaises: bool,
                      batchEmbed: BatchProvider, single: SingleProvider)
    returns (outcome: IndexOutcome)
    modifies c
    ensures !probeRaises && ProbeId(article.title) in old(c.records) ==>
      outcome == AlreadyIndexed && c.records == old(c.records)
    ensures probeRaises || ProbeId(article.title) !in old(c.records) ==>
      var chunks := Chunks(article.content, DefaultChunkSize, DefaultOverlap);
      var n := |chunks|;
      var embs := EmbedAll(batchEmbed, single, chunks, EmbedBatchSize).value;
      if AddAccepted(ChunkIds(article.title, n), chunks, ChunkMetas(article, n), embs) then
        outcome == Indexed(n) &&
        c.records == Insert(old(c.records), ChunkIds(article.title, n), Records(chunks, ChunkMetas(article, n), embs))
      else outcome.Failed? && c.records == old(c.records)
    ensures outcome.Indexed? ==>
      var chunks := Chunks(article.content, DefaultChunkSize, DefaultOverlap);
      var embs := EmbedAll(batchEmbed, single, chunks, EmbedBatchSize).value;
      outcome.count == |chunks| && |embs| == |chunks| &&
      c.records == Insert(old(c.records), ChunkIds(article.title, |chunks|), Records(chunks, ChunkMetas(article, |chunks|), embs))
    ensures outcome.Failed? ==> c.records == old(c.records)
  {
    outcome := IndexWithProbe(c, article, ProbeId(article.title), probeRaises, batchEmbed, single);
  }

  /** The indexer with the probe pointed at the first chunk it writes. */
  method IndexArticleCorrected(c: Collection, article: Article, probeRaises: bool,
                               batchEmbed: BatchProvider, single: SingleProvider)
    returns (outcome: IndexOutcome)
    modifies c
    ensures !probeRaises && ChunkId(article.title, 0) in old(c.records) ==>
      outcome == AlreadyIndexed && c.records == old(c.records)
    ensures outcome.Indexed? ==> outcome.count > 0 && ChunkId(article.title, 0) in c.records
    ensures outcome.Failed? ==> c.records == old(c.records)
  {
    outcome := IndexWithProbe(c, article, ChunkId(article.title, 0), probeRaises, batchEmbed, single);
    if outcome.Indexed? {
      var chunks := Chunks(article.content, DefaultChunkSize, DefaultOverlap);
      var embs := EmbedAll(batchEmbed, single, chunks, EmbedBatchSize).value;
      InsertIncludesIds(old(c.records), ChunkIds(article.title, |chunks|), Records(chunks, ChunkMetas(article, |chunks|), embs), 0);
    }
  }

  /** Every text of the list has an embedding. */
  predicate AllEmbedded(single: SingleProvider, texts: seq<string>)
  {
    forall k :: 0 <= k < |texts| ==> single(texts[k]).Some?
  }

  /** The embeddings of texts whose embedding calls all succeed. */
  function SingleEmbeddings(single: SingleProvider, texts: seq<string>): (es: seq<Vector>)
    requires AllEmbedded(single, texts)
    ensures |es| == |texts|
  {
    seq(|texts|, k requires 0 <= k < |texts| => single(texts[k]).value)
  }

  /** What one call of wiki_rag.py's indexer returns, with the store it leaves. */
  datatype IndexStep = IndexStep(outcome: IndexOutcome, records: map<string, StoredRecord>)

  /** wiki_rag.py's indexer on a store: a probe hit is cached; otherwise the
      chunks are embedded one by one, and the add runs only when every call
      succeeded. */
  function PerChunkIndex(m: map<string, StoredRecord>, article: Article, probeRaises: bool, single: SingleProvider): IndexStep
  {
    if !probeRaises && ProbeId(article.title) in m then IndexStep(AlreadyIndexed, m)
    else
      var chunks := Chunks(article.content, DefaultChunkSize, DefaultOverlap);
      var n := |chunks|;
      if !AllEmbedded(single, chunks) then IndexStep(Failed("embedding request failed"), m)
      else if AddAccepted(ChunkIds(article.title, n), chunks, ChunkMetas(article, n), SingleEmbeddings(single, chunks)) then
        IndexStep(Indexed(n), Insert(m, ChunkIds(article.title, n), Records(chunks, ChunkMetas(article, n), SingleEmbeddings(single, chunks))))
      else IndexStep(Failed("invalid add"), m)
  }

  /** The indexer never drops or replaces a record already in the store. */
  lemma PerChunkKeepsOld(m: map<string, StoredRecord>, article: Article, probeRaises: bool, single: SingleProvider, k: string)
    requires k in m
    ensures var r := PerChunkIndex(m, article, probeRaises, single).records;
      k in r && r[k] == m[k]
  {
    if !(!probeRaises && ProbeId(article.title) in m) {
      var chunks := Chunks(article.content, DefaultChunkSize, DefaultOverlap);
      var n := |chunks|;
      if AllEmbedded(single, chunks) {
        InsertKeepsOld(m, ChunkIds(article.title, n), Records(chunks, ChunkMetas(article, n), SingleEmbeddings(single, chunks)), k);
      }
    }
  }

  /** `index_wikipedia_article` in wiki_rag.py: one embedding call per chunk,
      appended beside the other three lists; a failing call raises before
      anything is added. */
  method IndexArticlePerChunk(c: Collection, article: Article, probeRaises: bool, single: SingleProvider)
    returns (outcome: IndexOutcome)
    modifies c
    ensures outcome == PerChunkIndex(old(c.records), article, probeRaises, single).outcome
    ensures c.records == PerChunkIndex(old(c.records), article, probeRaises, single).records
    ensures !probeRaises && ProbeId(article.title) in old(c.records) ==>
      outcome == AlreadyIndexed && c.records == old(c.records)
    ensures probeRaises || ProbeId(article.title) !in old(c.records) ==>
      var chunks := Chunks(article.content, DefaultChunkSize, DefaultOverlap);
      var n := |chunks|;
      if AllEmbedded(single, chunks) && AddAccepted(ChunkIds(article.title, n), chunks, ChunkMetas(article, n), SingleEmbeddings(single, chunks)) then
        outcome == Indexed(n) &&
        c.records == Insert(old(c.records), ChunkIds(article.title, n), Records(chunks, ChunkMetas(article, n), SingleEmbeddings(single, chunks)))
      else outcome.Failed? && c.records == old(c.records)
    ensures outcome.Indexed? ==>
      var chunks := Chunks(article.content, DefaultChunkSize, DefaultOverlap);
      outcome.count == |chunks| && outcome.count > 0 && AllEmbedded(single, chunks) &&
      c.records == Insert(old(c.records), ChunkIds(article.title, |chunks|),
        Records(chunks, ChunkMetas(article, |chunks|), SingleEmbeddings(single, chunks)))
    ensures outcome.Failed? ==> c.records == old(c.records)
  {
    if !probeRaises && ProbeId(article.title) in c.records {
      return AlreadyIndexed;
    }
    var chunks := ChunkText(article.content, DefaultChunkSize, DefaultOverlap);
    var lists := PrepareEmbeddedLists(article, chunks, single);
    if lists.None? {
      return Failed("embedding request failed");
    }
    var (documents, metadatas, ids, embeddings) := lists.value;
    var added := c.Add(ids, documents, metadatas, embeddings);
    if added.Ok? {
      return Indexed(|chunks|);
    }
    return Failed(added.reason);
  }

  /** The loop of wiki_rag.py's indexer: the four parallel lists, or None
      once an embedding call fails. */
  method PrepareEmbeddedLists(article: Article, chunks: seq<string>, single: SingleProvider)
    returns (lists: Option<(seq<string>, seq<ChunkMeta>, seq<string>, seq<Vector>)>)
    ensures lists.Some? <==> AllEmbedded(single, chunks)
    ensures lists.Some? ==>
      lists.value == (chunks, ChunkMetas(article, |chunks|), ChunkIds(article.title, |chunks|), SingleEmbeddings(single, chunks))
  {
    var documents: seq<string> := [];
    var metadatas: seq<ChunkMeta> := [];
    var ids: seq<string> := [];
    var embeddings: seq<Vector> := [];
    for i := 0 to |chunks|
      invariant documents == chunks[..i]
      invariant metadatas == ChunkMetas(article, i)
      invariant ids == ChunkIds(article.title, i)
      invariant AllEmbedded(single, documents) && embeddings == SingleEmbeddings(single, documents)
    {
      var e := single(chunks[i]);
      if e.None? {
        return None;
      }
      documents := documents + [chunks[i]];
      metadatas := metadatas + [ChunkMeta(SourceName, article.title, article.url, i)];
      ids := ids + [ChunkId(article.title, i)];
      embeddings := embeddings + [e.value];
    }
    assert documents == chunks;
    return Some((documents, metadatas, ids, embeddings));
  }

  // ------------------------------------------------------------ properties

  /** Chunk ids of one article never collide, so `add` never sees an id twice. */
  lemma ChunkIdsDistinct(title: string, n: nat)
    ensures NoDup(ChunkIds(title, n))
  {
    var ids := ChunkIds(title, n);
    forall i, j | 0 <= i < j < n ensures ids[i] != ids[j] {
      if ids[i] == ids[j] {
        var p := title + "_chunk_";
        assert ids[i] == p + NatToString(i) && ids[j] == p + NatToString(j);
        assert NatToString(i) == ids[i][|p|..];
        assert NatToString(j) == ids[j][|p|..];
        NatToStringInjective(i, j);
      }
    }
  }

  /** A text equal to `"article_" + t` and of length |t| + 8 whose prefix of
      length |t| is t repeats "article_" with period 8. */
  lemma {:induction false} ProbePeriodic(s: string, t: string, j: nat)
    requires s == "article_" + t && s[..|t|] == t && j < |s|
    ensures s[j] == "article_"[j % 8]
    decreases j
  {
    if j >= 8 {
      assert s[j] == t[j - 8];
      assert t[j - 8] == s[j - 8];
      ProbePeriodic(s, t, j - 8);
    }
  }

  /** The probe id `article_T` is never one of the ids `T_chunk_i` the same
      call writes: equal lengths force a one-digit suffix, and then the text
      would be 8-periodic in "article_", which has no 'h' for the 'h' of
      "_chunk_". */
  lemma ProbeNeverWritten(title: string, i: nat)
    ensures ProbeId(title) != ChunkId(title, i)
  {
    var s := ProbeId(title);
    if s == ChunkId(title, i) {
      var d := NatToString(i);
      assert |d| == 1;
      assert s == title + "_chunk_" + d;
      assert s[..|title|] == title;
      ProbePeriodic(s, title, |title| + 2);
    }
  }

  lemma {:induction false} InsertKeepsOld(m: map<string, StoredRecord>, ids: seq<string>, rs: seq<StoredRecord>, k: string)
    requires |ids| == |rs| && k in m
    ensures k in Insert(m, ids, rs) && Insert(m, ids, rs)[k] == m[k]
    decreases |ids|
  {
    if ids != [] {
      InsertKeepsOld(if ids[0] in m then m else m[ids[0] := rs[0]], ids[1..], rs[1..], k);
    }
  }

  /** The keys after an insert are the old keys and the inserted ids, and
      nothing else. */
  lemma {:induction false} InsertKeys(m: map<string, StoredRecord>, ids: seq<string>, rs: seq<StoredRecord>, k: string)
    requires |ids| == |rs|
    ensures k in Insert(m, ids, rs) <==> k in m || k in ids
    decreases |ids|
  {
    if ids != [] {
      InsertKeys(if ids[0] in m then m else m[ids[0] := rs[0]], ids[1..], rs[1..], k);
      assert k in ids <==> k == ids[0] || k in ids[1..];
    }
  }

  lemma InsertIncludesIds(m: map<string, StoredRecord>, ids: seq<string>, rs: seq<StoredRecord>, j: nat)
    requires |ids| == |rs| && j < |ids|
    ensures ids[j] in Insert(m, ids, rs)
  {
    InsertKeys(m, ids, rs, ids[j]);
  }

  /** A new id, listed once, receives the record at its own position. */
  lemma {:induction false} InsertNewRecord(m: map<string, StoredRecord>, ids: seq<string>, rs: seq<StoredRecord>, j: nat)
    requires |ids| == |rs| && NoDup(ids) && j < |ids| && ids[j] !in m
    ensures ids[j] in Insert(m, ids, rs) && Insert(m, ids, rs)[ids[j]] == rs[j]
    decreases |ids|
  {
    InsertKeys(m, ids, rs, ids[j]);
    var m' := if ids[0] in m then m else m[ids[0] := rs[0]];
    if j == 0 {
      InsertKeepsOld(m', ids[1..], rs[1..], ids[0]);
    } else {
      assert ids[j] != ids[0];
      assert ids[1..][j - 1] == ids[j];
      InsertNewRecord(m', ids[1..], rs[1..], j - 1);
    }
  }

  /** Once every id is present, inserting them again changes nothing: a
      repeated `add` of the same ids leaves the store as it was. */
  lemma {:induction false} InsertPresentIsNoop(m: map<string, StoredRecord>, ids: seq<string>, rs: seq<StoredRecord>)
    requires |ids| == |rs|
    requires forall k :: 0 <= k < |ids| ==> ids[k] in m
    ensures Insert(m, ids, rs) == m
    decreases |ids|
  {
    if ids != [] {
      InsertPresentIsNoop(m, ids[1..], rs[1..]);
    }
  }

  /** Re-indexing the same article (which the probe never prevents) stores
      nothing new, whatever embeddings the second pass computes. */
  lemma ReindexKeepsStore(m: map<string, StoredRecord>, ids: seq<string>, rs: seq<StoredRecord>, rs2: seq<StoredRecord>)
    requires |ids| == |rs| == |rs2|
    ensures Insert(Insert(m, ids, rs), ids, rs2) == Insert(m, ids, rs)
  {
    forall k | 0 <= k < |ids| ensures ids[k] in Insert(m, ids, rs) {
      InsertIncludesIds(m, ids, rs, k);
    }
    InsertPresentIsNoop(Insert(m, ids, rs), ids, rs2);
  }

  /** Indexing an article never stores its probe id, so a store that lacks it
      keeps lacking it and the probe keeps missing. */
  lemma ProbeStaysAbsent(m: map<string, StoredRecord>, title: string, n: nat, rs: seq<StoredRecord>)
    requires |rs| == n && ProbeId(title) !in m
    ensures ProbeId(title) !in Insert(m, ChunkIds(title, n), rs)
  {
    InsertKeys(m, ChunkIds(title, n), rs, ProbeId(title));
    if ProbeId(title) in ChunkIds(title, n) {
      var i :| 0 <= i < n && ChunkIds(title, n)[i] == ProbeId(title);
      ProbeNeverWritten(title, i);
    }
  }

  /** The indexer stores chunk i under `T_chunk_i` with the chunk's text, the
      source "wikipedia", the article's title and url, and chunk_id i. */
  lemma IndexedRecordAt(m: map<string, StoredRecord>, article: Article, chunks: seq<string>,
                        embs: seq<Vector>, i: nat)
    requires |embs| == |chunks| && i < |chunks|
    requires forall k :: 0 <= k < |chunks| ==> ChunkId(article.title, k) !in m
    ensures var stored := Insert(m, ChunkIds(article.title, |chunks|), Records(chunks, ChunkMetas(article, |chunks|), embs));
      ChunkId(article.title, i) in stored &&
      stored[ChunkId(article.title, i)] ==
        StoredRecord(chunks[i], ChunkMeta(SourceName, article.title, article.url, i), embs[i])
  {
    var ids := ChunkIds(article.title, |chunks|);
    ChunkIdsDistinct(article.title, |chunks|);
    InsertIncludesIds(m, ids, Records(chunks, ChunkMetas(article, |chunks|), embs), i);
    InsertNewRecord(m, ids, Records(chunks, ChunkMetas(article, |chunks|), embs), i);
  }
}
