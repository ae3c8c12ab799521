/** Retrieval and answer assembly: the projection of a store query into hit
    records (`semantic_search` in app.py and wiki_rag.py), the citation map
    and numbered context of `generate_answer`, the `sources_text` listing of
    wiki_rag.py, and the per-question flow of wiki_rag.py's `main`. */
module Retrieval {
  import opened Common
  import opened Embeddings
  import opened KnowledgeStore

  /** The parts of a `collection.query` answer that are read: one inner list
      per query embedding, and `distances` only when the store returned it. */
  datatype QueryResult = QueryResult(
    documents: seq<seq<string>>,
    metadatas: seq<seq<ChunkMeta>>,
    distances: Option<seq<seq<real>>>)

  /** A hit as app.py builds it. */
  datatype Hit = Hit(text: string, title: string, url: string)

  /** A hit as wiki_rag.py builds it. */
  datatype DetailedHit = DetailedHit(text: string, source: string, title: string, url: string,
                                     chunkId: nat, distance: Option<real>)

  /** The indexing done by the loop at position i does not raise. */
  predicate Readable(q: QueryResult, withDistance: bool)
  {
    q.documents != [] &&
    (|q.documents[0]| > 0 ==> q.metadatas != [] && |q.metadatas[0]| >= |q.documents[0]|) &&
    (withDistance && q.distances.Some? && |q.documents[0]| > 0 ==>
      q.distances.value != [] && |q.distances.value[0]| >= |q.documents[0]|)
  }

  function HitAt(q: QueryResult, i: nat): Hit
    requires Readable(q, false) && i < |q.documents[0]|
  {
    var m := q.metadatas[0][i];
    Hit(q.documents[0][i], m.title, m.url)
  }

  function DetailedHitAt(q: QueryResult, i: nat): DetailedHit
    requires Readable(q, true) && i < |q.documents[0]|
  {
    var m := q.metadatas[0][i];
    DetailedHit(q.documents[0][i], m.source, m.title, m.url, m.chunkId,
      if q.distances.Some? then Some(q.distances.value[0][i]) else None)
  }

  /** `semantic_search` in app.py, after the store answered `q`. An index out
      of range is the IndexError the code would raise. */
  method SemanticSearch(q: QueryResult) returns (r: Result<seq<Hit>>)
    ensures r.Ok? <==> Readable(q, false)
    ensures r.Ok? ==>
      |r.value| == |q.documents[0]| && forall i :: 0 <= i < |r.value| ==> r.value[i] == HitAt(q, i)
  {
    if q.documents == [] {
      return Err("IndexError");
    }
    var n := |q.documents[0]|;
    var hits: seq<Hit> := [];
    for i := 0 to n
      invariant |hits| == i
      invariant i > 0 ==> q.metadatas != [] && |q.metadatas[0]| >= i
      invariant forall k :: 0 <= k < i ==> hits[k] == Hit(q.documents[0][k], q.metadatas[0][k].title, q.metadatas[0][k].url)
    {
      if q.metadatas == [] || i >= |q.metadatas[0]| {
        return Err("IndexError");
      }
      var m := q.metadatas[0][i];
      hits := hits + [Hit(q.documents[0][i], m.title, m.url)];
    }
    return Ok(hits);
  }

  /** `semantic_search` in wiki_rag.py: also source, chunk_id and distance,
      with None for the distance when the store returned none. */
  method SemanticSearchDetailed(q: QueryResult) returns (r: Result<seq<DetailedHit>>)
    ensures r.Ok? <==> Readable(q, true)
    ensures r.Ok? ==>
      |r.value| == |q.documents[0]| && forall i :: 0 <= i < |r.value| ==> r.value[i] == DetailedHitAt(q, i)
    ensures r.Ok? && q.distances.None? ==> forall i :: 0 <= i < |r.value| ==> r.value[i].distance.None?
  {
    if q.documents == [] {
      return Err("IndexError");
    }
    var n := |q.documents[0]|;
    var hits: seq<DetailedHit> := [];
    for i := 0 to n
      invariant |hits| == i
      invariant i > 0 ==> q.metadatas != [] && |q.metadatas[0]| >= i
      invariant i > 0 && q.distances.Some? ==> q.distances.value != [] && |q.distances.value[0]| >= i
      invariant forall k :: 0 <= k < i ==>
        hits[k] == DetailedHit(q.documents[0][k], q.metadatas[0][k].source, q.metadatas[0][k].title,
          q.metadatas[0][k].url, q.metadatas[0][k].chunkId,
          if q.distances.Some? then Some(q.distances.value[0][k]) else None)
    {
      if q.metadatas == [] || i >= |q.metadatas[0]| {
        return Err("IndexError");
      }
      var m := q.metadatas[0][i];
      var distance: Option<real> := None;
      if q.distances.Some? {
        if q.distances.value == [] || i >= |q.distances.value[0]| {
          return Err("IndexError");
        }
        distance := Some(q.distances.value[0][i]);
      }
      hits := hits + [DetailedHit(q.documents[0][i], m.source, m.title, m.url, m.chunkId, distance)];
    }
    return Ok(hits);
  }

  // ------------------------------------------------------- citation map

  /** One entry of the `sources` dict: the title, the url of its first chunk,
      its citation number. */
  datatype SourceInfo = SourceInfo(title: string, url: string, index: nat)

  function TitlesOf(hits: seq<Hit>): (ts: seq<string>)
    ensures |ts| == |hits|
  {
    seq(|hits|, k requires 0 <= k < |hits| => hits[k].title)
  }

  function SourceTitles(ss: seq<SourceInfo>): (ts: seq<string>)
    ensures |ts| == |ss|
  {
    seq(|ss|, k requires 0 <= k < |ss| => ss[k].title)
  }

  /** The `sources` dict after the loop has seen `hits`, in insertion order:
      a title met for the first time gets the url of that hit and the number
      `len(sources) + 1`. */
  function SourceMap(hits: seq<Hit>): (ss: seq<SourceInfo>)
    ensures forall k :: 0 <= k < |ss| ==> ss[k].index == k + 1
    ensures |ss| <= |hits|
    decreases |hits|
  {
    if hits == [] then []
    else
      var prev := SourceMap(hits[..|hits| - 1]);
      var h := hits[|hits| - 1];
      if h.title in SourceTitles(prev) then prev
      else prev + [SourceInfo(h.title, h.url, |prev| + 1)]
  }

  /** `sources[title]['index']`. */
  function Lookup(ss: seq<SourceInfo>, title: string): nat
    requires title in SourceTitles(ss)
  {
    ss[IndexOf(SourceTitles(ss), title)].index
  }

  /** `f"[{source_idx}] {chunk['text']}"`. */
  function Part(index: nat, text: string): string
  {
    "[" + NatToString(index) + "] " + text
  }

  /** The numbers the loop tags the hits with: a known title keeps its
      number, a new one gets the next. */
  function PartNumbers(hits: seq<Hit>): (ns: seq<nat>)
    ensures |ns| == |hits|
    decreases |hits|
  {
    if hits == [] then []
    else
      var prev := SourceMap(hits[..|hits| - 1]);
      var h := hits[|hits| - 1];
      var index := if h.title in SourceTitles(prev) then Lookup(prev, h.title) else |prev| + 1;
      PartNumbers(hits[..|hits| - 1]) + [index]
  }

  /** The context parts after the loop has seen `hits`. */
  function ContextParts(hits: seq<Hit>): (ps: seq<string>)
    ensures |ps| == |hits|
  {
    var ns := PartNumbers(hits);
    seq(|hits|, k requires 0 <= k < |hits| => Part(ns[k], hits[k].text))
  }

  lemma {:induction false} SourceMapHasTitle(hits: seq<Hit>, k: nat)
    requires k < |hits|
    ensures hits[k].title in SourceTitles(SourceMap(hits))
  {
    SourceMapTitles(hits);
    assert TitlesOf(hits)[k] == hits[k].title;
  }

  /** The loop of `generate_answer` (both copies); the chat completion is the
      oracle `llm`, given the question and the context block. */
  method GenerateAnswer(question: string, hits: seq<Hit>, llm: (string, string) -> string)
    returns (answer: string, sources: seq<SourceInfo>)
    ensures sources == SourceMap(hits)
    ensures answer == llm(question, Join("\n\n", ContextParts(hits)))
  {
    var parts: seq<string> := [];
    sources := [];
    for i := 0 to |hits|
      invariant sources == SourceMap(hits[..i])
      invariant parts == ContextParts(hits[..i])
    {
      var h := hits[i];
      LoopStep(hits, i);
      PartsStep(hits, i);
      if h.title !in SourceTitles(sources) {
        sources := sources + [SourceInfo(h.title, h.url, |sources| + 1)];
      }
      assert sources == SourceMap(hits[..i + 1]);
      var idx := Lookup(sources, h.title);
      parts := parts + [Part(idx, h.text)];
    }
    assert hits[..|hits|] == hits;
    answer := llm(question, Join("\n\n", parts));
  }

  /** One turn of the loop: the map changes only for a new title, which it
      then holds under the next number. */
  lemma LoopStep(hits: seq<Hit>, i: nat)
    requires i < |hits|
    ensures var prev := SourceMap(hits[..i]);
      var h := hits[i];
      var known := h.title in SourceTitles(prev);
      SourceMap(hits[..i + 1]) == (if known then prev else prev + [SourceInfo(h.title, h.url, |prev| + 1)]) &&
      h.title in SourceTitles(SourceMap(hits[..i + 1])) &&
      Lookup(SourceMap(hits[..i + 1]), h.title) == (if known then Lookup(prev, h.title) else |prev| + 1) &&
      PartNumbers(hits[..i + 1]) == PartNumbers(hits[..i]) + [Lookup(SourceMap(hits[..i + 1]), h.title)]
  {
    assert hits[..i + 1][..i] == hits[..i];
    var prev := SourceMap(hits[..i]);
    var h := hits[i];
    if h.title in SourceTitles(prev) {
    } else {
      var ss := prev + [SourceInfo(h.title, h.url, |prev| + 1)];
      assert SourceTitles(ss) == SourceTitles(prev) + [h.title];
      assert SourceTitles(ss)[|prev|] == h.title;
      assert IndexOf(SourceTitles(ss), h.title) == |prev|;
    }
  }

  /** The parts grow by one per turn of the loop. */
  lemma PartsStep(hits: seq<Hit>, i: nat)
    requires i < |hits|
    requires hits[i].title in SourceTitles(SourceMap(hits[..i + 1]))
    requires PartNumbers(hits[..i + 1]) == PartNumbers(hits[..i]) + [Lookup(SourceMap(hits[..i + 1]), hits[i].title)]
    ensures ContextParts(hits[..i + 1]) ==
      ContextParts(hits[..i]) + [Part(Lookup(SourceMap(hits[..i + 1]), hits[i].title), hits[i].text)]
  {
    var a := ContextParts(hits[..i + 1]);
    var b := ContextParts(hits[..i]);
    forall k | 0 <= k < i
      ensures a[k] == b[k]
    {
      assert hits[..i + 1][k] == hits[..i][k];
      assert PartNumbers(hits[..i + 1])[k] == PartNumbers(hits[..i])[k];
    }
  }

  // ---------------------------------------------- properties of the map

  /** The titles of the citation map are the distinct hit titles in
      first-seen order. */
  lemma {:induction false} SourceMapTitles(hits: seq<Hit>)
    ensures SourceTitles(SourceMap(hits)) == FirstSeen(TitlesOf(hits))
    decreases |hits|
  {
    if hits != [] {
      var init := hits[..|hits| - 1];
      SourceMapTitles(init);
      var ts := TitlesOf(hits);
      assert ts[..|hits| - 1] == TitlesOf(init);
      var prev := SourceMap(init);
      var h := hits[|hits| - 1];
      assert ts[|ts| - 1] == h.title;
      if h.title in SourceTitles(prev) {
        assert SourceMap(hits) == prev;
        assert FirstSeen(ts) == FirstSeen(TitlesOf(init));
      } else {
        var ss := prev + [SourceInfo(h.title, h.url, |prev| + 1)];
        assert SourceMap(hits) == ss;
        assert FirstSeen(ts) == FirstSeen(TitlesOf(init)) + [h.title];
        assert SourceTitles(ss) == SourceTitles(prev) + [h.title];
      }
    }
  }

  /** Every entry's url is that of the first hit with its title. */
  lemma {:induction false} SourceMapUrl(hits: seq<Hit>, k: nat)
    requires k < |SourceMap(hits)|
    ensures SourceMap(hits)[k].title in TitlesOf(hits)
    ensures SourceMap(hits)[k].url == hits[IndexOf(TitlesOf(hits), SourceMap(hits)[k].title)].url
    decreases |hits|
  {
    var init := hits[..|hits| - 1];
    var prev := SourceMap(init);
    var h := hits[|hits| - 1];
    assert TitlesOf(hits) == TitlesOf(init) + [h.title];
    if k < |prev| {
      SourceMapUrl(init, k);
      IndexOfPrefix(TitlesOf(init), [h.title], prev[k].title);
    } else {
      SourceMapTitles(init);
      assert h.title !in FirstSeen(TitlesOf(init));
      assert h.title !in TitlesOf(init);
      assert IndexOf(TitlesOf(hits), h.title) == |hits| - 1;
    }
  }

  lemma {:induction false} SourceMapExtends(hits: seq<Hit>, more: seq<Hit>)
    ensures SourceMap(hits) <= SourceMap(hits + more)
    decreases |more|
  {
    if more != [] {
      var all := hits + more;
      assert all[..|all| - 1] == hits + more[..|more| - 1];
      SourceMapExtends(hits, more[..|more| - 1]);
    } else {
      assert hits + more == hits;
    }
  }

  /** Looking a title up in a longer map gives the same number. */
  lemma LookupExtends(ss: seq<SourceInfo>, more: seq<SourceInfo>, title: string)
    requires title in SourceTitles(ss)
    ensures title in SourceTitles(ss + more) && Lookup(ss + more, title) == Lookup(ss, title)
  {
    assert SourceTitles(ss + more) == SourceTitles(ss) + SourceTitles(more);
    IndexOfPrefix(SourceTitles(ss), SourceTitles(more), title);
  }

  /** Citation number of hit k: its title's position among the distinct
      titles in first-seen order, counted from 1. */
  function CitationNumber(hits: seq<Hit>, k: nat): nat
    requires k < |hits|
  {
    IndexOf(FirstSeen(TitlesOf(hits)), TitlesOf(hits)[k]) + 1
  }

  lemma LookupIsCitation(hits: seq<Hit>, k: nat)
    requires k < |hits|
    ensures hits[k].title in SourceTitles(SourceMap(hits))
    ensures Lookup(SourceMap(hits), hits[k].title) == CitationNumber(hits, k)
  {
    SourceMapHasTitle(hits, k);
    SourceMapTitles(hits);
  }

  /** Context part k is hit k's text tagged with its title's first-seen
      number, so every citation refers to a source with that hit's title. */
  lemma ContextPartAt(hits: seq<Hit>, k: nat)
    requires k < |hits|
    ensures ContextParts(hits)[k] == Part(CitationNumber(hits, k), hits[k].text)
  {
    PartNumberLookup(hits, k);
    LookupIsCitation(hits, k);
  }

  /** Hit k's number is the one the final map gives its title: later hits
      only append to the map. */
  lemma {:induction false} PartNumberLookup(hits: seq<Hit>, k: nat)
    requires k < |hits|
    ensures hits[k].title in SourceTitles(SourceMap(hits))
    ensures PartNumbers(hits)[k] == Lookup(SourceMap(hits), hits[k].title)
    decreases |hits|
  {
    var n := |hits| - 1;
    var init := hits[..n];
    LoopStep(hits, n);
    assert hits[..n + 1] == hits;
    assert PartNumbers(hits) == PartNumbers(init) + [Lookup(SourceMap(hits), hits[n].title)];
    if k < n {
      PartNumberLookup(init, k);
      assert init[k] == hits[k] && PartNumbers(hits)[k] == PartNumbers(init)[k];
      var prev := SourceMap(init);
      var more := SourceMap(hits)[|prev|..];
      assert SourceMap(hits) == prev + more;
      LookupExtends(prev, more, hits[k].title);
    }
  }

  /** The number cited for hit k belongs to the source entry with hit k's
      title. */
  lemma CitationRefersToTitle(hits: seq<Hit>, k: nat)
    requires k < |hits|
    ensures 0 < CitationNumber(hits, k) <= |SourceMap(hits)|
    ensures SourceMap(hits)[CitationNumber(hits, k) - 1].title == hits[k].title
  {
    SourceMapTitles(hits);
    var ss := SourceMap(hits);
    var j := CitationNumber(hits, k) - 1;
    assert SourceTitles(ss)[j] == ss[j].title;
  }

  // ------------------------------------------------------- sources text

  /** `f"[{info['index']}] {title}: {info['url']}"`. */
  function SourceLine(s: SourceInfo): string
  {
    "[" + NatToString(s.index) + "] " + s.title + ": " + s.url
  }

  function SourceLines(ss: seq<SourceInfo>): (ls: seq<string>)
    ensures |ls| == |ss|
  {
    seq(|ss|, k requires 0 <= k < |ss| => SourceLine(ss[k]))
  }

  /** `sources_text` in wiki_rag.py. */
  function SourcesText(hits: seq<Hit>): string
  {
    Join("\n", SourceLines(SourceMap(hits)))
  }

  /** Line k of `sources_text` lists the k-th distinct title, numbered k + 1,
      with the url of its first hit. */
  lemma SourcesTextLine(hits: seq<Hit>, k: nat)
    requires k < |FirstSeen(TitlesOf(hits))|
    ensures |SourceLines(SourceMap(hits))| == |FirstSeen(TitlesOf(hits))|
    ensures var t := FirstSeen(TitlesOf(hits))[k];
      t in TitlesOf(hits) &&
      SourceLines(SourceMap(hits))[k] ==
        "[" + NatToString(k + 1) + "] " + t + ": " + hits[IndexOf(TitlesOf(hits), t)].url
  {
    SourceMapTitles(hits);
    SourceMapUrl(hits, k);
    assert SourceTitles(SourceMap(hits))[k] == SourceMap(hits)[k].title;
  }

  // ------------------------------------------------- one question in main

  /** How wiki_rag.py's `main` handles one question. */
  datatype Turn =
    | NoArticles
    | NothingRetrieved
    | IndexCrashed(reason: string)
    | SearchCrashed
    | Answered(answer: string, sources: seq<SourceInfo>)

  /** The number of titles whose page exists. */
  function FoundCount(titles: seq<string>, content: string -> Option<Article>): (n: nat)
    ensures n <= |titles|
    ensures n == 0 <==> forall k :: 0 <= k < |titles| ==> content(titles[k]).None?
    decreases |titles|
  {
    if titles == [] then 0
    else FoundCount(titles[..|titles| - 1], content) + (if content(titles[|titles| - 1]).Some? then 1 else 0)
  }

  /** The counter and the store after the indexing loop of `main` has seen
      `titles`; an exception escaping the indexer stops the loop with the
      store as that call left it. `probeRaises(title)` tells whether the
      presence check `collection.get` raises for that article. */
  datatype IndexRun = IndexRun(count: Result<nat>, records: map<string, StoredRecord>)

  function IndexRunOf(m: map<string, StoredRecord>, titles: seq<string>, content: string -> Option<Article>,
                      probeRaises: string -> bool, single: SingleProvider): IndexRun
    decreases |titles|
  {
    if titles == [] then IndexRun(Ok(0), m)
    else
      RunStep(IndexRunOf(m, titles[..|titles| - 1], content, probeRaises, single), content(titles[|titles| - 1]),
              probeRaises, single)
  }

  /** One title of the loop: a crashed run or a missing page leaves the run
      as it is; a page goes through the indexer, and counts unless it raised. */
  function RunStep(prev: IndexRun, page: Option<Article>, probeRaises: string -> bool, single: SingleProvider): IndexRun
  {
    if prev.count.Err? || page.None? then prev
    else
      var step := PerChunkIndex(prev.records, page.value, probeRaises(page.value.title), single);
      if step.outcome.Failed? then IndexRun(Err(step.outcome.reason), step.records)
      else IndexRun(Ok(prev.count.value + 1), step.records)
  }

  /** A finished run counts every page that exists; a crashed one read at
      least one page. */
  lemma {:induction false} IndexRunCount(m: map<string, StoredRecord>, titles: seq<string>, content: string -> Option<Article>,
                                         probeRaises: string -> bool, single: SingleProvider)
    ensures var run := IndexRunOf(m, titles, content, probeRaises, single);
      (run.count.Ok? ==> run.count.value == FoundCount(titles, content)) &&
      (run.count.Err? ==> FoundCount(titles, content) > 0)
    decreases |titles|
  {
    if titles != [] {
      IndexRunCount(m, titles[..|titles| - 1], content, probeRaises, single);
    }
  }

  /** Indexing never drops or replaces a record already in the store. */
  lemma {:induction false} IndexRunKeepsOld(m: map<string, StoredRecord>, titles: seq<string>, content: string -> Option<Article>,
                                            probeRaises: string -> bool, single: SingleProvider, k: string)
    requires k in m
    ensures var run := IndexRunOf(m, titles, content, probeRaises, single);
      k in run.records && run.records[k] == m[k]
    decreases |titles|
  {
    if titles != [] {
      var prev := IndexRunOf(m, titles[..|titles| - 1], content, probeRaises, single);
      IndexRunKeepsOld(m, titles[..|titles| - 1], content, probeRaises, single, k);
      var t := titles[|titles| - 1];
      if prev.count.Ok? && content(t).Some? {
        PerChunkKeepsOld(prev.records, content(t).value, probeRaises(content(t).value.title), single, k);
      }
    }
  }

  /** Once the run has crashed, later titles change nothing. */
  lemma {:induction false} IndexRunCrashStays(m: map<string, StoredRecord>, titles: seq<string>, i: nat,
                                              content: string -> Option<Article>, probeRaises: string -> bool, single: SingleProvider)
    requires i <= |titles| && IndexRunOf(m, titles[..i], content, probeRaises, single).count.Err?
    ensures IndexRunOf(m, titles, content, probeRaises, single) == IndexRunOf(m, titles[..i], content, probeRaises, single)
    decreases |titles| - i
  {
    if i == |titles| {
      assert titles[..i] == titles;
    } else {
      IndexRunNext(m, titles, i, content, probeRaises, single);
      IndexRunCrashStays(m, titles, i + 1, content, probeRaises, single);
    }
  }

  /** One more title extends the run by that title's indexing. */
  lemma IndexRunNext(m: map<string, StoredRecord>, titles: seq<string>, i: nat,
                     content: string -> Option<Article>, probeRaises: string -> bool, single: SingleProvider)
    requires i < |titles|
    ensures var prev := IndexRunOf(m, titles[..i], content, probeRaises, single);
      IndexRunOf(m, titles[..i + 1], content, probeRaises, single) == RunStep(prev, content(titles[i]), probeRaises, single)
  {
    assert titles[..i + 1][..i] == titles[..i];
  }

  /** The indexing loop of `main`: each existing page is indexed and counted;
      an exception escaping the indexer ends the loop. */
  method IndexTitles(c: Collection, titles: seq<string>, content: string -> Option<Article>,
                     probeRaises: string -> bool, single: SingleProvider)
    returns (r: Result<nat>)
    modifies c
    ensures r == IndexRunOf(old(c.records), titles, content, probeRaises, single).count
    ensures c.records == IndexRunOf(old(c.records), titles, content, probeRaises, single).records
    ensures r.Ok? ==> r.value == FoundCount(titles, content)
    ensures r.Err? ==> FoundCount(titles, content) > 0
  {
    ghost var m := c.records;
    IndexRunCount(m, titles, content, probeRaises, single);
    var indexedCount: nat := 0;
    for i := 0 to |titles|
      invariant IndexRunOf(m, titles[..i], content, probeRaises, single) == IndexRun(Ok(indexedCount), c.records)
    {
      IndexRunNext(m, titles, i, content, probeRaises, single);
      var article := content(titles[i]);
      if article.Some? {
        var outcome := IndexFound(c, indexedCount, article.value, probeRaises, single);
        if outcome.Failed? {
          IndexRunCrashStays(m, titles, i + 1, content, probeRaises, single);
          return Err(outcome.reason);
        }
        indexedCount := indexedCount + 1;
      }
    }
    assert titles[..|titles|] == titles;
    return Ok(indexedCount);
  }

  /** One existing page through the indexer, seen as the step of the run. */
  method IndexFound(c: Collection, ghost count: nat, article: Article, probeRaises: string -> bool, single: SingleProvider)
    returns (outcome: IndexOutcome)
    modifies c
    ensures RunStep(IndexRun(Ok(count), old(c.records)), Some(article), probeRaises, single) ==
      if outcome.Failed? then IndexRun(Err(outcome.reason), c.records) else IndexRun(Ok(count + 1), c.records)
  {
    outcome := IndexArticlePerChunk(c, article, probeRaises(article.title), single);
  }

  /** The hits the answer is built from: text, title and url of each chunk
      the detailed search returned. */
  function AnswerHits(q: QueryResult): seq<Hit>
    requires Readable(q, true)
  {
    seq(|q.documents[0]|, k requires 0 <= k < |q.documents[0]| => HitAt(q, k))
  }

  /** One non-blank question: search titles, index the pages that exist, and
      retrieve and answer only when at least one was indexed. */
  method AnswerOne(c: Collection, question: string, titles: seq<string>,
                   content: string -> Option<Article>, probeRaises: string -> bool, single: SingleProvider,
                   query: QueryResult, llm: (string, string) -> string)
    returns (turn: Turn)
    modifies c
    ensures titles == [] ==> turn == NoArticles && c.records == old(c.records)
    ensures titles != [] ==> c.records == IndexRunOf(old(c.records), titles, content, probeRaises, single).records
    ensures titles != [] ==>
      var run := IndexRunOf(old(c.records), titles, content, probeRaises, single);
      if run.count.Err? then turn == IndexCrashed(run.count.reason)
      else if run.count.value == 0 then turn == NothingRetrieved
      else if !Readable(query, true) then turn == SearchCrashed
      else turn == Answered(llm(question, Join("\n\n", ContextParts(AnswerHits(query)))), SourceMap(AnswerHits(query)))
    ensures turn.Answered? ==> FoundCount(titles, content) > 0
    ensures titles != [] && FoundCount(titles, content) == 0 ==> turn == NothingRetrieved
  {
    if titles == [] {
      return NoArticles;
    }
    var counted := IndexTitles(c, titles, content, probeRaises, single);
    if counted.Err? {
      return IndexCrashed(counted.reason);
    }
    if counted.value == 0 {
      return NothingRetrieved;
    }
    var hits := SemanticSearchDetailed(query);
    if hits.Err? {
      return SearchCrashed;
    }
    var plain := seq(|hits.value|, k requires 0 <= k < |hits.value| =>
      Hit(hits.value[k].text, hits.value[k].title, hits.value[k].url));
    assert plain == AnswerHits(query);
    var answer, sources := GenerateAnswer(question, plain, llm);
    return Answered(answer, sources);
  }
}
