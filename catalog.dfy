/** The cached-article listing of access_db.py: one pass over the stored
    metadatas builds a dict from title to the url of its first chunk and its
    number of chunks, in first-seen order. */
module ArticleCatalog {
  import opened Common
  import opened KnowledgeStore

  /** One value of the `articles` dict, with its key. */
  datatype CatalogEntry = CatalogEntry(title: string, url: string, chunks: nat)

  function MetaTitles(ms: seq<ChunkMeta>): (ts: seq<string>)
    ensures |ts| == |ms|
  {
    seq(|ms|, k requires 0 <= k < |ms| => ms[k].title)
  }

  function EntryTitles(es: seq<CatalogEntry>): (ts: seq<string>)
    ensures |ts| == |es|
  {
    seq(|es|, k requires 0 <= k < |es| => es[k].title)
  }

  /** The dict after the loop has seen `ms`. */
  function Catalog(ms: seq<ChunkMeta>): seq<CatalogEntry>
    decreases |ms|
  {
    if ms == [] then []
    else
      var prev := Catalog(ms[..|ms| - 1]);
      var m := ms[|ms| - 1];
      if m.title in EntryTitles(prev) then
        var j := IndexOf(EntryTitles(prev), m.title);
        prev[j := prev[j].(chunks := prev[j].chunks + 1)]
      else prev + [CatalogEntry(m.title, m.url, 1)]
  }

  /** The aggregation loop: insert a title with count 0 when new, then
      increment its count. */
  method Aggregate(metadatas: seq<ChunkMeta>) returns (articles: seq<CatalogEntry>)
    ensures articles == Catalog(metadatas)
  {
    articles := [];
    for i := 0 to |metadatas|
      invariant articles == Catalog(metadatas[..i])
    {
      CatalogStep(metadatas, i);
      var m := metadatas[i];
      ghost var prev := articles;
      ghost var known := m.title in EntryTitles(prev);
      if m.title !in EntryTitles(articles) {
        assert EntryTitles(articles + [CatalogEntry(m.title, m.url, 0)]) == EntryTitles(articles) + [m.title];
        IndexOfPrefix(EntryTitles(articles) + [m.title], [], m.title);
        articles := articles + [CatalogEntry(m.title, m.url, 0)];
      }
      var j := IndexOf(EntryTitles(articles), m.title);
      articles := articles[j := articles[j].(chunks := articles[j].chunks + 1)];
      assert !known ==> articles == prev + [CatalogEntry(m.title, m.url, 1)];
      assert articles == Catalog(metadatas[..i + 1]);
    }
    assert metadatas[..|metadatas|] == metadatas;
  }

  /** One turn of the aggregation loop, as `Catalog` unfolds it. */
  lemma CatalogStep(ms: seq<ChunkMeta>, i: nat)
    requires i < |ms|
    ensures var prev := Catalog(ms[..i]);
      var m := ms[i];
      Catalog(ms[..i + 1]) ==
        if m.title in EntryTitles(prev) then
          var j := IndexOf(EntryTitles(prev), m.title);
          prev[j := prev[j].(chunks := prev[j].chunks + 1)]
        else prev + [CatalogEntry(m.title, m.url, 1)]
  {
    assert ms[..i + 1][..i] == ms[..i];
  }

  lemma UpdateKeepsTitles(es: seq<CatalogEntry>, j: nat, n: nat)
    requires j < |es|
    ensures EntryTitles(es[j := es[j].(chunks := n)]) == EntryTitles(es)
  {
  }

  /** The keys are the distinct metadata titles, in first-seen order. */
  lemma {:induction false} CatalogTitles(ms: seq<ChunkMeta>)
    ensures EntryTitles(Catalog(ms)) == FirstSeen(MetaTitles(ms))
    decreases |ms|
  {
    if ms != [] {
      var init := ms[..|ms| - 1];
      CatalogTitles(init);
      assert MetaTitles(ms)[..|ms| - 1] == MetaTitles(init);
      var prev := Catalog(init);
      var m := ms[|ms| - 1];
      if m.title in EntryTitles(prev) {
        UpdateKeepsTitles(prev, IndexOf(EntryTitles(prev), m.title), prev[IndexOf(EntryTitles(prev), m.title)].chunks + 1);
      } else {
        assert EntryTitles(prev + [CatalogEntry(m.title, m.url, 1)]) == EntryTitles(prev) + [m.title];
      }
    }
  }

  /** Each title's url is the one of its first metadata; later ones are
      ignored. Each title's count is the number of metadatas with that title. */
  lemma {:induction false} CatalogEntryAt(ms: seq<ChunkMeta>, k: nat)
    requires k < |Catalog(ms)|
    ensures Catalog(ms)[k].title in MetaTitles(ms)
    ensures Catalog(ms)[k].url == ms[IndexOf(MetaTitles(ms), Catalog(ms)[k].title)].url
    ensures Catalog(ms)[k].chunks == Count(MetaTitles(ms), Catalog(ms)[k].title)
    decreases |ms|
  {
    var init := ms[..|ms| - 1];
    var prev := Catalog(init);
    var m := ms[|ms| - 1];
    var ts := MetaTitles(ms);
    assert ts == MetaTitles(init) + [m.title];
    assert ts[..|ts| - 1] == MetaTitles(init);
    CatalogTitles(init);
    if m.title in EntryTitles(prev) {
      var j := IndexOf(EntryTitles(prev), m.title);
      UpdateKeepsTitles(prev, j, prev[j].chunks + 1);
      CatalogEntryAt(init, k);
      IndexOfPrefix(MetaTitles(init), [m.title], prev[k].title);
      if k != j {
        assert prev[k].title != m.title by {
          assert EntryTitles(prev)[k] == prev[k].title;
        }
      }
    } else if k < |prev| {
      CatalogEntryAt(init, k);
      IndexOfPrefix(MetaTitles(init), [m.title], prev[k].title);
      assert prev[k].title != m.title by {
        assert EntryTitles(prev)[k] == prev[k].title;
      }
    } else {
      assert m.title !in MetaTitles(init);
      assert IndexOf(ts, m.title) == |ms| - 1;
    }
  }

  function SumChunks(es: seq<CatalogEntry>): nat
  {
    if es == [] then 0 else SumChunks(es[..|es| - 1]) + es[|es| - 1].chunks
  }

  lemma {:induction false} SumChunksUpdate(es: seq<CatalogEntry>, j: nat)
    requires j < |es|
    ensures SumChunks(es[j := es[j].(chunks := es[j].chunks + 1)]) == SumChunks(es) + 1
    decreases |es|
  {
    var es' := es[j := es[j].(chunks := es[j].chunks + 1)];
    assert es'[..|es'| - 1] == if j < |es| - 1 then es[..|es| - 1][j := es[j].(chunks := es[j].chunks + 1)] else es[..|es| - 1];
    if j < |es| - 1 {
      SumChunksUpdate(es[..|es| - 1], j);
    }
  }

  /** The counts add up to the number of metadatas. */
  lemma {:induction false} CatalogTotal(ms: seq<ChunkMeta>)
    ensures SumChunks(Catalog(ms)) == |ms|
    decreases |ms|
  {
    if ms != [] {
      var init := ms[..|ms| - 1];
      CatalogTotal(init);
      var prev := Catalog(init);
      var m := ms[|ms| - 1];
      if m.title in EntryTitles(prev) {
        SumChunksUpdate(prev, IndexOf(EntryTitles(prev), m.title));
      } else {
        var next := prev + [CatalogEntry(m.title, m.url, 1)];
        assert next[..|next| - 1] == prev;
      }
    }
  }
}
