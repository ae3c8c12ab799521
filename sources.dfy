/** The source-gathering half of enhanced_course_generator.py: the keyword
    classifiers, the conversion of every provider's results to
    `ContentSource` records, `search_multiple_sources` with its conditional
    providers and its sort by credibility, and the per-type source summary
    and bibliography. Wikipedia's opensearch and page fetches and the arXiv
    query are oracles; the four educational searches arrive as an
    `EducationalApis.Searches` value. */
module CourseSources {
  import opened Common
  import opened EducationalApis

  /** The `ContentSource` dataclass. */
  datatype ContentSource = ContentSource(title: string, url: string, content: string, sourceType: string,
                                         credibility: real, datePublished: Option<string>)

  // ------------------------------------------------------------- classifiers

  const StemKeywords: seq<string> := [
    "mathematics", "physics", "chemistry", "biology", "engineering",
    "computer science", "statistics", "calculus", "algebra", "quantum",
    "molecular", "algorithm", "programming", "data science"]

  const HumanitiesKeywords: seq<string> := [
    "philosophy", "ethics", "literature", "history", "art",
    "religion", "theology", "linguistics", "anthropology",
    "sociology", "psychology", "political science"]

  const PracticalKeywords: seq<string> := [
    "computer science", "programming", "engineering", "data science",
    "machine learning", "chemistry", "physics", "biology", "statistics",
    "mathematics", "design", "architecture", "laboratory", "experimental"]

  /** `any(keyword in text.lower() for keyword in keywords)`. */
  function AnyKeyword(keywords: seq<string>, text: string): bool
    decreases |keywords|
  {
    if keywords == [] then false
    else Contains(Lower(text), keywords[0]) || AnyKeyword(keywords[1..], text)
  }

  lemma {:induction false} AnyKeywordSpec(keywords: seq<string>, text: string)
    ensures AnyKeyword(keywords, text) <==> exists i :: 0 <= i < |keywords| && Contains(Lower(text), keywords[i])
    decreases |keywords|
  {
    if keywords != [] {
      AnyKeywordSpec(keywords[1..], text);
      if AnyKeyword(keywords[1..], text) {
        var i :| 0 <= i < |keywords[1..]| && Contains(Lower(text), keywords[1..][i]);
        assert keywords[i + 1] == keywords[1..][i];
      }
      if exists i :: 1 <= i < |keywords| && Contains(Lower(text), keywords[i]) {
        var i :| 1 <= i < |keywords| && Contains(Lower(text), keywords[i]);
        assert keywords[1..][i - 1] == keywords[i];
      }
    }
  }

  predicate IsStemTopic(query: string)
  {
    AnyKeyword(StemKeywords, query)
  }

  predicate IsHumanitiesTopic(query: string)
  {
    AnyKeyword(HumanitiesKeywords, query)
  }

  predicate IsPracticalSubject(topic: string)
  {
    AnyKeyword(PracticalKeywords, topic)
  }

  /** The classifiers ignore letter case: a keyword at the start of the
      query, in any case, is enough. */
  lemma QuantumIsStem()
    ensures IsStemTopic("Quantum Computing")
  {
    assert Lower("Quantum Computing") == "quantum computing";
    assert StemKeywords[9] == "quantum";
    assert "quantum" <= "quantum computing";
    AnyKeywordSpec(StemKeywords, "Quantum Computing");
  }

  /** Matching is by plain substring, so the keyword "art" makes
      "particle physics" a humanities topic as well as a STEM one. */
  lemma ParticlePhysicsIsHumanities()
    ensures IsHumanitiesTopic("particle physics") && IsStemTopic("particle physics")
  {
    ParticlePhysicsHasArt();
    ParticlePhysicsHasPhysics();
    AnyKeywordSpec(StemKeywords, "particle physics");
    AnyKeywordSpec(HumanitiesKeywords, "particle physics");
  }

  lemma ParticlePhysicsHasArt()
    ensures Contains(Lower("particle physics"), HumanitiesKeywords[4])
  {
    var q := "particle physics";
    assert Lower(q) == q;
    assert q[1..] == "article physics";
    assert "art" <= q[1..];
    assert Contains(q, "art");
    assert HumanitiesKeywords[4] == "art";
  }

  lemma ParticlePhysicsHasPhysics()
    ensures Contains(Lower("particle physics"), StemKeywords[1])
  {
    var q := "particle physics";
    assert Lower(q) == q;
    assert q[9..] == "physics";
    assert "physics" <= q[9..];
    ContainsSuffix(q, "physics", 9);
    assert StemKeywords[1] == "physics";
  }

  lemma {:induction false} ContainsSuffix(hay: string, needle: string, k: nat)
    requires k <= |hay| && Contains(hay[k..], needle)
    ensures Contains(hay, needle)
    decreases k
  {
    if k > 0 {
      assert hay[1..][k - 1..] == hay[k..];
      ContainsSuffix(hay[1..], needle, k - 1);
    }
  }

  // ------------------------------------------------------ provider wrappers

  /** A Wikipedia page that exists: its full url and its text. */
  datatype WikiPage = WikiPage(url: string, text: string)

  /** The services behind `search_multiple_sources`. `opensearch` is None
      when the request raises or the status is not 200; `page` is None when
      the page does not exist or its fetch raises; `apis` is the generator's
      `EducationalAPIs` object (`EducationalApis.Standard` is the one it
      builds, with the MIT search as written). */
  datatype Providers = Providers(
    opensearch: (string, int) -> Option<seq<string>>,
    page: string -> Option<WikiPage>,
    apis: Searches,
    arxiv: (string, int) -> seq<Resource>)

  /** `_extract_structured_content`: the first 2000 characters. */
  function ExtractStructuredContent(text: string): (r: string)
    ensures r <= text && |r| <= 2000
    ensures |text| <= 2000 ==> r == text
  {
    TakePrefix(text, 2000)
  }

  function WikiPages(titles: seq<string>, page: string -> Option<WikiPage>): (r: seq<ContentSource>)
    ensures |r| <= |titles|
    ensures forall i :: 0 <= i < |r| ==>
      r[i].sourceType == "reference" && r[i].credibility == 0.7 && |r[i].content| <= 2000
    decreases |titles|
  {
    if titles == [] then []
    else
      var rest := WikiPages(titles[1..], page);
      match page(titles[0])
      case None => rest
      case Some(p) => [ContentSource(titles[0], p.url, ExtractStructuredContent(p.text), "reference", 0.7, None)] + rest
  }

  /** The titles of a list of sources, in order. */
  function SourceTitleList(ss: seq<ContentSource>): (ts: seq<string>)
    ensures |ts| == |ss| && forall i :: 0 <= i < |ss| ==> ts[i] == ss[i].title
  {
    seq(|ss|, i requires 0 <= i < |ss| => ss[i].title)
  }

  /** Every title whose page exists yields an entry, and nothing else does:
      the entries follow the titles' order, and each carries its own page's
      url and the first 2000 characters of its text. */
  lemma WikiPagesExact(titles: seq<string>, page: string -> Option<WikiPage>)
    ensures var r := WikiPages(titles, page);
      IsSubsequence(SourceTitleList(r), titles) &&
      (forall i :: 0 <= i < |titles| && page(titles[i]).Some? ==> titles[i] in SourceTitleList(r)) &&
      (forall j :: 0 <= j < |r| ==> r[j].title in titles && FromPage(r[j], page))
  {
    var exists_ := (t: string) => page(t).Some?;
    WikiPagesIsFilter(titles, page);
    WikiPagesFromPage(titles, page);
    FilterIsSubsequence(titles, exists_);
    forall i | 0 <= i < |titles| && page(titles[i]).Some?
      ensures titles[i] in SourceTitleList(WikiPages(titles, page))
    {
      FilterKeeps(titles, exists_, i);
    }
    var r := WikiPages(titles, page);
    forall j | 0 <= j < |r|
      ensures r[j].title in titles
    {
      assert SourceTitleList(r)[j] == r[j].title;
      FilterCount(titles, exists_, r[j].title);
      assert r[j].title in multiset(Filter(titles, exists_));
    }
  }

  /** The titles of `WikiPages` are the titles whose page exists. */
  lemma {:induction false} WikiPagesIsFilter(titles: seq<string>, page: string -> Option<WikiPage>)
    ensures SourceTitleList(WikiPages(titles, page)) == Filter(titles, (t: string) => page(t).Some?)
    decreases |titles|
  {
    if titles != [] {
      WikiPagesIsFilter(titles[1..], page);
      var rest := WikiPages(titles[1..], page);
      if page(titles[0]).Some? {
        var r := WikiPages(titles, page);
        assert r == [r[0]] + rest;
        assert SourceTitleList(r) == [titles[0]] + SourceTitleList(rest);
      }
    }
  }

  /** The source is the one `_search_wikipedia_enhanced` builds from its
      title's page: that page exists, and the url and the content are its own. */
  predicate FromPage(s: ContentSource, page: string -> Option<WikiPage>)
  {
    page(s.title).Some? && s.url == page(s.title).value.url &&
    s.content == ExtractStructuredContent(page(s.title).value.text)
  }

  /** Each entry of `WikiPages` is built from its own title's page. */
  lemma {:induction false} WikiPagesFromPage(titles: seq<string>, page: string -> Option<WikiPage>)
    ensures forall j :: 0 <= j < |WikiPages(titles, page)| ==> FromPage(WikiPages(titles, page)[j], page)
    decreases |titles|
  {
    if titles != [] {
      var rest := WikiPages(titles[1..], page);
      WikiPagesFromPage(titles[1..], page);
      var r := WikiPages(titles, page);
      if page(titles[0]).Some? {
        assert FromPage(r[0], page);
        assert r == [r[0]] + rest;
        forall j | 1 <= j < |r|
          ensures FromPage(r[j], page)
        {
          assert r[j] == rest[j - 1];
        }
      }
    }
  }

  /** `_search_wikipedia_enhanced`: ask for twice the cap, keep pages that
      exist among the first `max_results` titles. */
  function WikipediaSources(query: string, maxResults: int, p: Providers): seq<ContentSource>
  {
    match p.opensearch(query, maxResults * 2)
    case None => []
    case Some(titles) => WikiPages(TakePrefix(titles, maxResults), p.page)
  }

  /** The MIT wrapper's multi-line content string, stripped. */
  function MitContent(r: Resource): string
  {
    Trim("\n**" + r.title + "**\n\n" + r.description + "\n\nURL: " + r.url + "\nSource: " + r.source
         + "\n                ")
  }

  /** Each result becomes a source of the given type; the content is the
      description except for MIT. */
  function Convert(rs: seq<Resource>, sourceType: string, mit: bool): (r: seq<ContentSource>)
    ensures |r| == |rs|
    ensures forall i :: 0 <= i < |r| ==>
      r[i].title == rs[i].title && r[i].url == rs[i].url && r[i].sourceType == sourceType &&
      r[i].credibility == rs[i].credibility
  {
    seq(|rs|, i requires 0 <= i < |rs| =>
      ContentSource(rs[i].title, rs[i].url, if mit then MitContent(rs[i]) else rs[i].description,
                    sourceType, rs[i].credibility, if sourceType == "research" then rs[i].published else None))
  }

  function MitSources(query: string, maxResults: int, p: Providers): seq<ContentSource>
  {
    Convert(p.apis.mit(query, maxResults), "academic", true)
  }

  function KhanSources(query: string, maxResults: int, p: Providers): seq<ContentSource>
  {
    Convert(p.apis.khan(query, maxResults), "educational", false)
  }

  function CourseraSources(query: string, maxResults: int, p: Providers): seq<ContentSource>
  {
    Convert(p.apis.coursera(query, maxResults), "educational", false)
  }

  function ArxivSources(query: string, maxResults: int, p: Providers): seq<ContentSource>
  {
    Convert(p.arxiv(query, maxResults), "research", false)
  }

  function SepSources(query: string, maxResults: int, p: Providers): seq<ContentSource>
  {
    Convert(p.apis.sep(query, maxResults), "academic", false)
  }

  /** `all_sources` before the sort: arXiv only for STEM queries, the
      encyclopedia only for humanities queries. */
  function Gathered(query: string, maxPerSource: int, p: Providers): seq<ContentSource>
  {
    WikipediaSources(query, maxPerSource, p) + MitSources(query, maxPerSource, p)
    + KhanSources(query, maxPerSource, p) + CourseraSources(query, maxPerSource, p)
    + (if IsStemTopic(query) then ArxivSources(query, maxPerSource, p) else [])
    + (if IsHumanitiesTopic(query) then SepSources(query, maxPerSource, p) else [])
  }

  // --------------------------------------------------------------- the sort

  /** Non-increasing credibility. */
  predicate SortedByCredibility(s: seq<ContentSource>)
  {
    forall i, j :: 0 <= i < j < |s| ==> s[i].credibility >= s[j].credibility
  }

  /** Places `x` before the first element that is not more credible, so it
      stays ahead of the equally credible elements that followed it. */
  function InsertByCredibility(x: ContentSource, r: seq<ContentSource>): seq<ContentSource>
    decreases |r|
  {
    if r == [] || r[0].credibility <= x.credibility then [x] + r
    else [r[0]] + InsertByCredibility(x, r[1..])
  }

  /** `sorted(..., key=credibility_score, reverse=True)`, a stable sort. */
  function SortByCredibility(s: seq<ContentSource>): seq<ContentSource>
    decreases |s|
  {
    if s == [] then [] else InsertByCredibility(s[0], SortByCredibility(s[1..]))
  }

  /** `search_multiple_sources`. */
  function SearchMultipleSources(query: string, maxPerSource: int, p: Providers): seq<ContentSource>
  {
    SortByCredibility(Gathered(query, maxPerSource, p))
  }

  /** The sources of a given credibility, in order. */
  function WithCredibility(s: seq<ContentSource>, c: real): seq<ContentSource>
    decreases |s|
  {
    if s == [] then [] else (if s[0].credibility == c then [s[0]] else []) + WithCredibility(s[1..], c)
  }

  lemma {:induction false} InsertMultiset(x: ContentSource, r: seq<ContentSource>)
    ensures multiset(InsertByCredibility(x, r)) == multiset(r) + multiset{x}
    decreases |r|
  {
    if r != [] && r[0].credibility > x.credibility {
      assert r == [r[0]] + r[1..];
      InsertMultiset(x, r[1..]);
    }
  }

  lemma {:induction false} InsertKeepsSorted(x: ContentSource, r: seq<ContentSource>)
    requires SortedByCredibility(r)
    ensures SortedByCredibility(InsertByCredibility(x, r))
    decreases |r|
  {
    if r != [] && r[0].credibility > x.credibility {
      InsertKeepsSorted(x, r[1..]);
      InsertMultiset(x, r[1..]);
      var t := InsertByCredibility(x, r[1..]);
      forall i | 0 <= i < |t|
        ensures r[0].credibility >= t[i].credibility
      {
        assert t[i] in multiset(t);
        if t[i] != x {
          assert t[i] in multiset(r[1..]);
          var j :| 0 <= j < |r[1..]| && r[1..][j] == t[i];
          assert r[j + 1] == t[i];
        }
      }
      assert InsertByCredibility(x, r) == [r[0]] + t;
    }
  }

  lemma {:induction false} InsertStable(x: ContentSource, r: seq<ContentSource>, c: real)
    ensures WithCredibility(InsertByCredibility(x, r), c) ==
      (if x.credibility == c then [x] else []) + WithCredibility(r, c)
    decreases |r|
  {
    if r == [] || r[0].credibility <= x.credibility {
      WithCredibilityCons(x, r, c);
    } else {
      var t := InsertByCredibility(x, r[1..]);
      InsertStable(x, r[1..], c);
      WithCredibilityCons(r[0], t, c);
      assert InsertByCredibility(x, r) == [r[0]] + t;
      if r[0].credibility == c {
        assert x.credibility != c;
        assert WithCredibility(InsertByCredibility(x, r), c) == [r[0]] + WithCredibility(r[1..], c);
      } else {
        assert WithCredibility(InsertByCredibility(x, r), c) == WithCredibility(t, c);
      }
    }
  }

  lemma WithCredibilityCons(y: ContentSource, t: seq<ContentSource>, c: real)
    ensures WithCredibility([y] + t, c) == (if y.credibility == c then [y] else []) + WithCredibility(t, c)
  {
    assert ([y] + t)[1..] == t;
  }

  /** The sort yields non-increasing credibility, a permutation of its
      input, and keeps the input order among equally credible sources. */
  lemma {:induction false} SortSpec(s: seq<ContentSource>)
    ensures SortedByCredibility(SortByCredibility(s))
    ensures multiset(SortByCredibility(s)) == multiset(s)
    ensures forall c :: WithCredibility(SortByCredibility(s), c) == WithCredibility(s, c)
    decreases |s|
  {
    if s != [] {
      SortSpec(s[1..]);
      InsertKeepsSorted(s[0], SortByCredibility(s[1..]));
      InsertMultiset(s[0], SortByCredibility(s[1..]));
      assert s == [s[0]] + s[1..];
      forall c
        ensures WithCredibility(SortByCredibility(s), c) == WithCredibility(s, c)
      {
        InsertStable(s[0], SortByCredibility(s[1..]), c);
      }
    }
  }

  /** Every provider fixes the type of what it returns. */
  function CountType(s: seq<ContentSource>, t: string): (n: nat)
    ensures n <= |s|
    decreases |s|
  {
    if s == [] then 0 else (if s[0].sourceType == t then 1 else 0) + CountType(s[1..], t)
  }

  lemma {:induction false} CountTypeConcat(a: seq<ContentSource>, b: seq<ContentSource>, t: string)
    ensures CountType(a + b, t) == CountType(a, t) + CountType(b, t)
    decreases |a|
  {
    if a == [] {
      assert a + b == b;
    } else {
      assert (a + b)[1..] == a[1..] + b;
      CountTypeConcat(a[1..], b, t);
    }
  }

  /** Counting the last source separately. */
  lemma CountTypeSnoc(s: seq<ContentSource>, t: string)
    requires s != []
    ensures CountType(s, t) == CountType(s[..|s| - 1], t) + (if s[|s| - 1].sourceType == t then 1 else 0)
  {
    assert s == s[..|s| - 1] + [s[|s| - 1]];
    CountTypeConcat(s[..|s| - 1], [s[|s| - 1]], t);
  }

  lemma {:induction false} CountTypeAll(s: seq<ContentSource>, t: string)
    requires forall i :: 0 <= i < |s| ==> s[i].sourceType == t
    ensures CountType(s, t) == |s|
    decreases |s|
  {
    if s != [] {
      CountTypeAll(s[1..], t);
    }
  }

  lemma {:induction false} CountTypeNone(s: seq<ContentSource>, t: string)
    requires forall i :: 0 <= i < |s| ==> s[i].sourceType != t
    ensures CountType(s, t) == 0
    decreases |s|
  {
    if s != [] {
      CountTypeNone(s[1..], t);
    }
  }

  lemma {:induction false} CountTypeInsert(x: ContentSource, r: seq<ContentSource>, t: string)
    ensures CountType(InsertByCredibility(x, r), t) == CountType(r, t) + (if x.sourceType == t then 1 else 0)
    decreases |r|
  {
    if r == [] || r[0].credibility <= x.credibility {
      assert ([x] + r)[1..] == r;
    } else {
      CountTypeInsert(x, r[1..], t);
      assert ([r[0]] + InsertByCredibility(x, r[1..]))[1..] == InsertByCredibility(x, r[1..]);
    }
  }

  /** Sorting changes no per-type count. */
  lemma {:induction false} CountTypeSort(s: seq<ContentSource>, t: string)
    ensures CountType(SortByCredibility(s), t) == CountType(s, t)
    decreases |s|
  {
    if s != [] {
      CountTypeSort(s[1..], t);
      CountTypeInsert(s[0], SortByCredibility(s[1..]), t);
    }
  }

  /** The gathered list, and hence the sorted result, holds one research
      source per arXiv result when the query is STEM and none otherwise; the
      Wikipedia, MIT, Khan and Coursera sources are always all there. */
  lemma SearchMultipleSourcesSpec(query: string, maxPerSource: int, p: Providers)
    ensures var r := SearchMultipleSources(query, maxPerSource, p);
      SortedByCredibility(r) && multiset(r) == multiset(Gathered(query, maxPerSource, p)) &&
      |r| == |WikipediaSources(query, maxPerSource, p)| + |MitSources(query, maxPerSource, p)|
        + |KhanSources(query, maxPerSource, p)| + |CourseraSources(query, maxPerSource, p)|
        + (if IsStemTopic(query) then |p.arxiv(query, maxPerSource)| else 0)
        + (if IsHumanitiesTopic(query) then |SepSources(query, maxPerSource, p)| else 0) &&
      CountType(r, "research") == (if IsStemTopic(query) then |p.arxiv(query, maxPerSource)| else 0)
  {
    var w, m, k, c := WikipediaSources(query, maxPerSource, p), MitSources(query, maxPerSource, p),
      KhanSources(query, maxPerSource, p), CourseraSources(query, maxPerSource, p);
    var a := if IsStemTopic(query) then ArxivSources(query, maxPerSource, p) else [];
    var s := if IsHumanitiesTopic(query) then SepSources(query, maxPerSource, p) else [];
    assert Gathered(query, maxPerSource, p) == w + m + k + c + a + s;
    SortedGatherSpec(w, m, k, c, a, s);
  }

  /** The sort and type count of six concatenated provider lists, of which
      only the fifth holds research sources. */
  lemma SortedGatherSpec(w: seq<ContentSource>, m: seq<ContentSource>, k: seq<ContentSource>,
                         c: seq<ContentSource>, a: seq<ContentSource>, s: seq<ContentSource>)
    requires forall i :: 0 <= i < |w| ==> w[i].sourceType == "reference"
    requires forall i :: 0 <= i < |m| ==> m[i].sourceType == "academic"
    requires forall i :: 0 <= i < |k| ==> k[i].sourceType == "educational"
    requires forall i :: 0 <= i < |c| ==> c[i].sourceType == "educational"
    requires forall i :: 0 <= i < |a| ==> a[i].sourceType == "research"
    requires forall i :: 0 <= i < |s| ==> s[i].sourceType == "academic"
    ensures var g := w + m + k + c + a + s;
      var r := SortByCredibility(g);
      SortedByCredibility(r) && multiset(r) == multiset(g) &&
      |r| == |w| + |m| + |k| + |c| + |a| + |s| && CountType(r, "research") == |a|
  {
    var g := w + m + k + c + a + s;
    assert "reference" != "research" && "academic" != "research" && "educational" != "research" by {
      assert |"reference"| != |"research"|;
      assert "academic"[0] != "research"[0];
      assert |"educational"| != |"research"|;
    }
    SortSpec(g);
    var r := SortByCredibility(g);
    assert |r| == |multiset(r)| == |multiset(g)| == |g|;
    CountTypeSort(g, "research");
    CountTypeConcat(w + m + k + c + a, s, "research");
    CountTypeConcat(w + m + k + c, a, "research");
    CountTypeConcat(w + m + k, c, "research");
    CountTypeConcat(w + m, k, "research");
    CountTypeConcat(w, m, "research");
    CountTypeNone(w, "research");
    CountTypeNone(m, "research");
    CountTypeNone(k, "research");
    CountTypeNone(c, "research");
    CountTypeNone(s, "research");
    CountTypeAll(a, "research");
  }

  /** Equally credible sources keep the order in which they were gathered:
      Wikipedia, MIT, Khan, Coursera, arXiv, the encyclopedia. */
  lemma SearchMultipleSourcesStable(query: string, maxPerSource: int, p: Providers, c: real)
    ensures WithCredibility(SearchMultipleSources(query, maxPerSource, p), c) ==
      WithCredibility(Gathered(query, maxPerSource, p), c)
  {
    SortSpec(Gathered(query, maxPerSource, p));
  }

  // ------------------------------------------------- summary and bibliography

  /** `_create_source_summary` without the average credibility. */
  datatype SourceSummary = SourceSummary(total: nat, academic: nat, educational: nat, research: nat, reference: nat)

  function CreateSourceSummary(sources: seq<ContentSource>): (s: SourceSummary)
    ensures s.total == |sources|
  {
    SourceSummary(|sources|, CountType(sources, "academic"), CountType(sources, "educational"),
                  CountType(sources, "research"), CountType(sources, "reference"))
  }

  predicate KnownType(s: ContentSource)
  {
    s.sourceType in {"academic", "educational", "research", "reference"}
  }

  /** The four per-type counts add up to the total exactly when every source
      has one of the four types; otherwise they fall short. */
  lemma {:induction false} SummaryCountsAddUp(sources: seq<ContentSource>)
    ensures var s := CreateSourceSummary(sources);
      s.academic + s.educational + s.research + s.reference <= s.total &&
      (s.academic + s.educational + s.research + s.reference == s.total <==>
        forall i :: 0 <= i < |sources| ==> KnownType(sources[i]))
    decreases |sources|
  {
    if sources != [] {
      SummaryCountsAddUp(sources[1..]);
      if !KnownType(sources[0]) {
        assert !(forall i :: 0 <= i < |sources| ==> KnownType(sources[i]));
      } else {
        assert KnownType(sources[0]);
        forall i | 0 <= i < |sources[1..]| && (forall k :: 0 <= k < |sources| ==> KnownType(sources[k]))
          ensures KnownType(sources[1..][i])
        {
          assert sources[1..][i] == sources[i + 1];
        }
        if forall i :: 0 <= i < |sources[1..]| ==> KnownType(sources[1..][i]) {
          forall i | 0 <= i < |sources|
            ensures KnownType(sources[i])
          {
            if i > 0 {
              assert sources[i] == sources[1..][i - 1];
            }
          }
        }
      }
    }
  }

  /** A bibliography entry without the formatted credibility string. */
  datatype BibEntry = BibEntry(title: string, url: string, sourceType: string)

  function CreateBibliography(sources: seq<ContentSource>): (b: seq<BibEntry>)
    ensures |b| == |sources|
    ensures forall i :: 0 <= i < |b| ==>
      b[i] == BibEntry(sources[i].title, sources[i].url, sources[i].sourceType)
  {
    seq(|sources|, i requires 0 <= i < |sources| => BibEntry(sources[i].title, sources[i].url, sources[i].sourceType))
  }
}
