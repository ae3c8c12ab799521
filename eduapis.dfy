/** The curated fallback tables of educational_apis.py and the search entry
    points that return them. Each table maps a topic to a few real resources;
    a lookup takes the first topic, in the table's insertion order, that
    occurs in the lower-cased query or contains it. URL-encoding of the query
    (`quote`) is a function parameter; the MIT OCW page scrape is an oracle. */
module EducationalApis {
  import opened Common

  /** A result dict: title, url, description, provider name, credibility and,
      for arXiv only, the publication date. */
  datatype Resource = Resource(title: string, url: string, description: string, source: string,
                               credibility: real, published: Option<string>)

  /** A curated entry before the provider fields are added. */
  datatype Entry = Entry(title: string, url: string, description: string)

  datatype Topic = Topic(name: string, entries: seq<Entry>)

  type Table = seq<Topic>

  type Quote = string -> string

  const MitSource: string := "MIT OpenCourseWare"
  const KhanSource: string := "Khan Academy"
  const CourseraSource: string := "Coursera"
  const SepSource: string := "Stanford Encyclopedia of Philosophy"
  const MitCredibility: real := 0.95
  const KhanCredibility: real := 0.8
  const CourseraCredibility: real := 0.85
  const SepCredibility: real := 0.9

  const MitComputerScience: Topic :=
    Topic("computer science", [
      Entry("6.0001 Introduction to Computer Science and Programming in Python",
            "https://ocw.mit.edu/courses/6-0001-introduction-to-computer-science-and-programming-in-python-fall-2016/",
            "Introduction to computer science and programming for students with little or no programming experience."),
      Entry("6.006 Introduction to Algorithms",
            "https://ocw.mit.edu/courses/6-006-introduction-to-algorithms-spring-2020/",
            "Introduction to mathematical modeling of computational problems and common algorithmic approaches.")])

  const MitMachineLearning: Topic :=
    Topic("machine learning", [
      Entry("6.034 Artificial Intelligence",
            "https://ocw.mit.edu/courses/6-034-artificial-intelligence-fall-2010/",
            "Introduction to representations, techniques, and architectures used in AI."),
      Entry("6.867 Machine Learning",
            "https://ocw.mit.edu/courses/6-867-machine-learning-fall-2006/",
            "Principles, algorithms, and applications of machine learning.")])

  const MitMathematics: Topic :=
    Topic("mathematics", [
      Entry("18.01 Single Variable Calculus",
            "https://ocw.mit.edu/courses/18-01sc-single-variable-calculus-fall-2010/",
            "Differentiation and integration of functions of one variable."),
      Entry("18.06 Linear Algebra",
            "https://ocw.mit.edu/courses/18-06-linear-algebra-spring-2010/",
            "Basic subject on matrix theory and linear algebra.")])

  const MitPhysics: Topic :=
    Topic("physics", [
      Entry("8.01 Physics I: Classical Mechanics",
            "https://ocw.mit.edu/courses/8-01sc-classical-mechanics-fall-2016/",
            "Introduction to Newtonian mechanics, fluid mechanics, and kinetic gas theory.")])

  const MitDataScience: Topic :=
    Topic("data science", [
      Entry("15.071 The Analytics Edge",
            "https://ocw.mit.edu/courses/15-071-the-analytics-edge-spring-2017/",
            "Using data and analytical models to analyze and solve real-world problems.")])

  const MitTable: Table := [MitComputerScience, MitMachineLearning, MitMathematics, MitPhysics, MitDataScience]

  const KhanTable: Table := [
    Topic("algebra", [
      Entry("Algebra 1", "https://www.khanacademy.org/math/algebra",
            "Learn algebra basics including linear equations, inequalities, graphs, and systems of equations.")]),
    Topic("calculus", [
      Entry("Calculus 1", "https://www.khanacademy.org/math/calculus-1",
            "Learn differential calculus including limits, derivatives, and applications.")]),
    Topic("computer science", [
      Entry("Intro to Programming", "https://www.khanacademy.org/computing/computer-programming",
            "Learn programming through drawing, animation, and interactive projects.")]),
    Topic("machine learning", [
      Entry("Statistics and Probability", "https://www.khanacademy.org/math/statistics-probability",
            "Foundation for machine learning including statistical concepts and probability.")])
  ]

  const CourseraTable: Table := [
    Topic("machine learning", [
      Entry("Machine Learning by Stanford University", "https://www.coursera.org/learn/machine-learning",
            "Andrew Ng's famous machine learning course covering supervised and unsupervised learning.")]),
    Topic("python", [
      Entry("Python for Everybody Specialization", "https://www.coursera.org/specializations/python",
            "Learn to program in Python and analyze data.")]),
    Topic("data science", [
      Entry("Data Science Specialization", "https://www.coursera.org/specializations/jhu-data-science",
            "Johns Hopkins Data Science specialization covering the full data science pipeline.")])
  ]

  const SepTable: Table := [
    Topic("ethics", [
      Entry("Ethics", "https://plato.stanford.edu/entries/ethics-virtue/",
            "Comprehensive overview of virtue ethics and moral philosophy.")]),
    Topic("philosophy", [
      Entry("Epistemology", "https://plato.stanford.edu/entries/epistemology/",
            "Study of knowledge, justified belief, and rationality.")]),
    Topic("logic", [
      Entry("Logic and Ontology", "https://plato.stanford.edu/entries/logic-ontology/",
            "Relationship between logic and metaphysics.")])
  ]

  /** `topic in query_lower or query_lower in topic`. */
  predicate Matches(topic: string, queryLower: string)
  {
    Contains(queryLower, topic) || Contains(topic, queryLower)
  }

  /** The index of the first matching topic, if any. */
  function FirstMatch(table: Table, queryLower: string): (r: Option<nat>)
    ensures r.Some? ==> r.value < |table| && Matches(table[r.value].name, queryLower)
    ensures r.Some? ==> forall k :: 0 <= k < r.value ==> !Matches(table[k].name, queryLower)
    ensures r.None? <==> forall k :: 0 <= k < |table| ==> !Matches(table[k].name, queryLower)
    decreases |table|
  {
    if table == [] then None
    else if Matches(table[0].name, queryLower) then Some(0)
    else match FirstMatch(table[1..], queryLower)
      case None => None
      case Some(k) => Some(k + 1)
  }

  /** `{**entry, 'source': ..., 'credibility': ...}` for every entry. */
  function Tag(entries: seq<Entry>, source: string, credibility: real): (r: seq<Resource>)
    ensures |r| == |entries|
    ensures forall i :: 0 <= i < |r| ==>
      r[i] == Resource(entries[i].title, entries[i].url, entries[i].description, source, credibility, None)
  {
    seq(|entries|, i requires 0 <= i < |entries| =>
      Resource(entries[i].title, entries[i].url, entries[i].description, source, credibility, None))
  }

  /** Every resource carries the given provider name and credibility. */
  predicate FromProvider(rs: seq<Resource>, source: string, credibility: real)
  {
    forall i :: 0 <= i < |rs| ==> rs[i].source == source && rs[i].credibility == credibility
  }

  /** `_get_fallback_mit_courses`: the whole matched topic, untruncated, or
      else the first two computer-science courses. */
  function FallbackMit(query: string): seq<Resource>
  {
    match FirstMatch(MitTable, Lower(query))
    case Some(k) => Tag(MitTable[k].entries, MitSource, MitCredibility)
    case None => TakePrefix(Tag(MitTable[0].entries, MitSource, MitCredibility), 2)
  }

  /** Khan, Coursera and the encyclopedia share one shape: the matched topic
      cut to `max_results`, or else one default entry built from the query. */
  function FallbackLookup(table: Table, query: string, maxResults: int, source: string, credibility: real,
                          default: Resource): seq<Resource>
  {
    match FirstMatch(table, Lower(query))
    case Some(k) => TakePrefix(Tag(table[k].entries, source, credibility), maxResults)
    case None => [default]
  }

  function FallbackKhan(query: string, maxResults: int, quote: Quote): seq<Resource>
  {
    FallbackLookup(KhanTable, query, maxResults, KhanSource, KhanCredibility,
      Resource("Khan Academy: " + query,
               "https://www.khanacademy.org/search?page_search_query=" + quote(query),
               "Interactive lessons and practice exercises on " + query,
               KhanSource, KhanCredibility, None))
  }

  function FallbackCoursera(query: string, maxResults: int, quote: Quote): seq<Resource>
  {
    FallbackLookup(CourseraTable, query, maxResults, CourseraSource, CourseraCredibility,
      Resource("Coursera: " + query,
               "https://www.coursera.org/search?query=" + quote(query),
               "Professional courses and specializations on " + query,
               CourseraSource, CourseraCredibility, None))
  }

  function FallbackSep(query: string, maxResults: int, quote: Quote): seq<Resource>
  {
    FallbackLookup(SepTable, query, maxResults, SepSource, SepCredibility,
      Resource("Stanford Encyclopedia: " + query,
               "https://plato.stanford.edu/search/searcher.py?query=" + quote(query),
               "Peer-reviewed philosophical articles on " + query,
               SepSource, SepCredibility, None))
  }

  /** The search entry points of Khan Academy, Coursera and the encyclopedia
      return their fallback on every path: the body of each `try` does
      nothing that can raise before it. */
  function SearchKhanAcademy(query: string, maxResults: int, quote: Quote): seq<Resource>
  {
    FallbackKhan(query, maxResults, quote)
  }

  function SearchCoursera(query: string, maxResults: int, quote: Quote): seq<Resource>
  {
    FallbackCoursera(query, maxResults, quote)
  }

  function SearchStanfordEncyclopedia(query: string, maxResults: int, quote: Quote): seq<Resource>
  {
    FallbackSep(query, maxResults, quote)
  }

  /** The MIT OCW page scrape for a query and a cap: None when the request
      raises, otherwise the courses found (empty for a non-200 status). */
  type Scrape = (string, int) -> Option<seq<Resource>>

  /** `search_mit_ocw` as written: the normal path falls back on an empty
      scrape and cuts to `max_results`; the exception path returns the
      fallback without the cut. */
  function SearchMitOcw(query: string, maxResults: int, scrape: Scrape): seq<Resource>
  {
    match scrape(query, maxResults)
    case None => FallbackMit(query)
    case Some(found) =>
      var results := if found == [] then FallbackMit(query) else found;
      TakePrefix(results, maxResults)
  }

  /** `search_mit_ocw` with the cut applied on both paths. */
  function SearchMitOcwCorrected(query: string, maxResults: int, scrape: Scrape): (r: seq<Resource>)
    ensures maxResults >= 0 ==> |r| <= maxResults
    ensures scrape(query, maxResults).None? ==> r == TakePrefix(FallbackMit(query), maxResults)
    ensures scrape(query, maxResults).Some? ==> r == SearchMitOcw(query, maxResults, scrape)
  {
    match scrape(query, maxResults)
    case None => TakePrefix(FallbackMit(query), maxResults)
    case Some(_) => SearchMitOcw(query, maxResults, scrape)
  }

  /** What the course generator uses of an `EducationalAPIs` object: its
      four searches, each from a query and a cap to result dicts. */
  datatype Searches = Searches(
    mit: (string, int) -> seq<Resource>,
    khan: (string, int) -> seq<Resource>,
    coursera: (string, int) -> seq<Resource>,
    sep: (string, int) -> seq<Resource>)

  /** The `EducationalAPIs()` object the course generator constructs: this
      module's four searches as written, so its MIT search may exceed a cap
      below two on the exception path. */
  function Standard(scrape: Scrape, quote: Quote): Searches
  {
    Searches((q, n) => SearchMitOcw(q, n, scrape), (q, n) => SearchKhanAcademy(q, n, quote),
             (q, n) => SearchCoursera(q, n, quote), (q, n) => SearchStanfordEncyclopedia(q, n, quote))
  }

  // ------------------------------------------------------------------ lemmas

  /** The MIT fallback is the first matching topic's courses in full, or the
      first two computer-science courses; every entry says MIT at 0.95. */
  lemma FallbackMitSpec(query: string)
    ensures FromProvider(FallbackMit(query), MitSource, MitCredibility)
    ensures FirstMatch(MitTable, Lower(query)).None? ==>
      FallbackMit(query) == Tag(MitTable[0].entries, MitSource, MitCredibility) && |FallbackMit(query)| == 2
    ensures FirstMatch(MitTable, Lower(query)).Some? ==>
      FallbackMit(query) == Tag(MitTable[FirstMatch(MitTable, Lower(query)).value].entries, MitSource, MitCredibility)
  {
    var m := FirstMatch(MitTable, Lower(query));
    var entries := if m.Some? then MitTable[m.value].entries else MitTable[0].entries;
    TagFromProvider(entries, MitSource, MitCredibility);
    if m.None? {
      assert |MitTable[0].entries| == 2;
    }
  }

  /** No MIT topic lists more than two courses. */
  lemma FallbackMitAtMostTwo(query: string)
    ensures |FallbackMit(query)| <= 2
  {
    var m := FirstMatch(MitTable, Lower(query));
    if m.Some? {
      MitTopicAtMostTwo(m.value);
    }
  }

  lemma MitTopicAtMostTwo(k: nat)
    requires k < |MitTable|
    ensures |MitTable[k].entries| <= 2
  {
    if k == 0 {
      assert |MitComputerScience.entries| == 2;
    } else if k == 1 {
      assert |MitMachineLearning.entries| == 2;
    } else if k == 2 {
      assert |MitMathematics.entries| == 2;
    } else if k == 3 {
      assert |MitPhysics.entries| == 1;
    } else {
      assert |MitDataScience.entries| == 1;
    }
  }

  /** For any cap of two or more, which every caller in the course generator
      passes, the search as written already honours the cap: it agrees with
      the corrected one, so `Standard` is safe for those callers. */
  lemma SearchMitOcwHonoursCap(query: string, maxResults: int, scrape: Scrape)
    requires maxResults >= 2
    ensures SearchMitOcw(query, maxResults, scrape) == SearchMitOcwCorrected(query, maxResults, scrape)
    ensures |SearchMitOcw(query, maxResults, scrape)| <= maxResults
  {
    FallbackMitAtMostTwo(query);
    assert TakePrefix(FallbackMit(query), maxResults) == FallbackMit(query);
  }

  lemma TagFromProvider(entries: seq<Entry>, source: string, credibility: real)
    ensures FromProvider(Tag(entries, source, credibility), source, credibility)
  {
  }

  /** A shared-shape lookup: the matched topic cut to the cap, all from the
      provider; with no match, exactly the default entry. */
  lemma FallbackLookupSpec(table: Table, query: string, maxResults: int, source: string, credibility: real,
                           default: Resource)
    requires default.source == source && default.credibility == credibility
    ensures var r := FallbackLookup(table, query, maxResults, source, credibility, default);
      FromProvider(r, source, credibility) &&
      (FirstMatch(table, Lower(query)).None? ==> r == [default]) &&
      (FirstMatch(table, Lower(query)).Some? ==>
        var entries := table[FirstMatch(table, Lower(query)).value].entries;
        r <= Tag(entries, source, credibility) && (0 <= maxResults ==> |r| <= maxResults) &&
        (maxResults >= |entries| ==> |r| == |entries|))
  {
    var r := FallbackLookup(table, query, maxResults, source, credibility, default);
    match FirstMatch(table, Lower(query))
    case None =>
    case Some(k) =>
      var t := Tag(table[k].entries, source, credibility);
      assert forall i :: 0 <= i < |r| ==> r[i] == t[i];
  }

  /** Khan, Coursera and the encyclopedia entries carry their fixed provider
      name and credibility: 0.8, 0.85 and 0.9. */
  lemma ProvidersTagged(query: string, maxResults: int, quote: Quote)
    ensures FromProvider(SearchKhanAcademy(query, maxResults, quote), KhanSource, KhanCredibility)
    ensures FromProvider(SearchCoursera(query, maxResults, quote), CourseraSource, CourseraCredibility)
    ensures FromProvider(SearchStanfordEncyclopedia(query, maxResults, quote), SepSource, SepCredibility)
  {
    var k := Resource("Khan Academy: " + query,
      "https://www.khanacademy.org/search?page_search_query=" + quote(query),
      "Interactive lessons and practice exercises on " + query, KhanSource, KhanCredibility, None);
    FallbackLookupSpec(KhanTable, query, maxResults, KhanSource, KhanCredibility, k);
    var c := Resource("Coursera: " + query, "https://www.coursera.org/search?query=" + quote(query),
      "Professional courses and specializations on " + query, CourseraSource, CourseraCredibility, None);
    FallbackLookupSpec(CourseraTable, query, maxResults, CourseraSource, CourseraCredibility, c);
    var s := Resource("Stanford Encyclopedia: " + query,
      "https://plato.stanford.edu/search/searcher.py?query=" + quote(query),
      "Peer-reviewed philosophical articles on " + query, SepSource, SepCredibility, None);
    FallbackLookupSpec(SepTable, query, maxResults, SepSource, SepCredibility, s);
  }

  /** An empty query is contained in every topic, so it matches the first
      topic of any non-empty table. */
  lemma EmptyQueryMatchesFirst(table: Table)
    requires table != []
    ensures FirstMatch(table, Lower("")) == Some(0)
  {
    assert Lower("") == "";
    EmptyContained(table[0].name);
  }

  /** The first-match rule in action: "computer science" comes before
      "machine learning" in the MIT table, so a query naming both gets the
      computer-science courses. */
  lemma FirstTopicWins(query: string)
    requires Contains(Lower(query), "computer science")
    ensures FallbackMit(query) == Tag(MitTable[0].entries, MitSource, MitCredibility)
  {
  }

  /** The MIT search never exceeds the cap on its normal path. */
  lemma SearchMitOcwNormalCapped(query: string, maxResults: int, scrape: Scrape)
    requires scrape(query, maxResults).Some? && maxResults >= 0
    ensures |SearchMitOcw(query, maxResults, scrape)| <= maxResults
  {
  }

  /** A query that matches no MIT topic gets the two default courses on the
      exception path whatever cap it asked for. */
  lemma UnmatchedExceptionPathGivesTwo(query: string, maxResults: int, scrape: Scrape)
    requires FirstMatch(MitTable, Lower(query)).None?
    requires scrape(query, maxResults).None?
    ensures |SearchMitOcw(query, maxResults, scrape)| == 2
  {
    assert |MitComputerScience.entries| == 2;
  }

  /** On its exception path the MIT search ignores the cap: an empty query
      with `max_results` 1 gets both computer-science courses. */
  lemma SearchMitOcwExceptionPathExceedsCap(scrape: Scrape)
    requires scrape("", 1).None?
    ensures |SearchMitOcw("", 1, scrape)| == 2
  {
    EmptyQueryMatchesFirst(MitTable);
  }
}
