/** The course-assembly half of enhanced_course_generator.py: choosing the
    sources of a module, capping and numbering its lessons, the reading
    list, the research connections, the fallback outline and the control
    flow of `generate_comprehensive_course`. Every text the language model
    writes (lessons, lectures, seminars, labs, the outline) comes from a
    function parameter. */
module EnhancedCourse {
  import opened Common
  import opened CourseSources

  /** One module of an outline; the fields the code reads with `.get` and a
      default are optional. */
  datatype ModuleOutline = ModuleOutline(moduleNumber: Option<int>, title: string, objectives: Option<seq<string>>,
                                         keyConcepts: Option<seq<string>>, topics: Option<seq<string>>)

  datatype CourseOutline = CourseOutline(courseTitle: string, courseCode: string, description: string,
                                         learningObjectives: seq<string>, prerequisites: seq<string>,
                                         modules: seq<ModuleOutline>)

  /** The language-model calls. `outline` is None when its answer is not
      valid JSON; `distinct` is the order in which `list(set(...))` happens
      to list a collection of lesson topics. */
  datatype Writers = Writers(
    outline: (string, string, seq<ContentSource>) -> Option<CourseOutline>,
    lesson: (string, string, seq<ContentSource>, string) -> string,
    lectures: (string, seq<string>, seq<ContentSource>, string) -> seq<string>,
    seminars: (string, seq<ContentSource>, string) -> seq<string>,
    labs: (string, string) -> seq<string>,
    distinct: seq<string> -> seq<string>)

  // ------------------------------------------------------ source selection

  function LowerAll(ks: seq<string>): (r: seq<string>)
    ensures |r| == |ks| && forall i :: 0 <= i < |r| ==> r[i] == Lower(ks[i])
  {
    seq(|ks|, i requires 0 <= i < |ks| => Lower(ks[i]))
  }

  /** Some lower-cased key concept occurs in the lower-cased content. */
  predicate Relevant(s: ContentSource, keyConcepts: seq<string>)
  {
    AnyKeyword(LowerAll(keyConcepts), s.content)
  }

  function RelevantSources(sources: seq<ContentSource>, keyConcepts: seq<string>): (r: seq<ContentSource>)
    ensures IsSubsequence(r, sources)
    ensures forall i :: 0 <= i < |r| ==> Relevant(r[i], keyConcepts)
    ensures r == [] <==> forall i :: 0 <= i < |sources| ==> !Relevant(sources[i], keyConcepts)
    decreases |sources|
  {
    if sources == [] then []
    else
      var rest := RelevantSources(sources[1..], keyConcepts);
      assert rest == [] <==> forall i :: 1 <= i < |sources| ==> !Relevant(sources[i], keyConcepts) by {
        if rest != [] {
          assert exists i :: 0 <= i < |sources[1..]| && Relevant(sources[1..][i], keyConcepts);
          var i :| 0 <= i < |sources[1..]| && Relevant(sources[1..][i], keyConcepts);
          assert sources[i + 1] == sources[1..][i];
        }
        if exists i :: 1 <= i < |sources| && Relevant(sources[i], keyConcepts) {
          var i :| 1 <= i < |sources| && Relevant(sources[i], keyConcepts);
          assert sources[1..][i - 1] == sources[i];
        }
      }
      if Relevant(sources[0], keyConcepts) then
        var r := [sources[0]] + rest;
        assert r[1..] == rest;
        r
      else rest
  }

  /** The module's sources: the first five relevant ones, or the first five
      sources when none is relevant. */
  function SelectSources(sources: seq<ContentSource>, keyConcepts: seq<string>): (r: seq<ContentSource>)
    ensures IsSubsequence(r, sources) && |r| <= 5
    ensures r == [] <==> sources == []
    ensures (exists i :: 0 <= i < |sources| && Relevant(sources[i], keyConcepts)) ==>
      r == TakePrefix(RelevantSources(sources, keyConcepts), 5) && forall i :: 0 <= i < |r| ==> Relevant(r[i], keyConcepts)
    ensures (forall i :: 0 <= i < |sources| ==> !Relevant(sources[i], keyConcepts)) ==> r == TakePrefix(sources, 5)
  {
    var relevant := TakePrefix(RelevantSources(sources, keyConcepts), 5);
    SubsequencePrefix(RelevantSources(sources, keyConcepts), sources, |relevant|);
    assert relevant == RelevantSources(sources, keyConcepts)[..|relevant|];
    if relevant == [] then
      PrefixIsSubsequence(TakePrefix(sources, 5), sources);
      TakePrefix(sources, 5)
    else relevant
  }

  // ------------------------------------------------------------- readings

  /** `content[:200] + "..."` for long content, the content itself otherwise. */
  function Abbreviate(content: string): (r: string)
    ensures |content| <= 200 ==> r == content
    ensures |content| > 200 ==> |r| == 203 && r[..200] == content[..200]
  {
    if |content| > 200 then content[..200] + "..." else content
  }

  datatype Reading =
    | Primary(title: string, url: string, sourceType: string, credibility: real, summary: string)
    | Supplementary(title: string, url: string, required: bool, description: string)
    | Textbook(title: string)

  predicate IsRequired(r: Reading)
  {
    match r
    case Primary(_, _, _, _, _) => true
    case Supplementary(_, _, required, _) => required
    case Textbook(_) => true
  }

  /** Entry `k` of the eight supplementary titles. */
  function SupplementaryTitle(m: string, k: nat): string
  {
    if k == 0 then "Foundational Theories in " + m
    else if k == 1 then "Contemporary Research on " + m
    else if k == 2 then m + ": Critical Perspectives"
    else if k == 3 then "Applied " + m + ": Industry Case Studies"
    else if k == 4 then "Future Directions in " + m + " Research"
    else if k == 5 then "Cross-disciplinary Approaches to " + m
    else if k == 6 then "Historical Development of " + m
    else "Ethical Considerations in " + m
  }

  function SupplementaryTitles(m: string): (r: seq<string>)
    ensures |r| == 8
  {
    seq(8, k requires 0 <= k < 8 => SupplementaryTitle(m, k))
  }

  /** Entry `k` of the three textbook chapters. */
  function TextbookTitle(m: string, k: nat): string
  {
    if k == 0 then "Chapter on " + m + " Fundamentals"
    else if k == 1 then "Advanced " + m + " Concepts"
    else m + " Applications and Case Studies"
  }

  function TextbookTitles(m: string): (r: seq<string>)
    ensures |r| == 3
  {
    seq(3, k requires 0 <= k < 3 => TextbookTitle(m, k))
  }

  function PrimaryReading(s: ContentSource): Reading
  {
    Primary(s.title, s.url, s.sourceType, s.credibility, Abbreviate(s.content))
  }

  /** Supplementary reading number `i`, counted from 1. */
  function SupplementaryReading(title: string, i: nat): Reading
  {
    Supplementary(title, "#reading-" + NatToString(i), i <= 4,
      "Comprehensive analysis of " + Lower(title) + " including current research, methodologies, and practical applications.")
  }

  function PrimaryReadings(sources: seq<ContentSource>): seq<Reading>
  {
    seq(|sources|, i requires 0 <= i < |sources| => PrimaryReading(sources[i]))
  }

  function SupplementaryReadings(m: string): seq<Reading>
  {
    seq(8, i requires 0 <= i < 8 => SupplementaryReading(SupplementaryTitles(m)[i], i + 1))
  }

  function TextbookReadings(m: string): seq<Reading>
  {
    seq(3, i requires 0 <= i < 3 => Textbook(TextbookTitles(m)[i]))
  }

  function Readings(m: string, sources: seq<ContentSource>): seq<Reading>
  {
    PrimaryReadings(sources) + SupplementaryReadings(m) + TextbookReadings(m)
  }

  /** `_generate_comprehensive_readings`: three appending loops. */
  method GenerateComprehensiveReadings(m: string, sources: seq<ContentSource>) returns (readings: seq<Reading>)
    ensures readings == Readings(m, sources)
  {
    readings := AppendPrimary([], sources);
    readings := AppendSupplementary(readings, m);
    readings := AppendTextbooks(readings, m);
  }

  /** The first loop: one primary reading per source. */
  method AppendPrimary(start: seq<Reading>, sources: seq<ContentSource>) returns (readings: seq<Reading>)
    ensures readings == start + PrimaryReadings(sources)
  {
    readings := start;
    for i := 0 to |sources|
      invariant readings == start + PrimaryReadings(sources)[..i]
    {
      assert PrimaryReadings(sources)[..i + 1] == PrimaryReadings(sources)[..i] + [PrimaryReading(sources[i])];
      readings := readings + [PrimaryReading(sources[i])];
    }
    assert PrimaryReadings(sources)[..|sources|] == PrimaryReadings(sources);
  }

  /** The second loop: the eight supplementary readings, numbered from 1. */
  method AppendSupplementary(start: seq<Reading>, m: string) returns (readings: seq<Reading>)
    ensures readings == start + SupplementaryReadings(m)
  {
    var supp := SupplementaryTitles(m);
    readings := start;
    for i := 0 to 8
      invariant readings == start + SupplementaryReadings(m)[..i]
    {
      readings := readings + [SupplementaryReading(supp[i], i + 1)];
    }
    assert SupplementaryReadings(m)[..8] == SupplementaryReadings(m);
  }

  /** The third loop: the three textbook chapters. */
  method AppendTextbooks(start: seq<Reading>, m: string) returns (readings: seq<Reading>)
    ensures readings == start + TextbookReadings(m)
  {
    var chapters := TextbookTitles(m);
    readings := start;
    for i := 0 to 3
      invariant readings == start + TextbookReadings(m)[..i]
    {
      assert TextbookReadings(m)[..i + 1] == TextbookReadings(m)[..i] + [Textbook(chapters[i])];
      readings := readings + [Textbook(chapters[i])];
    }
    assert TextbookReadings(m)[..3] == TextbookReadings(m);
  }

  function CountRequired(rs: seq<Reading>): (n: nat)
    ensures n <= |rs|
  {
    if rs == [] then 0 else CountRequired(rs[..|rs| - 1]) + (if IsRequired(rs[|rs| - 1]) then 1 else 0)
  }

  lemma {:induction false} CountRequiredConcat(a: seq<Reading>, b: seq<Reading>)
    ensures CountRequired(a + b) == CountRequired(a) + CountRequired(b)
    decreases |b|
  {
    if b == [] {
      assert a + b == a;
    } else {
      assert (a + b)[..|a + b| - 1] == a + b[..|b| - 1];
      CountRequiredConcat(a, b[..|b| - 1]);
    }
  }

  lemma {:induction false} CountRequiredAll(rs: seq<Reading>)
    requires forall i :: 0 <= i < |rs| ==> IsRequired(rs[i])
    ensures CountRequired(rs) == |rs|
    decreases |rs|
  {
    if rs != [] {
      CountRequiredAll(rs[..|rs| - 1]);
    }
  }

  /** A list whose required readings are exactly its first `n` counts `n`. */
  lemma {:induction false} CountRequiredPrefix(rs: seq<Reading>, n: nat)
    requires n <= |rs|
    requires forall i :: 0 <= i < |rs| ==> (IsRequired(rs[i]) <==> i < n)
    ensures CountRequired(rs) == n
    decreases |rs|
  {
    if n == |rs| {
      CountRequiredAll(rs);
    } else {
      CountRequiredPrefix(rs[..|rs| - 1], n);
    }
  }

  /** One primary reading per source, in order, then eight supplementary
      readings of which exactly the first four are required, then three
      textbook chapters: |sources| + 11 readings. */
  lemma ReadingsShape(m: string, sources: seq<ContentSource>)
    ensures var r := Readings(m, sources);
      |r| == |sources| + 11 &&
      (forall i :: 0 <= i < |sources| ==> r[i].Primary? && r[i].title == sources[i].title && r[i].url == sources[i].url) &&
      (forall i :: |sources| <= i < |sources| + 8 ==> r[i].Supplementary? && (IsRequired(r[i]) <==> i < |sources| + 4)) &&
      (forall i :: |sources| + 8 <= i < |r| ==> r[i].Textbook?)
  {
  }

  /** |sources| + 7 of the readings are required. */
  lemma ReadingsRequired(m: string, sources: seq<ContentSource>)
    ensures CountRequired(Readings(m, sources)) == |sources| + 7
  {
    var r := Readings(m, sources);
    var n := |sources|;
    ReadingsShape(m, sources);
    var p, s, t := r[..n], r[n..n + 8], r[n + 8..];
    assert r == p + s + t;
    CountRequiredConcat(p + s, t);
    CountRequiredConcat(p, s);
    CountRequiredAll(p);
    CountRequiredAll(t);
    CountRequiredPrefix(s, 4);
  }

  // -------------------------------------------------- research connections

  datatype ResearchEntry =
    | Paper(title: string, url: string, keyFindings: string, date: string, application: string)
    | Direction(title: string, description: string)

  /** `source.date_published or "Recent"`: a missing or empty date reads as "Recent". */
  function DateOrRecent(d: Option<string>): string
  {
    match d
    case None => "Recent"
    case Some(x) => if x == "" then "Recent" else x
  }

  function PaperFor(m: string, s: ContentSource): ResearchEntry
  {
    Paper(s.title, s.url, TakePrefix(s.content, 300) + "...", DateOrRecent(s.datePublished),
          "Demonstrates current research directions in " + m)
  }

  function Papers(m: string, sources: seq<ContentSource>): seq<ResearchEntry>
    decreases |sources|
  {
    if sources == [] then []
    else
      var init := Papers(m, sources[..|sources| - 1]);
      var s := sources[|sources| - 1];
      if s.sourceType == "research" then init + [PaperFor(m, s)] else init
  }

  /** One paper per research-type source. */
  lemma {:induction false} PapersCount(m: string, sources: seq<ContentSource>)
    ensures |Papers(m, sources)| == CountType(sources, "research")
    decreases |sources|
  {
    if sources != [] {
      PapersCount(m, sources[..|sources| - 1]);
      CountTypeSnoc(sources, "research");
    }
  }

  /** Entry `k` of the four research directions. */
  function DirectionTitle(m: string, k: nat): string
  {
    if k == 0 then "Emerging Trends in " + m
    else if k == 1 then "Computational Approaches to " + m
    else if k == 2 then "Interdisciplinary Research in " + m
    else "Future Challenges in " + m
  }

  function DirectionTitles(m: string): (r: seq<string>)
    ensures |r| == 4
  {
    seq(4, k requires 0 <= k < 4 => DirectionTitle(m, k))
  }

  function DirectionFor(d: string): ResearchEntry
  {
    Direction(d, "Current and emerging research directions in " + Lower(d))
  }

  function ResearchConnections(m: string, sources: seq<ContentSource>): seq<ResearchEntry>
  {
    Papers(m, sources) + seq(4, i requires 0 <= i < 4 => DirectionFor(DirectionTitles(m)[i]))
  }

  /** `_generate_research_connections`: a filtering loop, then the four directions. */
  method GenerateResearchConnections(m: string, sources: seq<ContentSource>) returns (papers: seq<ResearchEntry>)
    ensures papers == ResearchConnections(m, sources)
  {
    papers := [];
    for i := 0 to |sources|
      invariant papers == Papers(m, sources[..i])
    {
      assert sources[..i + 1][..i] == sources[..i];
      if sources[i].sourceType == "research" {
        papers := papers + [PaperFor(m, sources[i])];
      }
    }
    assert sources[..|sources|] == sources;
    var ds := DirectionTitles(m);
    ghost var found := papers;
    for i := 0 to 4
      invariant papers == found + seq(i, k requires 0 <= k < i => DirectionFor(ds[k]))
    {
      papers := papers + [DirectionFor(ds[i])];
    }
  }

  /** One paper per research-type source, in source order, then the four
      fixed directions. */
  lemma {:induction false} PapersAreResearchSources(m: string, sources: seq<ContentSource>, k: nat)
    requires k < |Papers(m, sources)|
    ensures exists i :: 0 <= i < |sources| && sources[i].sourceType == "research" && Papers(m, sources)[k] == PaperFor(m, sources[i])
    decreases |sources|
  {
    var init := sources[..|sources| - 1];
    var s := sources[|sources| - 1];
    if k < |Papers(m, init)| {
      PapersAreResearchSources(m, init, k);
      var i :| 0 <= i < |init| && init[i].sourceType == "research" && Papers(m, init)[k] == PaperFor(m, init[i]);
      assert sources[i] == init[i];
    } else {
      assert Papers(m, sources)[k] == PaperFor(m, s);
    }
  }

  lemma ResearchConnectionsShape(m: string, sources: seq<ContentSource>)
    ensures var r := ResearchConnections(m, sources);
      var n := CountType(sources, "research");
      |r| == n + 4 && (forall i :: n <= i < |r| ==> r[i] == DirectionFor(DirectionTitles(m)[i - n])) &&
      (forall i :: 0 <= i < n ==> r[i].Paper?)
  {
    var n := CountType(sources, "research");
    PapersCount(m, sources);
    forall i | 0 <= i < n
      ensures ResearchConnections(m, sources)[i].Paper?
    {
      PapersAreResearchSources(m, sources, i);
    }
  }

  // --------------------------------------------------------------- modules

  datatype Lesson = Lesson(number: nat, topic: string, body: string)

  datatype ModuleContent = ModuleContent(
    moduleNumber: int, title: string, objectives: seq<string>, keyConcepts: seq<string>,
    lessons: seq<Lesson>, lectures: seq<string>, seminars: seq<string>, labs: seq<string>,
    readings: seq<Reading>, research: seq<ResearchEntry>)

  /** `module_outline.get("topics", [title])`. */
  function Topics(o: ModuleOutline): seq<string>
  {
    if o.topics.Some? then o.topics.value else [o.title]
  }

  /** `module_outline.get("key_concepts", topics)`. */
  function KeyConcepts(o: ModuleOutline): seq<string>
  {
    if o.keyConcepts.Some? then o.keyConcepts.value else Topics(o)
  }

  /** The relevance filter and the module's own `key_concepts` field read
      `key_concepts` with [] as its default. */
  function RelevanceConcepts(o: ModuleOutline): seq<string>
  {
    if o.keyConcepts.Some? then o.keyConcepts.value else []
  }

  function LessonCap(quickMode: bool): nat
  {
    if quickMode then 2 else 10
  }

  function LessonTopics(o: ModuleOutline, quickMode: bool, w: Writers): seq<string>
  {
    TakePrefix(w.distinct(Topics(o) + KeyConcepts(o)), LessonCap(quickMode))
  }

  function ModuleSources(o: ModuleOutline, sources: seq<ContentSource>): seq<ContentSource>
  {
    SelectSources(sources, RelevanceConcepts(o))
  }

  function LessonAt(o: ModuleOutline, topics: seq<string>, j: nat, relevant: seq<ContentSource>, level: string, w: Writers): Lesson
    requires j < |topics|
  {
    Lesson(j + 1, topics[j], w.lesson(topics[j], o.title, relevant, level))
  }

  /** The module `_generate_enhanced_module` returns, in the parts modelled. */
  function EnhancedModule(o: ModuleOutline, sources: seq<ContentSource>, topic: string, level: string,
                          quickMode: bool, w: Writers): ModuleContent
  {
    var relevant := ModuleSources(o, sources);
    var lt := LessonTopics(o, quickMode, w);
    ModuleContent(
      if o.moduleNumber.Some? then o.moduleNumber.value else 1,
      o.title,
      if o.objectives.Some? then o.objectives.value else [],
      RelevanceConcepts(o),
      seq(|lt|, j requires 0 <= j < |lt| => LessonAt(o, lt, j, relevant, level, w)),
      if quickMode then [] else w.lectures(o.title, TakePrefix(KeyConcepts(o), 6), relevant, level),
      if quickMode then [] else w.seminars(o.title, relevant, level),
      if !quickMode && IsPracticalSubject(topic) then w.labs(o.title, level) else [],
      Readings(o.title, relevant),
      ResearchConnections(o.title, relevant))
  }

  /** The lesson loop of `_generate_enhanced_module`: lesson `j + 1` covers topic `j`. */
  method GenerateLessons(o: ModuleOutline, topics: seq<string>, relevant: seq<ContentSource>, level: string, w: Writers)
    returns (lessons: seq<Lesson>)
    ensures lessons == seq(|topics|, k requires 0 <= k < |topics| => LessonAt(o, topics, k, relevant, level, w))
  {
    lessons := [];
    for j := 0 to |topics|
      invariant lessons == seq(j, k requires 0 <= k < j => LessonAt(o, topics, k, relevant, level, w))
    {
      var body := w.lesson(topics[j], o.title, relevant, level);
      lessons := lessons + [Lesson(j + 1, topics[j], body)];
    }
  }

  /** `_generate_enhanced_module`: the lesson loop numbers from 1; lectures,
      seminars and labs only in full mode. */
  method GenerateEnhancedModule(o: ModuleOutline, sources: seq<ContentSource>, topic: string, level: string,
                                quickMode: bool, w: Writers) returns (m: ModuleContent)
    ensures m == EnhancedModule(o, sources, topic, level, quickMode, w)
  {
    var relevant := RelevantSources(sources, RelevanceConcepts(o));
    relevant := TakePrefix(relevant, 5);
    if relevant == [] {
      relevant := TakePrefix(sources, 5);
    }
    var keyConcepts := KeyConcepts(o);
    var allTopics := w.distinct(Topics(o) + keyConcepts);
    var maxLessons := if quickMode then 2 else 10;
    allTopics := TakePrefix(allTopics, maxLessons);
    var lessons := GenerateLessons(o, allTopics, relevant, level, w);
    var lectures: seq<string> := [];
    var seminars: seq<string> := [];
    var labs: seq<string> := [];
    if !quickMode {
      lectures := w.lectures(o.title, TakePrefix(keyConcepts, 6), relevant, level);
      seminars := w.seminars(o.title, relevant, level);
      if IsPracticalSubject(topic) {
        labs := w.labs(o.title, level);
      }
    }
    var readings := GenerateComprehensiveReadings(o.title, relevant);
    var research := GenerateResearchConnections(o.title, relevant);
    m := ModuleContent(if o.moduleNumber.Some? then o.moduleNumber.value else 1, o.title,
                       if o.objectives.Some? then o.objectives.value else [], RelevanceConcepts(o),
                       lessons, lectures, seminars, labs, readings, research);
  }

  /** At most 2 lessons in quick mode and 10 otherwise, numbered 1..n after
      the collection's own order; nothing but lessons, readings and research
      in quick mode; labs only for practical subjects; the module's sources
      are an in-order selection of at most five. */
  lemma EnhancedModuleShape(o: ModuleOutline, sources: seq<ContentSource>, topic: string, level: string,
                            quickMode: bool, w: Writers)
    ensures var m := EnhancedModule(o, sources, topic, level, quickMode, w);
      var pool := w.distinct(Topics(o) + KeyConcepts(o));
      |m.lessons| == (if |pool| < LessonCap(quickMode) then |pool| else LessonCap(quickMode)) &&
      (forall j :: 0 <= j < |m.lessons| ==> m.lessons[j].number == j + 1 && m.lessons[j].topic == pool[j]) &&
      (quickMode ==> m.lectures == [] && m.seminars == [] && m.labs == []) &&
      (!IsPracticalSubject(topic) ==> m.labs == []) &&
      IsSubsequence(ModuleSources(o, sources), sources) && |ModuleSources(o, sources)| <= 5 &&
      |m.readings| == |ModuleSources(o, sources)| + 11
  {
    ReadingsShape(o.title, ModuleSources(o, sources));
  }

  /** `pool` lists each element of `xs` exactly once, in some order: all
      that is known of `list(set(xs))`. */
  predicate ListsSetOf(pool: seq<string>, xs: seq<string>)
  {
    NoDup(pool) && (forall i :: 0 <= i < |pool| ==> pool[i] in xs) && (forall i :: 0 <= i < |xs| ==> xs[i] in pool)
  }

  /** Whatever order the set is listed in, the lesson topics are distinct
      topics or key concepts of the module, and there are as many lessons as
      distinct topics and key concepts, up to the cap. */
  lemma LessonTopicsFromSet(o: ModuleOutline, quickMode: bool, w: Writers)
    requires ListsSetOf(w.distinct(Topics(o) + KeyConcepts(o)), Topics(o) + KeyConcepts(o))
    ensures var lt := LessonTopics(o, quickMode, w);
      var pool := w.distinct(Topics(o) + KeyConcepts(o));
      NoDup(lt) && (forall i :: 0 <= i < |lt| ==> lt[i] in Topics(o) + KeyConcepts(o)) &&
      |lt| == (if |pool| < LessonCap(quickMode) then |pool| else LessonCap(quickMode)) &&
      |pool| == |FirstSeen(Topics(o) + KeyConcepts(o))|
  {
    var pool := w.distinct(Topics(o) + KeyConcepts(o));
    var lt := LessonTopics(o, quickMode, w);
    assert lt == pool[..|lt|];
    forall i, j | 0 <= i < j < |lt|
      ensures lt[i] != lt[j]
    {
      assert lt[i] == pool[i] && lt[j] == pool[j];
    }
    forall i | 0 <= i < |lt|
      ensures lt[i] in Topics(o) + KeyConcepts(o)
    {
      assert lt[i] == pool[i];
    }
    FirstSeenWithin(Topics(o) + KeyConcepts(o));
    SameElementsSameLength(pool, FirstSeen(Topics(o) + KeyConcepts(o)), Topics(o) + KeyConcepts(o));
  }

  // ------------------------------------------------------ fallback outline

  function BaseModuleTitles(topic: string): (r: seq<string>)
    ensures |r| == 8
  {
    ["Foundations of " + topic, "Historical Development and Context of " + topic,
     "Core Theories and Principles in " + topic, "Methodologies and Approaches in " + topic,
     "Contemporary Applications of " + topic, "Research and Innovation in " + topic,
     "Critical Analysis and Evaluation of " + topic, "Future Directions and Emerging Trends in " + topic]
  }

  function FallbackModule(topic: string, i: nat, title: string): ModuleOutline
  {
    ModuleOutline(Some(i), title,
      Some(seq(4, k requires 0 <= k < 4 => FallbackModuleObjective(topic, title, k))),
      Some(seq(5, k requires 0 <= k < 5 => FallbackKeyConcept(topic, k))),
      Some(seq(4, k requires 0 <= k < 4 => FallbackTopic(title, k))))
  }

  /** The fallback module's four objectives, by position. */
  function FallbackModuleObjective(topic: string, title: string, k: nat): string
  {
    if k == 0 then "Understand key concepts in " + Lower(title)
    else if k == 1 then "Apply " + topic + " principles to real-world scenarios"
    else if k == 2 then "Critically evaluate approaches in " + Lower(title)
    else "Synthesize knowledge from multiple perspectives"
  }

  /** The fallback module's five key concepts, by position. */
  function FallbackKeyConcept(topic: string, k: nat): string
  {
    if k == 0 then "Fundamental principles of " + topic
    else if k == 1 then "Historical development"
    else if k == 2 then "Current methodologies"
    else if k == 3 then "Research applications"
    else "Critical perspectives"
  }

  /** The fallback module's four topics, by position. */
  function FallbackTopic(title: string, k: nat): string
  {
    if k == 0 then "Introduction to " + Lower(title)
    else if k == 1 then "Theoretical frameworks"
    else if k == 2 then "Practical applications"
    else "Case studies and examples"
  }

  /** `topic.replace(' ', '')`. */
  function RemoveSpaces(s: string): (r: string)
    ensures forall i :: 0 <= i < |r| ==> r[i] != ' '
    ensures |r| <= |s|
  {
    if s == [] then [] else (if s[0] == ' ' then [] else [s[0]]) + RemoveSpaces(s[1..])
  }

  /** `f"{topic.replace(' ', '').upper()[:4]}401"`. */
  function CourseCode(topic: string): string
  {
    TakePrefix(Upper(RemoveSpaces(topic)), 4) + "401"
  }

  /** The description's five lines; each line break of the source's
      triple-quoted string ends a line with a space and indents the next one
      by 28 spaces. */
  function FallbackDescription(topic: string, level: string): string
  {
    Join(" \n                            ", seq(5, k requires 0 <= k < 5 => FallbackDescriptionLine(topic, level, k)))
  }

  function FallbackDescriptionLine(topic: string, level: string, k: nat): string
  {
    if k == 0 then "This comprehensive " + level + "-level course provides an in-depth exploration of " + topic + ","
    else if k == 1 then "covering foundational theories, contemporary research, practical applications, and critical analysis."
    else if k == 2 then "Students will develop both theoretical understanding and practical skills through lectures, seminars,"
    else if k == 3 then "assignments, and hands-on projects. The course emphasizes critical thinking, research skills,"
    else "and professional application of " + topic + " concepts."
  }

  function FallbackObjectives(topic: string): seq<string>
  {
    seq(7, k requires 0 <= k < 7 => FallbackObjective(topic, k))
  }

  function FallbackObjective(topic: string, k: nat): string
  {
    if k == 0 then "Demonstrate comprehensive understanding of " + topic + " principles and theories"
    else if k == 1 then "Apply " + topic + " methodologies to solve complex problems"
    else if k == 2 then "Critically evaluate different approaches and perspectives in " + topic
    else if k == 3 then "Conduct independent research in " + topic + " areas"
    else if k == 4 then "Communicate " + topic + " concepts effectively to diverse audiences"
    else if k == 5 then "Integrate " + topic + " knowledge with other disciplinary perspectives"
    else "Demonstrate professional competency in " + topic + " applications"
  }

  function FallbackPrerequisites(topic: string): seq<string>
  {
    seq(4, k requires 0 <= k < 4 => FallbackPrerequisite(topic, k))
  }

  function FallbackPrerequisite(topic: string, k: nat): string
  {
    if k == 0 then "Undergraduate degree or equivalent"
    else if k == 1 then "Basic knowledge of related fields to " + topic
    else if k == 2 then "Research methods and academic writing skills"
    else "Mathematics and statistics (if applicable)"
  }

  function FallbackModules(topic: string): seq<ModuleOutline>
  {
    var titles := BaseModuleTitles(topic);
    seq(8, i requires 0 <= i < 8 => FallbackModule(topic, i + 1, titles[i]))
  }

  function FallbackOutline(topic: string, level: string): CourseOutline
  {
    CourseOutline("Comprehensive " + topic + " Studies", CourseCode(topic), FallbackDescription(topic, level),
      FallbackObjectives(topic), FallbackPrerequisites(topic), FallbackModules(topic))
  }

  /** `_create_fallback_outline`: the module loop numbers from 1. */
  method CreateFallbackOutline(topic: string, level: string) returns (outline: CourseOutline)
    ensures outline == FallbackOutline(topic, level)
  {
    var baseModules := BaseModuleTitles(topic);
    var modules: seq<ModuleOutline> := [];
    for i := 0 to |baseModules|
      invariant modules == seq(i, k requires 0 <= k < i => FallbackModule(topic, k + 1, baseModules[k]))
    {
      modules := modules + [FallbackModule(topic, i + 1, baseModules[i])];
    }
    outline := CourseOutline("Comprehensive " + topic + " Studies", CourseCode(topic), FallbackDescription(topic, level),
      FallbackObjectives(topic), FallbackPrerequisites(topic), modules);
  }

  /** Eight modules numbered 1..8 after the base titles, each with four
      objectives, five key concepts and four topics. */
  lemma FallbackModulesShape(topic: string)
    ensures var ms := FallbackModules(topic);
      |ms| == 8 &&
      forall i :: 0 <= i < 8 ==>
        ms[i].moduleNumber == Some(i + 1) && ms[i].title == BaseModuleTitles(topic)[i] &&
        |ms[i].objectives.value| == 4 && |ms[i].keyConcepts.value| == 5 && |ms[i].topics.value| == 4
  {
  }

  /** The course code is the topic's first four non-space characters,
      upper-cased, followed by "401". */
  lemma CourseCodeShape(topic: string)
    ensures var code := CourseCode(topic);
      var squeezed := RemoveSpaces(topic);
      var n := if |squeezed| < 4 then |squeezed| else 4;
      |code| == n + 3 && code[n..] == "401" &&
      (forall i :: 0 <= i < n ==> code[i] == UpperChar(squeezed[i]) && code[i] != ' ')
  {
    var squeezed := RemoveSpaces(topic);
    var head := TakePrefix(Upper(squeezed), 4);
    assert CourseCode(topic) == head + "401";
    forall i | 0 <= i < |head|
      ensures head[i] == UpperChar(squeezed[i]) && head[i] != ' '
    {
      assert head[i] == Upper(squeezed)[i];
    }
  }

  // ---------------------------------------------------------------- course

  datatype Course =
    | Comprehensive(title: string, description: string, level: string, generationMode: string,
                    sourceSummary: SourceSummary, learningObjectives: seq<string>, prerequisites: seq<string>,
                    modules: seq<ModuleContent>, bibliography: seq<BibEntry>)
    | Basic(title: string, description: string, level: string, error: string)

  /** `_generate_enhanced_outline`: the model's outline, or the fallback one
      when its answer does not parse. */
  function OutlineFor(topic: string, level: string, sources: seq<ContentSource>, w: Writers): CourseOutline
  {
    match w.outline(topic, level, sources)
    case Some(o) => o
    case None => FallbackOutline(topic, level)
  }

  function ModulesToGenerate(outline: CourseOutline, quickMode: bool): seq<ModuleOutline>
  {
    if quickMode then TakePrefix(outline.modules, 3) else outline.modules
  }

  /** The comprehensive course built from the gathered sources and an outline. */
  function CourseFrom(outline: CourseOutline, sources: seq<ContentSource>, topic: string, level: string,
                      quickMode: bool, w: Writers): Course
  {
    var kept := ModulesToGenerate(outline, quickMode);
    Comprehensive(outline.courseTitle, outline.description, level, if quickMode then "quick" else "comprehensive",
      CreateSourceSummary(sources), outline.learningObjectives, outline.prerequisites,
      EnhancedModules(kept, sources, topic, level, quickMode, w),
      CreateBibliography(sources))
  }

  function BasicCourse(topic: string, level: string): Course
  {
    Basic("Basic " + topic + " Course", "Introduction to " + topic, level, "Limited sources available")
  }

  function ComprehensiveCourse(topic: string, level: string, quickMode: bool, p: Providers, w: Writers): Course
  {
    var sources := SearchMultipleSources(topic, 4, p);
    if sources == [] then BasicCourse(topic, level)
    else CourseFrom(OutlineFor(topic, level, sources, w), sources, topic, level, quickMode, w)
  }

  /** The enhanced module of each outline module, in order. */
  function EnhancedModules(outlines: seq<ModuleOutline>, sources: seq<ContentSource>, topic: string, level: string,
                           quickMode: bool, w: Writers): seq<ModuleContent>
  {
    MapSeq(ModuleMaker(sources, topic, level, quickMode, w), outlines)
  }

  function ModuleMaker(sources: seq<ContentSource>, topic: string, level: string, quickMode: bool, w: Writers)
    : ModuleOutline -> ModuleContent
  {
    o => EnhancedModule(o, sources, topic, level, quickMode, w)
  }

  /** The module loop of `generate_comprehensive_course`. */
  method GenerateModules(outlines: seq<ModuleOutline>, sources: seq<ContentSource>, topic: string, level: string,
                         quickMode: bool, w: Writers) returns (modules: seq<ModuleContent>)
    ensures modules == EnhancedModules(outlines, sources, topic, level, quickMode, w)
  {
    modules := [];
    for i := 0 to |outlines|
      invariant modules == MapSeq(ModuleMaker(sources, topic, level, quickMode, w), outlines[..i])
    {
      var m := GenerateEnhancedModule(outlines[i], sources, topic, level, quickMode, w);
      assert outlines[..i + 1][..i] == outlines[..i];
      modules := modules + [m];
    }
    assert outlines[..|outlines|] == outlines;
  }

  /** The generator object; `quick_mode` is the one field the rest of the
      system changes. */
  class EnhancedCourseGenerator {
    var quickMode: bool

    constructor (quickMode: bool)
      ensures this.quickMode == quickMode
    {
      this.quickMode := quickMode;
    }

    /** `generate_comprehensive_course`: a basic course without sources,
        otherwise one module per retained outline module, in order. */
    method GenerateComprehensiveCourse(topic: string, level: string, p: Providers, w: Writers) returns (c: Course)
      ensures c == ComprehensiveCourse(topic, level, quickMode, p, w)
    {
      var allSources := SearchMultipleSources(topic, 4, p);
      if allSources == [] {
        return BasicCourse(topic, level);
      }
      var outline := OutlineFor(topic, level, allSources, w);
      var modulesToGenerate := outline.modules;
      if quickMode {
        modulesToGenerate := TakePrefix(modulesToGenerate, 3);
      }
      var modules := GenerateModules(modulesToGenerate, allSources, topic, level, quickMode, w);
      c := Comprehensive(outline.courseTitle, outline.description, level, if quickMode then "quick" else "comprehensive",
        CreateSourceSummary(allSources), outline.learningObjectives, outline.prerequisites, modules,
        CreateBibliography(allSources));
      assert c == CourseFrom(outline, allSources, topic, level, quickMode, w);
    }
  }

  /** A course built from an outline has one module per outline module, at
      most three in quick mode, with the outline's titles and numbers in
      order, and summarises and cites every source. */
  lemma CourseFromShape(outline: CourseOutline, sources: seq<ContentSource>, topic: string, level: string,
                        quickMode: bool, w: Writers)
    ensures var c := CourseFrom(outline, sources, topic, level, quickMode, w);
      |c.modules| == (if quickMode && |outline.modules| > 3 then 3 else |outline.modules|) &&
      (forall i :: 0 <= i < |c.modules| ==>
        c.modules[i].title == outline.modules[i].title &&
        c.modules[i].moduleNumber == (if outline.modules[i].moduleNumber.Some? then outline.modules[i].moduleNumber.value else 1)) &&
      (c.generationMode == "quick" <==> quickMode) &&
      c.sourceSummary.total == |sources| && |c.bibliography| == |sources|
  {
    MapSeqAt(ModuleMaker(sources, topic, level, quickMode, w), ModulesToGenerate(outline, quickMode));
  }

  /** No sources gives the basic course; otherwise the course is built from
      the model's outline, or from the fallback outline when that does not parse. */
  lemma ComprehensiveCourseCases(topic: string, level: string, quickMode: bool, p: Providers, w: Writers)
    ensures var c := ComprehensiveCourse(topic, level, quickMode, p, w);
      var sources := SearchMultipleSources(topic, 4, p);
      (c.Basic? <==> sources == []) &&
      (sources == [] ==> c == BasicCourse(topic, level)) &&
      (sources != [] && w.outline(topic, level, sources).Some? ==>
        c == CourseFrom(w.outline(topic, level, sources).value, sources, topic, level, quickMode, w)) &&
      (sources != [] && w.outline(topic, level, sources).None? ==>
        c == CourseFrom(FallbackOutline(topic, level), sources, topic, level, quickMode, w))
  {
  }

  /** An outline of eight modules numbered 1..8 yields eight modules, or
      three in quick mode, numbered from 1. */
  lemma EightModuleCourse(o: CourseOutline, sources: seq<ContentSource>, topic: string, level: string, quickMode: bool, w: Writers)
    requires |o.modules| == 8 && forall i :: 0 <= i < 8 ==> o.modules[i].moduleNumber == Some(i + 1)
    ensures var c := CourseFrom(o, sources, topic, level, quickMode, w);
      |c.modules| == (if quickMode then 3 else 8) &&
      forall i :: 0 <= i < |c.modules| ==> c.modules[i].moduleNumber == i + 1
  {
    CourseFromShape(o, sources, topic, level, quickMode, w);
  }

  /** When the outline does not parse, a full-mode course has the eight
      fallback modules and a quick-mode course the first three of them,
      numbered from 1. */
  lemma FallbackCourseModules(sources: seq<ContentSource>, topic: string, level: string, quickMode: bool, w: Writers)
    ensures var c := CourseFrom(FallbackOutline(topic, level), sources, topic, level, quickMode, w);
      |c.modules| == (if quickMode then 3 else 8) &&
      forall i :: 0 <= i < |c.modules| ==> c.modules[i].moduleNumber == i + 1
  {
    var o := FallbackOutline(topic, level);
    assert o.modules == FallbackModules(topic);
    FallbackModulesShape(topic);
    EightModuleCourse(o, sources, topic, level, quickMode, w);
  }
}
