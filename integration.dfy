/** course_integration.py: the layer between the web app and the enhanced
    generator. It guards every call on the generator being present, sets its
    quick mode, attaches generation metadata, and builds a preview of the
    sources a topic would draw on. */
module CourseIntegration {
  import opened Common
  import opened CourseSources
  import opened EnhancedCourse

  /** The `generation_info` dict; the timestamp is left out. */
  datatype GenerationInfo = GenerationInfo(generatorType: string, generationMode: string,
                                           sourcesUsed: Option<SourceSummary>, estimatedCost: string)

  datatype EnhancedResult =
    | Unavailable(error: string, fallback: string)
    | Generated(course: Course, info: GenerationInfo)

  /** `course_data.get("source_summary", {})`: a basic course has none. */
  function SourcesUsed(c: Course): Option<SourceSummary>
  {
    if c.Comprehensive? then Some(c.sourceSummary) else None
  }

  function InfoFor(c: Course, quickMode: bool): GenerationInfo
  {
    GenerationInfo("enhanced_multi_source", if quickMode then "quick" else "comprehensive", SourcesUsed(c),
                   if quickMode then "Low" else "Medium")
  }

  /** The mode and the cost estimate follow the requested quick mode, and the
      sources used are the course's own summary exactly when it has one. */
  lemma InfoForIff(c: Course, quickMode: bool)
    ensures var g := InfoFor(c, quickMode);
      (g.generationMode == "quick" <==> quickMode) && (g.estimatedCost == "Low" <==> quickMode) &&
      (g.generationMode == "comprehensive" <==> !quickMode) && (g.estimatedCost == "Medium" <==> !quickMode) &&
      (g.sourcesUsed.Some? <==> c.Comprehensive?)
  {
  }

  // ---------------------------------------------------------- source preview

  /** One entry of `sources_by_type`. */
  datatype TypeCount = TypeCount(sourceType: string, count: nat)

  /** One entry of `top_sources`. */
  datatype TopSource = TopSource(title: string, sourceType: string, credibility: real, preview: string)

  datatype Preview =
    | PreviewUnavailable(error: string)
    | Preview(topic: string, totalSourcesFound: nat, sourcesByType: seq<TypeCount>, topSources: seq<TopSource>)

  function SourceTypes(s: seq<ContentSource>): (ts: seq<string>)
    ensures |ts| == |s|
  {
    seq(|s|, k requires 0 <= k < |s| => s[k].sourceType)
  }

  function CountedTypes(cs: seq<TypeCount>): (ts: seq<string>)
    ensures |ts| == |cs|
  {
    seq(|cs|, k requires 0 <= k < |cs| => cs[k].sourceType)
  }

  /** The dict after the counting loop has seen `s`. */
  function TypeCounts(s: seq<ContentSource>): seq<TypeCount>
    decreases |s|
  {
    if s == [] then []
    else
      var prev := TypeCounts(s[..|s| - 1]);
      var t := s[|s| - 1].sourceType;
      if t in CountedTypes(prev) then
        var j := IndexOf(CountedTypes(prev), t);
        prev[j := prev[j].(count := prev[j].count + 1)]
      else prev + [TypeCount(t, 1)]
  }

  /** The counting loop: a new type enters with 0, then its count is raised. */
  method CountByType(sources: seq<ContentSource>) returns (byType: seq<TypeCount>)
    ensures byType == TypeCounts(sources)
  {
    byType := [];
    for i := 0 to |sources|
      invariant byType == TypeCounts(sources[..i])
    {
      assert sources[..i + 1][..i] == sources[..i];
      var t := sources[i].sourceType;
      if t !in CountedTypes(byType) {
        assert CountedTypes(byType + [TypeCount(t, 0)]) == CountedTypes(byType) + [t];
        IndexOfPrefix(CountedTypes(byType) + [t], [], t);
        byType := byType + [TypeCount(t, 0)];
      }
      var j := IndexOf(CountedTypes(byType), t);
      byType := byType[j := byType[j].(count := byType[j].count + 1)];
    }
    assert sources[..|sources|] == sources;
  }

  lemma UpdateKeepsTypes(cs: seq<TypeCount>, j: nat, n: nat)
    requires j < |cs|
    ensures CountedTypes(cs[j := cs[j].(count := n)]) == CountedTypes(cs)
  {
  }

  /** The keys are the distinct source types, in first-seen order. */
  lemma {:induction false} TypeCountsTypes(s: seq<ContentSource>)
    ensures CountedTypes(TypeCounts(s)) == FirstSeen(SourceTypes(s))
    decreases |s|
  {
    if s != [] {
      var init := s[..|s| - 1];
      TypeCountsTypes(init);
      assert SourceTypes(s)[..|s| - 1] == SourceTypes(init);
      var prev := TypeCounts(init);
      var t := s[|s| - 1].sourceType;
      if t in CountedTypes(prev) {
        var j := IndexOf(CountedTypes(prev), t);
        UpdateKeepsTypes(prev, j, prev[j].count + 1);
      } else {
        assert CountedTypes(prev + [TypeCount(t, 1)]) == CountedTypes(prev) + [t];
      }
    }
  }

  /** Each type's count is the number of sources of that type. */
  lemma {:induction false} TypeCountsAt(s: seq<ContentSource>, k: nat)
    requires k < |TypeCounts(s)|
    ensures TypeCounts(s)[k].count == CountType(s, TypeCounts(s)[k].sourceType)
    decreases |s|
  {
    var init := s[..|s| - 1];
    var prev := TypeCounts(init);
    var t := s[|s| - 1].sourceType;
    var u := TypeCounts(s)[k].sourceType;
    CountTypeSnoc(s, u);
    if t in CountedTypes(prev) {
      var j := IndexOf(CountedTypes(prev), t);
      UpdateKeepsTypes(prev, j, prev[j].count + 1);
      TypeCountsAt(init, k);
      if k != j {
        TypeCountsTypes(init);
        assert CountedTypes(prev)[k] == prev[k].sourceType && CountedTypes(prev)[j] == t;
      }
    } else if k < |prev| {
      TypeCountsAt(init, k);
      assert CountedTypes(prev)[k] == prev[k].sourceType;
    } else {
      TypeCountsTypes(init);
      assert u == t;
      assert t !in SourceTypes(init);
      CountTypeNoneOf(init, t);
    }
  }

  /** A type that no source has counts zero. */
  lemma {:induction false} CountTypeNoneOf(s: seq<ContentSource>, t: string)
    requires t !in SourceTypes(s)
    ensures CountType(s, t) == 0
    decreases |s|
  {
    if s != [] {
      assert SourceTypes(s)[0] == s[0].sourceType;
      assert forall i :: 0 <= i < |s| - 1 ==> SourceTypes(s[1..])[i] == SourceTypes(s)[i + 1];
      CountTypeNoneOf(s[1..], t);
    }
  }

  function SumCounts(cs: seq<TypeCount>): nat
  {
    if cs == [] then 0 else SumCounts(cs[..|cs| - 1]) + cs[|cs| - 1].count
  }

  lemma {:induction false} SumCountsUpdate(cs: seq<TypeCount>, j: nat)
    requires j < |cs|
    ensures SumCounts(cs[j := cs[j].(count := cs[j].count + 1)]) == SumCounts(cs) + 1
    decreases |cs|
  {
    var cs' := cs[j := cs[j].(count := cs[j].count + 1)];
    assert cs'[..|cs'| - 1] == if j < |cs| - 1 then cs[..|cs| - 1][j := cs[j].(count := cs[j].count + 1)] else cs[..|cs| - 1];
    if j < |cs| - 1 {
      SumCountsUpdate(cs[..|cs| - 1], j);
    }
  }

  /** The counts add up to the number of sources. */
  lemma {:induction false} TypeCountsTotal(s: seq<ContentSource>)
    ensures SumCounts(TypeCounts(s)) == |s|
    decreases |s|
  {
    if s != [] {
      var init := s[..|s| - 1];
      TypeCountsTotal(init);
      var prev := TypeCounts(init);
      var t := s[|s| - 1].sourceType;
      if t in CountedTypes(prev) {
        SumCountsUpdate(prev, IndexOf(CountedTypes(prev), t));
      } else {
        var next := prev + [TypeCount(t, 1)];
        assert next[..|next| - 1] == prev;
      }
    }
  }

  function TopSourceOf(s: ContentSource): TopSource
  {
    TopSource(s.title, s.sourceType, s.credibility, Abbreviate(s.content))
  }

  function TopSources(sources: seq<ContentSource>, maxSources: int): seq<TopSource>
  {
    var kept := TakePrefix(sources, maxSources);
    seq(|kept|, i requires 0 <= i < |kept| => TopSourceOf(kept[i]))
  }

  /** The loop over `sources[:max_sources]`. */
  method CollectTopSources(sources: seq<ContentSource>, maxSources: int) returns (top: seq<TopSource>)
    ensures top == TopSources(sources, maxSources)
  {
    var kept := TakePrefix(sources, maxSources);
    top := [];
    for i := 0 to |kept|
      invariant top == seq(i, k requires 0 <= k < i => TopSourceOf(kept[k]))
    {
      top := top + [TopSourceOf(kept[i])];
    }
  }

  /** The preview with a generator present: two sources per provider. */
  function SourcePreview(topic: string, maxSources: int, p: Providers): Preview
  {
    var sources := SearchMultipleSources(topic, 2, p);
    Preview(topic, |sources|, TypeCounts(sources), TopSources(sources, maxSources))
  }

  /** The counts are keyed by the distinct types in first-seen order, each
      counts the sources of its type, and together they add up to the
      number of sources found; the top sources are the first
      min(max_sources, found) sources, in order, each with its abbreviated
      content. */
  lemma SourcePreviewSpec(topic: string, maxSources: int, p: Providers)
    ensures var sources := SearchMultipleSources(topic, 2, p);
      var pv := SourcePreview(topic, maxSources, p);
      pv.totalSourcesFound == |sources| &&
      CountedTypes(pv.sourcesByType) == FirstSeen(SourceTypes(sources)) &&
      (forall k :: 0 <= k < |pv.sourcesByType| ==> pv.sourcesByType[k].count == CountType(sources, pv.sourcesByType[k].sourceType)) &&
      SumCounts(pv.sourcesByType) == pv.totalSourcesFound &&
      (maxSources >= 0 ==> |pv.topSources| == (if maxSources < |sources| then maxSources else |sources|)) &&
      (forall i :: 0 <= i < |pv.topSources| ==> pv.topSources[i] == TopSourceOf(sources[i]))
  {
    var sources := SearchMultipleSources(topic, 2, p);
    TypeCountsTypes(sources);
    TypeCountsTotal(sources);
    forall k | 0 <= k < |TypeCounts(sources)|
      ensures TypeCounts(sources)[k].count == CountType(sources, TypeCounts(sources)[k].sourceType)
    {
      TypeCountsAt(sources, k);
    }
  }

  // ------------------------------------------------------------- comparison

  /** The fixed description of both generators, as (key, value) pairs. */
  const BasicGenerator: seq<(string, string)> :=
    [("primary_source", "Wikipedia only"), ("content_depth", "Basic reference material"),
     ("academic_rigor", "Limited"), ("course_structure", "Standard outline")]

  const EnhancedGenerator: seq<(string, string)> :=
    [("sources", "Multiple authoritative sources"), ("content_depth", "University-level comprehensive"),
     ("academic_rigor", "High - academic standards"), ("course_structure", "Detailed with assessments, readings, projects")]

  /** The comparison; the two optional fields are the preview's
      `sources_by_type` and `top_sources`, absent without a generator. */
  datatype Comparison = Comparison(topic: string, basic: seq<(string, string)>, enhanced: seq<(string, string)>,
                                   availableSources: Option<seq<TypeCount>>, sourceQuality: Option<seq<TopSource>>)

  /** The integration object; its one field is the generator, absent when
      the language-model client could not be set up. */
  class CourseGeneratorIntegration {
    var generator: EnhancedCourseGenerator?

    /** `__init__` with the result of `init_app`: a generator in full mode
        when the client could be created, none otherwise. */
    constructor (clientCreated: bool)
      ensures clientCreated ==> generator != null && fresh(generator) && !generator.quickMode
      ensures !clientCreated ==> generator == null
    {
      if clientCreated {
        generator := new EnhancedCourseGenerator(false);
      } else {
        generator := null;
      }
    }

    /** `generate_enhanced_course`: without a generator an error and no
        change; otherwise the generator's quick mode is set first and the
        comprehensive course is returned with its metadata, whatever the
        course type. */
    method GenerateEnhancedCourse(topic: string, level: string, courseType: string, quickMode: bool,
                                  p: Providers, w: Writers) returns (r: EnhancedResult)
      modifies generator
      ensures generator == null ==> r == Unavailable("Enhanced course generator not available", "Using basic generator")
      ensures generator != null ==> generator.quickMode == quickMode
      ensures generator != null ==>
        r == Generated(ComprehensiveCourse(topic, level, quickMode, p, w), InfoFor(ComprehensiveCourse(topic, level, quickMode, p, w), quickMode))
    {
      if generator == null {
        return Unavailable("Enhanced course generator not available", "Using basic generator");
      }
      generator.quickMode := quickMode;
      var course: Course;
      if courseType == "comprehensive" {
        course := generator.GenerateComprehensiveCourse(topic, level, p, w);
      } else {
        course := generator.GenerateComprehensiveCourse(topic, level, p, w);
      }
      r := Generated(course, InfoFor(course, quickMode));
    }

    /** `get_source_preview`: an error without a generator, the preview otherwise. */
    method GetSourcePreview(topic: string, maxSources: int, p: Providers) returns (r: Preview)
      ensures generator == null ==> r == PreviewUnavailable("Enhanced generator not available")
      ensures generator != null ==> r == SourcePreview(topic, maxSources, p)
    {
      if generator == null {
        return PreviewUnavailable("Enhanced generator not available");
      }
      var sources := SearchMultipleSources(topic, 2, p);
      var byType := CountByType(sources);
      var top := CollectTopSources(sources, maxSources);
      r := Preview(topic, |sources|, byType, top);
    }

    /** `compare_generators`: the fixed descriptions, plus the types and the
        three top sources of a preview exactly when a generator exists. */
    method CompareGenerators(topic: string, p: Providers) returns (c: Comparison)
      ensures c.topic == topic && c.basic == BasicGenerator && c.enhanced == EnhancedGenerator
      ensures c.availableSources.Some? <==> generator != null
      ensures c.sourceQuality.Some? <==> generator != null
      ensures generator != null ==>
        c.availableSources == Some(SourcePreview(topic, 3, p).sourcesByType) &&
        c.sourceQuality == Some(SourcePreview(topic, 3, p).topSources)
    {
      c := Comparison(topic, BasicGenerator, EnhancedGenerator, None, None);
      if generator != null {
        var preview := GetSourcePreview(topic, 3, p);
        c := c.(availableSources := Some(preview.sourcesByType), sourceQuality := Some(preview.topSources));
      }
    }
  }
}
