/** The Wikipedia-only course generator of course_generator.py: an outline
    from the language model (or a one-module fallback), one section per
    topic of each module with the urls of the chunks retrieved for it, the
    numbered chunk listing used in prompts, and the file name a course is
    saved under. The language model and the retrieval steps are function
    parameters; an exception is a None. */
module WikiCourse {
  import opened Common
  import opened PosixPaths

  /** A retrieved chunk as a dict: `text` and `url` may be missing. */
  datatype Chunk = Chunk(text: Option<string>, url: Option<string>)

  function Get(o: Option<string>): string
  {
    if o.Some? then o.value else ""
  }

  // ---------------------------------------------------------- chunk listing

  function ChunkEntry(i: nat, c: Chunk): string
  {
    "[" + NatToString(i) + "] " + Get(c.text)
  }

  /** The entries `[1] text`, `[2] text`, … */
  function ChunkEntries(chunks: seq<Chunk>): (es: seq<string>)
    ensures |es| == |chunks|
  {
    seq(|chunks|, i requires 0 <= i < |chunks| => ChunkEntry(i + 1, chunks[i]))
  }

  /** `_format_chunks`: the numbering loop, then a join on blank lines. */
  method FormatChunks(chunks: seq<Chunk>) returns (r: string)
    ensures r == Join("\n\n", ChunkEntries(chunks))
  {
    var formatted: seq<string> := [];
    for i := 0 to |chunks|
      invariant formatted == seq(i, k requires 0 <= k < i => ChunkEntry(k + 1, chunks[k]))
    {
      formatted := formatted + [ChunkEntry(i + 1, chunks[i])];
    }
    r := Join("\n\n", formatted);
  }

  /** `Join` lays its words out one after the other: the first word starts
      the result and the total length is the words plus the separators. */
  lemma {:induction false} JoinLayout(sep: string, ws: seq<string>)
    requires ws != []
    ensures Join(sep, ws)[..|ws[0]|] == ws[0]
    ensures |Join(sep, ws)| == JoinedLength(ws) + (|ws| - 1) * |sep|
    decreases |ws|
  {
    if |ws| > 1 {
      JoinLayout(sep, ws[1..]);
      assert Join(sep, ws) == ws[0] + sep + Join(sep, ws[1..]);
      assert Join(sep, ws)[..|ws[0]|] == ws[0];
    }
  }

  function JoinedLength(ws: seq<string>): nat
  {
    if ws == [] then 0 else |ws[0]| + JoinedLength(ws[1..])
  }

  /** No chunks give the empty string; otherwise the listing starts with
      `[1] ` and the first chunk's text (empty when missing), and each of the
      n - 1 joins adds a blank line. */
  lemma FormatChunksSpec(chunks: seq<Chunk>)
    ensures chunks == [] ==> Join("\n\n", ChunkEntries(chunks)) == ""
    ensures chunks != [] ==>
      var r := Join("\n\n", ChunkEntries(chunks));
      var first := "[1] " + Get(chunks[0].text);
      |r| >= |first| && r[..|first|] == first &&
      |r| == JoinedLength(ChunkEntries(chunks)) + 2 * (|chunks| - 1)
  {
    if chunks != [] {
      JoinLayout("\n\n", ChunkEntries(chunks));
      assert ChunkEntries(chunks)[0] == "[1] " + Get(chunks[0].text);
    }
  }

  // -------------------------------------------------------------- retrieval

  /** What `WikipediaCourseSystem.search_and_retrieve` calls: the title
      search (three results), the indexing of every found article (false
      when it raises) and the semantic search; None is an exception. */
  datatype Rag = Rag(searchTitles: (string, int) -> Option<seq<string>>,
                     indexAll: seq<string> -> bool,
                     semanticSearch: (string, int) -> Option<seq<Chunk>>)

  function SearchAndRetrieve(query: string, topK: int, rag: Rag): seq<Chunk>
  {
    match rag.searchTitles(query, 3)
    case None => []
    case Some(titles) =>
      if titles == [] then []
      else if !rag.indexAll(titles) then []
      else
        match rag.semanticSearch(query, topK)
        case None => []
        case Some(chunks) => chunks
  }

  /** [] when the search fails or finds nothing, or when a later step
      raises; any chunks returned are the semantic search's own, after a
      search that found some titles and indexed them all. */
  lemma SearchAndRetrieveCases(query: string, topK: int, rag: Rag)
    ensures rag.searchTitles(query, 3).None? ==> SearchAndRetrieve(query, topK, rag) == []
    ensures rag.searchTitles(query, 3) == Some([]) ==> SearchAndRetrieve(query, topK, rag) == []
    ensures SearchAndRetrieve(query, topK, rag) != [] ==>
      rag.searchTitles(query, 3).Some? && rag.searchTitles(query, 3).value != [] &&
      rag.indexAll(rag.searchTitles(query, 3).value) &&
      rag.semanticSearch(query, topK) == Some(SearchAndRetrieve(query, topK, rag))
  {
  }

  // --------------------------------------------------------- module content

  datatype Section = Section(topic: string, content: string, sources: seq<string>)

  datatype ModuleContent = ModuleContent(title: string, sections: seq<Section>)

  /** The language model writing one section from its topic, the module
      title and the chunk listing. */
  type SectionWriter = (string, string, string) -> string

  function SourceUrls(chunks: seq<Chunk>): (us: seq<string>)
    ensures |us| == |chunks|
  {
    seq(|chunks|, j requires 0 <= j < |chunks| => Get(chunks[j].url))
  }

  function SectionFor(moduleTitle: string, topic: string, rag: Rag, write: SectionWriter): Section
  {
    var chunks := SearchAndRetrieve(topic, 3, rag);
    Section(topic, write(topic, moduleTitle, Join("\n\n", ChunkEntries(chunks))), SourceUrls(chunks))
  }

  function ModuleContentOf(moduleTitle: string, topics: seq<string>, rag: Rag, write: SectionWriter): ModuleContent
  {
    ModuleContent(moduleTitle, seq(|topics|, i requires 0 <= i < |topics| => SectionFor(moduleTitle, topics[i], rag, write)))
  }

  /** `generate_module_content`: one retrieval and one section per topic. */
  method GenerateModuleContent(moduleTitle: string, topics: seq<string>, rag: Rag, write: SectionWriter)
    returns (m: ModuleContent)
    ensures m == ModuleContentOf(moduleTitle, topics, rag, write)
  {
    var sections: seq<Section> := [];
    for i := 0 to |topics|
      invariant sections == seq(i, k requires 0 <= k < i => SectionFor(moduleTitle, topics[k], rag, write))
    {
      var chunks := SearchAndRetrieve(topics[i], 3, rag);
      var listing := FormatChunks(chunks);
      var content := write(topics[i], moduleTitle, listing);
      sections := sections + [Section(topics[i], content, SourceUrls(chunks))];
    }
    m := ModuleContent(moduleTitle, sections);
  }

  /** One section per topic, in topic order; each section cites one url per
      chunk retrieved for its topic, "" where the chunk has none. */
  lemma ModuleContentSpec(moduleTitle: string, topics: seq<string>, rag: Rag, write: SectionWriter)
    ensures var m := ModuleContentOf(moduleTitle, topics, rag, write);
      m.title == moduleTitle && |m.sections| == |topics| &&
      forall i :: 0 <= i < |topics| ==>
        var chunks := SearchAndRetrieve(topics[i], 3, rag);
        m.sections[i].topic == topics[i] && |m.sections[i].sources| == |chunks| &&
        forall j :: 0 <= j < |chunks| ==> m.sections[i].sources[j] == (if chunks[j].url.Some? then chunks[j].url.value else "")
  {
  }

  // ---------------------------------------------------------------- outline

  datatype OutlineModule = OutlineModule(moduleNumber: int, title: string, topics: Option<seq<string>>, duration: string)

  /** The outline keys the generator reads; the others are carried as is by
      `outline.copy()` and play no part here. */
  datatype Outline = Outline(courseTitle: Option<string>, description: string, level: string,
                             learningObjectives: seq<string>, modules: Option<seq<OutlineModule>>)

  /** `_parse_outline_text`: whatever the text, a one-module outline. */
  function ParseOutlineText(text: string, topic: string, level: string): Outline
  {
    Outline(Some(topic + " Course"), "A comprehensive " + level + " course on " + topic, level,
            ["Learn fundamental concepts", "Apply knowledge practically"],
            Some([OutlineModule(1, "Introduction to " + topic, Some([topic]), "2 hours")]))
  }

  /** The language model's reply and its JSON decoding, None when the reply
      is not valid JSON. */
  datatype Designer = Designer(reply: (string, string) -> string, decode: string -> Option<Outline>)

  /** `generate_course_outline`. */
  function CourseOutline(topic: string, level: string, d: Designer): Outline
  {
    var text := d.reply(topic, level);
    match d.decode(text)
    case Some(o) => o
    case None => ParseOutlineText(text, topic, level)
  }

  /** The course `create_full_course` returns: the outline and the content of
      each of its modules. */
  datatype FullCourse = FullCourse(outline: Outline, modulesContent: seq<ModuleContent>)

  function OutlineModules(o: Outline): seq<OutlineModule>
  {
    if o.modules.Some? then o.modules.value else []
  }

  function ModuleTopics(m: OutlineModule): seq<string>
  {
    if m.topics.Some? then m.topics.value else []
  }

  function FullCourseOf(outline: Outline, rag: Rag, write: SectionWriter): FullCourse
  {
    var ms := OutlineModules(outline);
    FullCourse(outline, seq(|ms|, i requires 0 <= i < |ms| => ModuleContentOf(ms[i].title, ModuleTopics(ms[i]), rag, write)))
  }

  /** `create_full_course`: the outline, then one module's content per
      outline module. */
  method CreateFullCourse(topic: string, level: string, d: Designer, rag: Rag, write: SectionWriter)
    returns (course: FullCourse)
    ensures course == FullCourseOf(CourseOutline(topic, level, d), rag, write)
  {
    var outline := CourseOutline(topic, level, d);
    var ms := OutlineModules(outline);
    var contents: seq<ModuleContent> := [];
    for i := 0 to |ms|
      invariant contents == seq(i, k requires 0 <= k < i => ModuleContentOf(ms[k].title, ModuleTopics(ms[k]), rag, write))
    {
      var m := GenerateModuleContent(ms[i].title, ModuleTopics(ms[i]), rag, write);
      contents := contents + [m];
    }
    course := FullCourse(outline, contents);
  }

  /** The outline is kept as it is and there is one module content per
      outline module, in order, titled as the module and with one section
      per topic; an outline without modules gives no content. */
  lemma FullCourseSpec(outline: Outline, rag: Rag, write: SectionWriter)
    ensures var c := FullCourseOf(outline, rag, write);
      var ms := OutlineModules(outline);
      c.outline == outline && |c.modulesContent| == |ms| &&
      (outline.modules.None? ==> c.modulesContent == []) &&
      forall i :: 0 <= i < |ms| ==>
        c.modulesContent[i].title == ms[i].title && |c.modulesContent[i].sections| == |ModuleTopics(ms[i])|
  {
  }

  /** When the reply does not decode, the course has a single module,
      "Introduction to <topic>", with a single section on the topic itself. */
  lemma UndecodedOutlineCourse(topic: string, level: string, d: Designer, rag: Rag, write: SectionWriter)
    requires d.decode(d.reply(topic, level)).None?
    ensures var c := FullCourseOf(CourseOutline(topic, level, d), rag, write);
      |c.modulesContent| == 1 && c.modulesContent[0].title == "Introduction to " + topic &&
      |c.modulesContent[0].sections| == 1 && c.modulesContent[0].sections[0].topic == topic &&
      c.outline.courseTitle == Some(topic + " Course")
  {
  }

  // --------------------------------------------------------------- filename

  /** `c.isalnum() or c in (' ', '-', '_')`, on ASCII. */
  predicate KeptInFilename(c: char)
  {
    IsAsciiAlnum(c) || c == ' ' || c == '-' || c == '_'
  }

  function KeepFilenameChars(s: string): (r: string)
    ensures forall i :: 0 <= i < |r| ==> KeptInFilename(r[i])
    ensures IsSubsequence(r, s)
  {
    FilterIsSubsequence(s, KeptInFilename);
    Filter(s, KeptInFilename)
  }

  /** `s.rstrip()`. */
  function RStrip(s: string): (r: string)
    ensures r <= s
  {
    s[..|s| - TrailCount(s, Whitespace)]
  }

  function SpacesToUnderscores(s: string): (r: string)
    ensures |r| == |s|
    ensures forall i :: 0 <= i < |s| ==> r[i] == (if s[i] == ' ' then '_' else s[i])
  {
    seq(|s|, i requires 0 <= i < |s| => if s[i] == ' ' then '_' else s[i])
  }

  /** The sanitised title: `"".join(kept).rstrip().replace(' ', '_').lower()`. */
  function SafeTitle(title: string): string
  {
    Lower(SpacesToUnderscores(RStrip(KeepFilenameChars(title))))
  }

  /** The file name `save_course` writes to: the one given when it is
      non-empty, otherwise one derived from the course title, "course" when
      the course has none. */
  function CourseFilename(courseTitle: Option<string>, filename: Option<string>): string
  {
    if filename.Some? && filename.value != "" then filename.value
    else "course_" + SafeTitle(if courseTitle.Some? then courseTitle.value else "course") + ".json"
  }

  /** The directory `save_course` writes into. */
  const CoursesDir: string := "courses"

  /** `save_course` returns `str(Path("courses") / filename)`: a relative
      name is joined under `courses`, an absolute one replaces it, and the
      string is pathlib's normal form of a POSIX path. */
  function CoursePath(courseTitle: Option<string>, filename: Option<string>): string
  {
    var name := CourseFilename(courseTitle, filename);
    PosixPathString(JoinPath(CoursesDir, name))
  }

  /** A relative name, given or derived, lands under `courses`: the path is
      `courses` itself or starts with `courses/`; a derived name is kept
      exactly, as `courses/course_<title>.json`. */
  lemma CoursePathRelative(courseTitle: Option<string>, filename: Option<string>)
    requires var name := CourseFilename(courseTitle, filename); name == [] || name[0] != '/'
    ensures var path := CoursePath(courseTitle, filename);
      path == CoursesDir || (|path| > |CoursesDir| + 1 && path[..|CoursesDir| + 1] == CoursesDir + "/")
    ensures !(filename.Some? && filename.value != "") ==>
      CoursePath(courseTitle, filename) == CoursesDir + "/" + CourseFilename(courseTitle, filename)
  {
    var name := CourseFilename(courseTitle, filename);
    JoinRelative(CoursesDir, name);
    JoinRelativeUnder(CoursesDir, name);
    if !(filename.Some? && filename.value != "") {
      DerivedFilenameIsPlain(courseTitle, filename);
      PlainNameParts(name);
    }
  }

  /** An absolute name is not placed under `courses`: the path is that
      name in normal form, and keeps its leading slash. */
  lemma CoursePathAbsolute(courseTitle: Option<string>, filename: Option<string>)
    requires var name := CourseFilename(courseTitle, filename); name != [] && name[0] == '/'
    ensures CoursePath(courseTitle, filename) == PosixPathString(CourseFilename(courseTitle, filename))
    ensures var path := CoursePath(courseTitle, filename); path != [] && path[0] == '/'
  {
    JoinAbsolute(CoursesDir, CourseFilename(courseTitle, filename));
  }

  /** A given non-empty name is used verbatim. A derived name is
      "course_" + sanitised title + ".json", where the sanitised title holds
      only lower-case ASCII letters, digits, '-' and '_', so it has no
      space. */
  lemma CourseFilenameSpec(courseTitle: Option<string>, filename: Option<string>)
    ensures filename.Some? && filename.value != "" ==> CourseFilename(courseTitle, filename) == filename.value
    ensures !(filename.Some? && filename.value != "") ==>
      var t := SafeTitle(if courseTitle.Some? then courseTitle.value else "course");
      CourseFilename(courseTitle, filename) == "course_" + t + ".json" &&
      forall i :: 0 <= i < |t| ==> t[i] != ' ' && (('a' <= t[i] <= 'z') || ('0' <= t[i] <= '9') || t[i] == '-' || t[i] == '_')
  {
    SafeTitleChars(if courseTitle.Some? then courseTitle.value else "course");
  }

  /** The sanitised title holds only lower-case ASCII letters, digits, '-'
      and '_'. */
  lemma SafeTitleChars(title: string)
    ensures var t := SafeTitle(title);
      forall i :: 0 <= i < |t| ==> t[i] != ' ' && (('a' <= t[i] <= 'z') || ('0' <= t[i] <= '9') || t[i] == '-' || t[i] == '_')
  {
    var kept := KeepFilenameChars(title);
    var t0 := RStrip(kept);
    assert forall i :: 0 <= i < |t0| ==> KeptInFilename(t0[i]) by {
      assert forall i :: 0 <= i < |t0| ==> t0[i] == kept[i];
    }
  }

  /** A derived name never contains a space or a slash, and is not ".". */
  lemma DerivedFilenameIsPlain(courseTitle: Option<string>, filename: Option<string>)
    requires !(filename.Some? && filename.value != "")
    ensures var f := CourseFilename(courseTitle, filename); f != [] && f != "." && ' ' !in f && '/' !in f
  {
    DerivedNamePlain(if courseTitle.Some? then courseTitle.value else "course");
  }

  lemma DerivedNamePlain(title: string)
    ensures var f := "course_" + SafeTitle(title) + ".json"; f != [] && f != "." && ' ' !in f && '/' !in f
  {
    SafeTitleChars(title);
    var t := SafeTitle(title);
    var f := "course_" + t + ".json";
    assert f[1] == 'o';
    assert ' ' !in t && '/' !in t;
  }

  /** Trailing spaces are dropped before the replacement, so a title with
      a trailing blank does not end in '_'; punctuation is dropped. */
  lemma TrailingSpaceDropped()
    ensures SafeTitle("A b! ") == "a_b"
  {
    KeptExample();
    assert TrailCount("A b ", Whitespace) == 1 by {
      assert "A b "[..3] == "A b";
    }
    assert RStrip("A b ") == "A b";
  }

  lemma KeptExample()
    ensures KeepFilenameChars("A b! ") == "A b "
  {
  }

}
