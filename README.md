# Wikipedia knowledge RAG and course generator: a Dafny model

The system answers questions from Wikipedia. It searches for article titles,
cuts each article into overlapping character windows, embeds the windows in
batches and stores them in a vector collection under per-chunk ids. It then
retrieves the nearest chunks for a question and asks a language model to answer
from a context block with numbered citations. A course generator is built on
the same retrieval. It gathers sources from Wikipedia, MIT OpenCourseWare, Khan
Academy, Coursera, arXiv and the Stanford Encyclopedia of Philosophy, sorts them
by credibility and assembles outlines, modules, reading lists, research
connections and a bibliography around language-model calls. When a provider is
unreachable, curated lookup tables answer instead. A sliding-window rate limiter
guards the HTTP endpoints.

The model keeps the deterministic logic between the external calls. Each
OpenAI, Wikipedia, ChromaDB, Flask or HTTP call becomes a function-typed
parameter; when the call can fail, the parameter returns an `Option`.

The modules follow the source files:

- `Common`: string helpers (ASCII case and letters, Python's whitespace set)
  and Python's `[:n]`, plus first-seen order, counting and subsequences.
- `QueryCleaning`, `Chunking`, `Embeddings`, `KnowledgeStore`, `Retrieval` and
  `Session`: the pipeline of app.py and wiki_rag.py.
- `RateLimiting`: rate_limiter.py.
- `TieredSearch`: test_mobility_search.py.
- `EducationalApis`: educational_apis.py.
- `CourseSources` and `EnhancedCourse`: enhanced_course_generator.py.
- `WikiCourse`: course_generator.py; `PosixPaths` holds the part of
  pathlib that `save_course` uses.
- `CourseIntegration`: course_integration.py.
- `ArticleCatalog`: access_db.py.

Some state is updated in place, and that state is modelled as classes:

- the ChromaDB collection is `KnowledgeStore.Collection`, with a map from id to record;
- the limiter is `RateLimiting.RateLimiter`, with a map from key to timestamps;
- the generator is `EnhancedCourse.EnhancedCourseGenerator`, with its `quick_mode`;
- the integration wrapper is `CourseIntegration.CourseGeneratorIntegration`, with its optional generator.

Each loop in the source is a method with loop invariants. The method is proved
equal to a specification function, and lemmas state the properties of that
function.

The course generator reaches educational_apis.py through the
`EducationalApis.Searches` record of four search functions.
`EducationalApis.Standard` builds that record from the module's own searches,
as `EducationalAPIs()` does. Its MIT search is `SearchMitOcw` as written, whose
exception path skips the `[:max_results]` cut (see Findings).
`EducationalApis.SearchMitOcwHonoursCap` shows that this cannot matter for the
production callers, which pass a cap of at least 2. Those are
enhanced_course_generator.py line 38 (default 3) and line 242 (4), and
course_integration.py line 81 (2). No MIT fallback list is longer than 2.
Other callers pass 1: test_quick_mode.py line 29 (`max_per_source=1`) and the
self-test at educational_apis.py line 487. If the scrape raises on such a call,
the fallback exceeds the cap.
- test_quick_mode.py's topic "Data Privacy" matches none of the five MIT topic
  names, so it gets the two default courses (`UnmatchedExceptionPathGivesTwo`).
- The self-test's "machine learning" gets both courses of its topic.

`Common.Strip` follows CPython's `str.strip(chars)`: it removes the leading run
of characters from the set, then the trailing run of what is left.
`Common.Trim` is `Strip` with the characters of Python's `str.isspace`.
These are tab through carriage return, U+001C to U+001F, space, U+0085,
U+00A0, U+1680, U+2000 to U+200A, U+2028, U+2029, U+202F, U+205F and U+3000.
`Common.Split` splits on the same set.

Points where the code behaves differently from what a reader might expect:

- The per-word search tier always runs (test_mobility_search.py:29-41). It
  does not depend on how many exact results came back.
- wiki_rag.py:176-179 builds `sources_text`, but the prompt built at
  wiki_rag.py:181-190 never uses it. It is modelled as the function
  `Retrieval.SourcesText`.
- `chunk_text` has the same code in app.py and in wiki_rag.py, so one model
  (`Chunking`) cites both.

## Model

| member | source | states |
|---|---|---|
| QueryCleaning.CleanQueryKeepsOriginalIff | app.py:85-90 | for a query with an upper-case letter, the result is the original query exactly when no word survives the question-word filter |
| QueryCleaning.Survivors | app.py:88-89 | no surviving word lower-cases to a question word |
| QueryCleaning.SurvivorsKeepAll | app.py:88-89 | every word that is not a question word survives, and it occurs among the survivors exactly as often as among the words; a question word never occurs there |
| Common.FilterCount | app.py:88 | a list comprehension with a condition keeps every occurrence of an element that passes and none of one that fails |
| Common.FilterKeeps | app.py:88 | every element that passes the condition is in the filtered list |
| QueryCleaning.StripEach | app.py:89 | one entry per word, each word stripped of the punctuation `?.,!;:` at both ends |
| Common.StripSpec | app.py:89 | `strip(chars)` returns the slice of the word left after cutting its leading and trailing runs of those characters: the slice begins and ends outside the set, and it is empty exactly when every character is in the set |
| QueryCleaning.CleanedWordsAreLower | app.py:89-90 | every character of a cleaned word is not an upper-case ASCII letter |
| QueryCleaning.CleanQueryTypicalQuestion | app.py:85-90 | "What is photosynthesis?" cleans to "photosynthesis" |
| QueryCleaning.CleanQueryOnlyQuestionWords | app.py:85-90 | a query made only of question words ("How does") is returned unchanged |
| QueryCleaning.CleanQueryKeepsPunctuatedQuestionWord | app.py:88-90 | "why?" passes the filter before it is stripped, and so it survives as the question word "why" |
| QueryCleaning.CleanQueryCanBeEmpty | app.py:85-90 | the non-empty query "?" cleans to the empty string |
| QueryCleaning.CleanQueryCorrectedNonEmpty | app.py:85-90 | the corrected cleaning never returns "" for a non-empty query; it returns either the original query or words that are not question words |
| QueryCleaning.CleanQueryCorrectedDropsPunctuatedQuestionWord | app.py:85-90 | under the corrected cleaning, "why?" and "?" both fall back to the original query |
| Chunking.ChunkText | app.py:133-145 | the loop yields the chunk sequence of the specification; empty text gives []; every chunk is non-empty with at most chunk_size characters |
| Common.TrimEmptyIff | app.py:140 | a window stripped of whitespace (every character of `str.isspace`, including U+001C to U+001F) is empty exactly when every character in it is whitespace, which is when the chunk is skipped |
| Chunking.ChunksAreWindows | wiki_rag.py:71-83 | the chunks are the trimmed slices `text[i*s : i*s+size]` for i = 0 .. ceil(len/s)-1, with s = size - overlap and empty slices dropped |
| Chunking.StartClosedForm | app.py:138-143 | the n-th window starts at n * (chunk_size - overlap) |
| Chunking.WindowCount | app.py:138-143 | the number of windows m is the least one with m * step >= len |
| Chunking.SixHundredCharacters | app.py:133-145 | with the defaults, a 600-character text is cut into the windows [0:500] and [450:600] |
| Chunking.ChunkLoopExitsIff | app.py:138-143 | the window start eventually reaches the end of the text exactly when the text is empty or overlap < chunk_size |
| Chunking.ChunkLoopStaysInside | wiki_rag.py:76-82 | for non-empty text with overlap >= chunk_size, the start never moves past 0, so the loop never exits |
| Chunking.ChunkTextChecked | app.py:133-145 | the corrected chunker rejects overlap >= chunk_size with an error; otherwise it returns the chunks |
| Embeddings.GetEmbeddingsBatch | app.py:55-82 | the loop over groups equals the specification; the result is an error exactly when batch_size is 0 (Python's `range` with step 0) |
| Embeddings.Group | app.py:59-60 | a group is a non-empty slice of at most batch_size texts |
| Embeddings.Fallback | app.py:73-80 | the per-item fallback gives exactly one vector per text of the group |
| Embeddings.EmbedEach | app.py:73-80 | the per-item loop appends one vector per text, each the single call's answer or the zero vector |
| Embeddings.EmbedAllAt | app.py:59-82 | if the provider returns one vector per input, there is one embedding per text and entry i is the one its group produced for text i |
| Embeddings.EmbedAllPointwise | app.py:59-82 | if the batch provider embeds each text independently, entry i is exactly the embedding of texts[i] |
| Embeddings.EmbedAllAllFail | app.py:62-80 | when every batch call fails, entry i is the single embedding of texts[i], or a zero vector of 1536 entries when that call fails too |
| KnowledgeStore.Collection.Add | app.py:175-180 | `add` succeeds exactly when the four lists are non-empty, parallel and have distinct ids; then the new ids are inserted and existing ids keep their record; otherwise nothing changes |
| KnowledgeStore.IndexWithProbe | app.py:148-180 | a probe hit returns "already indexed" and changes nothing; otherwise the article's chunks are stored under `{title}_chunk_{i}` with their metadata and batch embeddings, or nothing changes when `add` refuses them |
| KnowledgeStore.IndexArticle | app.py:148-180 | the indexer probes `article_{title}`: a hit short-circuits; on a miss (or a raising probe) it returns Indexed(n) and inserts exactly the n chunk records with their batch embeddings when `add` accepts them, and otherwise fails with the store unchanged |
| KnowledgeStore.IndexArticleCorrected | app.py:150-155 | the corrected probe looks for the first chunk id, and after a successful run that id is present |
| KnowledgeStore.IndexArticlePerChunk | wiki_rag.py:86-126 | the wiki_rag.py indexer embeds each chunk on its own: a probe hit is "already cached" with nothing changed; on a miss it returns Indexed(n) and inserts the n chunk records, each with its own embedding, exactly when every embedding call succeeds and `add` accepts the lists; otherwise it fails with the store unchanged |
| KnowledgeStore.PrepareEmbeddedLists | wiki_rag.py:104-118 | the loop builds the four parallel lists (chunks, their metadata, their ids, one embedding each), or stops when an embedding call raises, exactly when some chunk has no embedding |
| KnowledgeStore.PerChunkKeepsOld | wiki_rag.py:121-126 | indexing an article never drops or replaces a record already in the store |
| KnowledgeStore.ChunkIdsDistinct | app.py:171 | the ids `{title}_chunk_{i}` of one article are pairwise distinct |
| KnowledgeStore.ProbeNeverWritten | app.py:151 | the probe id `article_{title}` differs from every id `{title}_chunk_{i}` |
| KnowledgeStore.ProbeStaysAbsent | wiki_rag.py:90-96 | indexing an article never writes its probe id, so the probe stays absent afterwards |
| KnowledgeStore.InsertKeys | app.py:175-180 | after `add`, the ids present are exactly the old ids plus the new ones |
| KnowledgeStore.InsertNewRecord | app.py:175-180 | a new id j is stored with record j of the parallel lists |
| KnowledgeStore.InsertPresentIsNoop | app.py:175-180 | adding ids that are all already present changes nothing |
| KnowledgeStore.ReindexKeepsStore | app.py:148-180 | indexing the same ids a second time leaves the store as after the first time |
| KnowledgeStore.IndexedRecordAt | app.py:157-180 | chunk i is stored under `{title}_chunk_{i}` with its text, the metadata (chunk_id i, title, url, source "wikipedia") and embedding i |
| Retrieval.SemanticSearch | app.py:183-200 | the result is an error exactly when the query result lacks its lists; otherwise there is one hit per returned document, in order |
| Retrieval.SemanticSearchDetailed | wiki_rag.py:131-152 | the same as SemanticSearch, keeping the distance, which is None for every hit when distances are absent |
| Retrieval.GenerateAnswer | app.py:203-219 | the source map is built in first-seen order, and the language model receives the question and the parts joined by "\n\n" |
| Retrieval.SourceMap | app.py:208-214 | the source-map indices are 1, 2, … with no gaps |
| Retrieval.SourceMapTitles | wiki_rag.py:162-170 | the source map lists each distinct title once, in first-seen order |
| Retrieval.SourceMapUrl | app.py:210-214 | each title keeps the url of its first chunk |
| Retrieval.LookupIsCitation | app.py:216-217 | every chunk's title is in the map, and its index is the chunk's citation number |
| Retrieval.ContextPartAt | app.py:216-219 | context part k is `[n] text` for chunk k, where n is the citation number of chunk k's title |
| Retrieval.PartNumberLookup | app.py:208-217 | the number on the k-th context part is the citation number that the source map gave that chunk's title |
| Retrieval.CitationRefersToTitle | wiki_rag.py:162-179 | a citation number lies in 1..(number of titles), and the source-map entry it names carries the chunk's title |
| Retrieval.SourcesTextLine | wiki_rag.py:176-179 | `sources_text` has one line `[k] title: url` per distinct title, in index order |
| Retrieval.FoundCount | wiki_rag.py:253-262 | the indexed count is at most the number of titles, and it is 0 exactly when no title has content |
| Retrieval.IndexTitles | wiki_rag.py:253-258 | the loop returns the count and leaves the store of a run over the titles: each found page goes through the per-chunk indexer in order, and an indexer exception stops the loop with the store as that call left it; a finished run counts exactly the titles whose content was found |
| Retrieval.IndexRunCount | wiki_rag.py:253-258 | a finished run counts every found page; a crashed one found at least one |
| Retrieval.IndexRunKeepsOld | wiki_rag.py:253-258 | the indexing loop never drops or replaces a record already stored |
| Retrieval.IndexRunCrashStays | wiki_rag.py:256-257 | after an indexer exception, later titles change neither the count nor the store |
| Retrieval.IndexRunNext | wiki_rag.py:254-258 | one more title extends the run by that title's step: skipped when missing or after a crash, otherwise indexed and counted |
| Retrieval.AnswerOne | wiki_rag.py:243-270 | no titles means "no articles" and nothing changes; otherwise the store is the indexing run's; a crash is reported with its reason; a count of 0 means "could not retrieve"; an unreadable search result is a search error; otherwise the answer is the model's reply to the context of the retrieved chunks, with the source map of those chunks |
| Session.RunSession | wiki_rag.py:228-270 | the input loop handles exactly the questions of the specification: stripped, non-blank lines up to the first quit word, and no line after the first question whose handling raises |
| Session.ClassifyIff | access_db.py:98-103 | a line is a quit command exactly when, stripped and lower-cased, it is 'quit', 'exit' or 'q'; it is skipped exactly when it is blank |
| Session.QuitAnyCase | wiki_rag.py:231-234 | the upper-case spellings of the quit words also end the loop |
| Session.QuestionsStopAtQuit | access_db.py:98-100 | nothing after a quit line is handled |
| Session.QuestionsStopAtCrash | wiki_rag.py:239-270 | a question whose search, indexing or answering raises is the last one handled; no later line is read |
| Session.OnlyLastCrashes | access_db.py:105-110 | only the last handled question can have raised |
| Session.NoCrashHandlesAll | wiki_rag.py:228-237 | when no question raises, every non-blank line before the first quit word is handled |
| Session.QuestionsAreReal | wiki_rag.py:231-236 | every handled question is non-blank and not a quit word |
| ArticleCatalog.Aggregate | access_db.py:73-81 | the aggregation loop equals the catalog specification |
| ArticleCatalog.CatalogTitles | access_db.py:73-81 | the catalog has exactly one entry per distinct metadata title, in first-seen order |
| ArticleCatalog.CatalogEntryAt | access_db.py:76-81 | each entry's url comes from the first metadata with that title, and its chunk count is the number of metadatas with that title |
| ArticleCatalog.CatalogTotal | access_db.py:81 | the chunk counts add up to the number of metadatas |
| RateLimiting.KeepAfter | rate_limiter.py:37-40 | every kept timestamp is greater than the cutoff and comes from the list, and every such timestamp of the list is kept |
| RateLimiting.KeepAfterExact | rate_limiter.py:37-40 | pruning keeps the timestamps greater than the cutoff in their order (a subsequence), each as many times as it was recorded, and no other timestamp |
| RateLimiting.KeepAfterIsFilter | rate_limiter.py:37-40 | pruning is the list filtered by "greater than the cutoff" |
| RateLimiting.Decide | rate_limiter.py:33-48 | a request is allowed exactly when the pruned list has fewer than max_requests entries; a refusal stores the pruned list, an allowance stores it with `now` appended |
| RateLimiting.DecideWindow | rate_limiter.py:33-48 | for a positive window, every stored timestamp is greater than now - window; a refused key has at least max_requests entries; an allowed key ends with now and has at most max_requests entries |
| RateLimiting.NonPositiveWindowKeepsStale | rate_limiter.py:33-48 | for a window <= 0, the timestamp just stored is not newer than the cutoff |
| RateLimiting.ReplayBounded | rate_limiter.py:43-48 | if every call uses the same max_requests, the list never exceeds max_requests entries |
| RateLimiting.Oldest | rate_limiter.py:54 | the oldest timestamp is one of the stored timestamps and no larger than any of them |
| RateLimiting.RetryAfter | rate_limiter.py:50-57 | the retry delay is never negative |
| RateLimiting.RetryAfterIff | rate_limiter.py:50-57 | the delay is 0 exactly when the history is empty or the oldest entry has left the window; otherwise now + delay is the moment it leaves |
| RateLimiting.RateLimiter.IsAllowed | rate_limiter.py:20-48 | the answer is the decision on the key's old list, the key's entry becomes the decision's list, and every other key is unchanged |
| RateLimiting.RateLimiter.GetRetryAfter | rate_limiter.py:50-57 | returns the retry delay of the key's list; the defaultdict lookup creates an empty entry and changes nothing else |
| TieredSearch.MergeSpec | test_mobility_search.py:39-41 | a tier keeps the results so far as a prefix, never grows them beyond max(current, max_results), adds only new titles from its answer and in the answer's order, and every title of the answer is in the results unless they reached max_results |
| TieredSearch.MergeKeeps | test_mobility_search.py:39-41 | the prefix, bound and freshness half of MergeSpec |
| TieredSearch.MergeInOrder | test_mobility_search.py:39-41 | the titles a merge adds form a subsequence of the answer |
| TieredSearch.MergeFills | test_mobility_search.py:39-41 | every title of the answer is in the merged results unless they reached max_results |
| TieredSearch.MergeTitles | test_mobility_search.py:39-41 | the append loop equals Merge |
| TieredSearch.SearchWords | test_mobility_search.py:30-41 | the per-word loop equals the tier-2 specification |
| TieredSearch.SearchVariations | test_mobility_search.py:44-58 | the variation loop with its early break equals the tier-3 specification |
| TieredSearch.EnhancedSearch | test_mobility_search.py:12-64 | the whole three-tier search equals the specification |
| TieredSearch.WordTierSpec | test_mobility_search.py:30-41 | tier 2 keeps the earlier results as a prefix, stays within max(len, max_results), adds only new titles in the order its searches returned them, takes every returned title until max_results is reached, and searches exactly the words longer than 3 characters, in order |
| TieredSearch.WordTierFills | test_mobility_search.py:30-41 | the titles tier 2 adds are a subsequence of everything its searches returned, and each returned title is in the results unless they reached max_results |
| TieredSearch.VariationTierSpec | test_mobility_search.py:47-58 | tier 3 has the same merge properties, searches a prefix of the variations, stops before the last variation only when results reached max_results, and issues no search once results reach max_results |
| TieredSearch.VariationTierFills | test_mobility_search.py:47-58 | the titles tier 3 adds are a subsequence of everything its searches returned, and each returned title is in the results unless they reached max_results |
| TieredSearch.TieredMerge | test_mobility_search.py:20-58 | the tier-1 titles are kept wholesale as a prefix; the later tiers add only fresh titles, in the order the later searches returned them, take every such title until max_results is reached, and keep the length within max(len after tier 1, max_results) |
| TieredSearch.TieredFills | test_mobility_search.py:20-58 | what tiers 2 and 3 add is a subsequence of what the later searches returned, and none of those titles is missing unless max_results was reached |
| TieredSearch.StagesFill | test_mobility_search.py:30-58 | two tiers in a row add a subsequence of everything both sent, and leave out a returned title only at the cap |
| TieredSearch.StageCompose | test_mobility_search.py:30-58 | the prefix, subsequence and fill facts of two successive merges compose |
| TieredSearch.GatheredConcat | test_mobility_search.py:30-58 | the titles returned by two runs of searches are those of the first followed by those of the second |
| TieredSearch.TieredIssued | test_mobility_search.py:20-64 | the exact query is searched first; a failure stops at the failing search; otherwise the searches are the query, its long words, then a prefix of the variations |
| TieredSearch.FreshCompose | test_mobility_search.py:39-58 | two tiers that each keep their input as a prefix and add only fresh titles compose into one that does the same |
| TieredSearch.ScriptQueries | test_mobility_search.py:12-33 | for the script's query, the first three searches are the query, "mobility" and "transport" |
| EducationalApis.FirstMatch | educational_apis.py:152-164 | returns the first table topic that is a substring of the lower-cased query, or that contains it; None exactly when no topic matches |
| EducationalApis.FallbackMitSpec | educational_apis.py:93-176 | every MIT fallback entry is tagged MIT with credibility 0.95; a match returns the matched topic's courses; no match returns the first two computer-science courses |
| EducationalApis.FallbackLookupSpec | educational_apis.py:255-315 | entries carry the provider's tag; a match gives a prefix of its entries of length at most max_results (all of them when max_results allows); no match gives the single default entry |
| EducationalApis.ProvidersTagged | educational_apis.py:227-409 | Khan (0.8), Coursera (0.85) and SEP (0.9) results always carry their provider's source name and credibility |
| EducationalApis.EmptyQueryMatchesFirst | educational_apis.py:156 | an empty query matches the first topic of every table |
| EducationalApis.FirstTopicWins | educational_apis.py:152-164 | a query containing "computer science" gets the computer-science courses, the first topic |
| EducationalApis.SearchMitOcwNormalCapped | educational_apis.py:26-87 | the normal path of search_mit_ocw returns at most max_results courses |
| EducationalApis.UnmatchedExceptionPathGivesTwo | educational_apis.py:89-91 | a query that matches no MIT topic gets the two default courses on the exception path, whatever cap it asked for |
| EducationalApis.SearchMitOcwExceptionPathExceedsCap | educational_apis.py:89-91 | the exception path returns the fallback untruncated: 2 courses when 1 was asked for |
| EducationalApis.SearchMitOcwCorrected | educational_apis.py:26-91 | the corrected search caps both paths at max_results |
| EducationalApis.FallbackMitAtMostTwo | educational_apis.py:93-150 | no MIT fallback list has more than two courses |
| EducationalApis.SearchMitOcwHonoursCap | educational_apis.py:26-91 | for a cap of 2 or more the search as written equals the corrected one and returns at most max_results courses |
| CourseSources.AnyKeywordSpec | enhanced_course_generator.py:1502-1518 | the classifiers are true exactly when some keyword is a substring of the lower-cased input |
| CourseSources.QuantumIsStem | enhanced_course_generator.py:1502-1509 | "Quantum Computing" is a STEM topic |
| CourseSources.ParticlePhysicsIsHumanities | enhanced_course_generator.py:1511-1518 | "particle physics" is both STEM and humanities, because "art" occurs inside "particle" |
| CourseSources.ExtractStructuredContent | enhanced_course_generator.py:1520-1523 | the result is a prefix of the text of at most 2000 characters, and the whole text when it fits |
| CourseSources.WikiPages | enhanced_course_generator.py:71-117 | at most one source per title, each a "reference" source of credibility 0.7 with at most 2000 characters of content |
| CourseSources.WikiPagesExact | enhanced_course_generator.py:71-117 | every title whose page exists yields a source and no other title does; the sources follow the titles' order, and each carries its own page's url and the first 2000 characters of its text |
| CourseSources.WikiPagesIsFilter | enhanced_course_generator.py:71-117 | the titles of the sources are the titles filtered by "the page exists" |
| CourseSources.WikiPagesFromPage | enhanced_course_generator.py:71-117 | each source is built from its own title's page |
| CourseSources.Convert | enhanced_course_generator.py:119-233 | one content source per provider resource, in order |
| CourseSources.SearchMultipleSourcesSpec | enhanced_course_generator.py:38-69 | the result is sorted by non-increasing credibility and is a permutation of the gathered sources; arXiv counts only for STEM queries and SEP only for humanities queries; the research sources are exactly the arXiv ones |
| CourseSources.SearchMultipleSourcesStable | enhanced_course_generator.py:69 | the sort is stable: sources of equal credibility keep their gathering order |
| CourseSources.SortSpec | enhanced_course_generator.py:69 | the credibility sort gives non-increasing scores, is a permutation of its input, and keeps input order among equally credible sources |
| CourseSources.SortedGatherSpec | enhanced_course_generator.py:38-69 | the gathered and sorted list is sorted, keeps every source of every provider, and has as many research sources as arXiv returned |
| CourseSources.CreateSourceSummary | enhanced_course_generator.py:1525-1536 | the total is the number of sources |
| CourseSources.SummaryCountsAddUp | enhanced_course_generator.py:1525-1536 | the four type counts never exceed the total, and they add up to it exactly when every source has a known type |
| CourseSources.CreateBibliography | enhanced_course_generator.py:1538-1548 | one entry per source, in order, with its title, url and type |
| EnhancedCourse.SelectSources | enhanced_course_generator.py:382-388 | an in-order sublist of at most 5 sources: the first 5 relevant ones, or the first 5 sources when none is relevant; empty only when there are no sources |
| EnhancedCourse.RelevantSources | enhanced_course_generator.py:382-385 | exactly the sources whose lower-cased content contains a lower-cased key concept, in order |
| EnhancedCourse.Abbreviate | enhanced_course_generator.py:867 | content of at most 200 characters is kept; longer content becomes its first 200 characters plus "..." |
| EnhancedCourse.GenerateComprehensiveReadings | enhanced_course_generator.py:853-912 | the three append loops equal the readings specification |
| EnhancedCourse.ReadingsShape | enhanced_course_generator.py:853-912 | len(sources)+11 entries: one primary per source in order, then 8 supplementary of which exactly the first 4 are required, then 3 textbooks |
| EnhancedCourse.ReadingsRequired | enhanced_course_generator.py:853-912 | exactly len(sources)+7 readings are required |
| EnhancedCourse.GenerateResearchConnections | enhanced_course_generator.py:1148-1182 | the loop equals the research-connection specification |
| EnhancedCourse.PapersCount | enhanced_course_generator.py:1152-1163 | one paper per research source |
| EnhancedCourse.PapersAreResearchSources | enhanced_course_generator.py:1152-1163 | every paper comes from a source of type 'research' |
| EnhancedCourse.ResearchConnectionsShape | enhanced_course_generator.py:1148-1182 | the research papers come first, then the 4 fixed direction entries |
| EnhancedCourse.GenerateEnhancedModule | enhanced_course_generator.py:377-502 | module assembly equals the module specification |
| EnhancedCourse.EnhancedModuleShape | enhanced_course_generator.py:382-456 | lessons are capped at 2 in quick mode and 10 otherwise and are numbered 1..n; quick mode has no lectures, seminars or labs; a non-practical topic has no labs; readings are built from the selected sources |
| EnhancedCourse.LessonTopicsFromSet | enhanced_course_generator.py:411-423 | if the set listing has each topic once, the lesson topics are duplicate-free outline topics or key concepts, one per distinct name up to the cap |
| EnhancedCourse.RemoveSpaces | enhanced_course_generator.py:1768 | removing spaces leaves no space |
| EnhancedCourse.CreateFallbackOutline | enhanced_course_generator.py:1723-1800 | the module loop equals the fallback outline specification |
| EnhancedCourse.FallbackModulesShape | enhanced_course_generator.py:1727-1764 | 8 modules numbered 1..8, each with its base title, 4 objectives, 5 key concepts and 4 topics |
| EnhancedCourse.CourseCodeShape | enhanced_course_generator.py:1768 | the course code is the first (up to) 4 upper-cased characters of the space-stripped topic, followed by "401" |
| EnhancedCourse.GenerateModules | enhanced_course_generator.py:273-282 | one generated module per retained outline module, in order |
| EnhancedCourse.EnhancedCourseGenerator.GenerateComprehensiveCourse | enhanced_course_generator.py:235-296 | the generator's control flow equals the course specification |
| EnhancedCourse.ComprehensiveCourseCases | enhanced_course_generator.py:242-296 | no sources gives the basic course; an undecodable outline uses the fallback outline; otherwise the outline is the writer's |
| EnhancedCourse.CourseFromShape | enhanced_course_generator.py:255-296 | quick mode keeps the first 3 outline modules; each module keeps its outline title and number; the summary and the bibliography cover every source |
| EnhancedCourse.EightModuleCourse | enhanced_course_generator.py:255-282 | an 8-module outline numbered 1..8 gives 3 modules in quick mode and 8 otherwise, numbered 1..n |
| EnhancedCourse.FallbackCourseModules | enhanced_course_generator.py:372-375 | a course on the fallback outline has 3 or 8 modules numbered 1..n |
| CourseIntegration.InfoForIff | course_integration.py:57-63 | the generation mode is "quick" and the cost "Low" exactly when quick_mode is set; sources are reported exactly for a comprehensive course |
| CourseIntegration.CountByType | course_integration.py:83-95 | the counting loop equals the per-type count specification |
| CourseIntegration.TypeCountsTypes | course_integration.py:90-95 | there is one counter per distinct source type, in first-seen order |
| CourseIntegration.TypeCountsAt | course_integration.py:90-95 | each counter equals the number of sources of its type |
| CourseIntegration.TypeCountsTotal | course_integration.py:83-95 | the counters add up to the number of sources |
| CourseIntegration.CollectTopSources | course_integration.py:98-104 | the loop equals the top-source specification |
| CourseIntegration.SourcePreviewSpec | course_integration.py:74-110 | total_sources_found is len(sources); the per-type counts are in first-seen order and add up to the total; top_sources holds the first min(max, len) sources, previewed in order |
| CourseIntegration.CourseGeneratorIntegration.GenerateEnhancedCourse | course_integration.py:36-72 | without a generator, the error result and no change; otherwise quick_mode is set first, then the course and its generation info |
| CourseIntegration.CourseGeneratorIntegration.GetSourcePreview | course_integration.py:74-110 | without a generator, the unavailable preview; otherwise the source preview |
| CourseIntegration.CourseGeneratorIntegration.CompareGenerators | course_integration.py:112-137 | basic and enhanced descriptions always; available sources and source quality exactly when a generator exists, taken from a preview of 3 |
| WikiCourse.FormatChunks | course_generator.py:206-211 | the loop joins the entries `[i] text` with "\n\n" |
| WikiCourse.ChunkEntries | course_generator.py:209-210 | one entry per chunk |
| WikiCourse.FormatChunksSpec | course_generator.py:206-211 | an empty list gives ""; otherwise the text starts with `[1] ` plus the first chunk's text and has one "\n\n" between consecutive entries |
| WikiCourse.JoinLayout | course_generator.py:211 | joining puts the first word first, and its length is the words' total length plus (n-1) separators |
| WikiCourse.SearchAndRetrieveCases | course_generator.py:252-285 | a failed or empty title search gives []; a non-empty result means titles were found, indexing succeeded and it is the semantic search's answer |
| WikiCourse.GenerateModuleContent | course_generator.py:73-117 | the section loop equals the module content specification |
| WikiCourse.ModuleContentSpec | course_generator.py:82-115 | one section per topic, in order; each section's sources list has one url per retrieved chunk, "" when it is missing |
| WikiCourse.CreateFullCourse | course_generator.py:119-143 | the module loop equals the full course specification |
| WikiCourse.FullCourseSpec | course_generator.py:130-141 | the outline is kept, and modules_content has one entry per outline module, in order, with its title and one section per topic |
| WikiCourse.UndecodedOutlineCourse | course_generator.py:213-228 | an outline that cannot be decoded becomes one "Introduction to" module on the topic |
| WikiCourse.KeepFilenameChars | course_generator.py:149-150 | only alphanumerics, spaces, '-' and '_' are kept, in order |
| WikiCourse.SpacesToUnderscores | course_generator.py:151 | each space becomes '_' and every other character stays |
| WikiCourse.CourseFilenameSpec | course_generator.py:145-151 | an explicit filename is used verbatim; otherwise "course_" + the sanitised title (default "course") + ".json", made of lower-case letters, digits, '-' and '_' |
| WikiCourse.SafeTitleChars | course_generator.py:149-151 | the sanitised title has only lower-case ASCII letters, digits, '-' and '_' |
| WikiCourse.DerivedFilenameIsPlain | course_generator.py:149-151 | a derived filename is non-empty and contains no space and no slash |
| WikiCourse.CoursePathRelative | course_generator.py:153-162 | a relative filename gives a path that is `courses` or starts with `courses/`; a derived filename gives exactly `courses/` + that name |
| WikiCourse.CoursePathAbsolute | course_generator.py:156-162 | an absolute filename replaces the `courses` directory: the path is that name in pathlib's normal form and starts with '/' |
| PosixPaths.SegmentLength | course_generator.py:156 | the first path part runs up to the first slash |
| PosixPaths.PathPartsOf | course_generator.py:156 | a leading piece without slashes is a part, except "." |
| PosixPaths.PathPartsClean | course_generator.py:162 | every part of a normalised path is non-empty, has no slash and is not "." |
| PosixPaths.JoinRelative | course_generator.py:156-162 | `Path(dir) / name` with a relative name is dir followed by the name's parts |
| PosixPaths.JoinRelativeUnder | course_generator.py:156-162 | that path is dir itself or starts with dir and a slash |
| PosixPaths.JoinAbsolute | course_generator.py:156-162 | an absolute name ignores the directory and keeps its leading slash |
| PosixPaths.AbsoluteUnchanged | course_generator.py:156-162 | a plain absolute filename such as "/tmp/x.json" is returned as it is |
| PosixPaths.DotDropped | course_generator.py:156-162 | "./name" joins as dir/name |
| PosixPaths.DoubleSlashCollapsed | course_generator.py:156-162 | "a//name" joins as dir/a/name |
| WikiCourse.TrailingSpaceDropped | course_generator.py:149-151 | "A b! " sanitises to "a_b": the '!' is dropped, the trailing space is stripped before spaces are replaced |

## Left out

- HTTP and Flask: the routes, the rate-limit decorator's responses, the enhanced-course routes and the WSGI configuration.
- OpenAI chat and embeddings, Wikipedia, ChromaDB `get`/`query` and all HTTP providers: each is a function parameter. Vector similarity and ranking are not modelled.
- Language-model prompts and `json.loads` of model answers: an answer is decoded by a parameter, and None means invalid JSON.
- Incomplete outlines and modules: the decoding parameter yields only complete outlines and modules, so a decoded answer that lacks a field is not modelled. The source raises KeyError in that case. In enhanced_course_generator.py this happens for `modules` (line 254), for `course_title`, `description`, `learning_objectives` and `prerequisites` (lines 263-269), and for a module's `title` (lines 392 and 411). In course_generator.py it happens for a module's `title` (lines 134 and 137).
- Exceptions from the chat-completion call (course_generator.py:58, enhanced_course_generator.py:361): these are not modelled. The source does not catch them, so one ends the generation; the model's call is a parameter that always returns an answer.
- The MIT OpenCourseWare regex scrape and arXiv XML parsing: their results are parameters. The order of the scrape's `set()` is not modelled.
- `urllib.parse.quote`: a parameter.
- Floating point: credibility is a `real` used only for comparison and sorting. The average credibility of the source summary, `1 - distance` and `:.1f` formatting are left out.
- Time: `time.time` is an integer `now` parameter. `time.sleep` pacing and `datetime` stamps are left out.
- Concurrency: the limiter's lock is left out, and calls are sequential.
- Unicode: `lower`, `upper` and `isalnum` are modelled on ASCII. Whitespace, as used by `strip()`, `rstrip()` and `split()`, is Python's full `str.isspace` set.
- Paths: `save_course`'s `Path` is modelled as POSIX pathlib. Windows drive letters and backslashes are not modelled, and `..` is kept as a part, as pathlib keeps it.
- Input past the end of the session: the input is a finite list of lines, and an EOFError is not modelled.
- Session.RunSession: the per-question work (wiki_rag.py's search, indexing and answering, access_db.py's embedding call plus query) is not run inside the loop. Only its effect on the loop is modelled: the parameter `crashes` names the questions whose handling raises, and the session ends after the first of them. Whether a call raises is a function of the question alone, not of earlier calls.
- EnhancedCourse.LessonTopicsFromSet: `list(set(...))` has no defined order. It is a parameter, and the lemma assumes the parameter lists each distinct name once.
- Chunking.ChunkText: it requires `len(text) == 0 or overlap < chunk_size`, the exact condition under which the Python loop ends. The other case is stated by ChunkLoopStaysInside. A negative chunk_size is not modelled, because of Python's negative slice ends.
- KnowledgeStore.Collection.Add: it assumes ChromaDB refuses empty, unequal or duplicate-id lists and keeps the first record for an id that already exists.
- Writing the course file in `save_course`: only the file name and path are modelled.
- The modules' assignments, case studies, industry connections, additional resources, assessments and capstone: the model carries only the lesson, lecture, seminar, lab, reading and research parts.
- The exception paths of course_integration.py: there is no exception model for the external calls inside them.
- `generate_quiz` in course_generator.py: an unparsed language-model call.
- CourseIntegration.CourseGeneratorIntegration.GenerateEnhancedCourse: course_type is accepted and ignored, because both branches of the source call the same generator.
- WikiCourse.SearchAndRetrieveCases: the search, indexing and semantic search of `search_and_retrieve` are parameters. They are not wired to the KnowledgeStore collection.
- `wiki_rag.search_wikipedia` and `get_wikipedia_content`: these are thin library wrappers, modelled as parameters.

## Findings

| source | as written | input that shows it | evidently intended | confidence | as-written member | corrected member |
|---|---|---|---|---|---|---|
| app.py:88-90 | question words are filtered before punctuation is stripped, and stripped words are never dropped | the query "?" cleans to "" ("why?" survives as "why") | a non-empty query never cleans to an empty search string | not executed | QueryCleaning.CleanQueryCanBeEmpty | QueryCleaning.CleanQueryCorrectedNonEmpty |
| app.py:150-155, app.py:171 | the presence probe looks up `article_{title}`, an id that is never written | any title: `article_T` is never `T_chunk_i` | the probe finds an article that is already indexed | not executed | KnowledgeStore.ProbeNeverWritten | KnowledgeStore.IndexArticleCorrected |
| app.py:138-143 | `start += chunk_size - overlap` does not advance when overlap >= chunk_size | text "a", chunk_size 1, overlap 1 | the arguments are rejected, or the loop ends | not executed | Chunking.ChunkLoopStaysInside | Chunking.ChunkTextChecked |
| educational_apis.py:87-91 | the exception path returns the MIT fallback without `[:max_results]` | query "" with max_results 1 when the scrape raises: 2 courses; test_quick_mode.py:29 reaches the same path with "Data Privacy" and a cap of 1, and UnmatchedExceptionPathGivesTwo covers every query that matches no topic | both paths honour max_results | not executed | EducationalApis.SearchMitOcwExceptionPathExceedsCap | EducationalApis.SearchMitOcwCorrected |
