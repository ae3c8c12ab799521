/** Query normalisation before the encyclopedia search (`clean_query` in
    app.py): lower-case, split on whitespace, drop question words, strip
    `?.,!;:` from both ends of every remaining word, join with single spaces,
    and fall back to the original query when no word is left. */
module QueryCleaning {
  import opened Common

  const QuestionWords: seq<string> :=
    ["what", "is", "are", "who", "when", "where", "why", "how",
     "does", "do", "did", "can", "could", "would", "should"]

  const QueryPunctuation: set<char> := {'?', '.', ',', '!', ';', ':'}

  /** `word.lower() not in question_words`. */
  predicate KeepWord(w: string)
  {
    Lower(w) !in QuestionWords
  }

  /** The words that pass the question-word filter, before any stripping. */
  function Survivors(words: seq<string>): (r: seq<string>)
    ensures forall k :: 0 <= k < |r| ==> Lower(r[k]) !in QuestionWords
  {
    Filter(words, KeepWord)
  }

  /** Every word that is not a question word survives: it occurs among the
      survivors exactly as often as among the words, and a question word
      never occurs there. */
  lemma SurvivorsKeepAll(words: seq<string>)
    ensures forall i :: 0 <= i < |words| && KeepWord(words[i]) ==> words[i] in Survivors(words)
    ensures forall w :: multiset(Survivors(words))[w] == if KeepWord(w) then multiset(words)[w] else 0
  {
    forall i | 0 <= i < |words| && KeepWord(words[i])
      ensures words[i] in Filter(words, KeepWord)
    {
      FilterKeeps(words, KeepWord, i);
    }
    forall w
      ensures multiset(Filter(words, KeepWord))[w] == if KeepWord(w) then multiset(words)[w] else 0
    {
      FilterCount(words, KeepWord, w);
    }
  }

  /** The survivors keep their order among the words. */
  lemma SurvivorsFromWords(words: seq<string>)
    ensures IsSubsequence(Survivors(words), words)
  {
    FilterIsSubsequence(words, KeepWord);
  }

  function StripEach(ws: seq<string>): (r: seq<string>)
    ensures |r| == |ws|
    ensures forall k :: 0 <= k < |ws| ==> r[k] == Strip(ws[k], QueryPunctuation)
  {
    if ws == [] then [] else [Strip(ws[0], QueryPunctuation)] + StripEach(ws[1..])
  }

  /** The filtered, stripped words of a query. */
  function CleanedWords(query: string): seq<string>
  {
    StripEach(Survivors(Split(Lower(query))))
  }

  /** `clean_query` as written: the filter runs before the stripping. */
  function CleanQuery(query: string): string
  {
    var cleaned := CleanedWords(query);
    if cleaned != [] then Join(" ", cleaned) else query
  }

  predicate HasUpper(s: string)
  {
    exists i :: 0 <= i < |s| && 'A' <= s[i] <= 'Z'
  }

  /** Characters produced by lower-casing are never upper-case letters. */
  lemma NoUpperInLower(s: string)
    ensures !HasUpper(Lower(s))
  {
  }

  /** Every word kept by the normaliser was lower-cased. */
  lemma {:induction false} CleanedWordsAreLower(query: string, k: nat, c: char)
    requires k < |CleanedWords(query)| && c in CleanedWords(query)[k]
    ensures !('A' <= c <= 'Z')
  {
    var words := Split(Lower(query));
    var surv := Survivors(words);
    SurvivorsFromWords(words);
    assert CleanedWords(query)[k] == Strip(surv[k], QueryPunctuation);
    StrippedCharFrom(surv[k], c);
    SubsequenceElement(surv, words, k);
    var j :| 0 <= j < |words| && words[j] == surv[k];
    SplitWordsFromText(Lower(query), j, c);
  }

  /** A character of a stripped word is a character of the word. */
  lemma StrippedCharFrom(w: string, c: char)
    requires c in Strip(w, QueryPunctuation)
    ensures c in w
  {
    StripSpec(w, QueryPunctuation);
    assert c in w[StripFrom(w, QueryPunctuation)..StripTo(w, QueryPunctuation)];
  }

  lemma {:induction false} SubsequenceElement<T>(a: seq<T>, b: seq<T>, k: nat)
    requires IsSubsequence(a, b) && k < |a|
    ensures exists j :: 0 <= j < |b| && b[j] == a[k]
  {
    if a[0] == b[0] && IsSubsequence(a[1..], b[1..]) {
      if k == 0 {
        assert b[0] == a[0];
      } else {
        SubsequenceElement(a[1..], b[1..], k - 1);
        var j :| 0 <= j < |b[1..]| && b[1..][j] == a[1..][k - 1];
        assert b[j + 1] == a[k];
      }
    } else {
      SubsequenceElement(a, b[1..], k);
      var j :| 0 <= j < |b[1..]| && b[1..][j] == a[k];
      assert b[j + 1] == a[k];
    }
  }

  /** Every character of a word of `Split(s)` is a character of `s`. */
  lemma {:induction false} SplitWordsFromText(s: string, j: nat, c: char)
    requires j < |Split(s)| && c in Split(s)[j]
    ensures c in s
    decreases |s|
  {
    if IsSpace(s[0]) {
      SplitWordsFromText(s[1..], j, c);
    } else {
      var n := WordLen(s);
      if j == 0 {
        assert c in s[..n];
      } else {
        assert Split(s)[j] == Split(s[n..])[j - 1];
        SplitWordsFromText(s[n..], j - 1, c);
      }
    }
  }

  /** When some word survives, the result is all lower case; so on a query that
      has an upper-case letter, the original comes back exactly when no word
      survives the question-word filter. */
  lemma CleanQueryKeepsOriginalIff(query: string)
    requires HasUpper(query)
    ensures CleanQuery(query) == query <==> CleanedWords(query) == []
  {
    var cleaned := CleanedWords(query);
    if cleaned != [] {
      var r := Join(" ", cleaned);
      var i :| 0 <= i < |query| && 'A' <= query[i] <= 'Z';
      if r == query {
        var c := query[i];
        assert c in r;
        JoinChars(" ", cleaned, c);
        var k :| 0 <= k < |cleaned| && c in cleaned[k];
        CleanedWordsAreLower(query, k, c);
      }
    }
  }

  lemma SplitTypicalQuestion()
    ensures Split("what is photosynthesis?") == ["what", "is", "photosynthesis?"]
  {
    JoinTypicalQuestion();
    NoSpaceTypicalQuestion();
    SplitJoin(["what", "is", "photosynthesis?"]);
  }

  lemma JoinTypicalQuestion()
    ensures Join(" ", ["what", "is", "photosynthesis?"]) == "what is photosynthesis?"
  {
  }

  lemma NoSpaceTypicalQuestion()
    ensures NoSpace("what") && NoSpace("is") && NoSpace("photosynthesis?")
  {
  }

  lemma SurvivorsTypicalQuestion()
    ensures Survivors(["what", "is", "photosynthesis?"]) == ["photosynthesis?"]
  {
    var p := KeepWord;
    assert Lower("what") == "what" && Lower("is") == "is";
    assert Lower("photosynthesis?") == "photosynthesis?";
    assert Filter(["photosynthesis?"], p) == ["photosynthesis?"];
    assert ["what", "is", "photosynthesis?"][1..] == ["is", "photosynthesis?"];
    assert ["is", "photosynthesis?"][1..] == ["photosynthesis?"];
  }

  lemma StripTrailingMark(w: string)
    requires w != [] && w[0] !in QueryPunctuation
    requires forall i :: 0 <= i < |w| ==> w[i] !in QueryPunctuation
    ensures Strip(w + "?", QueryPunctuation) == w
  {
    var s := w + "?";
    assert s[0] == w[0] && s[..|s| - 1] == w;
    assert StripRight(w, QueryPunctuation) == w;
  }

  lemma CleanedTypicalQuestion()
    ensures CleanedWords("What is photosynthesis?") == ["photosynthesis"]
  {
    LowerTypicalQuestion();
    SplitTypicalQuestion();
    SurvivorsTypicalQuestion();
    StripEachTypicalQuestion();
  }

  lemma LowerTypicalQuestion()
    ensures Lower("What is photosynthesis?") == "what is photosynthesis?"
  {
  }

  lemma StripEachTypicalQuestion()
    ensures StripEach(["photosynthesis?"]) == ["photosynthesis"]
  {
    StripTrailingMark("photosynthesis");
    assert "photosynthesis" + "?" == "photosynthesis?";
  }

  /** Question words disappear and trailing punctuation is stripped. */
  lemma CleanQueryTypicalQuestion()
    ensures CleanQuery("What is photosynthesis?") == "photosynthesis"
  {
    CleanedTypicalQuestion();
  }

  lemma SplitHowDoes()
    ensures Split("how does") == ["how", "does"]
  {
    var ws := ["how", "does"];
    assert NoSpace("how") && NoSpace("does");
    SplitJoin(ws);
    assert Join(" ", ws) == "how does";
  }

  lemma CleanedOnlyQuestionWords()
    ensures CleanedWords("How does") == []
  {
    LowerHowDoes();
    SplitHowDoes();
    SurvivorsHowDoes();
  }

  lemma LowerHowDoes()
    ensures Lower("How does") == "how does"
  {
  }

  lemma SurvivorsHowDoes()
    ensures Survivors(["how", "does"]) == []
  {
    var p := KeepWord;
    assert Lower("how") == "how" && Lower("does") == "does";
    assert ["how", "does"][1..] == ["does"];
    assert Filter(["how", "does"], p) == [];
  }

  /** A question without any surviving word is returned unchanged, case included. */
  lemma CleanQueryOnlyQuestionWords()
    ensures CleanQuery("How does") == "How does"
  {
    CleanedOnlyQuestionWords();
  }

  lemma SurvivorsSingle(w: string)
    requires Lower(w) !in QuestionWords
    ensures Survivors([w]) == [w]
  {
    assert Filter([w], KeepWord) == [w];
  }

  /** Because the filter runs before stripping, "why?" is not recognised as a
      question word and survives as "why". */
  lemma CleanQueryKeepsPunctuatedQuestionWord()
    ensures CleanQuery("why?") == "why"
    ensures "why" in QuestionWords
  {
    CleanedWhy();
  }

  lemma CleanedWhy()
    ensures CleanedWords("why?") == ["why"]
  {
    LowerWhy();
    SplitWord("why?");
    SurvivorsSingle("why?");
    StripWhy();
    assert StripEach(["why?"]) == ["why"];
  }

  lemma LowerWhy()
    ensures Lower("why?") == "why?"
  {
  }

  lemma StripWhy()
    ensures Strip("why?", QueryPunctuation) == "why"
  {
    StripTrailingMark("why");
    assert "why" + "?" == "why?";
  }

  /** The normaliser can produce an empty search query from a non-empty one. */
  lemma CleanQueryCanBeEmpty()
    ensures CleanQuery("?") == ""
  {
    assert Lower("?") == "?";
    SplitWord("?");
    SurvivorsSingle("?");
    assert Strip("?", QueryPunctuation) == "" by {
      assert LeadCount("?", QueryPunctuation) == 1;
    }
    assert StripEach(["?"]) == [""];
  }

  // ------------------------------------------------------------- corrected

  function StripAndDrop(ws: seq<string>): (r: seq<string>)
    ensures forall k :: 0 <= k < |r| ==> r[k] != [] && r[k] !in QuestionWords
  {
    if ws == [] then []
    else
      var w := Strip(ws[0], QueryPunctuation);
      (if w != [] && w !in QuestionWords then [w] else []) + StripAndDrop(ws[1..])
  }

  /** The intended normaliser: strip punctuation first, then drop empty words
      and question words, and fall back to the original query when nothing is
      left. */
  function CleanQueryCorrected(query: string): string
  {
    var kept := StripAndDrop(Split(Lower(query)));
    if kept != [] then Join(" ", kept) else query
  }

  lemma {:induction false} StripAndDropNoSpace(ws: seq<string>)
    requires forall k :: 0 <= k < |ws| ==> NoSpace(ws[k])
    ensures forall k :: 0 <= k < |StripAndDrop(ws)| ==> NoSpace(StripAndDrop(ws)[k])
  {
    if ws != [] {
      StripAndDropNoSpace(ws[1..]);
      var w := Strip(ws[0], QueryPunctuation);
      var i := StripFrom(ws[0], QueryPunctuation);
      StripSpec(ws[0], QueryPunctuation);
      assert forall j :: 0 <= j < |w| ==> w[j] == ws[0][i + j];
    }
  }

  /** The corrected normaliser never turns a non-empty query into an empty one,
      and a query it rewrites contains no question word at all. */
  lemma CleanQueryCorrectedNonEmpty(query: string)
    ensures query != [] ==> CleanQueryCorrected(query) != []
    ensures CleanQueryCorrected(query) == query ||
      forall k :: 0 <= k < |Split(CleanQueryCorrected(query))| ==>
        Split(CleanQueryCorrected(query))[k] !in QuestionWords
  {
    var kept := StripAndDrop(Split(Lower(query)));
    if kept != [] {
      JoinNonEmpty(" ", kept);
      StripAndDropNoSpace(Split(Lower(query)));
      SplitJoin(kept);
    }
  }

  lemma KeptWhy()
    ensures StripAndDrop(Split(Lower("why?"))) == []
  {
    LowerWhy();
    SplitWord("why?");
    StripWhy();
    assert StripAndDrop(["why?"]) == [];
  }

  /** The corrected normaliser treats "why?" as the question word it is, and
      keeps a lone "?" instead of emptying it. */
  lemma CleanQueryCorrectedDropsPunctuatedQuestionWord()
    ensures CleanQueryCorrected("why?") == "why?"
    ensures CleanQueryCorrected("?") == "?"
  {
    KeptWhy();
    assert Lower("?") == "?";
    SplitWord("?");
    assert Strip("?", QueryPunctuation) == "" by {
      assert LeadCount("?", QueryPunctuation) == 1;
    }
    assert StripAndDrop(["?"]) == [];
  }
}
