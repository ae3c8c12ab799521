/** The interactive loops of wiki_rag.py's `main` and access_db.py's `main`:
    each input line is stripped; 'quit', 'exit' or 'q' in any letter case
    ends the loop, a blank line is skipped, anything else is handled as a
    question or a search query. Handling a question calls services outside
    any `try` (the search, indexing and answering of wiki_rag.py, the
    embedding call and the collection query of access_db.py), so an exception
    there ends `main`; which questions raise is the parameter `crashes`.
    Input is a finite sequence of lines; what happens past its end (an
    EOFError) is not modelled. */
module Session {
  import opened Common

  const QuitWords: seq<string> := ["quit", "exit", "q"]

  datatype Command = Quit | Skip | Ask(text: string)

  function Classify(line: string): Command
  {
    var t := Trim(line);
    if Lower(t) in QuitWords then Quit
    else if t == [] then Skip
    else Ask(t)
  }

  /** The questions the loop handles, in input order, up to the first quit
      word or up to and including the first question whose handling raises. */
  function Questions(lines: seq<string>, crashes: string -> bool): seq<string>
  {
    if lines == [] then []
    else match Classify(lines[0])
      case Quit => []
      case Skip => Questions(lines[1..], crashes)
      case Ask(t) => [t] + (if crashes(t) then [] else Questions(lines[1..], crashes))
  }

  /** The `while True` loop with its `break` and `continue`; an exception
      while handling a question leaves the loop after that question. */
  method RunSession(lines: seq<string>, crashes: string -> bool) returns (asked: seq<string>)
    ensures asked == Questions(lines, crashes)
  {
    asked := [];
    var i := 0;
    while i < |lines|
      invariant 0 <= i <= |lines|
      invariant asked + Questions(lines[i..], crashes) == Questions(lines, crashes)
    {
      var question := Trim(lines[i]);
      if Lower(question) in QuitWords {
        assert Questions(lines[i..], crashes) == [];
        break;
      }
      if question == [] {
        assert Questions(lines[i..], crashes) == Questions(lines[i + 1..], crashes) by {
          assert lines[i..][1..] == lines[i + 1..];
        }
        i := i + 1;
        continue;
      }
      assert Questions(lines[i..], crashes) == [question] + (if crashes(question) then [] else Questions(lines[i + 1..], crashes)) by {
        assert lines[i..][1..] == lines[i + 1..];
      }
      asked := asked + [question];
      if crashes(question) {
        assert asked == Questions(lines, crashes);
        break;
      }
      i := i + 1;
    }
    if i == |lines| {
      assert asked + [] == asked;
    }
  }

  /** A line is a quit command exactly when, stripped and lower-cased, it is
      one of the quit words; a blank line is never handled; a handled
      question is the stripped line, non-blank and not a quit word. */
  lemma ClassifyIff(line: string)
    ensures Classify(line) == Quit <==> Lower(Trim(line)) in QuitWords
    ensures Classify(line) == Skip <==> (forall i :: 0 <= i < |line| ==> IsSpace(line[i]))
    ensures Classify(line).Ask? ==>
      Classify(line).text == Trim(line) && Trim(line) != [] && Lower(Trim(line)) !in QuitWords
  {
    TrimEmptyIff(line);
    if Trim(line) == [] {
      assert Lower(Trim(line)) == [];
    }
  }

  lemma {:induction false} LowerUpperOfLower(w: string)
    requires forall i :: 0 <= i < |w| ==> 'a' <= w[i] <= 'z'
    ensures Lower(Upper(w)) == w
  {
  }

  /** Quit words are recognised in upper case too. */
  lemma QuitAnyCase(line: string, k: nat)
    requires k < |QuitWords|
    requires Trim(line) == Upper(QuitWords[k])
    ensures Classify(line) == Quit
  {
    LowerUpperOfLower(QuitWords[k]);
  }

  /** Nothing after the first quit line is ever handled. */
  lemma {:induction false} QuestionsStopAtQuit(before: seq<string>, quit: string, after: seq<string>, crashes: string -> bool)
    requires Classify(quit) == Quit
    ensures Questions(before + [quit] + after, crashes) == Questions(before, crashes)
    decreases |before|
  {
    if before == [] {
      assert (before + [quit] + after)[0] == quit;
    } else {
      assert (before + [quit] + after)[1..] == before[1..] + [quit] + after;
      QuestionsStopAtQuit(before[1..], quit, after, crashes);
    }
  }

  /** A question whose handling raises is the last one handled: the lines
      after it are never read. */
  lemma {:induction false} QuestionsStopAtCrash(before: seq<string>, line: string, after: seq<string>, crashes: string -> bool)
    requires Classify(line).Ask? && crashes(Classify(line).text)
    ensures Questions(before + [line] + after, crashes) == Questions(before + [line], crashes)
    decreases |before|
  {
    if before == [] {
      assert ([line] + after)[1..] == after;
      assert [line][1..] == [];
    } else {
      assert (before + [line] + after)[1..] == before[1..] + [line] + after;
      assert (before + [line])[1..] == before[1..] + [line];
      QuestionsStopAtCrash(before[1..], line, after, crashes);
    }
  }

  /** Only the last handled question can have raised. */
  lemma {:induction false} OnlyLastCrashes(lines: seq<string>, crashes: string -> bool, k: nat)
    requires k + 1 < |Questions(lines, crashes)|
    ensures !crashes(Questions(lines, crashes)[k])
    decreases |lines|
  {
    match Classify(lines[0])
    case Skip => OnlyLastCrashes(lines[1..], crashes, k);
    case Ask(t) =>
      if k > 0 {
        OnlyLastCrashes(lines[1..], crashes, k - 1);
      }
  }

  /** When no question raises, every non-blank line before the first quit
      word is handled. */
  lemma {:induction false} NoCrashHandlesAll(lines: seq<string>, crashes: string -> bool, i: nat)
    requires forall j :: 0 <= j <= i && j < |lines| ==> Classify(lines[j]) != Quit
    requires forall q :: !crashes(q)
    requires i < |lines| && Classify(lines[i]).Ask?
    ensures Classify(lines[i]).text in Questions(lines, crashes)
    decreases i
  {
    if i > 0 {
      assert lines[1..][i - 1] == lines[i];
      NoCrashHandlesAll(lines[1..], crashes, i - 1);
    }
  }

  /** Every handled question is non-blank and not a quit word. */
  lemma {:induction false} QuestionsAreReal(lines: seq<string>, crashes: string -> bool, k: nat)
    requires k < |Questions(lines, crashes)|
    ensures Questions(lines, crashes)[k] != [] && Lower(Questions(lines, crashes)[k]) !in QuitWords
    decreases |lines|
  {
    match Classify(lines[0])
    case Skip => QuestionsAreReal(lines[1..], crashes, k);
    case Ask(t) =>
      if k > 0 {
        QuestionsAreReal(lines[1..], crashes, k - 1);
      }
  }
}
