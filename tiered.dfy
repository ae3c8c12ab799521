/** The three-tier title search of test_mobility_search.py: the exact query,
    then every word of it longer than three characters, then a fixed list of
    variations, merged into one result list with de-duplication and a cap.
    Each opensearch request is an oracle `search` from the search text to the
    titles it returns (`data[1]`, or [] when the response has no second
    element); None stands for any exception raised by the request or the
    JSON decoding. */
module TieredSearch {
  import opened Common

  type Search = string -> Option<seq<string>>

  const Query: string := "mobility transport"
  const MaxResults: int := 5
  const Variations: seq<string> := ["transport", "transportation", "public transport", "sustainable transport"]

  /** What a run leaves behind: the merged titles, the search texts sent in
      order, and whether an exception ended the run. */
  datatype Outcome = Outcome(results: seq<string>, issued: seq<string>, failed: bool)

  function MaxOf(a: int, b: int): int
  {
    if a >= b then a else b
  }

  /** `len(word) > 3`: the words tier 2 searches for. */
  predicate LongWord(w: string)
  {
    |w| > 3
  }

  /** Entries from `from` on are all different from every entry before them. */
  predicate FreshFrom(r: seq<string>, from: nat)
  {
    forall j :: from <= j < |r| ==> r[j] !in r[..j]
  }

  /** The inner merge loop: a title is appended only when it is not yet in
      the results and the results are shorter than the cap. */
  function Merge(results: seq<string>, titles: seq<string>, maxResults: int): seq<string>
    decreases |titles|
  {
    if titles == [] then results
    else
      var next := if titles[0] !in results && |results| < maxResults then results + [titles[0]] else results;
      Merge(next, titles[1..], maxResults)
  }

  /** The merge keeps the results as a prefix, appends only fresh titles taken
      from `titles` in their order, and stops at the cap (or at the starting
      length, when that is already past the cap). Every title ends up in the
      results unless the cap was reached. */
  lemma MergeSpec(results: seq<string>, titles: seq<string>, maxResults: int)
    ensures var r := Merge(results, titles, maxResults);
      |results| <= |r| && r[..|results|] == results &&
      |r| <= MaxOf(|results|, maxResults) &&
      FreshFrom(r, |results|) &&
      (forall j :: |results| <= j < |r| ==> r[j] in titles) &&
      IsSubsequence(r[|results|..], titles) &&
      (forall t :: t in titles ==> t in r || |r| >= maxResults)
  {
    MergeKeeps(results, titles, maxResults);
    MergeInOrder(results, titles, maxResults);
    MergeFills(results, titles, maxResults);
  }

  /** The prefix, cap and freshness half of MergeSpec. */
  lemma {:induction false} MergeKeeps(results: seq<string>, titles: seq<string>, maxResults: int)
    ensures var r := Merge(results, titles, maxResults);
      |results| <= |r| && r[..|results|] == results &&
      |r| <= MaxOf(|results|, maxResults) &&
      FreshFrom(r, |results|) &&
      forall j :: |results| <= j < |r| ==> r[j] in titles
    decreases |titles|
  {
    if titles != [] {
      var next := if titles[0] !in results && |results| < maxResults then results + [titles[0]] else results;
      MergeKeeps(next, titles[1..], maxResults);
      var r := Merge(next, titles[1..], maxResults);
      assert r[..|results|] == next[..|results|];
      assert |next| > |results| ==> r[|results|] == titles[0] && r[..|results|] == results;
    }
  }

  /** The appended titles come in the order of `titles`. */
  lemma {:induction false} MergeInOrder(results: seq<string>, titles: seq<string>, maxResults: int)
    ensures var r := Merge(results, titles, maxResults);
      |results| <= |r| && IsSubsequence(r[|results|..], titles)
    decreases |titles|
  {
    var r := Merge(results, titles, maxResults);
    if titles == [] {
      assert r[|results|..] == [];
    } else {
      var next := if titles[0] !in results && |results| < maxResults then results + [titles[0]] else results;
      MergeKeeps(next, titles[1..], maxResults);
      MergeInOrder(next, titles[1..], maxResults);
      assert r == next + r[|next|..];
      if |next| > |results| {
        assert r[|results|..] == [titles[0]] + r[|next|..];
      } else {
        assert r[|results|..] == r[|next|..];
      }
    }
  }

  /** A title is left out only when it is already there or the cap is
      reached. */
  lemma {:induction false} MergeFills(results: seq<string>, titles: seq<string>, maxResults: int)
    ensures var r := Merge(results, titles, maxResults);
      forall t :: t in titles ==> t in r || |r| >= maxResults
    decreases |titles|
  {
    if titles != [] {
      var r := Merge(results, titles, maxResults);
      var next := if titles[0] !in results && |results| < maxResults then results + [titles[0]] else results;
      MergeKeeps(next, titles[1..], maxResults);
      MergeFills(next, titles[1..], maxResults);
      assert r == next + r[|next|..];
      forall t | t in titles
        ensures t in r || |r| >= maxResults
      {
        if t != titles[0] {
          assert t in titles[1..];
        }
      }
    }
  }

  /** Tier 2 from the given results over the given query words. */
  function WordTier(results: seq<string>, words: seq<string>, maxResults: int, search: Search): Outcome
    decreases |words|
  {
    if words == [] then Outcome(results, [], false)
    else if |words[0]| <= 3 then WordTier(results, words[1..], maxResults, search)
    else match search(words[0])
      case None => Outcome(results, [words[0]], true)
      case Some(ts) =>
        var o := WordTier(Merge(results, ts, maxResults), words[1..], maxResults, search);
        Outcome(o.results, [words[0]] + o.issued, o.failed)
  }

  /** Tier 3 from the given results over the given variations, stopping before
      a search once the cap is reached. */
  function VariationTier(results: seq<string>, vars: seq<string>, maxResults: int, search: Search): Outcome
    decreases |vars|
  {
    if vars == [] || |results| >= maxResults then Outcome(results, [], false)
    else match search(vars[0])
      case None => Outcome(results, [vars[0]], true)
      case Some(ts) =>
        var o := VariationTier(Merge(results, ts, maxResults), vars[1..], maxResults, search);
        Outcome(o.results, [vars[0]] + o.issued, o.failed)
  }

  /** The whole run; an exception anywhere abandons every remaining tier. */
  function Tiered(query: string, maxResults: int, search: Search): Outcome
  {
    match search(query)
    case None => Outcome([], [query], true)
    case Some(exact) =>
      var o2 := WordTier(exact, Split(query), maxResults, search);
      if o2.failed then Outcome(o2.results, [query] + o2.issued, true)
      else
        var o3 := VariationTier(o2.results, Variations, maxResults, search);
        Outcome(o3.results, [query] + o2.issued + o3.issued, o3.failed)
  }

  /** The inner `for result in ...` loop. */
  method MergeTitles(results: seq<string>, titles: seq<string>, maxResults: int) returns (r: seq<string>)
    ensures r == Merge(results, titles, maxResults)
  {
    r := results;
    for i := 0 to |titles|
      invariant Merge(r, titles[i..], maxResults) == Merge(results, titles, maxResults)
    {
      assert titles[i..][1..] == titles[i + 1..];
      if titles[i] !in r && |r| < maxResults {
        r := r + [titles[i]];
      }
    }
  }

  /** The tier-2 loop over the query words, from the tier-1 results. */
  method SearchWords(exact: seq<string>, words: seq<string>, maxResults: int, search: Search) returns (o: Outcome)
    ensures o == WordTier(exact, words, maxResults, search)
  {
    var results := exact;
    var issued: seq<string> := [];
    for i := 0 to |words|
      invariant var rest := WordTier(results, words[i..], maxResults, search);
        WordTier(exact, words, maxResults, search) == Outcome(rest.results, issued + rest.issued, rest.failed)
    {
      assert words[i..][1..] == words[i + 1..];
      var word := words[i];
      if |word| > 3 {
        var wordResults := search(word);
        if wordResults.None? {
          issued := issued + [word];
          return Outcome(results, issued, true);
        }
        var merged := MergeTitles(results, wordResults.value, maxResults);
        ghost var rest := WordTier(merged, words[i + 1..], maxResults, search);
        assert WordTier(results, words[i..], maxResults, search) == Outcome(rest.results, [word] + rest.issued, rest.failed);
        assert issued + ([word] + rest.issued) == (issued + [word]) + rest.issued;
        issued := issued + [word];
        results := merged;
      }
    }
    assert issued + [] == issued;
    return Outcome(results, issued, false);
  }

  /** The tier-3 loop over the variations, with its early `break`. */
  method SearchVariations(start: seq<string>, vars: seq<string>, maxResults: int, search: Search) returns (o: Outcome)
    ensures o == VariationTier(start, vars, maxResults, search)
  {
    var results := start;
    var issued: seq<string> := [];
    for k := 0 to |vars|
      invariant var rest := VariationTier(results, vars[k..], maxResults, search);
        VariationTier(start, vars, maxResults, search) == Outcome(rest.results, issued + rest.issued, rest.failed)
    {
      if |results| >= maxResults {
        break;
      }
      assert vars[k..][1..] == vars[k + 1..];
      var variation := vars[k];
      var varResults := search(variation);
      issued := issued + [variation];
      if varResults.None? {
        return Outcome(results, issued, true);
      }
      results := MergeTitles(results, varResults.value, maxResults);
    }
    assert issued + [] == issued;
    return Outcome(results, issued, false);
  }

  /** `test_enhanced_search` with the query and the cap as parameters. */
  method EnhancedSearch(query: string, maxResults: int, search: Search) returns (o: Outcome)
    ensures o == Tiered(query, maxResults, search)
  {
    var response := search(query);
    if response.None? {
      return Outcome([], [query], true);
    }
    var o2 := SearchWords(response.value, Split(query), maxResults, search);
    if o2.failed {
      return Outcome(o2.results, [query] + o2.issued, true);
    }
    var o3 := SearchVariations(o2.results, Variations, maxResults, search);
    return Outcome(o3.results, [query] + o2.issued + o3.issued, o3.failed);
  }

  /** The titles the successful searches among `qs` returned, in order. */
  function Gathered(qs: seq<string>, search: Search): seq<string>
    decreases |qs|
  {
    if qs == [] then []
    else (match search(qs[0]) case None => [] case Some(ts) => ts) + Gathered(qs[1..], search)
  }

  lemma {:induction false} GatheredConcat(a: seq<string>, b: seq<string>, search: Search)
    ensures Gathered(a + b, search) == Gathered(a, search) + Gathered(b, search)
    decreases |a|
  {
    if a == [] {
      assert a + b == b;
    } else {
      assert (a + b)[0] == a[0] && (a + b)[1..] == a[1..] + b;
      GatheredConcat(a[1..], b, search);
    }
  }

  /** One more successful search in front: its titles come first. */
  lemma GatheredCons(q: string, qs: seq<string>, search: Search)
    ensures Gathered([q] + qs, search) ==
      (match search(q) case None => [] case Some(ts) => ts) + Gathered(qs, search)
  {
    assert ([q] + qs)[0] == q && ([q] + qs)[1..] == qs;
  }

  /** A stage after `m` that keeps `m` as a prefix, following a merge from
      `results` to `m`: the titles the two add come in the order of their
      answers, and every answer title is in the final results unless the cap
      is reached. */
  lemma StageCompose(results: seq<string>, ts: seq<string>, m: seq<string>, final: seq<string>,
                     rest: seq<string>, maxResults: int)
    requires |results| <= |m| && m[..|results|] == results
    requires IsSubsequence(m[|results|..], ts) && (forall t :: t in ts ==> t in m || |m| >= maxResults)
    requires |m| <= |final| && final[..|m|] == m
    requires IsSubsequence(final[|m|..], rest) && (forall t :: t in rest ==> t in final || |final| >= maxResults)
    ensures |results| <= |final| && final[..|results|] == results
    ensures IsSubsequence(final[|results|..], ts + rest)
    ensures forall t :: t in ts + rest ==> t in final || |final| >= maxResults
  {
    assert final[|results|..] == m[|results|..] + final[|m|..];
    SubsequenceConcat(m[|results|..], ts, final[|m|..], rest);
    assert final == m + final[|m|..];
  }

  /** The titles tier 2 adds come in the order the word searches returned
      them, and each of those titles is in the results unless the cap is
      reached. */
  lemma {:induction false} WordTierFills(results: seq<string>, words: seq<string>, maxResults: int, search: Search)
    ensures var o := WordTier(results, words, maxResults, search);
      |results| <= |o.results| && o.results[..|results|] == results &&
      IsSubsequence(o.results[|results|..], Gathered(o.issued, search)) &&
      (forall t :: t in Gathered(o.issued, search) ==> t in o.results || |o.results| >= maxResults)
    decreases |words|
  {
    var o := WordTier(results, words, maxResults, search);
    if words == [] {
      assert o.results[|results|..] == [];
    } else if |words[0]| <= 3 {
      WordTierFills(results, words[1..], maxResults, search);
    } else if search(words[0]).None? {
      GatheredCons(words[0], [], search);
      assert o.results[|results|..] == [];
    } else {
      var ts := search(words[0]).value;
      var m := Merge(results, ts, maxResults);
      MergeSpec(results, ts, maxResults);
      var o2 := WordTier(m, words[1..], maxResults, search);
      WordTierFills(m, words[1..], maxResults, search);
      GatheredCons(words[0], o2.issued, search);
      StageCompose(results, ts, m, o2.results, Gathered(o2.issued, search), maxResults);
    }
  }

  /** The same for tier 3, whose searches are the variations it sent. */
  lemma {:induction false} VariationTierFills(results: seq<string>, vars: seq<string>, maxResults: int, search: Search)
    ensures var o := VariationTier(results, vars, maxResults, search);
      |results| <= |o.results| && o.results[..|results|] == results &&
      IsSubsequence(o.results[|results|..], Gathered(o.issued, search)) &&
      (forall t :: t in Gathered(o.issued, search) ==> t in o.results || |o.results| >= maxResults)
    decreases |vars|
  {
    var o := VariationTier(results, vars, maxResults, search);
    if vars == [] || |results| >= maxResults {
      assert o.results[|results|..] == [];
    } else if search(vars[0]).None? {
      GatheredCons(vars[0], [], search);
      assert o.results[|results|..] == [];
    } else {
      var ts := search(vars[0]).value;
      var m := Merge(results, ts, maxResults);
      MergeSpec(results, ts, maxResults);
      var o3 := VariationTier(m, vars[1..], maxResults, search);
      VariationTierFills(m, vars[1..], maxResults, search);
      GatheredCons(vars[0], o3.issued, search);
      StageCompose(results, ts, m, o3.results, Gathered(o3.issued, search), maxResults);
    }
  }

  /** Tier 2 keeps the results it starts from as a prefix, adds only fresh
      titles in the order its searches returned them, fills up with every
      returned title until the cap is reached, never passes the cap, and
      sends exactly the long words in order when nothing fails. */
  lemma {:induction false} WordTierSpec(results: seq<string>, words: seq<string>, maxResults: int, search: Search)
    ensures var o := WordTier(results, words, maxResults, search);
      |results| <= |o.results| && o.results[..|results|] == results &&
      |o.results| <= MaxOf(|results|, maxResults) && FreshFrom(o.results, |results|) &&
      IsSubsequence(o.results[|results|..], Gathered(o.issued, search)) &&
      (forall t :: t in Gathered(o.issued, search) ==> t in o.results || |o.results| >= maxResults) &&
      (!o.failed ==> o.issued == Filter(words, LongWord))
    decreases |words|
  {
    WordTierFills(results, words, maxResults, search);
    var p := LongWord;
    if words != [] {
      if |words[0]| <= 3 {
        WordTierSpec(results, words[1..], maxResults, search);
      } else if search(words[0]).Some? {
        var m := Merge(results, search(words[0]).value, maxResults);
        MergeSpec(results, search(words[0]).value, maxResults);
        WordTierSpec(m, words[1..], maxResults, search);
        FreshCompose(results, m, WordTier(m, words[1..], maxResults, search).results);
      }
    }
  }

  /** Tier 3 has the same merge properties, and sends nothing at all once the
      cap is already reached; without failure it sends a prefix of the
      variations, and it stops short of the last one only because the results
      reached the cap. */
  lemma {:induction false} VariationTierSpec(results: seq<string>, vars: seq<string>, maxResults: int, search: Search)
    ensures var o := VariationTier(results, vars, maxResults, search);
      |results| <= |o.results| && o.results[..|results|] == results &&
      |o.results| <= MaxOf(|results|, maxResults) && FreshFrom(o.results, |results|) &&
      IsSubsequence(o.results[|results|..], Gathered(o.issued, search)) &&
      (forall t :: t in Gathered(o.issued, search) ==> t in o.results || |o.results| >= maxResults) &&
      (!o.failed ==> |o.issued| <= |vars| && o.issued == vars[..|o.issued|]) &&
      (!o.failed && |o.issued| < |vars| ==> |o.results| >= maxResults) &&
      (|results| >= maxResults ==> o == Outcome(results, [], false))
    decreases |vars|
  {
    VariationTierFills(results, vars, maxResults, search);
    if vars != [] && |results| < maxResults && search(vars[0]).Some? {
      var m := Merge(results, search(vars[0]).value, maxResults);
      MergeSpec(results, search(vars[0]).value, maxResults);
      VariationTierSpec(m, vars[1..], maxResults, search);
      FreshCompose(results, m, VariationTier(m, vars[1..], maxResults, search).results);
    }
  }

  lemma FreshCompose(a: seq<string>, b: seq<string>, c: seq<string>)
    requires |a| <= |b| && b[..|a|] == a && FreshFrom(b, |a|)
    requires |b| <= |c| && c[..|b|] == b && FreshFrom(c, |b|)
    ensures |a| <= |c| && c[..|a|] == a && FreshFrom(c, |a|)
  {
    forall j | |a| <= j < |b|
      ensures c[j] !in c[..j]
    {
      assert c[j] == b[j] && c[..j] == b[..j];
    }
  }

  /** The tier-1 titles open the results unaltered, duplicates and all and
      however many; tiers 2 and 3 only add titles different from every earlier
      entry, in the order their searches returned them, take every returned
      title until the cap is reached, and never raise the length past
      max(tier-1 length, cap). */
  lemma TieredMerge(query: string, maxResults: int, search: Search)
    requires search(query).Some?
    ensures var exact := search(query).value;
      var o := Tiered(query, maxResults, search);
      var later := Gathered(o.issued[1..], search);
      |exact| <= |o.results| && o.results[..|exact|] == exact &&
      |o.results| <= MaxOf(|exact|, maxResults) && FreshFrom(o.results, |exact|) &&
      IsSubsequence(o.results[|exact|..], later) &&
      (forall t :: t in later ==> t in o.results || |o.results| >= maxResults)
  {
    var exact := search(query).value;
    var o2 := WordTier(exact, Split(query), maxResults, search);
    WordTierSpec(exact, Split(query), maxResults, search);
    if !o2.failed {
      VariationTierSpec(o2.results, Variations, maxResults, search);
      var o3 := VariationTier(o2.results, Variations, maxResults, search);
      FreshCompose(exact, o2.results, o3.results);
      if |exact| >= maxResults {
        assert |o2.results| <= |exact|;
      }
    }
    TieredFills(query, maxResults, search);
  }

  /** The fill half of `TieredMerge`: the titles tiers 2 and 3 add form a
      subsequence of what their searches returned, and none of those is
      missing unless the cap is reached. */
  lemma TieredFills(query: string, maxResults: int, search: Search)
    requires search(query).Some?
    ensures var exact := search(query).value;
      var o := Tiered(query, maxResults, search);
      var later := Gathered(o.issued[1..], search);
      |exact| <= |o.results| && o.results[..|exact|] == exact &&
      IsSubsequence(o.results[|exact|..], later) &&
      (forall t :: t in later ==> t in o.results || |o.results| >= maxResults)
  {
    var exact := search(query).value;
    var o2 := WordTier(exact, Split(query), maxResults, search);
    WordTierFills(exact, Split(query), maxResults, search);
    if !o2.failed {
      var o3 := VariationTier(o2.results, Variations, maxResults, search);
      VariationTierFills(o2.results, Variations, maxResults, search);
      StagesFill(query, exact, o2, o3, maxResults, search);
    } else {
      assert ([query] + o2.issued)[1..] == o2.issued;
    }
  }

  /** Two tiers in a row: what each adds is a subsequence of what its own
      searches returned, so what both add is one of everything they sent. */
  lemma StagesFill(query: string, exact: seq<string>, o2: Outcome, o3: Outcome, maxResults: int, search: Search)
    requires |exact| <= |o2.results| && o2.results[..|exact|] == exact
    requires IsSubsequence(o2.results[|exact|..], Gathered(o2.issued, search))
    requires forall t :: t in Gathered(o2.issued, search) ==> t in o2.results || |o2.results| >= maxResults
    requires |o2.results| <= |o3.results| && o3.results[..|o2.results|] == o2.results
    requires IsSubsequence(o3.results[|o2.results|..], Gathered(o3.issued, search))
    requires forall t :: t in Gathered(o3.issued, search) ==> t in o3.results || |o3.results| >= maxResults
    ensures var later := Gathered(([query] + o2.issued + o3.issued)[1..], search);
      |exact| <= |o3.results| && o3.results[..|exact|] == exact &&
      IsSubsequence(o3.results[|exact|..], later) &&
      (forall t :: t in later ==> t in o3.results || |o3.results| >= maxResults)
  {
    assert ([query] + o2.issued + o3.issued)[1..] == o2.issued + o3.issued;
    GatheredConcat(o2.issued, o3.issued, search);
    StageCompose(exact, Gathered(o2.issued, search), o2.results, o3.results, Gathered(o3.issued, search), maxResults);
  }

  /** An exception ends the run at once: the search that raised is the last
      one sent. A run without one sends the query, then its long words, then
      a prefix of the variations. */
  lemma TieredIssued(query: string, maxResults: int, search: Search)
    ensures var o := Tiered(query, maxResults, search);
      o.issued != [] && o.issued[0] == query &&
      (o.failed ==> search(o.issued[|o.issued| - 1]).None?) &&
      (!o.failed ==>
        exists n :: 0 <= n <= |Variations| && o.issued == [query] + Filter(Split(query), LongWord) + Variations[..n])
  {
    match search(query)
    case None =>
    case Some(exact) =>
      var o2 := WordTier(exact, Split(query), maxResults, search);
      WordTierLast(exact, Split(query), maxResults, search);
      WordTierSpec(exact, Split(query), maxResults, search);
      if !o2.failed {
        var o3 := VariationTier(o2.results, Variations, maxResults, search);
        VariationTierLast(o2.results, Variations, maxResults, search);
        VariationTierSpec(o2.results, Variations, maxResults, search);
        if !o3.failed {
          var n := |o3.issued|;
          assert o3.issued == Variations[..n];
          assert Tiered(query, maxResults, search).issued == [query] + Filter(Split(query), LongWord) + Variations[..n];
        }
      }
  }

  lemma {:induction false} WordTierLast(results: seq<string>, words: seq<string>, maxResults: int, search: Search)
    ensures var o := WordTier(results, words, maxResults, search);
      o.failed ==> o.issued != [] && search(o.issued[|o.issued| - 1]).None?
    decreases |words|
  {
    if words != [] {
      if |words[0]| <= 3 {
        WordTierLast(results, words[1..], maxResults, search);
      } else if search(words[0]).Some? {
        WordTierLast(Merge(results, search(words[0]).value, maxResults), words[1..], maxResults, search);
      }
    }
  }

  lemma {:induction false} VariationTierLast(results: seq<string>, vars: seq<string>, maxResults: int, search: Search)
    ensures var o := VariationTier(results, vars, maxResults, search);
      o.failed ==> o.issued != [] && search(o.issued[|o.issued| - 1]).None?
    decreases |vars|
  {
    if vars != [] && |results| < maxResults && search(vars[0]).Some? {
      VariationTierLast(Merge(results, search(vars[0]).value, maxResults), vars[1..], maxResults, search);
    }
  }

  lemma SplitQuery()
    ensures Split(Query) == ["mobility", "transport"]
  {
    var ws := ["mobility", "transport"];
    assert NoSpace("mobility") && NoSpace("transport");
    SplitJoin(ws);
    assert Join(" ", ws) == "mobility transport";
  }

  lemma LongWordsOfQuery()
    ensures Filter(Split(Query), LongWord) == ["mobility", "transport"]
  {
    SplitQuery();
    var p := LongWord;
    assert Filter(["transport"], p) == ["transport"];
    assert ["mobility", "transport"][1..] == ["transport"];
  }

  /** For the script's own query both words are long, so a run without an
      exception searches "mobility transport", "mobility", "transport" and
      then some of the variations. */
  lemma ScriptQueries(search: Search)
    ensures var o := Tiered(Query, MaxResults, search);
      !o.failed ==> |o.issued| >= 3 && o.issued[..3] == [Query, "mobility", "transport"]
  {
    LongWordsOfQuery();
    TieredIssued(Query, MaxResults, search);
    var o := Tiered(Query, MaxResults, search);
    if !o.failed {
      var n :| 0 <= n <= |Variations| && o.issued == [Query] + ["mobility", "transport"] + Variations[..n];
      assert o.issued[..3] == [Query] + ["mobility", "transport"];
    }
  }
}
