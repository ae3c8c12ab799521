/** Shared vocabulary of the model: failure-carrying wrappers, Python's string
    methods (`lower` and `upper` on ASCII letters, `split` and `strip` on the
    characters of `str.isspace`, `in`, `join`),
    decimal formatting of integers, Python's `s[:n]` slice, and the small
    sequence notions (first-seen order, duplicate freedom, counting,
    subsequences) that several parts of the system rely on. */
module Common {

  datatype Option<+T> = None | Some(value: T)

  /** An operation that either produces a value or raises; `Err` carries the
      reason that the Python code would have raised with. */
  datatype Result<+T> = Ok(value: T) | Err(reason: string)

  // ---------------------------------------------------------------- characters

  /** `str.isspace`, the whitespace of `split()` and `strip()`: tab through
      carriage return, the four separators U+001C..U+001F, space, NEL,
      no-break space, and the Unicode spaces and line/paragraph separators. */
  predicate IsSpace(c: char)
  {
    ('\t' <= c <= '\r') || ('\U{1C}' <= c <= ' ') || c == '\U{85}' || c == '\U{A0}' || c == '\U{1680}'
    || ('\U{2000}' <= c <= '\U{200A}') || c == '\U{2028}' || c == '\U{2029}' || c == '\U{202F}'
    || c == '\U{205F}' || c == '\U{3000}'
  }

  const Whitespace: set<char> := set c: char | '\t' <= c <= '\U{3000}' && IsSpace(c)

  predicate IsAsciiAlnum(c: char)
  {
    ('a' <= c <= 'z') || ('A' <= c <= 'Z') || ('0' <= c <= '9')
  }

  function LowerChar(c: char): char
  {
    if 'A' <= c <= 'Z' then (c as int + 32) as char else c
  }

  function UpperChar(c: char): char
  {
    if 'a' <= c <= 'z' then (c as int - 32) as char else c
  }

  /** `s.lower()` on ASCII letters; every other character is kept. */
  function Lower(s: string): (r: string)
    ensures |r| == |s|
    ensures forall i :: 0 <= i < |s| ==> r[i] == LowerChar(s[i])
  {
    seq(|s|, i requires 0 <= i < |s| => LowerChar(s[i]))
  }

  /** `s.upper()` on ASCII letters. */
  function Upper(s: string): (r: string)
    ensures |r| == |s|
    ensures forall i :: 0 <= i < |s| ==> r[i] == UpperChar(s[i])
  {
    seq(|s|, i requires 0 <= i < |s| => UpperChar(s[i]))
  }

  lemma LowerIdempotent(s: string)
    ensures Lower(Lower(s)) == Lower(s)
  {
  }

  predicate NoSpace(w: string)
  {
    forall i :: 0 <= i < |w| ==> !IsSpace(w[i])
  }

  // -------------------------------------------------------------- split, join

  /** Number of leading non-whitespace characters of `s`. */
  function WordLen(s: string): (n: nat)
    ensures n <= |s|
    ensures forall i :: 0 <= i < n ==> !IsSpace(s[i])
    ensures n < |s| ==> IsSpace(s[n])
  {
    if s == [] || IsSpace(s[0]) then 0 else 1 + WordLen(s[1..])
  }

  /** `s.split()` with no separator: maximal runs of non-whitespace, in order. */
  function Split(s: string): (ws: seq<string>)
    ensures forall k :: 0 <= k < |ws| ==> ws[k] != [] && NoSpace(ws[k])
    decreases |s|
  {
    if s == [] then []
    else if IsSpace(s[0]) then Split(s[1..])
    else
      var n := WordLen(s);
      [s[..n]] + Split(s[n..])
  }

  lemma {:induction false} SplitLeadingSpace(s: string)
    requires s != [] && IsSpace(s[0])
    ensures Split(s) == Split(s[1..])
  {
  }

  /** Splitting a word followed by a space and more text yields that word first. */
  lemma SplitWordThenSpace(w: string, rest: string)
    requires w != [] && NoSpace(w)
    ensures Split(w + " " + rest) == [w] + Split(rest)
  {
    var s := w + " " + rest;
    WordLenOfWord(w, " " + rest);
    assert s[..|w|] == w;
    assert s[|w|..] == " " + rest;
    SplitLeadingSpace(" " + rest);
    assert (" " + rest)[1..] == rest;
  }

  lemma SplitWord(w: string)
    requires w != [] && NoSpace(w)
    ensures Split(w) == [w]
  {
    WordLenOfWord(w, "");
    assert w + "" == w;
    assert w[|w|..] == [];
  }

  lemma {:induction false} WordLenOfWord(w: string, rest: string)
    requires NoSpace(w)
    requires rest == [] || IsSpace(rest[0])
    ensures WordLen(w + rest) == |w|
  {
    if w != [] {
      assert (w + rest)[1..] == w[1..] + rest;
      WordLenOfWord(w[1..], rest);
    } else {
      assert w + rest == rest;
    }
  }

  /** `" ".join` and `split()` are inverse on non-empty words without whitespace. */
  lemma {:induction false} SplitJoin(ws: seq<string>)
    requires forall k :: 0 <= k < |ws| ==> ws[k] != [] && NoSpace(ws[k])
    ensures Split(Join(" ", ws)) == ws
  {
    if |ws| == 1 {
      SplitWord(ws[0]);
    } else if |ws| > 1 {
      SplitJoin(ws[1..]);
      SplitWordThenSpace(ws[0], Join(" ", ws[1..]));
      assert ws == [ws[0]] + ws[1..];
    }
  }

  /** `sep.join(ws)`. */
  function Join(sep: string, ws: seq<string>): string
  {
    if ws == [] then ""
    else if |ws| == 1 then ws[0]
    else ws[0] + sep + Join(sep, ws[1..])
  }

  lemma {:induction false} JoinNonEmpty(sep: string, ws: seq<string>)
    requires ws != [] && ws[0] != []
    ensures Join(sep, ws) != []
  {
    if |ws| > 1 {
      assert Join(sep, ws) == ws[0] + sep + Join(sep, ws[1..]);
    }
  }

  /** Every character of `Join(sep, ws)` comes from a word or from the separator. */
  lemma {:induction false} JoinChars(sep: string, ws: seq<string>, c: char)
    requires c in Join(sep, ws)
    ensures c in sep || exists k :: 0 <= k < |ws| && c in ws[k]
  {
    if |ws| > 1 {
      var rest := Join(sep, ws[1..]);
      assert Join(sep, ws) == ws[0] + sep + rest;
      if c in ws[0] {
      } else if c in sep {
      } else {
        assert c in rest;
        JoinChars(sep, ws[1..], c);
        var k :| 0 <= k < |ws[1..]| && c in ws[1..][k];
        assert c in ws[k + 1];
      }
    } else {
      assert c in ws[0];
    }
  }

  // --------------------------------------------------------------------- strip

  /** Number of leading characters of `s` that belong to `cs`. */
  function LeadCount(s: string, cs: set<char>): (n: nat)
    ensures n <= |s|
  {
    if s == [] || s[0] !in cs then 0 else 1 + LeadCount(s[1..], cs)
  }

  /** Number of trailing characters of `s` that belong to `cs`. */
  function TrailCount(s: string, cs: set<char>): (n: nat)
    ensures n <= |s|
  {
    if s == [] || s[|s| - 1] !in cs then 0 else 1 + TrailCount(s[..|s| - 1], cs)
  }

  lemma {:induction false} LeadCountSpec(s: string, cs: set<char>)
    ensures forall i :: 0 <= i < LeadCount(s, cs) ==> s[i] in cs
    ensures LeadCount(s, cs) < |s| ==> s[LeadCount(s, cs)] !in cs
  {
    if s != [] && s[0] in cs {
      LeadCountSpec(s[1..], cs);
    }
  }

  lemma {:induction false} TrailCountSpec(s: string, cs: set<char>)
    ensures forall i :: |s| - TrailCount(s, cs) <= i < |s| ==> s[i] in cs
    ensures TrailCount(s, cs) < |s| ==> s[|s| - 1 - TrailCount(s, cs)] !in cs
  {
    if s != [] && s[|s| - 1] in cs {
      TrailCountSpec(s[..|s| - 1], cs);
    }
  }

  /** `s.strip(chars)`: drop characters of `cs` from the left end, then
      from the right end of what is left, as CPython's strip scans. */
  function Strip(s: string, cs: set<char>): (r: string)
    ensures |r| <= |s|
    decreases |s|
  {
    if s != [] && s[0] in cs then Strip(s[1..], cs) else StripRight(s, cs)
  }

  /** `s.rstrip(chars)`. */
  function StripRight(s: string, cs: set<char>): (r: string)
    ensures |r| <= |s|
    decreases |s|
  {
    if s != [] && s[|s| - 1] in cs then StripRight(s[..|s| - 1], cs) else s
  }

  /** The offsets strip cuts at: the result is `s[StripFrom..StripTo]`. */
  function StripFrom(s: string, cs: set<char>): nat
  {
    LeadCount(s, cs)
  }

  /** The right scan stops at the left cut. */
  function StripTo(s: string, cs: set<char>): (e: nat)
    ensures StripFrom(s, cs) <= e <= |s|
  {
    var a := LeadCount(s, cs);
    |s| - TrailCount(s[a..], cs)
  }

  lemma {:induction false} StripRightSlice(s: string, cs: set<char>)
    ensures StripRight(s, cs) == s[..|s| - TrailCount(s, cs)]
    decreases |s|
  {
    if s != [] && s[|s| - 1] in cs {
      StripRightSlice(s[..|s| - 1], cs);
    }
  }

  lemma {:induction false} StripLeftSlice(s: string, cs: set<char>)
    ensures Strip(s, cs) == StripRight(s[LeadCount(s, cs)..], cs)
    decreases |s|
  {
    if s != [] && s[0] in cs {
      StripLeftSlice(s[1..], cs);
      assert s[1..][LeadCount(s[1..], cs)..] == s[LeadCount(s, cs)..];
    }
  }

  /** What strip keeps: the slice between the cuts, whose ends are outside
      `cs`, empty exactly when every character of `s` is in `cs`. */
  lemma StripSpec(s: string, cs: set<char>)
    ensures Strip(s, cs) == s[StripFrom(s, cs)..StripTo(s, cs)]
    ensures Strip(s, cs) != [] ==> Strip(s, cs)[0] !in cs && Strip(s, cs)[|Strip(s, cs)| - 1] !in cs
    ensures Strip(s, cs) == [] <==> forall i :: 0 <= i < |s| ==> s[i] in cs
  {
    StripSlice(s, cs);
    StripCuts(s, cs);
  }

  lemma StripSlice(s: string, cs: set<char>)
    ensures Strip(s, cs) == s[StripFrom(s, cs)..StripTo(s, cs)]
  {
    var t := s[LeadCount(s, cs)..];
    StripLeftSlice(s, cs);
    StripRightSlice(t, cs);
    assert t[..|t| - TrailCount(t, cs)] == s[LeadCount(s, cs)..StripTo(s, cs)];
  }

  /** The characters at the cuts are outside `cs`; the slice is empty exactly
      when every character is in `cs`. */
  lemma StripCuts(s: string, cs: set<char>)
    ensures StripFrom(s, cs) < StripTo(s, cs) ==> s[StripFrom(s, cs)] !in cs && s[StripTo(s, cs) - 1] !in cs
    ensures StripFrom(s, cs) == StripTo(s, cs) <==> forall i :: 0 <= i < |s| ==> s[i] in cs
  {
    var a := LeadCount(s, cs);
    var t := s[a..];
    LeadCountSpec(s, cs);
    TrailCountSpec(t, cs);
    if a < StripTo(s, cs) {
      assert t[|t| - 1 - TrailCount(t, cs)] == s[StripTo(s, cs) - 1];
    }
  }

  /** `s.strip()` with no argument: the characters of `str.isspace`. */
  function Trim(s: string): (r: string)
    ensures |r| <= |s|
  {
    Strip(s, Whitespace)
  }

  lemma TrimEmptyIff(s: string)
    ensures Trim(s) == [] <==> forall i :: 0 <= i < |s| ==> IsSpace(s[i])
  {
    StripSpec(s, Whitespace);
    assert forall c :: c in Whitespace <==> IsSpace(c);
  }

  // ---------------------------------------------------------------- substring

  /** `needle` occurs in `hay` starting at offset `i`. */
  predicate OccursAt(hay: string, needle: string, i: int)
  {
    0 <= i <= |hay| - |needle| && hay[i..i + |needle|] == needle
  }

  /** Python's `needle in hay` for strings. */
  predicate Contains(hay: string, needle: string)
    decreases |hay|
  {
    needle <= hay || (hay != [] && Contains(hay[1..], needle))
  }

  /** `Contains` is the usual occurrence-at-some-offset notion. */
  lemma {:induction false} ContainsIff(hay: string, needle: string)
    ensures Contains(hay, needle) <==> exists i :: OccursAt(hay, needle, i)
  {
    if needle <= hay {
      assert OccursAt(hay, needle, 0);
    } else if hay == [] {
    } else {
      ContainsIff(hay[1..], needle);
      if exists i :: OccursAt(hay[1..], needle, i) {
        var i :| OccursAt(hay[1..], needle, i);
        assert hay[i + 1..i + 1 + |needle|] == hay[1..][i..i + |needle|];
        assert OccursAt(hay, needle, i + 1);
      }
      if exists i :: OccursAt(hay, needle, i) {
        var i :| OccursAt(hay, needle, i);
        assert i != 0;
        assert hay[1..][i - 1..i - 1 + |needle|] == hay[i..i + |needle|];
        assert OccursAt(hay[1..], needle, i - 1);
      }
    }
  }

  lemma EmptyContained(hay: string)
    ensures Contains(hay, "")
  {
  }

  // ------------------------------------------------------------------ numbers

  function DigitChar(d: nat): (c: char)
    requires d < 10
    ensures '0' <= c <= '9'
  {
    "0123456789"[d]
  }

  lemma DigitCharInjective(a: nat, b: nat)
    requires a < 10 && b < 10 && DigitChar(a) == DigitChar(b)
    ensures a == b
  {
  }

  /** `str(n)` for a non-negative integer. */
  function NatToString(n: nat): (s: string)
    ensures |s| >= 1
    ensures forall i :: 0 <= i < |s| ==> '0' <= s[i] <= '9'
    ensures |s| == 1 <==> n < 10
  {
    if n < 10 then [DigitChar(n)] else NatToString(n / 10) + [DigitChar(n % 10)]
  }

  /** Distinct numbers print differently, so numbered ids never collide. */
  lemma {:induction false} NatToStringInjective(n: nat, m: nat)
    requires NatToString(n) == NatToString(m)
    ensures n == m
  {
    if n < 10 || m < 10 {
      DigitCharInjective(n, m);
    } else {
      var sn, sm := NatToString(n), NatToString(m);
      assert sn[|sn| - 1] == DigitChar(n % 10) && sm[|sm| - 1] == DigitChar(m % 10);
      DigitCharInjective(n % 10, m % 10);
      assert sn[..|sn| - 1] == NatToString(n / 10);
      assert sm[..|sm| - 1] == NatToString(m / 10);
      NatToStringInjective(n / 10, m / 10);
    }
  }

  // ---------------------------------------------------------------- sequences

  /** Python's `s[:n]`, including the negative `n` that counts from the end. */
  function TakePrefix<T>(s: seq<T>, n: int): (r: seq<T>)
    ensures r <= s
    ensures 0 <= n ==> |r| == (if n < |s| then n else |s|)
    ensures n < 0 ==> |r| == (if -n < |s| then |s| + n else 0)
  {
    if 0 <= n then (if n < |s| then s[..n] else s)
    else if -n < |s| then s[..|s| + n] else []
  }

  predicate NoDup<T(==)>(s: seq<T>)
  {
    forall i, j :: 0 <= i < j < |s| ==> s[i] != s[j]
  }

  /** A list without repeats has as many elements as its set. */
  lemma {:induction false} NoDupCardinality<T>(a: seq<T>)
    requires NoDup(a)
    ensures |(set x | x in a)| == |a|
    decreases |a|
  {
    if a != [] {
      var init := a[..|a| - 1];
      assert forall i, j :: 0 <= i < j < |init| ==> init[i] == a[i] && init[j] == a[j];
      NoDupCardinality(init);
      assert a == init + [a[|a| - 1]];
      assert (set x | x in a) == (set x | x in init) + {a[|a| - 1]};
      assert a[|a| - 1] !in init;
    }
  }

  /** Two lists without repeats that both hold exactly the elements of `xs`
      have the same length. */
  lemma SameElementsSameLength<T>(a: seq<T>, b: seq<T>, xs: seq<T>)
    requires NoDup(a) && NoDup(b)
    requires forall i :: 0 <= i < |a| ==> a[i] in xs
    requires forall i :: 0 <= i < |b| ==> b[i] in xs
    requires forall i :: 0 <= i < |xs| ==> xs[i] in a && xs[i] in b
    ensures |a| == |b|
  {
    NoDupCardinality(a);
    NoDupCardinality(b);
    assert (set x | x in a) == (set x | x in b);
  }

  function Count<T(==)>(s: seq<T>, x: T): (n: nat)
    ensures n <= |s|
    ensures n == 0 <==> x !in s
  {
    if s == [] then 0 else (if s[|s| - 1] == x then 1 else 0) + Count(s[..|s| - 1], x)
  }

  /** The distinct elements of `s` in order of first appearance: what a Python
      dict keyed by the elements holds after one pass over `s`. */
  function FirstSeen<T(==)>(s: seq<T>): (r: seq<T>)
    ensures NoDup(r)
    ensures forall i :: 0 <= i < |s| ==> s[i] in r
    ensures |r| <= |s|
  {
    if s == [] then []
    else
      var p := FirstSeen(s[..|s| - 1]);
      var x := s[|s| - 1];
      if x in p then p else p + [x]
  }

  /** Index of the first occurrence of `x` in `s`. */
  function IndexOf<T(==)>(s: seq<T>, x: T): (i: nat)
    requires x in s
    ensures i < |s| && s[i] == x
    ensures forall j :: 0 <= j < i ==> s[j] != x
  {
    if s[0] == x then 0 else 1 + IndexOf(s[1..], x)
  }

  /** Every element of `FirstSeen(s)` comes from `s`.  Kept out of the
      function's own contract: together with the converse it makes the
      solver chase membership back and forth. */
  lemma {:induction false} FirstSeenWithin<T>(s: seq<T>)
    ensures forall i :: 0 <= i < |FirstSeen(s)| ==> FirstSeen(s)[i] in s
  {
    if s != [] {
      var init := s[..|s| - 1];
      FirstSeenWithin(init);
      assert forall x :: x in init ==> x in s;
    }
  }

  /** First-seen order is the order of first occurrences in `s`; the
      elements compared are in `s` by `FirstSeenWithin`. */
  lemma {:induction false} FirstSeenOrder<T>(s: seq<T>, i: nat, j: nat)
    requires i < j < |FirstSeen(s)|
    requires FirstSeen(s)[i] in s && FirstSeen(s)[j] in s
    ensures IndexOf(s, FirstSeen(s)[i]) < IndexOf(s, FirstSeen(s)[j])
  {
    var p := FirstSeen(s[..|s| - 1]);
    var x := s[|s| - 1];
    var r := FirstSeen(s);
    assert s[..|s| - 1] + [x] == s;
    FirstSeenWithin(s[..|s| - 1]);
    if x in p || j < |p| {
      assert r[i] == p[i] && r[j] == p[j];
      FirstSeenOrder(s[..|s| - 1], i, j);
      IndexOfPrefix(s[..|s| - 1], [x], p[i]);
      IndexOfPrefix(s[..|s| - 1], [x], p[j]);
    } else {
      assert r[j] == x && r[i] == p[i];
      assert x !in s[..|s| - 1];
      IndexOfPrefix(s[..|s| - 1], [x], p[i]);
      assert IndexOf(s, x) == |s| - 1;
    }
  }

  lemma IndexOfPrefix<T>(a: seq<T>, b: seq<T>, x: T)
    requires x in a
    ensures IndexOf(a + b, x) == IndexOf(a, x)
  {
    var k := IndexOf(a, x);
    assert (a + b)[k] == x;
    var m := IndexOf(a + b, x);
    assert m <= k;
    assert a[m] == (a + b)[m];
  }

  function Filter<T>(s: seq<T>, p: T -> bool): (r: seq<T>)
    ensures |r| <= |s|
    ensures forall i :: 0 <= i < |r| ==> p(r[i])
  {
    if s == [] then [] else (if p(s[0]) then [s[0]] else []) + Filter(s[1..], p)
  }

  /** The filter keeps every occurrence of an element that passes and none
      of one that fails: `[x for x in s if p(x)]` loses nothing else. */
  lemma {:induction false} FilterCount<T>(s: seq<T>, p: T -> bool, x: T)
    ensures multiset(Filter(s, p))[x] == if p(x) then multiset(s)[x] else 0
  {
    if s != [] {
      FilterCount(s[1..], p, x);
      assert s == [s[0]] + s[1..];
      assert multiset(s) == multiset([s[0]]) + multiset(s[1..]);
      var head := if p(s[0]) then [s[0]] else [];
      assert Filter(s, p) == head + Filter(s[1..], p);
      assert multiset(Filter(s, p)) == multiset(head) + multiset(Filter(s[1..], p));
    }
  }

  /** Every element that passes the predicate is kept. */
  lemma FilterKeeps<T>(s: seq<T>, p: T -> bool, i: nat)
    requires i < |s| && p(s[i])
    ensures s[i] in Filter(s, p)
  {
    FilterCount(s, p, s[i]);
    assert s[i] in multiset(s);
  }

  lemma AppendAssoc<T>(a: seq<T>, b: seq<T>, c: seq<T>)
    ensures a + (b + c) == (a + b) + c
  {
  }

  /** `[f(x) for x in xs]`, built from the back as an appending loop does. */
  function MapSeq<A, B>(f: A -> B, xs: seq<A>): seq<B>
    decreases |xs|
  {
    if xs == [] then [] else MapSeq(f, xs[..|xs| - 1]) + [f(xs[|xs| - 1])]
  }

  lemma {:induction false} MapSeqAt<A, B>(f: A -> B, xs: seq<A>)
    ensures |MapSeq(f, xs)| == |xs|
    ensures forall k :: 0 <= k < |xs| ==> MapSeq(f, xs)[k] == f(xs[k])
    decreases |xs|
  {
    if xs != [] {
      var init := xs[..|xs| - 1];
      MapSeqAt(f, init);
      forall k | 0 <= k < |xs|
        ensures MapSeq(f, xs)[k] == f(xs[k])
      {
        if k < |init| {
          assert xs[k] == init[k];
        }
      }
    }
  }

  /** `a` is `b` with some elements left out, the rest in their order. */
  predicate IsSubsequence<T(==)>(a: seq<T>, b: seq<T>)
    decreases |b|
  {
    a == [] ||
    (b != [] && ((a[0] == b[0] && IsSubsequence(a[1..], b[1..])) || IsSubsequence(a, b[1..])))
  }

  lemma {:induction false} FilterIsSubsequence<T>(s: seq<T>, p: T -> bool)
    ensures IsSubsequence(Filter(s, p), s)
  {
    if s != [] {
      FilterIsSubsequence(s[1..], p);
      if p(s[0]) {
        assert Filter(s, p) == [s[0]] + Filter(s[1..], p);
        assert Filter(s, p)[1..] == Filter(s[1..], p);
      } else {
        assert Filter(s, p) == Filter(s[1..], p);
      }
    }
  }

  lemma {:induction false} PrefixIsSubsequence<T>(a: seq<T>, b: seq<T>)
    requires a <= b
    ensures IsSubsequence(a, b)
  {
    if a != [] {
      PrefixIsSubsequence(a[1..], b[1..]);
    }
  }

  /** A prefix of a subsequence is a subsequence. */
  lemma {:induction false} SubsequencePrefix<T>(a: seq<T>, b: seq<T>, n: nat)
    requires IsSubsequence(a, b) && n <= |a|
    ensures IsSubsequence(a[..n], b)
  {
    if n == 0 {
    } else if a[0] == b[0] && IsSubsequence(a[1..], b[1..]) {
      SubsequencePrefix(a[1..], b[1..], n - 1);
      assert a[..n][1..] == a[1..][..n - 1];
    } else {
      SubsequencePrefix(a, b[1..], n);
    }
  }

  /** A subsequence of `b` is a subsequence of anything ending in `b`. */
  lemma {:induction false} SubsequenceOfSuffix<T>(a: seq<T>, c: seq<T>, b: seq<T>)
    requires IsSubsequence(a, b)
    ensures IsSubsequence(a, c + b)
    decreases |c|
  {
    if a != [] && c != [] {
      SubsequenceOfSuffix(a, c[1..], b);
      assert (c + b)[1..] == c[1..] + b;
    } else if c == [] {
      assert c + b == b;
    }
  }

  /** Subsequences of two lists concatenate to a subsequence of the two
      lists concatenated. */
  lemma {:induction false} SubsequenceConcat<T>(a1: seq<T>, b1: seq<T>, a2: seq<T>, b2: seq<T>)
    requires IsSubsequence(a1, b1) && IsSubsequence(a2, b2)
    ensures IsSubsequence(a1 + a2, b1 + b2)
    decreases |b1|
  {
    if a1 == [] {
      assert a1 + a2 == a2;
      SubsequenceOfSuffix(a2, b1, b2);
    } else {
      assert (a1 + a2)[0] == a1[0] && (a1 + a2)[1..] == a1[1..] + a2;
      assert (b1 + b2)[0] == b1[0] && (b1 + b2)[1..] == b1[1..] + b2;
      if a1[0] == b1[0] && IsSubsequence(a1[1..], b1[1..]) {
        SubsequenceConcat(a1[1..], b1[1..], a2, b2);
      } else {
        SubsequenceConcat(a1, b1[1..], a2, b2);
      }
    }
  }
}
