/** The sliding-window chunker `chunk_text` (app.py, and the identical copy in
    wiki_rag.py): windows of `chunkSize` characters start at 0 and advance by
    `chunkSize - overlap`; each window is whitespace-trimmed and kept when it
    is non-empty. */
module Chunking {
  import opened Common

  const DefaultChunkSize: nat := 500
  const DefaultOverlap: int := 50

  /** Python's `text[start:start + size]` for a start inside the text. */
  function Window(text: string, start: nat, size: nat): (w: string)
    requires start < |text|
    ensures |w| <= size
  {
    var e := if start + size < |text| then start + size else |text|;
    text[start..e]
  }

  /** The trimmed window, `text[start:end].strip()`. */
  function Piece(text: string, start: nat, size: nat): (c: string)
    requires start < |text|
    ensures |c| <= size
  {
    Trim(Window(text, start, size))
  }

  /** What the loop appends from `start` onwards. */
  function ChunksFrom(text: string, size: nat, overlap: int, start: nat): seq<string>
    requires |text| == 0 || overlap < size
    decreases |text| - start
  {
    if start >= |text| then []
    else
      var c := Piece(text, start, size);
      (if c != [] then [c] else []) + ChunksFrom(text, size, overlap, start + size - overlap)
  }

  function Chunks(text: string, size: nat, overlap: int): seq<string>
    requires |text| == 0 || overlap < size
  {
    ChunksFrom(text, size, overlap, 0)
  }

  /** `chunk_text` as written. Its loop terminates only when the text is empty
      or the window advances, which is what the precondition says; see
      `ChunkLoopExitsIff` for the other case. */
  method ChunkText(text: string, chunkSize: nat, overlap: int) returns (chunks: seq<string>)
    requires |text| == 0 || overlap < chunkSize
    ensures chunks == Chunks(text, chunkSize, overlap)
    ensures |text| == 0 ==> chunks == []
    ensures forall k :: 0 <= k < |chunks| ==> chunks[k] != [] && |chunks[k]| <= chunkSize
  {
    chunks := [];
    var start: nat := 0;
    while start < |text|
      invariant chunks + ChunksFrom(text, chunkSize, overlap, start) == Chunks(text, chunkSize, overlap)
      decreases |text| - start
    {
      var chunk := Piece(text, start, chunkSize);
      var next: nat := start + chunkSize - overlap;
      LoopTurn(text, chunkSize, overlap, start, chunks);
      if chunk != [] {
        chunks := chunks + [chunk];
      }
      start := next;
    }
    ChunksBounded(text, chunkSize, overlap, 0);
  }

  /** One turn of the loop keeps the emitted chunks followed by the chunks
      still to come unchanged. */
  lemma LoopTurn(text: string, size: nat, overlap: int, start: nat, done: seq<string>)
    requires overlap < size && start < |text|
    ensures var c := Piece(text, start, size);
      (if c != [] then done + [c] else done) + ChunksFrom(text, size, overlap, start + size - overlap) ==
        done + ChunksFrom(text, size, overlap, start)
  {
    var c := Piece(text, start, size);
    var emitted := if c != [] then [c] else [];
    ChunksFromStep(text, size, overlap, start);
    AppendAssoc(done, emitted, ChunksFrom(text, size, overlap, start + size - overlap));
  }

  /** One turn of the loop, as `ChunksFrom` unfolds it. */
  lemma ChunksFromStep(text: string, size: nat, overlap: int, start: nat)
    requires overlap < size && start < |text|
    ensures var c := Piece(text, start, size);
      ChunksFrom(text, size, overlap, start) ==
        (if c != [] then [c] else []) + ChunksFrom(text, size, overlap, start + size - overlap)
  {
  }

  lemma {:induction false} ChunksBounded(text: string, size: nat, overlap: int, start: nat)
    requires |text| == 0 || overlap < size
    ensures forall k :: 0 <= k < |ChunksFrom(text, size, overlap, start)| ==>
      ChunksFrom(text, size, overlap, start)[k] != [] && |ChunksFrom(text, size, overlap, start)[k]| <= size
    decreases |text| - start
  {
    if start < |text| {
      ChunksBounded(text, size, overlap, start + size - overlap);
    }
  }

  // ------------------------------------------------------------- windows

  /** The start of the n-th window: n steps of `size - overlap` from 0. */
  function Start(size: nat, overlap: int, n: nat): int
  {
    if n == 0 then 0 else Start(size, overlap, n - 1) + size - overlap
  }

  lemma {:induction false} StartClosedForm(size: nat, overlap: int, n: nat)
    ensures Start(size, overlap, n) == n * (size - overlap)
  {
    if n > 0 {
      StartClosedForm(size, overlap, n - 1);
    }
  }

  /** The number of windows the loop visits. */
  function WindowCount(len: nat, step: nat): (m: nat)
    requires step > 0
    ensures m * step >= len && (m == 0 || (m - 1) * step < len)
    decreases len
  {
    if len == 0 then 0
    else if len <= step then 1
    else
      1 + WindowCount(len - step, step)
  }

  /** Keep the non-empty pieces. */
  function NonEmpty(cs: seq<string>): (r: seq<string>)
    ensures forall k :: 0 <= k < |r| ==> r[k] != []
  {
    if cs == [] then []
    else (if cs[0] != [] then [cs[0]] else []) + NonEmpty(cs[1..])
  }

  /** The i-th window's trimmed piece, starting at i * step. */
  function PieceAt(text: string, size: nat, step: nat, i: nat): string
    requires i * step < |text|
  {
    Piece(text, i * step, size)
  }

  /** The pieces of windows first, first + 1, ..., last - 1. */
  function Pieces(text: string, size: nat, step: nat, first: nat, last: nat): seq<string>
    requires first <= last
    requires last == 0 || (last - 1) * step < |text|
    decreases last - first
  {
    if first == last then []
    else
      assert first * step <= (last - 1) * step by {
        MulMono(first, last - 1, step);
      }
      [PieceAt(text, size, step, first)] + Pieces(text, size, step, first + 1, last)
  }

  /** A window below the last one starts inside the text, and the next one
      starts one step later. */
  lemma WindowStep(i: nat, m: nat, step: nat, len: nat)
    requires step > 0 && i < m && (m - 1) * step < len
    ensures 0 <= i * step < len && (i + 1) * step == i * step + step
  {
    MulMono(0, i, step);
    MulMono(i, m - 1, step);
  }

  lemma MulMono(a: nat, b: nat, c: nat)
    requires a <= b
    ensures a * c <= b * c
  {
  }

  lemma {:induction false} NonEmptyConcat(a: seq<string>, b: seq<string>)
    ensures NonEmpty(a + b) == NonEmpty(a) + NonEmpty(b)
  {
    if a != [] {
      assert (a + b)[1..] == a[1..] + b;
      NonEmptyConcat(a[1..], b);
    } else {
      assert a + b == b;
    }
  }

  lemma {:induction false} ChunksFromWindows(text: string, size: nat, overlap: int, i: nat)
    requires overlap < size
    requires i <= WindowCount(|text|, size - overlap)
    ensures ChunksFrom(text, size, overlap, i * (size - overlap)) ==
      NonEmpty(Pieces(text, size, size - overlap, i, WindowCount(|text|, size - overlap)))
    decreases WindowCount(|text|, size - overlap) - i
  {
    var step: nat := size - overlap;
    var m := WindowCount(|text|, step);
    if i == m {
      assert i * step >= |text|;
    } else {
      ChunksFromWindows(text, size, overlap, i + 1);
      WindowStep(i, m, step, |text|);
      var start := i * step;
      var next := (i + 1) * step;
      assert next == start + (size - overlap);
      ChunksFromWindow(text, size, overlap, start);
      var here := NonEmpty([PieceAt(text, size, step, i)]);
      assert here == NonEmpty([Piece(text, start, size)]);
      assert ChunksFrom(text, size, overlap, start) == here + ChunksFrom(text, size, overlap, next);
      PiecesWindow(text, size, step, i, m);
    }
  }

  /** The loop's output from a start inside the text: that window's piece,
      when non-empty, then the output from the next start on. */
  lemma ChunksFromWindow(text: string, size: nat, overlap: int, start: nat)
    requires overlap < size && start < |text|
    ensures ChunksFrom(text, size, overlap, start) ==
      NonEmpty([Piece(text, start, size)]) + ChunksFrom(text, size, overlap, start + (size - overlap))
  {
    var c := Piece(text, start, size);
    assert NonEmpty([c]) == if c != [] then [c] else [];
  }

  /** The kept pieces from window i on: window i's, then the later ones. */
  lemma PiecesWindow(text: string, size: nat, step: nat, i: nat, m: nat)
    requires step > 0 && i < m && (m - 1) * step < |text|
    ensures i * step < |text|
    ensures NonEmpty(Pieces(text, size, step, i, m)) ==
      NonEmpty([PieceAt(text, size, step, i)]) + NonEmpty(Pieces(text, size, step, i + 1, m))
  {
    WindowStep(i, m, step, |text|);
    var c := PieceAt(text, size, step, i);
    var later := Pieces(text, size, step, i + 1, m);
    assert Pieces(text, size, step, i, m) == [c] + later;
    NonEmptyConcat([c], later);
  }

  /** The chunks are exactly the non-empty trimmed windows starting at
      0, step, 2 * step, ... below the text's length. */
  lemma ChunksAreWindows(text: string, size: nat, overlap: int)
    requires overlap < size
    ensures Chunks(text, size, overlap) ==
      NonEmpty(Pieces(text, size, size - overlap, 0, WindowCount(|text|, size - overlap)))
  {
    ChunksFromWindows(text, size, overlap, 0);
  }

  /** With the defaults, a 600-character text is cut at [0:500] and [450:600]. */
  lemma SixHundredCharacters(text: string)
    requires |text| == 600
    ensures Chunks(text, DefaultChunkSize, DefaultOverlap) ==
      NonEmpty([Trim(text[0..500]), Trim(text[450..600])])
  {
    ChunksAreWindows(text, 500, 50);
    assert WindowCount(600, 450) == 2 by {
      assert WindowCount(150, 450) == 1;
    }
    var p := Pieces(text, 500, 450, 0, 2);
    assert Pieces(text, 500, 450, 2, 2) == [];
    assert p == [PieceAt(text, 500, 450, 0), PieceAt(text, 500, 450, 1)];
  }

  // ------------------------------------------------------------ termination

  /** The loop leaves after some finite number of steps exactly when the text
      is empty or the overlap is smaller than the chunk size; otherwise every
      start it reaches is still inside the text. */
  lemma ChunkLoopExitsIff(text: string, size: nat, overlap: int)
    ensures (exists n: nat :: Start(size, overlap, n) >= |text|) <==> (|text| == 0 || overlap < size)
  {
    if |text| == 0 {
      assert Start(size, overlap, 0) >= |text|;
    } else if overlap < size {
      StartClosedForm(size, overlap, |text|);
      MulMono(1, size - overlap, |text|);
      assert Start(size, overlap, |text|) >= |text|;
    } else {
      forall n: nat ensures Start(size, overlap, n) < |text| {
        ChunkLoopStaysInside(text, size, overlap, n);
      }
    }
  }

  lemma {:induction false} ChunkLoopStaysInside(text: string, size: nat, overlap: int, n: nat)
    requires |text| > 0 && overlap >= size
    ensures Start(size, overlap, n) <= 0 < |text|
  {
    if n > 0 {
      ChunkLoopStaysInside(text, size, overlap, n - 1);
    }
  }

  // -------------------------------------------------------------- corrected

  /** A chunker that rejects an overlap that would stop the window from
      advancing, instead of looping. */
  function ChunkTextChecked(text: string, size: nat, overlap: int): (r: Result<seq<string>>)
    ensures r.Err? <==> overlap >= size
    ensures r.Ok? ==> r.value == Chunks(text, size, overlap)
  {
    if overlap >= size then Err("overlap must be smaller than chunk_size")
    else Ok(Chunks(text, size, overlap))
  }
}
