/** The batch embedder `get_embeddings_batch` (app.py). The provider calls are
    oracles: a batch call that either fails or returns a list of vectors, and a
    single-text call that either fails or returns a vector. Pacing sleeps are
    left out. */
module Embeddings {
  import opened Common

  type Vector = seq<real>

  /** `client.embeddings.create(input=batch)`; None stands for an exception. */
  type BatchProvider = seq<string> -> Option<seq<Vector>>

  /** `get_embedding(text)`; None stands for an exception. */
  type SingleProvider = string -> Option<Vector>

  const EmbeddingDimension: nat := 1536

  /** `[0.0] * 1536`. */
  const ZeroVector: Vector := seq(EmbeddingDimension, _ => 0.0)

  /** `texts[start:start + size]`. */
  function Group(texts: seq<string>, start: nat, size: nat): (g: seq<string>)
    requires start < |texts|
    ensures 0 < |g| <= size || size == 0
    ensures |g| <= size
  {
    var e := if start + size < |texts| then start + size else |texts|;
    texts[start..e]
  }

  /** One text's entry on the per-item fallback path. */
  function OneOrZero(single: SingleProvider, text: string): Vector
  {
    match single(text)
    case Some(v) => v
    case None => ZeroVector
  }

  /** The per-item fallback for a failed batch. */
  function Fallback(single: SingleProvider, batch: seq<string>): (r: seq<Vector>)
    ensures |r| == |batch|
  {
    seq(|batch|, k requires 0 <= k < |batch| => OneOrZero(single, batch[k]))
  }

  /** What one group contributes to the output. */
  function GroupResult(batchEmbed: BatchProvider, single: SingleProvider, batch: seq<string>): seq<Vector>
  {
    match batchEmbed(batch)
    case Some(vs) => vs
    case None => Fallback(single, batch)
  }

  /** The output from the group starting at `start` onwards. */
  function EmbedFrom(batchEmbed: BatchProvider, single: SingleProvider, texts: seq<string>,
                     size: nat, start: nat): seq<Vector>
    requires size > 0
    decreases |texts| - start
  {
    if start >= |texts| then []
    else GroupResult(batchEmbed, single, Group(texts, start, size)) +
         EmbedFrom(batchEmbed, single, texts, size, start + size)
  }

  /** `get_embeddings_batch` as a value: `range(0, n, 0)` raises, a negative
      step gives an empty range. */
  function EmbedAll(batchEmbed: BatchProvider, single: SingleProvider, texts: seq<string>,
                    batchSize: int): Result<seq<Vector>>
  {
    if batchSize == 0 then Err("range() arg 3 must not be zero")
    else if batchSize < 0 then Ok([])
    else Ok(EmbedFrom(batchEmbed, single, texts, batchSize, 0))
  }

  method GetEmbeddingsBatch(texts: seq<string>, batchSize: int,
                            batchEmbed: BatchProvider, single: SingleProvider)
    returns (r: Result<seq<Vector>>)
    ensures r == EmbedAll(batchEmbed, single, texts, batchSize)
    ensures r.Err? <==> batchSize == 0
  {
    if batchSize == 0 {
      return Err("range() arg 3 must not be zero");
    }
    if batchSize < 0 {
      return Ok([]);
    }
    var embeddings: seq<Vector> := [];
    var i: nat := 0;
    while i < |texts|
      invariant embeddings + EmbedFrom(batchEmbed, single, texts, batchSize, i) ==
        EmbedFrom(batchEmbed, single, texts, batchSize, 0)
      decreases |texts| - i
    {
      var batch := Group(texts, i, batchSize);
      ghost var before := embeddings;
      match batchEmbed(batch) {
        case Some(vs) =>
          embeddings := embeddings + vs;
        case None =>
          var each := EmbedEach(single, batch);
          embeddings := embeddings + each;
      }
      assert embeddings == before + GroupResult(batchEmbed, single, batch);
      i := i + batchSize;
    }
    assert EmbedFrom(batchEmbed, single, texts, batchSize, i) == [];
    assert embeddings == embeddings + [];
    return Ok(embeddings);
  }

  /** The per-item fallback loop: each text on its own, the zero vector when
      that call fails too. */
  method EmbedEach(single: SingleProvider, batch: seq<string>) returns (embeddings: seq<Vector>)
    ensures embeddings == Fallback(single, batch)
  {
    embeddings := [];
    for j := 0 to |batch|
      invariant embeddings == Fallback(single, batch)[..j]
    {
      var emb := OneOrZero(single, batch[j]);
      embeddings := embeddings + [emb];
      assert Fallback(single, batch)[..j + 1] == Fallback(single, batch)[..j] + [emb];
    }
    assert Fallback(single, batch)[..|batch|] == Fallback(single, batch);
  }

  // ------------------------------------------------------------ properties

  /** A provider that answers a batch with one vector per input. */
  ghost predicate OnePerInput(batchEmbed: BatchProvider)
  {
    forall b :: batchEmbed(b).Some? ==> |batchEmbed(b).value| == |b|
  }

  lemma DivOfGroupMember(i: nat, size: nat, k: nat)
    requires size > 0 && k * size <= i < k * size + size
    ensures i / size == k
  {
    var q := i / size;
    if q < k {
      assert q * size + size <= k * size by { MulLe(q + 1, k, size); }
    } else if q > k {
      assert (k + 1) * size <= q * size by { MulLe(k + 1, q, size); }
    }
  }

  lemma MulLe(a: nat, b: nat, c: nat)
    requires a <= b
    ensures a * c <= b * c
  {
  }

  /** The entry that the group holding texts[i] produces for it: the batch
      vector at its offset when the batch call succeeded, else its own
      embedding or the zero vector. */
  ghost function EntryFor(batchEmbed: BatchProvider, single: SingleProvider,
                          texts: seq<string>, size: nat, i: nat): Vector
    requires OnePerInput(batchEmbed)
    requires size > 0 && i < |texts|
  {
    var g := i - i % size;
    var grp := Group(texts, g, size);
    match batchEmbed(grp)
    case Some(vs) => vs[i % size]
    case None => OneOrZero(single, texts[i])
  }

  /** Every text from an aligned `start` on gets exactly one entry, and the
      entry of text i is the one its group produced for it. */
  lemma {:induction false} EmbedFromAt(batchEmbed: BatchProvider, single: SingleProvider,
                                       texts: seq<string>, size: nat, start: nat, i: nat)
    requires OnePerInput(batchEmbed)
    requires size > 0 && start % size == 0 && start <= i < |texts|
    ensures |EmbedFrom(batchEmbed, single, texts, size, start)| == |texts| - start
    ensures EmbedFrom(batchEmbed, single, texts, size, start)[i - start] ==
      EntryFor(batchEmbed, single, texts, size, i)
    decreases |texts| - start
  {
    var grp := Group(texts, start, size);
    var here := GroupResult(batchEmbed, single, grp);
    var next := start + size;
    var rest := EmbedFrom(batchEmbed, single, texts, size, next);
    assert EmbedFrom(batchEmbed, single, texts, size, start) == here + rest;
    assert |here| == |grp|;
    if i < next {
      if next < |texts| {
        NextAligned(start, size);
        EmbedFromLength(batchEmbed, single, texts, size, next);
      } else {
        assert rest == [];
      }
      ModInGroup(i, start, size);
      assert EntryFor(batchEmbed, single, texts, size, i) == here[i - start];
    } else {
      NextAligned(start, size);
      EmbedFromAt(batchEmbed, single, texts, size, next, i);
    }
  }

  /** The group after an aligned one starts aligned. */
  lemma NextAligned(start: nat, size: nat)
    requires size > 0 && start % size == 0
    ensures (start + size) % size == 0
  {
    var q := start / size;
    assert start == q * size;
    assert (q + 1) * size == start + size;
    ModOfGroupMember(start + size, size, q + 1);
  }

  /** A member of the aligned group at `start` sits at offset `i % size`. */
  lemma ModInGroup(i: nat, start: nat, size: nat)
    requires size > 0 && start % size == 0 && start <= i < start + size
    ensures i % size == i - start
  {
    var q := start / size;
    assert start == q * size;
    ModOfGroupMember(i, size, q);
  }

  /** A member of the group starting at `k * size` sits at offset
      `i % size` in it. */
  lemma ModOfGroupMember(i: nat, size: nat, k: nat)
    requires size > 0 && k * size <= i < k * size + size
    ensures i % size == i - k * size
  {
    DivOfGroupMember(i, size, k);
  }

  lemma {:induction false} EmbedFromLength(batchEmbed: BatchProvider, single: SingleProvider,
                                           texts: seq<string>, size: nat, start: nat)
    requires OnePerInput(batchEmbed)
    requires size > 0 && start < |texts|
    ensures |EmbedFrom(batchEmbed, single, texts, size, start)| == |texts| - start
    decreases |texts| - start
  {
    var grp := Group(texts, start, size);
    assert |GroupResult(batchEmbed, single, grp)| == |grp|;
    if start + size < |texts| {
      EmbedFromLength(batchEmbed, single, texts, size, start + size);
    }
  }

  /** With a provider that returns one vector per input, the output has one
      entry per text, and entry i belongs to texts[i]. */
  lemma EmbedAllAt(batchEmbed: BatchProvider, single: SingleProvider,
                   texts: seq<string>, batchSize: nat, i: nat)
    requires OnePerInput(batchEmbed) && batchSize > 0 && i < |texts|
    ensures EmbedAll(batchEmbed, single, texts, batchSize).Ok?
    ensures |EmbedAll(batchEmbed, single, texts, batchSize).value| == |texts|
    ensures EmbedAll(batchEmbed, single, texts, batchSize).value[i] ==
      EntryFor(batchEmbed, single, texts, batchSize, i)
  {
    EmbedFromAt(batchEmbed, single, texts, batchSize, 0, i);
  }

  /** A provider that embeds each text of a batch on its own. */
  ghost predicate Pointwise(batchEmbed: BatchProvider, embed: string -> Vector)
  {
    forall b :: batchEmbed(b).Some? && |batchEmbed(b).value| == |b| &&
      forall k :: 0 <= k < |b| ==> batchEmbed(b).value[k] == embed(b[k])
  }

  lemma PointwiseOnePerInput(batchEmbed: BatchProvider, embed: string -> Vector)
    requires Pointwise(batchEmbed, embed)
    ensures OnePerInput(batchEmbed)
  {
  }

  /** When every batch call succeeds pointwise, batching is invisible: entry i
      is the embedding of texts[i]. */
  lemma EmbedAllPointwise(batchEmbed: BatchProvider, embed: string -> Vector, single: SingleProvider,
                          texts: seq<string>, batchSize: nat, i: nat)
    requires Pointwise(batchEmbed, embed) && batchSize > 0 && i < |texts|
    ensures EmbedAll(batchEmbed, single, texts, batchSize).Ok?
    ensures |EmbedAll(batchEmbed, single, texts, batchSize).value| == |texts|
    ensures EmbedAll(batchEmbed, single, texts, batchSize).value[i] == embed(texts[i])
  {
    PointwiseOnePerInput(batchEmbed, embed);
    EmbedAllAt(batchEmbed, single, texts, batchSize, i);
    EntryForPointwise(batchEmbed, embed, single, texts, batchSize, i);
  }

  lemma EntryForPointwise(batchEmbed: BatchProvider, embed: string -> Vector, single: SingleProvider,
                          texts: seq<string>, size: nat, i: nat)
    requires Pointwise(batchEmbed, embed) && size > 0 && i < |texts|
    ensures OnePerInput(batchEmbed)
    ensures EntryFor(batchEmbed, single, texts, size, i) == embed(texts[i])
  {
    PointwiseOnePerInput(batchEmbed, embed);
    GroupOfIndex(i, size, |texts|);
    var g := (i / size) * size;
    PointwiseAtOffset(batchEmbed, embed, texts, size, i, g);
    EntryForBatch(batchEmbed, single, texts, size, i, g);
  }

  lemma PointwiseAtOffset(batchEmbed: BatchProvider, embed: string -> Vector,
                          texts: seq<string>, size: nat, i: nat, g: nat)
    requires Pointwise(batchEmbed, embed) && size > 0 && i < |texts|
    requires g <= i < g + size
    ensures var grp := Group(texts, g, size);
      batchEmbed(grp).Some? && |batchEmbed(grp).value| == |grp| && i - g < |grp| &&
      batchEmbed(grp).value[i - g] == embed(texts[i])
  {
    var grp := Group(texts, g, size);
    assert grp[i - g] == texts[i];
  }

  lemma EntryForBatch(batchEmbed: BatchProvider, single: SingleProvider,
                      texts: seq<string>, size: nat, i: nat, g: nat)
    requires OnePerInput(batchEmbed) && size > 0 && i < |texts|
    requires g == (i / size) * size && g <= i < g + size
    requires batchEmbed(Group(texts, g, size)).Some?
    ensures |batchEmbed(Group(texts, g, size)).value| == |Group(texts, g, size)|
    ensures EntryFor(batchEmbed, single, texts, size, i) == batchEmbed(Group(texts, g, size)).value[i - g]
  {
  }

  /** Index i lies inside the group that starts at (i / size) * size. */
  lemma GroupOfIndex(i: nat, size: nat, n: nat)
    requires size > 0 && i < n
    ensures (i / size) * size <= i < (i / size) * size + size
  {
  }

  /** When every batch call fails, every text falls back on its own call, in
      order; a failing single call yields the 1536-long zero vector. */
  lemma EmbedAllAllFail(batchEmbed: BatchProvider, single: SingleProvider,
                        texts: seq<string>, batchSize: nat, i: nat)
    requires forall b :: batchEmbed(b) == None
    requires batchSize > 0 && i < |texts|
    ensures |EmbedAll(batchEmbed, single, texts, batchSize).value| == |texts|
    ensures single(texts[i]).Some? ==> EmbedAll(batchEmbed, single, texts, batchSize).value[i] == single(texts[i]).value
    ensures single(texts[i]).None? ==> EmbedAll(batchEmbed, single, texts, batchSize).value[i] == ZeroVector
    ensures |ZeroVector| == EmbeddingDimension
  {
    EmbedAllAt(batchEmbed, single, texts, batchSize, i);
  }
}
