/**
 * `build_id_chunks` (main.py): the pending withdraw ids are sent to the
 * operator as copyable text blocks, one id per line, each block kept under
 * a character budget (3000 by default). Ids are packed greedily in order; a
 * block is closed only when the next id's line would push it past the budget.
 */
module IdChunks {

  const DefaultMaxChars := 3000

  /** Characters one id takes in a block: the id and its line break. */
  function LineLen(id: string): (n: nat)
  {
    |id| + 1
  }

  /** Characters a block takes: the sum of its lines. */
  function ChunkLen(c: seq<string>): (n: nat)
  {
    if c == [] then 0 else LineLen(c[0]) + ChunkLen(c[1..])
  }

  /** The blocks joined back together. */
  function Concat(chunks: seq<seq<string>>): seq<string>
  {
    if chunks == [] then [] else chunks[0] + Concat(chunks[1..])
  }

  /** No block is empty. */
  ghost predicate AllNonEmpty(chunks: seq<seq<string>>)
  {
    forall i :: 0 <= i < |chunks| ==> chunks[i] != []
  }

  /** A block stays within the budget unless it is one id that alone exceeds it. */
  ghost predicate FitsOrSingle(chunks: seq<seq<string>>, maxChars: int)
  {
    forall i :: 0 <= i < |chunks| ==> ChunkLen(chunks[i]) <= maxChars || |chunks[i]| == 1
  }

  /**
   * Every block but the last was closed because the next block's first id did not fit.
   * Adjacent pairs are named as `i, j` with `j == i + 1` so that the quantifier
   * triggers on `chunks[i]` and `chunks[j]` rather than on `chunks[i + 1]`.
   */
  ghost predicate ClosedWhenFull(chunks: seq<seq<string>>, maxChars: int)
  {
    forall i, j :: 0 <= i < j < |chunks| && j == i + 1 && chunks[j] != [] ==>
      ChunkLen(chunks[i]) + LineLen(chunks[j][0]) > maxChars
  }

  /** The blocks `build_id_chunks` promises: the ids in order, packed greedily. */
  ghost predicate IsGreedyChunking(ids: seq<string>, chunks: seq<seq<string>>, maxChars: int)
  {
    && Concat(chunks) == ids
    && AllNonEmpty(chunks)
    && FitsOrSingle(chunks, maxChars)
    && ClosedWhenFull(chunks, maxChars)
  }

  lemma {:induction false} ConcatAppend(chunks: seq<seq<string>>, c: seq<string>)
    ensures Concat(chunks + [c]) == Concat(chunks) + c
  {
    if chunks != [] {
      assert (chunks + [c])[1..] == chunks[1..] + [c];
      ConcatAppend(chunks[1..], c);
    }
  }

  lemma {:induction false} ChunkLenAppend(c: seq<string>, id: string)
    ensures ChunkLen(c + [id]) == ChunkLen(c) + LineLen(id)
  {
    if c != [] {
      assert (c + [id])[1..] == c[1..] + [id];
      ChunkLenAppend(c[1..], id);
    }
  }

  lemma {:induction false} ChunkLenPrefix(c: seq<string>, k: nat)
    requires k <= |c|
    ensures ChunkLen(c[..k]) <= ChunkLen(c)
  {
    if k > 0 {
      assert c[..k][1..] == c[1..][..k - 1];
      ChunkLenPrefix(c[1..], k - 1);
    }
  }

  /**
   * The state of the packing loop after the ids `done`: the closed blocks and
   * the open one together hold `done`, the open one is empty only at the
   * start, and the closed blocks keep the promises of a greedy chunking, the
   * last of them having been closed because the open block's first id did not fit.
   */
  ghost predicate PackState(done: seq<string>, chunks: seq<seq<string>>, current: seq<string>, maxChars: int)
  {
    && Concat(chunks) + current == done
    && (current == [] <==> done == [])
    && (done == [] ==> chunks == [])
    && AllNonEmpty(chunks) && FitsOrSingle(chunks, maxChars) && ClosedWhenFull(chunks, maxChars)
    && (ChunkLen(current) <= maxChars || |current| <= 1)
    && (chunks != [] && current != [] ==> ChunkLen(chunks[|chunks| - 1]) + LineLen(current[0]) > maxChars)
  }

  /** One turn of the loop: close the open block when the id does not fit, then append the id. */
  lemma PackStep(done: seq<string>, chunks: seq<seq<string>>, current: seq<string>, maxChars: int, id: string)
    requires PackState(done, chunks, current, maxChars)
    ensures ChunkLen(current + [id]) == ChunkLen(current) + LineLen(id)
    ensures current != [] && ChunkLen(current) + LineLen(id) > maxChars ==>
      PackState(done + [id], chunks + [current], [id], maxChars)
    ensures !(current != [] && ChunkLen(current) + LineLen(id) > maxChars) ==>
      PackState(done + [id], chunks, current + [id], maxChars)
  {
    ChunkLenAppend(current, id);
    if current != [] && ChunkLen(current) + LineLen(id) > maxChars {
      ConcatAppend(chunks, current);
      CloseChunk(chunks, current, maxChars);
      assert ChunkLen([id]) == LineLen(id);
    } else {
      assert (Concat(chunks) + current) + [id] == Concat(chunks) + (current + [id]);
      assert (current + [id])[0] == if current == [] then id else current[0];
    }
  }

  /** After the last id the open block, if any, is closed and the result is a greedy chunking. */
  lemma PackFinish(ids: seq<string>, chunks: seq<seq<string>>, current: seq<string>, maxChars: int)
    requires PackState(ids, chunks, current, maxChars)
    ensures IsGreedyChunking(ids, if current != [] then chunks + [current] else chunks, maxChars)
  {
    if current != [] {
      ConcatAppend(chunks, current);
      CloseChunk(chunks, current, maxChars);
    }
  }

  /**
   * The packing loop as a function: `rest` are the ids still to place,
   * `chunks` the closed blocks and `current` the open one.
   */
  function Pack(rest: seq<string>, chunks: seq<seq<string>>, current: seq<string>, maxChars: int): seq<seq<string>>
    decreases |rest|
  {
    if rest == [] then
      if current != [] then chunks + [current] else chunks
    else if current != [] && ChunkLen(current) + LineLen(rest[0]) > maxChars then
      Pack(rest[1..], chunks + [current], [rest[0]], maxChars)
    else
      Pack(rest[1..], chunks, current + [rest[0]], maxChars)
  }

  /** Packing the remaining ids from a sound loop state yields a greedy chunking of all the ids. */
  lemma {:induction false} PackIsGreedy(done: seq<string>, rest: seq<string>, chunks: seq<seq<string>>,
                                        current: seq<string>, maxChars: int)
    requires PackState(done, chunks, current, maxChars)
    ensures IsGreedyChunking(done + rest, Pack(rest, chunks, current, maxChars), maxChars)
    decreases |rest|
  {
    if rest == [] {
      assert done + rest == done;
      PackFinish(done, chunks, current, maxChars);
    } else {
      var id := rest[0];
      PackStep(done, chunks, current, maxChars, id);
      assert done + rest == (done + [id]) + rest[1..];
      if current != [] && ChunkLen(current) + LineLen(id) > maxChars {
        PackIsGreedy(done + [id], rest[1..], chunks + [current], [id], maxChars);
      } else {
        PackIsGreedy(done + [id], rest[1..], chunks, current + [id], maxChars);
      }
    }
  }

  /** `build_id_chunks(ids, max_chars)` */
  method BuildIdChunks(ids: seq<string>, maxChars: int) returns (chunks: seq<seq<string>>)
    ensures IsGreedyChunking(ids, chunks, maxChars)
    ensures ids == [] ==> chunks == []
  {
    chunks := [];
    var current: seq<string> := [];
    var currentLen := 0;
    for i := 0 to |ids|
      invariant Pack(ids[i..], chunks, current, maxChars) == Pack(ids, [], [], maxChars)
      invariant currentLen == ChunkLen(current)
    {
      var id := ids[i];
      var lineLen := |id| + 1;
      assert ids[i..][0] == id && ids[i..][1..] == ids[i + 1..];
      if current != [] && currentLen + lineLen > maxChars {
        chunks := chunks + [current];
        current := [id];
        currentLen := lineLen;
      } else {
        ChunkLenAppend(current, id);
        current := current + [id];
        currentLen := currentLen + lineLen;
      }
    }
    if current != [] {
      chunks := chunks + [current];
    }
    assert [] + ids == ids;
    PackIsGreedy([], ids, [], [], maxChars);
    NoChunksIffNoIds(ids, chunks);
  }

  lemma {:induction false} ConcatHolds(chunks: seq<seq<string>>, i: nat, j: nat)
    requires i < |chunks| && j < |chunks[i]|
    ensures chunks[i][j] in Concat(chunks)
  {
    if i > 0 {
      ConcatHolds(chunks[1..], i - 1, j);
    }
  }

  /**
   * At the default budget the bot uses (`build_id_chunks(ids)`), ids shorter
   * than 3000 characters always give blocks within the budget: the only
   * block allowed over it is a single id that alone does not fit.
   */
  lemma {:induction false} DefaultBudgetHolds(ids: seq<string>, chunks: seq<seq<string>>)
    requires IsGreedyChunking(ids, chunks, DefaultMaxChars)
    requires forall k :: 0 <= k < |ids| ==> |ids[k]| < DefaultMaxChars
    ensures forall i :: 0 <= i < |chunks| ==> ChunkLen(chunks[i]) <= DefaultMaxChars
  {
    forall i | 0 <= i < |chunks|
      ensures ChunkLen(chunks[i]) <= DefaultMaxChars
    {
      if |chunks[i]| == 1 {
        ConcatHolds(chunks, i, 0);
        assert chunks[i][1..] == [];
      }
    }
  }

  /**
   * The greedy chunking of a list of ids is unique: whatever packs the ids in
   * order, with no empty block, every block within budget or a lone id, and
   * every block closed only when full, produces the same blocks as
   * `BuildIdChunks`.
   */
  lemma {:induction false} GreedyChunkingUnique(ids: seq<string>, a: seq<seq<string>>, b: seq<seq<string>>, maxChars: int)
    requires IsGreedyChunking(ids, a, maxChars)
    requires IsGreedyChunking(ids, b, maxChars)
    ensures a == b
  {
    NoChunksIffNoIds(ids, a);
    NoChunksIffNoIds(ids, b);
    if ids != [] {
      assert Concat(a) == a[0] + Concat(a[1..]);
      assert Concat(b) == b[0] + Concat(b[1..]);
      FirstChunksAgree(ids, a, b, maxChars);
      FirstChunksAgree(ids, b, a, maxChars);
      assert |a[0]| == |b[0]|;
      assert a[0] == ids[..|a[0]|] == b[0];
      var rest := ids[|a[0]|..];
      TailIsGreedy(ids, a, maxChars);
      TailIsGreedy(ids, b, maxChars);
      GreedyChunkingUnique(rest, a[1..], b[1..], maxChars);
      assert a == [a[0]] + a[1..];
      assert b == [b[0]] + b[1..];
    }
  }

  lemma NoChunksIffNoIds(ids: seq<string>, chunks: seq<seq<string>>)
    requires Concat(chunks) == ids && AllNonEmpty(chunks)
    ensures chunks == [] <==> ids == []
  {
    if chunks != [] {
      assert chunks[0] != [];
      assert Concat(chunks) == chunks[0] + Concat(chunks[1..]);
    }
  }

  /** Closing a block keeps the promises about the closed blocks. */
  lemma CloseChunk(chunks: seq<seq<string>>, c: seq<string>, maxChars: int)
    requires AllNonEmpty(chunks) && FitsOrSingle(chunks, maxChars) && ClosedWhenFull(chunks, maxChars)
    requires c != [] && (ChunkLen(c) <= maxChars || |c| == 1)
    requires chunks != [] ==> ChunkLen(chunks[|chunks| - 1]) + LineLen(c[0]) > maxChars
    ensures AllNonEmpty(chunks + [c]) && FitsOrSingle(chunks + [c], maxChars)
    ensures ClosedWhenFull(chunks + [c], maxChars)
  {
    CloseKeepsShape(chunks, c, maxChars);
    CloseKeepsClosed(chunks, c, maxChars);
  }

  lemma CloseKeepsShape(chunks: seq<seq<string>>, c: seq<string>, maxChars: int)
    requires AllNonEmpty(chunks) && FitsOrSingle(chunks, maxChars)
    requires c != [] && (ChunkLen(c) <= maxChars || |c| == 1)
    ensures AllNonEmpty(chunks + [c]) && FitsOrSingle(chunks + [c], maxChars)
  {
    var t := chunks + [c];
    forall i | 0 <= i < |t| ensures t[i] != [] && (ChunkLen(t[i]) <= maxChars || |t[i]| == 1) {
      if i < |chunks| { assert t[i] == chunks[i]; } else { assert t[i] == c; }
    }
  }

  lemma CloseKeepsClosed(chunks: seq<seq<string>>, c: seq<string>, maxChars: int)
    requires ClosedWhenFull(chunks, maxChars) && c != []
    requires chunks != [] ==> ChunkLen(chunks[|chunks| - 1]) + LineLen(c[0]) > maxChars
    ensures ClosedWhenFull(chunks + [c], maxChars)
  {
    var t := chunks + [c];
    forall i, j | 0 <= i < j < |t| && j == i + 1 && t[j] != []
      ensures ChunkLen(t[i]) + LineLen(t[j][0]) > maxChars
    {
      assert t[i] == chunks[i];
      if j < |chunks| { assert t[j] == chunks[j]; } else { assert t[j] == c; }
    }
  }

  /** The first block of a greedy chunking is no shorter than that of any other. */
  lemma FirstChunksAgree(ids: seq<string>, a: seq<seq<string>>, b: seq<seq<string>>, maxChars: int)
    requires IsGreedyChunking(ids, a, maxChars) && a != []
    requires IsGreedyChunking(ids, b, maxChars) && b != []
    ensures |b[0]| <= |a[0]|
  {
    assert Concat(a) == a[0] + Concat(a[1..]);
    assert Concat(b) == b[0] + Concat(b[1..]);
    var n := |a[0]|;
    if |b[0]| > n {
      assert a[0] == ids[..n];
      assert b[0] == ids[..|b[0]|];
      assert Concat(a[1..]) == ids[n..] != [];
      assert a[1..] != [];
      assert Concat(a[1..]) == a[1] + Concat(a[2..]);
      var x := a[1][0];
      assert x == ids[n];
      assert ChunkLen(a[0]) + LineLen(x) > maxChars;
      ChunkLenAppend(a[0], x);
      assert b[0][..n + 1] == a[0] + [x];
      ChunkLenPrefix(b[0], n + 1);
      assert false;
    }
  }

  lemma TailIsGreedy(ids: seq<string>, a: seq<seq<string>>, maxChars: int)
    requires IsGreedyChunking(ids, a, maxChars) && a != []
    ensures IsGreedyChunking(ids[|a[0]|..], a[1..], maxChars)
  {
    assert Concat(a) == a[0] + Concat(a[1..]);
    var t := a[1..];
    forall i, j | 0 <= i < j < |t| && j == i + 1 && t[j] != []
      ensures ChunkLen(t[i]) + LineLen(t[j][0]) > maxChars
    {
      assert t[i] == a[i + 1] && t[j] == a[j + 1];
    }
  }
}
