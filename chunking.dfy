/** Splitting an over-length reply before delivery: `[m[i:i+4000] for i in range(0, len(m), 4000)]`,
    used by the `get_news` and `digest` handlers of bot.py and bot_simple.py. */
module Chunking {
  import opened Seqs

  const ChunkSize := 4000

  function Min(a: int, b: int): int
  {
    if a < b then a else b
  }

  /** The number of slices: `len(range(0, |m|, 4000))`, that is, |m| / 4000 rounded up. */
  function ChunkCount(m: string): (n: nat)
    ensures n * ChunkSize >= |m|
    ensures n > 0 ==> (n - 1) * ChunkSize < |m|
  {
    (|m| + ChunkSize - 1) / ChunkSize
  }

  /** The consecutive 4000-character slices of `m`; the last may be shorter. */
  function Chunks(m: string): (parts: seq<string>)
    ensures |parts| == ChunkCount(m)
    ensures forall k :: 0 <= k < |parts| ==> 0 < |parts[k]| <= ChunkSize
    ensures forall k :: 0 <= k < |parts| - 1 ==> |parts[k]| == ChunkSize
  {
    seq(ChunkCount(m), k requires 0 <= k < ChunkCount(m) => m[k * ChunkSize..Min((k + 1) * ChunkSize, |m|)])
  }

  /** Gluing the first `j` slices back together gives the first `j * 4000` characters. */
  lemma {:induction false} ChunksPrefix(m: string, j: nat)
    requires j <= ChunkCount(m)
    ensures Concat(Chunks(m)[..j]) == m[..Min(j * ChunkSize, |m|)]
  {
    if j > 0 {
      var parts := Chunks(m);
      ChunksPrefix(m, j - 1);
      assert parts[..j] == parts[..j - 1] + [parts[j - 1]];
      ConcatSnoc(parts[..j - 1], parts[j - 1]);
      assert m[..Min(j * ChunkSize, |m|)]
          == m[..Min((j - 1) * ChunkSize, |m|)] + m[(j - 1) * ChunkSize..Min(j * ChunkSize, |m|)];
    }
  }

  /** No character is lost, duplicated or reordered: the slices concatenate to the message. */
  lemma ChunksConcat(m: string)
    ensures Concat(Chunks(m)) == m
  {
    ChunksPrefix(m, ChunkCount(m));
    assert Chunks(m)[..ChunkCount(m)] == Chunks(m);
  }

  /** What a handler sends for a composed reply: the reply itself when it has at most 4000
      characters, its slices otherwise. */
  function Parts(m: string): (r: seq<string>)
    ensures Concat(r) == m
    ensures forall k :: 0 <= k < |r| ==> |r[k]| <= ChunkSize
    ensures |m| <= ChunkSize ==> r == [m]
    ensures |m| > ChunkSize ==> |r| == ChunkCount(m) && |r| >= 2
  {
    if |m| > ChunkSize then
      ChunksConcat(m);
      Chunks(m)
    else
      assert Concat([m]) == Concat([]) + m;
      [m]
  }

  /** For a non-empty reply the length test changes nothing: a short reply is its own single slice.
      The test matters only for the empty string, which has no slices at all. */
  lemma ShortMessageIsOneChunk(m: string)
    requires 0 < |m| <= ChunkSize
    ensures Chunks(m) == [m]
  {
    assert ChunkCount(m) == 1;
    assert Chunks(m)[0] == m[0 * ChunkSize..Min(1 * ChunkSize, |m|)] == m[0..|m|];
    assert m[0..|m|] == m;
  }
}
