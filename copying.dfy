/**
 * The chunked copy of `move_files` (lines 149-157): read the source in chunks
 * of at most 8 MiB, append each chunk to the destination, and count the bytes
 * copied, until a read returns nothing.
 */
module Copying {
  import opened FileSystem

  const ChunkSize: nat := 8 * 1024 * 1024

  function Sum(sizes: seq<nat>): nat
  {
    if sizes == [] then 0 else Sum(sizes[..|sizes| - 1]) + sizes[|sizes| - 1]
  }

  /**
   * `fsrc.read(ChunkSize)` at read position `pos`: the next bytes, as many as
   * are left but no more than one chunk.
   */
  function ReadChunk(src: Bytes, pos: nat): (chunk: Bytes)
    requires pos <= |src|
    ensures |chunk| <= ChunkSize
    ensures chunk == [] <==> pos == |src|
    ensures pos + |chunk| <= |src| && chunk == src[pos..pos + |chunk|]
    ensures pos + ChunkSize <= |src| ==> |chunk| == ChunkSize
  {
    if pos + ChunkSize <= |src| then src[pos..pos + ChunkSize] else src[pos..]
  }

  /** Every chunk is non-empty and at most 8 MiB, and all but the last are full. */
  predicate WellChunked(sizes: seq<nat>)
  {
    && (forall i :: 0 <= i < |sizes| ==> 0 < sizes[i] <= ChunkSize)
    && (forall i :: 0 <= i < |sizes| - 1 ==> sizes[i] == ChunkSize)
  }

  /** One more chunk after a full one keeps the trace well chunked. */
  lemma ChunkSnoc(sizes: seq<nat>, n: nat)
    requires WellChunked(sizes)
    requires sizes != [] ==> sizes[|sizes| - 1] == ChunkSize
    requires 0 < n <= ChunkSize
    ensures WellChunked(sizes + [n])
  {
  }

  lemma SumSnoc(sizes: seq<nat>, n: nat)
    ensures Sum(sizes + [n]) == Sum(sizes) + n
  {
    assert (sizes + [n])[..|sizes|] == sizes;
  }

  lemma TakeConcat(src: Bytes, pos: nat, n: nat)
    requires pos + n <= |src|
    ensures src[..pos] + src[pos..pos + n] == src[..pos + n]
  {
  }

  /**
   * The copy loop. The destination ends up equal to the source, `copied`
   * equals the source length, and `chunkSizes` records the length of every
   * non-empty chunk: none exceeds 8 MiB, and all but the last are full.
   */
  method CopyChunked(src: Bytes) returns (dst: Bytes, copied: nat, chunkSizes: seq<nat>)
    ensures dst == src
    ensures copied == |src|
    ensures Sum(chunkSizes) == |src|
    ensures forall i :: 0 <= i < |chunkSizes| ==> 0 < chunkSizes[i] <= ChunkSize
    ensures forall i :: 0 <= i < |chunkSizes| - 1 ==> chunkSizes[i] == ChunkSize
  {
    var pos := 0;  // read position of the source handle
    dst, copied, chunkSizes := [], 0, [];
    while true
      invariant pos <= |src|
      invariant dst == src[..pos]
      invariant copied == pos == Sum(chunkSizes)
      invariant WellChunked(chunkSizes)
      invariant chunkSizes != [] && chunkSizes[|chunkSizes| - 1] < ChunkSize ==> pos == |src|
      decreases |src| - pos
    {
      var chunk := ReadChunk(src, pos);
      if chunk == [] {
        break;
      }
      ChunkSnoc(chunkSizes, |chunk|);
      SumSnoc(chunkSizes, |chunk|);
      TakeConcat(src, pos, |chunk|);
      dst := dst + chunk;
      copied := copied + |chunk|;
      chunkSizes := chunkSizes + [|chunk|];
      pos := pos + |chunk|;
    }
  }
}
