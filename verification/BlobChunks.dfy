/** Chunk plans for presigned blobs: 100 MiB chunks for reading; for writing, 100
    chunks of 100 MiB and 1 GiB chunks after that. */
module BlobChunks {
  import opened Basics

  const BLOB_OPTIMAL_CHUNK_SIZE: nat := 100 * 1024 * 1024
  const OUTPUT_BLOB_OPTIMAL_CHUNKS_COUNT: nat := 100
  const OUTPUT_BLOB_SLOWER_CHUNK_SIZE: nat := 1024 * 1024 * 1024
  const MAX_PLANNED_SIZE: nat := 0x1000_0000_0000_0000
  const I32_MAX: nat := 0x7FFF_FFFF

  function Sum(sizes: seq<nat>): nat
  {
    if sizes == [] then 0 else Sum(sizes[..|sizes| - 1]) + sizes[|sizes| - 1]
  }

  lemma {:induction false} SumAppend(sizes: seq<nat>, n: nat)
    ensures Sum(sizes + [n]) == Sum(sizes) + n
  {
    assert (sizes + [n])[..|sizes|] == sizes;
  }

  /** Size of the k-th chunk of a long enough output blob. */
  function FullWriteChunk(k: nat): nat
  {
    if k < OUTPUT_BLOB_OPTIMAL_CHUNKS_COUNT then BLOB_OPTIMAL_CHUNK_SIZE else OUTPUT_BLOB_SLOWER_CHUNK_SIZE
  }

  /** Bytes covered by the first `k` full chunks. */
  function WriteCovered(k: nat): nat
  {
    if k <= OUTPUT_BLOB_OPTIMAL_CHUNKS_COUNT then k * BLOB_OPTIMAL_CHUNK_SIZE
    else OUTPUT_BLOB_OPTIMAL_CHUNKS_COUNT * BLOB_OPTIMAL_CHUNK_SIZE
         + (k - OUTPUT_BLOB_OPTIMAL_CHUNKS_COUNT) * OUTPUT_BLOB_SLOWER_CHUNK_SIZE
  }

  /** The number of chunks of an output blob, in two regimes. */
  function WriteChunkCount(size: nat): nat
  {
    var fast := OUTPUT_BLOB_OPTIMAL_CHUNKS_COUNT * BLOB_OPTIMAL_CHUNK_SIZE;
    if size == 0 then 1
    else if size <= fast then DivCeil(size, BLOB_OPTIMAL_CHUNK_SIZE)
    else OUTPUT_BLOB_OPTIMAL_CHUNKS_COUNT + DivCeil(size - fast, OUTPUT_BLOB_SLOWER_CHUNK_SIZE)
  }

  method PlanReadChunks(blobSize: nat) returns (chunks: seq<nat>)
    requires blobSize <= MAX_PLANNED_SIZE
    ensures Sum(chunks) == blobSize
    ensures |chunks| == if blobSize == 0 then 1 else DivCeil(blobSize, BLOB_OPTIMAL_CHUNK_SIZE)
    ensures forall i | 0 <= i < |chunks| - 1 :: chunks[i] == BLOB_OPTIMAL_CHUNK_SIZE
    ensures blobSize > 0 ==> 0 < chunks[|chunks| - 1] <= BLOB_OPTIMAL_CHUNK_SIZE
  {
    chunks := [];
    var total := 0;
    while total < blobSize
      invariant total <= blobSize
      invariant Sum(chunks) == total
      invariant total < blobSize ==> total == |chunks| * BLOB_OPTIMAL_CHUNK_SIZE
      invariant total == blobSize && chunks != [] ==>
                  && (|chunks| - 1) * BLOB_OPTIMAL_CHUNK_SIZE + chunks[|chunks| - 1] == total
                  && 0 < chunks[|chunks| - 1] <= BLOB_OPTIMAL_CHUNK_SIZE
      invariant forall i | 0 <= i < |chunks| - 1 :: chunks[i] == BLOB_OPTIMAL_CHUNK_SIZE
      invariant total < blobSize ==> forall i | 0 <= i < |chunks| :: chunks[i] == BLOB_OPTIMAL_CHUNK_SIZE
      invariant chunks == [] ==> total == 0
      decreases blobSize - total
    {
      assert total + BLOB_OPTIMAL_CHUNK_SIZE <= U64_MAX;
      var chunkSize := if total + BLOB_OPTIMAL_CHUNK_SIZE <= blobSize then BLOB_OPTIMAL_CHUNK_SIZE else blobSize - total;
      total := total + chunkSize;
      SumAppend(chunks, chunkSize);
      chunks := chunks + [chunkSize];
    }
    if chunks == [] {
      SumAppend(chunks, 0);
      chunks := chunks + [0];
    }
  }

  lemma {:induction false} CoveredNext(k: nat)
    ensures WriteCovered(k + 1) == WriteCovered(k) + FullWriteChunk(k)
  {
  }

  /** The count formula, from the coverage of the full chunks. */
  lemma {:induction false} CountFromCoverage(size: nat, n: nat)
    requires n >= 1 && size > 0
    requires WriteCovered(n - 1) < size <= WriteCovered(n)
    ensures n == WriteChunkCount(size)
  {
  }

  /** The plan: sizes and part numbers of the chunks of an output blob. */
  method PlanWriteChunks(size: nat) returns (chunks: seq<nat>, partNumbers: seq<nat>)
    requires size <= MAX_PLANNED_SIZE
    ensures Sum(chunks) == size
    ensures |chunks| == |partNumbers| == WriteChunkCount(size) <= I32_MAX
    ensures forall i | 0 <= i < |partNumbers| :: partNumbers[i] == i + 1
    ensures forall i | 0 <= i < |chunks| - 1 :: chunks[i] == FullWriteChunk(i)
    ensures size > 0 ==> 0 < chunks[|chunks| - 1] <= FullWriteChunk(|chunks| - 1)
  {
    chunks, partNumbers := [], [];
    var total := 0;
    while total < size
      invariant total <= size && total <= WriteCovered(|chunks|)
      invariant Sum(chunks) == total
      invariant total < size ==> total == WriteCovered(|chunks|)
      invariant chunks != [] ==> WriteCovered(|chunks| - 1) < total
      invariant |partNumbers| == |chunks| && forall i | 0 <= i < |partNumbers| :: partNumbers[i] == i + 1
      invariant forall i | 0 <= i < |chunks| - 1 :: chunks[i] == FullWriteChunk(i)
      invariant total < size ==> forall i | 0 <= i < |chunks| :: chunks[i] == FullWriteChunk(i)
      invariant chunks != [] ==> 0 < chunks[|chunks| - 1] <= FullWriteChunk(|chunks| - 1)
      invariant chunks == [] ==> total == 0
      decreases size - total
    {
      var partNumber := |chunks| + 1;
      CoveredNext(|chunks|);
      assert partNumber <= I32_MAX;
      var chunkSize := if |chunks| < OUTPUT_BLOB_OPTIMAL_CHUNKS_COUNT then BLOB_OPTIMAL_CHUNK_SIZE else OUTPUT_BLOB_SLOWER_CHUNK_SIZE;
      assert total + chunkSize <= U64_MAX;
      chunkSize := if total + chunkSize <= size then chunkSize else size - total;
      total := total + chunkSize;
      SumAppend(chunks, chunkSize);
      chunks := chunks + [chunkSize];
      partNumbers := partNumbers + [partNumber];
    }
    if chunks == [] {
      SumAppend(chunks, 0);
      chunks, partNumbers := chunks + [0], partNumbers + [1];
    } else {
      CountFromCoverage(size, |chunks|);
    }
  }
}
