/**
 Why the reader needs every read of the converter but the last to fill its buffer: the block of
 an offset is found by division, so a shorter chunk in the middle hides the bytes behind it.
 */
module FullReads {
  import opened CStrings
  import opened Container
  import opened BlockReader
  import opened RoundTrip

  /** Chunks as read() returns them: never empty, never more than the buffer, and readable once compressed. */
  ghost predicate Chunked(k: Codec, chunks: seq<Bytes>) {
    forall j {:trigger chunks[j]} :: 0 <= j < |chunks| ==>
      0 < |chunks[j]| <= H5_BUFSIZE && |k.compress(Zstd, chunks[j])| < H5_BUFSIZE
  }

  ghost predicate FullUpTo(chunks: seq<Bytes>, n: nat) {
    n <= |chunks| && forall j {:trigger chunks[j]} :: 0 <= j < n ==> |chunks[j]| == H5_BUFSIZE
  }

  lemma {:induction false} FullLength(chunks: seq<Bytes>, n: nat)
    requires FullUpTo(chunks, n)
    ensures |Concat(chunks[..n])| == BlockStart(n)
  {
    if n > 0 {
      FullLength(chunks, n - 1);
      assert chunks[..n][..n - 1] == chunks[..n - 1];
    }
  }

  /** Where the j-th chunk stands in the whole. */
  lemma {:induction false} ChunkPlace(chunks: seq<Bytes>, j: nat)
    requires j < |chunks|
    ensures var before := |Concat(chunks[..j])|;
            && before + |chunks[j]| <= |Concat(chunks)|
            && Slice(Concat(chunks), before, |chunks[j]|) == chunks[j]
            && (j + 1 < |chunks| && |chunks[|chunks| - 1]| > 0 ==> before + |chunks[j]| < |Concat(chunks)|)
  {
    var n := |chunks| - 1;
    if j < n {
      ChunkPlace(chunks[..n], j);
      assert chunks[..n][..j] == chunks[..j];
    }
  }

  lemma NoChunks(chunks: seq<Bytes>)
    requires |chunks| == 0
    ensures Concat(chunks) == ""
  {
  }

  lemma LastChunk(chunks: seq<Bytes>)
    requires |chunks| > 0
    ensures |Concat(chunks)| == |Concat(chunks[..|chunks| - 1])| + |chunks[|chunks| - 1]|
  {
  }

  lemma FullCutIsChunks(k: Codec, file: Bytes, chunks: seq<Bytes>)
    requires Chunked(k, chunks) && Concat(chunks) == file
    requires |chunks| > 0 ==> FullUpTo(chunks, |chunks| - 1)
    ensures chunks == Chunks(file)
  {
    hide Concat, Slice;
    if |chunks| == 0 {
      assert |Concat(chunks)| == 0 by { NoChunks(chunks); }
    } else {
      var n := |chunks| - 1;
      FullLength(chunks, n);
      LastChunk(chunks);
      forall j | 0 <= j <= n ensures chunks[j] == Chunk(file, j) {
        FullLength(chunks, j);
        ChunkPlace(chunks, j);
      }
    }
  }

  /** The first short chunk that is not the last. */
  lemma FirstShort(chunks: seq<Bytes>, n: nat) returns (i: nat)
    requires n < |chunks| && !FullUpTo(chunks, n)
    ensures i < n && FullUpTo(chunks, i) && |chunks[i]| != H5_BUFSIZE
  {
    i := 0;
    while |chunks[i]| == H5_BUFSIZE
      invariant i < n && FullUpTo(chunks, i)
      decreases n - i
    {
      assert FullUpTo(chunks, i + 1);
      i := i + 1;
    }
  }

  lemma BehindChunk(i: nat, n: nat)
    requires i < 512 && n < H5_BUFSIZE
    ensures var offset := BlockStart(i) + n;
            BlockNumber(offset) == i && InsideBlock(n, offset) && ValidBytes(n, offset) == 0
  {
  }

  lemma FetchChunk(k: Codec, chunks: seq<Bytes>, i: nat)
    requires Sound(k) && Chunked(k, chunks) && i < |chunks|
    ensures FetchBlock(k, Zstd, Box(k, Zstd, chunks), i) == Data(chunks[i])
  {
    BoxLookup(k, Zstd, chunks, i);
    hide Box;
  }

  /** Right behind a short chunk the reader takes the end of the block for the end of the file. */
  lemma ReadBehindShortChunk(k: Codec, chunks: seq<Bytes>, i: nat)
    requires Sound(k) && Chunked(k, chunks) && i < |chunks| && i < 512 && |chunks[i]| < H5_BUFSIZE
    ensures Pread(k, Box(k, Zstd, chunks), 1, BlockStart(i) + |chunks[i]|) == Data("")
  {
    hide Sound, Box, Chunked, FetchBlock, AlgorithmOf, PreadFrom, BlockNumber, InsideBlock, ValidBytes;
    var offset := BlockStart(i) + |chunks[i]|;
    BoxAlgorithm(k, Zstd, chunks);
    FetchChunk(k, chunks, i);
    BehindChunk(i, |chunks[i]|);
    PreadUnfolds(k, Zstd, Box(k, Zstd, chunks), 1, offset);
  }

  /**
   The hypothesis of the round trip is exact: among all ways of cutting a file of at most 2^31
   bytes, every byte reads back at its own offset only for the cut into full blocks.
   */
  lemma FullReadsNeeded(k: Codec, file: Bytes, chunks: seq<Bytes>)
    requires Sound(k) && |file| <= 0x8000_0000 && Concat(chunks) == file && Chunked(k, chunks)
    ensures (forall offset: nat {:trigger Slice(file, offset, 1)} :: offset < |file| ==>
               Pread(k, Box(k, Zstd, chunks), 1, offset) == Data(Slice(file, offset, 1)))
            <==> chunks == Chunks(file)
  {
    if chunks == Chunks(file) {
      forall offset: nat | offset < |file|
        ensures Pread(k, Box(k, Zstd, chunks), 1, offset) == Data(Slice(file, offset, 1))
      {
        assert forall i: nat :: i < NumChunks(file) ==> Fits(k, file, i) by {
          assert forall i: nat :: i < NumChunks(file) ==> chunks[i] == Chunk(file, i);
        }
        ReadBack(k, file, 1, offset);
        SliceIs(file, offset, 1);
      }
    } else {
      ShortCutHidesByte(k, file, chunks);
    }
  }

  /** A cut that is not into full blocks has a short chunk with bytes behind it. */
  lemma ShortChunk(k: Codec, file: Bytes, chunks: seq<Bytes>) returns (i: nat)
    requires Concat(chunks) == file && Chunked(k, chunks) && chunks != Chunks(file)
    ensures i < |chunks| && |chunks[i]| < H5_BUFSIZE && BlockStart(i) + |chunks[i]| < |file|
  {
    if |chunks| == 0 || FullUpTo(chunks, |chunks| - 1) {
      FullCutIsChunks(k, file, chunks);
    }
    i := FirstShort(chunks, |chunks| - 1);
    FullLength(chunks, i);
    ChunkPlace(chunks, i);
  }

  lemma ShortCutHidesByte(k: Codec, file: Bytes, chunks: seq<Bytes>)
    requires Sound(k) && |file| <= 0x8000_0000 && Concat(chunks) == file && Chunked(k, chunks)
    requires chunks != Chunks(file)
    ensures exists offset: nat {:trigger Slice(file, offset, 1)} ::
              offset < |file| && Pread(k, Box(k, Zstd, chunks), 1, offset) != Data(Slice(file, offset, 1))
  {
    var i := ShortChunk(k, file, chunks);
    ReadBehindShortChunk(k, chunks, i);
    assert |Slice(file, BlockStart(i) + |chunks[i]|, 1)| == 1;
  }
}
