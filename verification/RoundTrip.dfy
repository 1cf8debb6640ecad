/**
 Reading back what the converter wrote: h5fd_pread on the container of a file against a slice
 of the file, for every file, offset and count.
 */
module RoundTrip {
  import opened CStrings
  import opened DatasetNames
  import opened Container
  import opened BlockReader

  /** The container of a file when every read of the converter returned a full block. */
  function Stored(k: Codec, file: Bytes): Sets {
    Box(k, Zstd, Chunks(file))
  }

  /** Block numbers stay in the range of the int they are held in: files below 8 PiB. */
  predicate Addressable(file: Bytes) {
    |file| < 0x20_0000_0000_0000
  }

  /** hdf5_readdata accepts block i: compressed, it is shorter than the read buffer. */
  predicate Fits(k: Codec, file: Bytes, i: nat) {
    i < NumChunks(file) && |k.compress(Zstd, Chunk(file, i))| < H5_BUFSIZE
  }

  /** The product `i * H5_BUFSIZE` is still an int. */
  predicate IntProduct(i: nat) {
    i < 512
  }

  predicate Readable(k: Codec, file: Bytes, i: nat) {
    Fits(k, file, i) && IntProduct(i)
  }

  /** Every block from lo to hi is readable. */
  ghost predicate AllReadable(k: Codec, file: Bytes, lo: nat, hi: nat) {
    forall i: nat :: lo <= i <= hi ==> Readable(k, file, i)
  }

  /** The loop reaches block i, and there the product overflows. */
  ghost predicate OverflowsAt(k: Codec, file: Bytes, lo: nat, hi: nat, i: nat) {
    lo <= i <= hi && Fits(k, file, i) && !IntProduct(i) && forall j: nat :: lo <= j < i ==> Readable(k, file, j)
  }

  /** The last block a read looks at: past the end it looks for the block the end falls in. */
  function LastTouched(file: Bytes, count: nat, offset: nat): nat
    requires count > 0
  {
    if offset + count <= |file| then BlockOf(offset + count - 1) else BlockOf(|file|)
  }

  // ----- 32-bit arithmetic -----

  /** Block 512 is the first whose start leaves the range of an int. */
  lemma FirstOverflowIs512(i: nat)
    ensures IsInt32(BlockStart(i)) <==> IntProduct(i)
  {
  }

  /**
   For every offset below 2^31 inside a block of the file, the 32-bit `blocknum`, product, `srcp`
   and `validbytes` are the unbounded values, and `srcp` points into the block.
   */
  lemma ArithmeticExact(dstlen: nat, curoff: nat)
    requires curoff < 0x8000_0000 && curoff - BlockStart(BlockOf(curoff)) <= dstlen <= H5_BUFSIZE
    ensures BlockNumber(curoff) == BlockOf(curoff) && IntProduct(BlockOf(curoff))
    ensures IsInt32(BlockStart(BlockNumber(curoff)))
    ensures var srcp := curoff - BlockStart(BlockNumber(curoff));
            && srcp == curoff % 4194304 && InsideBlock(dstlen, curoff)
            && ValidBytes(dstlen, curoff) == dstlen - srcp >= 0
  {
  }

  // ----- one block -----

  lemma FetchStored(k: Codec, file: Bytes, i: nat)
    requires Sound(k)
    ensures FetchBlock(k, Zstd, Stored(k, file), i) == if Fits(k, file, i) then Data(Chunk(file, i)) else Error
  {
    BoxLookup(k, Zstd, Chunks(file), i);
  }

  /** How many bytes one trip copies from a readable block. */
  function PieceLength(file: Bytes, want: nat, curoff: nat): nat
    requires curoff <= |file|
  {
    Min(Min(BlockStart(BlockOf(curoff) + 1), |file|) - curoff, want)
  }

  /** In its block, an offset of the file is inside, and what is left of the block is counted exactly. */
  lemma OffsetInChunk(file: Bytes, want: nat, curoff: nat)
    requires Addressable(file) && curoff <= |file| && BlockOf(curoff) < NumChunks(file)
    ensures BlockNumber(curoff) == BlockOf(curoff)
    ensures var c, srcp := Chunk(file, BlockOf(curoff)), curoff - BlockStart(BlockOf(curoff));
            && InsideBlock(|c|, curoff) == IntProduct(BlockOf(curoff))
            && (InsideBlock(|c|, curoff) ==> ValidBytes(|c|, curoff) == |c| - srcp)
            && 0 <= srcp <= |c| && (curoff == |file| <==> srcp == |c|)
            && Min(|c| - srcp, want) == PieceLength(file, want, curoff)
  {
  }

  lemma TripOnStored(k: Codec, file: Bytes, want: nat, curoff: nat)
    requires Sound(k) && Addressable(file) && curoff <= |file| && want > 0
    ensures var i := BlockOf(curoff);
            TakeTrip(k, Zstd, Stored(k, file), want, curoff) ==
            if !Fits(k, file, i) then Stop(Error)
            else if !IntProduct(i) then Stop(Undefined)
            else if curoff == |file| then Stop(Data(""))
            else Copy(Slice(file, curoff, PieceLength(file, want, curoff)))
  {
    hide Sound, Stored, FetchBlock;
    var i := BlockOf(curoff);
    var sets := Stored(k, file);
    assert BlockNumber(curoff) == i;
    assert FetchBlock(k, Zstd, sets, i) == if Fits(k, file, i) then Data(Chunk(file, i)) else Error by {
      FetchStored(k, file, i);
    }
    if Fits(k, file, i) {
      OffsetInChunk(file, want, curoff);
      SliceOfChunk(file, i, curoff - BlockStart(i), PieceLength(file, want, curoff));
    }
  }

  lemma SliceOfChunk(file: Bytes, i: nat, srcp: nat, n: nat)
    requires i < NumChunks(file) && srcp + n <= |Chunk(file, i)|
    ensures Slice(Chunk(file, i), srcp, n) == Slice(file, BlockStart(i) + srcp, n)
  {
  }

  // ----- the whole read -----

  /** What a read of `want` bytes at `curoff` does, in terms of the file alone. */
  ghost predicate ReadsSlice(k: Codec, file: Bytes, want: nat, curoff: nat, r: Outcome)
    requires curoff <= |file|
  {
    if want == 0 then r == Data("")
    else
      var lo, hi := BlockOf(curoff), LastTouched(file, want, curoff);
      && (r.Data? <==> AllReadable(k, file, lo, hi))
      && (r.Data? ==> r.bytes == Slice(file, curoff, Min(want, |file| - curoff)))
      && (r.Undefined? <==> exists i: nat :: OverflowsAt(k, file, lo, hi, i))
  }

  lemma {:induction false} PreadFromStored(k: Codec, file: Bytes, want: nat, curoff: nat)
    requires Sound(k) && Addressable(file) && curoff <= |file|
    ensures ReadsSlice(k, file, want, curoff, PreadFrom(k, Zstd, Stored(k, file), want, curoff))
    decreases want
  {
    hide PreadFrom, Stored, TakeTrip, Slice, Sound, Addressable, BlockOf;
    if want == 0 {
      PreadNone(k, Zstd, Stored(k, file), curoff);
    } else {
      hide ReadsSlice;
      TripOnStored(k, file, want, curoff);
      PreadUnfolds(k, Zstd, Stored(k, file), want, curoff);
      match TakeTrip(k, Zstd, Stored(k, file), want, curoff)
      case Stop(outcome) =>
        StoppedRead(k, file, want, curoff);
      case Copy(piece) =>
        var n := PieceLength(file, want, curoff);
        PreadFromStored(k, file, want - n, curoff + n);
        ContinuedRead(k, file, want, curoff, PreadFrom(k, Zstd, Stored(k, file), want - n, curoff + n));
    }
  }

  lemma StoppedRead(k: Codec, file: Bytes, want: nat, curoff: nat)
    requires want > 0 && curoff <= |file|
    ensures !Fits(k, file, BlockOf(curoff)) ==> ReadsSlice(k, file, want, curoff, Error)
    ensures Fits(k, file, BlockOf(curoff)) && !IntProduct(BlockOf(curoff)) ==>
          ReadsSlice(k, file, want, curoff, Undefined)
    ensures Readable(k, file, BlockOf(curoff)) && curoff == |file| ==> ReadsSlice(k, file, want, curoff, Data(""))
  {
    var lo, hi := BlockOf(curoff), LastTouched(file, want, curoff);
    assert lo <= hi;
    if !Readable(k, file, lo) {
      assert !AllReadable(k, file, lo, hi);
    }
    if Fits(k, file, lo) && !IntProduct(lo) {
      assert OverflowsAt(k, file, lo, hi, lo);
    }
  }

  lemma ContinuedRead(k: Codec, file: Bytes, want: nat, curoff: nat, rest: Outcome)
    requires want > 0 && curoff < |file| && Readable(k, file, BlockOf(curoff))
    requires var n := PieceLength(file, want, curoff); n <= want && ReadsSlice(k, file, want - n, curoff + n, rest)
    ensures ReadsSlice(k, file, want, curoff, Then(Slice(file, curoff, PieceLength(file, want, curoff)), rest))
  {
    var n := PieceLength(file, want, curoff);
    RestOfRead(k, file, want, curoff, n);
    SliceJoin(file, curoff, n, Min(want - n, |file| - curoff - n));
  }

  /** What one copied piece leaves of the blocks still to be read. */
  lemma RestOfRead(k: Codec, file: Bytes, want: nat, curoff: nat, n: nat)
    requires curoff < |file| && Readable(k, file, BlockOf(curoff))
    requires 0 < n && curoff + n == Min(Min(BlockStart(BlockOf(curoff) + 1), |file|), curoff + want)
    ensures var lo, hi := BlockOf(curoff), LastTouched(file, want, curoff);
            if n == want then
              lo == hi && AllReadable(k, file, lo, hi) && forall i: nat :: !OverflowsAt(k, file, lo, hi, i)
            else
              var lo', hi' := BlockOf(curoff + n), LastTouched(file, want - n, curoff + n);
              && hi == hi'
              && (AllReadable(k, file, lo, hi) <==> AllReadable(k, file, lo', hi'))
              && forall i: nat :: OverflowsAt(k, file, lo, hi, i) <==> OverflowsAt(k, file, lo', hi', i)
  {
  }

  /**
   Round trip of the container. With every compressed block short enough to be read and the file
   no longer than 2^31, a read at or before the end returns the slice of the file, except that
   reading past the end of a file of whole blocks fails.
   */
  lemma ReadBack(k: Codec, file: Bytes, count: nat, offset: nat)
    requires Sound(k) && offset <= |file| <= 0x8000_0000
    requires forall i: nat :: i < NumChunks(file) ==> Fits(k, file, i)
    ensures Pread(k, Stored(k, file), count, offset) ==
            if count == 0 || |file| % 4194304 != 0 || offset + count <= |file|
            then Data(file[offset..Min(offset + count, |file|)])
            else Error
  {
    PreadStored(k, file, count, offset);
    if count > 0 {
      var lo, hi := BlockOf(offset), LastTouched(file, count, offset);
      if |file| % 4194304 != 0 || offset + count <= |file| {
        assert AllReadable(k, file, lo, hi);
      } else {
        assert !Readable(k, file, hi);
      }
    }
  }

  /** The same for any file: a read succeeds exactly when all the blocks it touches are readable. */
  lemma PreadStored(k: Codec, file: Bytes, count: nat, offset: nat)
    requires Sound(k) && Addressable(file) && offset <= |file|
    ensures var r := Pread(k, Stored(k, file), count, offset);
            if count == 0 then r == Data("")
            else
              var lo, hi := BlockOf(offset), LastTouched(file, count, offset);
              && (r.Data? <==> AllReadable(k, file, lo, hi))
              && (r.Data? ==> r.bytes == file[offset..Min(offset + count, |file|)])
              && (r.Undefined? <==> exists i: nat :: OverflowsAt(k, file, lo, hi, i))
  {
    BoxAlgorithm(k, Zstd, Chunks(file));
    PreadFromStored(k, file, count, offset);
    SliceIs(file, offset, Min(count, |file| - offset));
  }

  /** The block the int holds is one of the file, short enough to be read. */
  predicate FitsInt(k: Codec, file: Bytes, i: int) {
    i >= 0 && Fits(k, file, i)
  }

  lemma FetchInt(k: Codec, file: Bytes, i: int)
    requires Sound(k)
    ensures FitsInt(k, file, i) ==> FetchBlock(k, Zstd, Stored(k, file), i) == Data(Chunk(file, i))
    ensures !FitsInt(k, file, i) ==> FetchBlock(k, Zstd, Stored(k, file), i) == Error
  {
    if i >= 0 {
      FetchStored(k, file, i);
    } else {
      BoxLookup(k, Zstd, Chunks(file), i);
    }
  }

  /** No offset behind the end of the file is inside a block of it, also when its number is cut to an int. */
  lemma BehindIsOutside(file: Bytes, offset: nat)
    requires offset > |file| && 0 <= BlockNumber(offset) < NumChunks(file)
    ensures !InsideBlock(|Chunk(file, BlockNumber(offset))|, offset)
    ensures offset < 0x20_0000_0000_0000 ==>
              |file| % 4194304 != 0 && BlockNumber(offset) == BlockOf(offset) == BlockOf(|file|)
  {
  }

  /** Behind the end of the file, however far: -1 where no block is, an undefined copy where one is. */
  lemma PreadBehindEnd(k: Codec, file: Bytes, count: nat, offset: nat)
    requires Sound(k) && offset > |file| && count > 0
    ensures Pread(k, Stored(k, file), count, offset) ==
            if FitsInt(k, file, BlockNumber(offset)) then Undefined else Error
    ensures offset < 0x20_0000_0000_0000 && FitsInt(k, file, BlockNumber(offset)) ==>
              |file| % 4194304 != 0 && BlockNumber(offset) == BlockOf(offset) == BlockOf(|file|)
  {
    hide PreadFrom, Sound, FetchBlock, AlgorithmOf, BlockNumber, BlockOf, NumChunks, InsideBlock, Box;
    if FitsInt(k, file, BlockNumber(offset)) {
      BehindIsOutside(file, offset);
    }
    BoxAlgorithm(k, Zstd, Chunks(file));
    FetchInt(k, file, BlockNumber(offset));
    PreadUnfolds(k, Zstd, Stored(k, file), count, offset);
  }

  /** All that a read of this file touches can be read back. */
  ghost predicate GoodRead(k: Codec, file: Bytes, count: nat, offset: nat) {
    count > 0 ==> offset <= |file| && AllReadable(k, file, BlockOf(offset), LastTouched(file, count, offset))
  }

  /** Before its end the read meets a product that overflows, or behind the file a block to copy from. */
  ghost predicate StrayRead(k: Codec, file: Bytes, count: nat, offset: nat) {
    && count > 0
    && if offset <= |file| then
         exists i: nat :: OverflowsAt(k, file, BlockOf(offset), LastTouched(file, count, offset), i)
       else FitsInt(k, file, BlockNumber(offset))
  }

  /** How any read of a stored file ends, wherever it starts. */
  lemma PreadEnds(k: Codec, file: Bytes, count: nat, offset: nat)
    requires Sound(k) && Addressable(file)
    ensures var r := Pread(k, Stored(k, file), count, offset);
            (r.Data? <==> GoodRead(k, file, count, offset)) && (r.Undefined? <==> StrayRead(k, file, count, offset))
  {
    hide Pread, Stored, AllReadable, OverflowsAt, BlockOf, LastTouched, Addressable, Sound, FitsInt, BlockNumber;
    if count == 0 {
      PreadNothing(k, file, offset);
    } else if offset <= |file| {
      PreadStored(k, file, count, offset);
    } else {
      PreadBehindEnd(k, file, count, offset);
    }
  }

  lemma PreadNothing(k: Codec, file: Bytes, offset: nat)
    requires Sound(k)
    ensures Pread(k, Stored(k, file), 0, offset) == Data("")
  {
    BoxAlgorithm(k, Zstd, Chunks(file));
  }

  /** A file of one block, read whole: what counts is that it compresses to less than 4 MiB. */
  lemma OneBlockFile(k: Codec, file: Bytes)
    requires Sound(k) && 0 < |file| <= 4194304
    ensures Pread(k, Stored(k, file), |file|, 0) == if |k.compress(Zstd, file)| < 4194304 then Data(file) else Error
    ensures "algorithm" in Stored(k, file) && Stored(k, file)["algorithm"] == "zstd " + k.version(Zstd)
    ensures "block0" in Stored(k, file) && Stored(k, file)["block0"] == k.compress(Zstd, file)
    ensures |Stored(k, file)| == 2
  {
    assert NumChunks(file) == 1 && Chunk(file, 0) == file;
    BoxTag(k, Zstd, Chunks(file));
    TagText(k);
    BoxLookup(k, Zstd, Chunks(file), 0);
    BlockNameText(0);
    hide Pread, Stored, Box;
    PreadStored(k, file, |file|, 0);
    if |k.compress(Zstd, file)| < 4194304 {
      assert file[0..|file|] == file;
    } else {
      assert !Readable(k, file, 0) && !Fits(k, file, 0);
    }
  }

  /** A read at 2 GiB, where block 512 begins, is not defined if that block can be read back at all. */
  lemma AtTwoGiB(k: Codec, file: Bytes)
    requires Sound(k) && Addressable(file) && |file| > 0x8000_0000
    requires |k.compress(Zstd, file[0x8000_0000..Min(0x8040_0000, |file|)])| < 4194304
    ensures Pread(k, Stored(k, file), 1, 0x8000_0000) == Undefined
  {
    assert BlockOf(0x8000_0000) == 512 == LastTouched(file, 1, 0x8000_0000);
    assert Chunk(file, 512) == file[0x8000_0000..Min(0x8040_0000, |file|)];
    assert OverflowsAt(k, file, 512, 512, 512);
    hide Pread, Stored;
    PreadStored(k, file, 1, 0x8000_0000);
  }

  /**
   The block number is cut to an int. At 2^54 it is 0 again, and the read copies from outside block
   0 if that can be read; at 2^53 it is negative, and no block has that name.
   */
  lemma FarOffsets(k: Codec, file: Bytes)
    requires Sound(k) && 0 < |file| < 0x20_0000_0000_0000
    ensures Pread(k, Stored(k, file), 1, 0x20_0000_0000_0000) == Error
    ensures Pread(k, Stored(k, file), 1, 0x40_0000_0000_0000) == if Fits(k, file, 0) then Undefined else Error
  {
    hide Pread, Stored;
    assert BlockNumber(0x20_0000_0000_0000) == -0x8000_0000 && BlockNumber(0x40_0000_0000_0000) == 0;
    PreadBehindEnd(k, file, 1, 0x20_0000_0000_0000);
    PreadBehindEnd(k, file, 1, 0x40_0000_0000_0000);
  }

  // ----- a read that succeeds is right -----

  /** Whatever the offset, and for files of any length, a trip copies bytes of the file or stops at its end. */
  lemma TripIsTrue(k: Codec, file: Bytes, want: nat, curoff: nat)
    requires Sound(k) && want > 0
    ensures match TakeTrip(k, Zstd, Stored(k, file), want, curoff)
            case Copy(piece) => curoff + |piece| <= |file| && piece == Slice(file, curoff, |piece|)
            case Stop(Data(_)) => curoff == |file|
            case _ => true
  {
    hide FetchBlock, Stored, Sound, Fits, BlockNumber, InsideBlock, ValidBytes, Chunk, NumChunks;
    var i := BlockNumber(curoff);
    FetchInt(k, file, i);
    FitsIsChunk(k, file, i);
    if FitsInt(k, file, i) && InsideBlock(|Chunk(file, i)|, curoff) {
      ValidBytesExact(|Chunk(file, i)|, curoff);
      AtChunk(file, curoff);
      SliceOfChunk(file, i, curoff - BlockStart(i), Min(ValidBytes(|Chunk(file, i)|, curoff), want));
    }
  }

  /** An offset inside its block is one of the file; right behind the block it is the end of the file. */
  lemma AtChunk(file: Bytes, curoff: nat)
    requires 0 <= BlockNumber(curoff) < NumChunks(file) && InsideBlock(|Chunk(file, BlockNumber(curoff))|, curoff)
    ensures var i := BlockNumber(curoff);
            && curoff >= BlockStart(i) && BlockStart(i) + |Chunk(file, i)| <= |file|
            && (curoff - BlockStart(i) == |Chunk(file, i)| ==> curoff == |file|)
  {
    hide Slice;
  }

  lemma FitsIsChunk(k: Codec, file: Bytes, i: int)
    ensures FitsInt(k, file, i) ==> 0 <= i < NumChunks(file)
  {
  }

  lemma {:induction false} LoopIsTrue(k: Codec, file: Bytes, want: nat, curoff: nat)
    requires Sound(k) && want > 0
    ensures var r := PreadFrom(k, Zstd, Stored(k, file), want, curoff);
            r.Data? ==> curoff <= |file| && r.bytes == Slice(file, curoff, Min(want, |file| - curoff))
    decreases want
  {
    hide PreadFrom, Stored, TakeTrip;
    TripIsTrue(k, file, want, curoff);
    PreadUnfolds(k, Zstd, Stored(k, file), want, curoff);
    var trip := TakeTrip(k, Zstd, Stored(k, file), want, curoff);
    if trip.Copy? {
      var n := |trip.piece|;
      if n < want {
        LoopIsTrue(k, file, want - n, curoff + n);
        SliceJoin(file, curoff, n, Min(want - n, |file| - curoff - n));
      } else {
        PreadNone(k, Zstd, Stored(k, file), curoff + n);
        assert trip.piece + "" == trip.piece;
      }
    }
  }

  /** A read of a converted file that succeeds returns what the file has there, for every offset and every length. */
  lemma SuccessIsTrue(k: Codec, file: Bytes, count: nat, offset: nat)
    requires Sound(k)
    ensures var r := Pread(k, Stored(k, file), count, offset);
            r.Data? ==>
              && r.bytes == (if offset >= |file| then "" else Slice(file, offset, Min(count, |file| - offset)))
              && (count > 0 ==> offset <= |file|)
  {
    BoxAlgorithm(k, Zstd, Chunks(file));
    if count > 0 {
      LoopIsTrue(k, file, count, offset);
    }
  }
}
