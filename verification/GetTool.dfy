/**
 Copying a stored file out (src/dzfile-get.c, dzfile_get): read BUFLEN bytes at a time through
 the API until a read returns nothing or fails, write them to the destination.
 */
module GetTool {
  import opened CStrings
  import opened Container
  import opened BlockReader
  import opened RoundTrip
  import opened ClientReads

  const BUFLEN := 524288

  // ----- the copy as a function -----

  /** No read delivers a byte from here on: 32-bit arithmetic ends a container, the length a plain file. */
  function Limit(src: Source): nat {
    match src
    case InBox(_) => 0x1_0000_0000
    case InFile(data) => |data|
  }

  lemma {:induction false} LoopLimit(k: Codec, a: Alg, sets: Sets, want: nat, curoff: nat)
    ensures var r := PreadFrom(k, a, sets, want, curoff);
            r.Data? && |r.bytes| > 0 ==> curoff + |r.bytes| <= 0x1_0000_0000
    decreases want
  {
    hide PreadFrom, TakeTrip;
    if want == 0 {
      PreadNone(k, a, sets, curoff);
    } else {
      var trip := TakeTrip(k, a, sets, want, curoff);
      PreadUnfolds(k, a, sets, want, curoff);
      if trip.Copy? {
        PieceLimit(k, a, sets, want, curoff);
        LoopLimit(k, a, sets, want - |trip.piece|, curoff + |trip.piece|);
      }
    }
  }

  lemma PieceLimit(k: Codec, a: Alg, sets: Sets, want: nat, curoff: nat)
    requires want > 0
    ensures var t := TakeTrip(k, a, sets, want, curoff); t.Copy? ==> curoff + |t.piece| <= 0x1_0000_0000
  {
    var f := FetchBlock(k, a, sets, BlockNumber(curoff));
    if f.Data? && InsideBlock(|f.bytes|, curoff) {
      ValidBytesExact(|f.bytes|, curoff);
    }
  }

  lemma ReadLimit(k: Codec, src: Source, count: nat, offset: nat)
    ensures var r := ReadAt(k, src, count, offset);
            r.Data? && |r.bytes| > 0 ==> offset + |r.bytes| <= Limit(src)
  {
    if src.InBox? {
      LoopLimit(k, AlgorithmOf(src.sets), src.sets, count, offset);
    }
  }

  /** What the loop still copies from `total` on; a failed read ends it like the end of the file does. */
  function GetFrom(k: Codec, src: Source, total: nat): Outcome
    decreases Limit(src) - total
  {
    ReadLimit(k, src, BUFLEN, total);
    match ReadAt(k, src, BUFLEN, total)
    case Undefined => Undefined
    case Error => Data("")
    case Data(bytes) => if |bytes| == 0 then Data("") else Then(bytes, GetFrom(k, src, total + |bytes|))
  }

  /** One trip round the loop. */
  lemma GetUnfolds(k: Codec, src: Source, total: nat)
    ensures GetFrom(k, src, total) ==
            match ReadAt(k, src, BUFLEN, total)
            case Undefined => Undefined
            case Error => Data("")
            case Data(bytes) => if |bytes| == 0 then Data("") else Then(bytes, GetFrom(k, src, total + |bytes|))
  {
    hide ReadAt;
  }

  // ----- what comes out -----

  /** Copying a file that was never converted. */
  lemma {:induction false} GetPlain(k: Codec, data: Bytes, total: nat)
    requires total <= |data|
    ensures GetFrom(k, InFile(data), total) == Data(data[total..])
    decreases |data| - total
  {
    if total < |data| {
      var n := Min(BUFLEN, |data| - total);
      SliceIs(data, total, n);
      GetPlain(k, data, total + n);
      assert data[total..total + n] + data[total + n..] == data[total..];
    }
  }

  /** Where the loop stands between two reads: all before is copied, the block it is inside of is readable. */
  ghost predicate AtRead(k: Codec, file: Bytes, total: nat) {
    && total <= |file| && (total % 524288 == 0 || total == |file|)
    && (total % 4194304 != 0 ==> Readable(k, file, BlockOf(total)))
  }

  /** BUFLEN divides the block: one read looks at one block, and ends in it or at its end. */
  lemma OneBlock(file: Bytes, total: nat, next: nat)
    requires total <= |file| && (total % 524288 == 0 || total == |file|) && next == Min(total + 524288, |file|)
    ensures LastTouched(file, 524288, total) == BlockOf(total)
    ensures next % 524288 == 0 || next == |file|
    ensures next % 4194304 != 0 || next == total ==> BlockOf(next) == BlockOf(total)
    ensures next % 4194304 == 0 && next != total ==> next == BlockStart(BlockOf(total) + 1)
  {
  }

  lemma JustOne(k: Codec, file: Bytes, i: nat)
    ensures AllReadable(k, file, i, i) <==> Readable(k, file, i)
    ensures (exists j: nat :: OverflowsAt(k, file, i, i, j)) <==> Fits(k, file, i) && !IntProduct(i)
  {
    hide Fits, IntProduct;
    if Fits(k, file, i) && !IntProduct(i) {
      assert OverflowsAt(k, file, i, i, i);
    }
  }

  /** One read of the loop. */
  lemma OneRead(k: Codec, file: Bytes, total: nat)
    requires Sound(k) && Addressable(file) && AtRead(k, file, total)
    ensures var r, i, next := Pread(k, Stored(k, file), BUFLEN, total), BlockOf(total), Min(total + BUFLEN, |file|);
            && (r.Data? <==> Readable(k, file, i))
            && (r.Data? ==> r.bytes == Slice(file, total, next - total) && AtRead(k, file, next))
            && (r.Undefined? <==> Fits(k, file, i) && !IntProduct(i))
  {
    hide Pread, Stored, Readable, Fits, AllReadable, OverflowsAt, LastTouched, BlockOf;
    PreadStored(k, file, BUFLEN, total);
    SliceIs(file, total, Min(BUFLEN, |file| - total));
    OneBlock(file, total, Min(total + BUFLEN, |file|));
    JustOne(k, file, BlockOf(total));
  }

  /** From block i on, b is the first that cannot be read; the number of blocks if all can. */
  ghost predicate FirstBad(k: Codec, file: Bytes, i: nat, b: nat) {
    && i <= b <= NumChunks(file) && (b < NumChunks(file) ==> !Readable(k, file, b))
    && forall j: nat {:trigger Readable(k, file, j)} :: i <= j < b ==> Readable(k, file, j)
  }

  /** Where block b starts, or the file ends. */
  function Reached(file: Bytes, b: nat): nat {
    Min(BlockStart(b), |file|)
  }

  /** One trip round the loop. */
  lemma GetStep(k: Codec, file: Bytes, total: nat)
    requires Sound(k) && Addressable(file) && AtRead(k, file, total)
    ensures var src, i, next := InBox(Stored(k, file)), BlockOf(total), Min(total + BUFLEN, |file|);
            && GetFrom(k, src, total) ==
               (if !Readable(k, file, i) then if Fits(k, file, i) then Undefined else Data("")
                else if total == |file| then Data("")
                else Then(Slice(file, total, next - total), GetFrom(k, src, next)))
            && (Readable(k, file, i) ==> AtRead(k, file, next))
  {
    hide GetFrom, Pread, AtRead, Fits, Slice, Stored, BlockOf, Sound, Addressable, IntProduct;
    OneRead(k, file, total);
    GetUnfolds(k, InBox(Stored(k, file)), total);
  }

  lemma {:induction false} GetRest(k: Codec, file: Bytes, total: nat, b: nat)
    requires Sound(k) && Addressable(file) && AtRead(k, file, total) && FirstBad(k, file, BlockOf(total), b)
    ensures total <= Reached(file, b)
    ensures GetFrom(k, InBox(Stored(k, file)), total) ==
            if b < NumChunks(file) && Fits(k, file, b) then Undefined
            else Data(Slice(file, total, Reached(file, b) - total))
    decreases |file| - total
  {
    hide GetFrom, Stored, FirstBad, AtRead, BlockOf, NumChunks, Reached, Readable, Fits, Sound, Slice;
    GetStep(k, file, total);
    Standing(k, file, total, b);
    if Readable(k, file, BlockOf(total)) && total < |file| {
      var next := Min(total + BUFLEN, |file|);
      MoveOn(k, file, total, next, b);
      GetRest(k, file, next, b);
      SliceJoin(file, total, next - total, Reached(file, b) - next);
    } else {
      assert Slice(file, total, Reached(file, b) - total) == "";
    }
  }

  /** The loop stands before block b; it is at the end of the file, or stopped there, or reads on. */
  lemma Standing(k: Codec, file: Bytes, total: nat, b: nat)
    requires AtRead(k, file, total) && FirstBad(k, file, BlockOf(total), b)
    ensures total <= Reached(file, b) <= |file|
    ensures total == |file| ==> Reached(file, b) == total && b == NumChunks(file)
    ensures total == |file| && !Readable(k, file, BlockOf(total)) ==> !Fits(k, file, BlockOf(total))
    ensures total < |file| && !Readable(k, file, BlockOf(total)) ==>
              b == BlockOf(total) < NumChunks(file) && Reached(file, b) == total
  {
    assert BlockOf(total) <= NumChunks(file);
    assert total < |file| ==> BlockOf(total) < NumChunks(file);
  }

  /** Behind a read that succeeded the first bad block is still the same. */
  lemma MoveOn(k: Codec, file: Bytes, total: nat, next: nat, b: nat)
    requires AtRead(k, file, total) && total < |file| && Readable(k, file, BlockOf(total))
    requires next == Min(total + BUFLEN, |file|) && FirstBad(k, file, BlockOf(total), b)
    ensures FirstBad(k, file, BlockOf(next), b)
  {
    OneBlock(file, total, next);
    hide Readable;
  }

  lemma FindBad(k: Codec, file: Bytes) returns (b: nat)
    ensures FirstBad(k, file, 0, b)
  {
    b := 0;
    while b < NumChunks(file) && Readable(k, file, b)
      invariant b <= NumChunks(file) && forall j: nat {:trigger Readable(k, file, j)} :: j < b ==> Readable(k, file, j)
      decreases NumChunks(file) - b
    {
      b := b + 1;
    }
  }

  /**
   dzfile_get on a converted file copies out the file, exact block multiples and the empty file
   included, exactly when every block can be read.
   */
  lemma GetStored(k: Codec, file: Bytes)
    requires Sound(k) && Addressable(file)
    ensures GetFrom(k, InBox(Stored(k, file)), 0) == Data(file) <==>
            forall i: nat :: i < NumChunks(file) ==> Readable(k, file, i)
  {
    var b := FindBad(k, file);
    GetStopsAt(k, file, b);
    assert Slice(file, 0, |file|) == file;
  }

  /** A block too long to be read back ends the copy there, and dzfile_get still returns 0; block 512 is not defined. */
  lemma GetStopsAt(k: Codec, file: Bytes, b: nat)
    requires Sound(k) && Addressable(file) && FirstBad(k, file, 0, b)
    ensures GetFrom(k, InBox(Stored(k, file)), 0) ==
            if b == NumChunks(file) then Data(file)
            else if Fits(k, file, b) then Undefined else Data(file[..BlockStart(b)])
    ensures b < NumChunks(file) ==> BlockStart(b) < |file|
  {
    GetRest(k, file, 0, b);
    SliceIs(file, 0, Reached(file, b));
    assert Slice(file, 0, |file|) == file;
  }

  // ----- the code -----

  lemma PwriteAtEnd(file: Bytes, data: Bytes)
    ensures Pwrite(file, data, |file|) == file + data
  {
  }

  /** The first write that fails. */
  predicate FirstFailed(written: seq<bool>, w: nat) {
    w < |written| && !written[w] && forall j :: 0 <= j < w ==> written[j]
  }

  /**
   The loop of dzfile_get, with the system's answers to its writes: what it leaves in the
   destination file. A write that fails ends it, as a read that fails does, and 0 is returned; all
   that was read before is there.
   */
  method DzfileGet(k: Codec, src: Source, written: seq<bool>) returns (dst: Bytes, ret: int, defined: bool)
    ensures match GetFrom(k, src, 0)
            case Data(bytes) =>
              && defined && ret == 0
              && ((forall j :: 0 <= j < |written| ==> written[j]) ==> dst == bytes)
              && (forall w: nat :: FirstFailed(written, w) ==> dst == bytes[..Min(524288 * w, |bytes|)])
            case _ => !defined || (ret == 0 && exists w: nat :: FirstFailed(written, w) && |dst| == 524288 * w)
  {
    hide ReadAt, GetFrom, Pwrite, Limit;
    var buf := new char[BUFLEN];
    var totalBytes, i := 0, 0;
    dst, ret, defined := "", 0, true;
    while true
      invariant |dst| == totalBytes && ret == 0 && defined
      invariant totalBytes == 524288 * i || (totalBytes < 524288 * i && ReadAt(k, src, BUFLEN, totalBytes) == Data(""))
      invariant forall j :: 0 <= j < i && j < |written| ==> written[j]
      invariant GetFrom(k, src, 0) == Then(dst, GetFrom(k, src, totalBytes))
      decreases Limit(src) - totalBytes
    {
      ghost var r := ReadAt(k, src, BUFLEN, totalBytes);
      ReadLimit(k, src, BUFLEN, totalBytes);
      GetUnfolds(k, src, totalBytes);
      var nbread;
      nbread, defined := DzfilePread(k, src, buf, 0, BUFLEN, totalBytes);
      if !defined {
        return;
      }
      if nbread <= 0 {
        assert dst + "" == dst;
        return;
      }
      if i < |written| && !written[i] {
        assert FirstFailed(written, i) && totalBytes == 524288 * i;
        assert GetFrom(k, src, 0).Data? ==> GetFrom(k, src, 0).bytes[..totalBytes] == dst;
        return;
      }
      assert buf[..nbread] == r.bytes;
      if nbread < BUFLEN {
        ShortReadIsLast(k, src, BUFLEN, BUFLEN, totalBytes);
      }
      ThenAssociates(dst, r.bytes, GetFrom(k, src, totalBytes + nbread));
      PwriteAtEnd(dst, r.bytes);
      dst := Pwrite(dst, buf[..nbread], totalBytes);
      totalBytes, i := totalBytes + nbread, i + 1;
    }
  }
}
