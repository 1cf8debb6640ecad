/**
 Random access into a container (src/dzfile-intern.cc, h5fd_pread): find the block of the
 current offset, decompress it, copy the part that is wanted, go on.
 The index arithmetic is the source's: `blocknum`, `blocknum * H5_BUFSIZE` and `validbytes`
 are 32-bit.
 */
module BlockReader {
  import opened CStrings
  import opened DatasetNames
  import opened Container

  /**
   How a read ends: with bytes (their number is the value returned), with -1, or outside what C
   defines (signed overflow, a copy from outside the block, an uninitialised length).
   */
  datatype Outcome = Data(bytes: Bytes) | Error | Undefined

  predicate IsInt32(x: int) {
    -0x8000_0000 <= x < 0x8000_0000
  }

  /** The value of an int that x is stored into. */
  function WrapInt32(x: int): (r: int)
    ensures -0x8000_0000 <= r < 0x8000_0000 && (r - x) % 0x1_0000_0000 == 0
  {
    (x + 0x8000_0000) % 0x1_0000_0000 - 0x8000_0000
  }

  lemma WrapIsExact(x: int)
    requires IsInt32(x)
    ensures WrapInt32(x) == x
  {
  }

  /** hdf5_readdata into a buffer of H5_BUFSIZE, then decompress_data. */
  function FetchBlock(k: Codec, a: Alg, sets: Sets, blocknum: int): Outcome {
    if BlockName(blocknum) !in sets then Error
    else
      var zip := sets[BlockName(blocknum)];
      if |zip| == 0 || |zip| >= H5_BUFSIZE then Error
      else
        match a
        case Zstd => (match k.decompress(a, zip) case Some(block) => Data(block) case None => Error)
        case Zlib => Undefined
        case _ => Error
  }

  /** The block an offset falls in, as the int the loop holds. */
  function BlockNumber(curoff: nat): int {
    WrapInt32(BlockOf(curoff))
  }

  /** `dstlen - curoff + blocknum * H5_BUFSIZE`, stored into an int. */
  function ValidBytes(dstlen: nat, curoff: nat): int {
    WrapInt32(dstlen - curoff + BlockStart(BlockNumber(curoff)))
  }

  /** `blocknum * H5_BUFSIZE` fits an int and `srcp` points into the block or just past it. */
  predicate InsideBlock(dstlen: nat, curoff: nat) {
    var start := BlockStart(BlockNumber(curoff));
    IsInt32(start) && 0 <= curoff - start <= dstlen && IsInt32(dstlen)
  }

  lemma ValidBytesExact(dstlen: nat, curoff: nat)
    requires InsideBlock(dstlen, curoff)
    ensures ValidBytes(dstlen, curoff) == dstlen - curoff + BlockStart(BlockNumber(curoff)) >= 0
  {
  }

  function Then(before: Bytes, rest: Outcome): Outcome {
    match rest case Data(after) => Data(before + after) case _ => rest
  }

  /** One trip round the loop: it ends the read, or copies a piece of at least one byte. */
  datatype Trip = Stop(outcome: Outcome) | Copy(piece: Bytes)

  function TakeTrip(k: Codec, a: Alg, sets: Sets, want: nat, curoff: nat): (t: Trip)
    requires want > 0
    ensures t.Copy? ==> 0 < |t.piece| <= want
    ensures t.Stop? && t.outcome.Data? ==> t.outcome.bytes == ""
  {
    match FetchBlock(k, a, sets, BlockNumber(curoff))
    case Error => Stop(Error)
    case Undefined => Stop(Undefined)
    case Data(block) => CopyFrom(block, want, curoff)
  }

  /** The part of a decompressed block that is wanted. */
  function CopyFrom(block: Bytes, want: nat, curoff: nat): (t: Trip)
    requires want > 0
    ensures t.Copy? ==> 0 < |t.piece| <= want
    ensures t.Stop? && t.outcome.Data? ==> t.outcome.bytes == ""
  {
    if !InsideBlock(|block|, curoff) then Stop(Undefined)
    else
      ValidBytesExact(|block|, curoff);
      var srcp := curoff - BlockStart(BlockNumber(curoff));
      var validbytes := ValidBytes(|block|, curoff);
      if validbytes == 0 then Stop(Data(""))
      else Copy(Slice(block, srcp, Min(validbytes, want)))
  }

  /** What a trip does, for the bytes still wanted and the current offset. */
  type Trips = (nat, nat) -> Trip

  function TripsOf(k: Codec, a: Alg, sets: Sets): Trips {
    (want: nat, curoff: nat) => if want == 0 then Stop(Data("")) else TakeTrip(k, a, sets, want, curoff)
  }

  /** A copied piece has at least one byte and no more than are wanted. */
  predicate Advances(trip: Trip, want: nat) {
    trip.Copy? ==> 0 < |trip.piece| <= want
  }

  /** The loop of h5fd_pread over any way of making its trips; a piece of no length would never end. */
  function Loop(trips: Trips, want: nat, curoff: nat): (r: Outcome)
    ensures r.Data? ==> |r.bytes| <= want
    decreases want
  {
    if want == 0 then Data("")
    else
      var trip := trips(want, curoff);
      if !Advances(trip, want) then Undefined
      else
        match trip
        case Stop(Data(_)) => Data("")
        case Stop(failure) => failure
        case Copy(piece) => Then(piece, Loop(trips, want - |piece|, curoff + |piece|))
  }

  /** The loop of h5fd_pread with `want` bytes to go. */
  function PreadFrom(k: Codec, a: Alg, sets: Sets, want: nat, curoff: nat): Outcome {
    Loop(TripsOf(k, a, sets), want, curoff)
  }

  /** One trip round the loop. */
  lemma PreadUnfolds(k: Codec, a: Alg, sets: Sets, want: nat, curoff: nat)
    requires want > 0
    ensures PreadFrom(k, a, sets, want, curoff) ==
            match TakeTrip(k, a, sets, want, curoff)
            case Stop(Data(_)) => Data("")
            case Stop(failure) => failure
            case Copy(piece) => Then(piece, PreadFrom(k, a, sets, want - |piece|, curoff + |piece|))
  {
    hide TakeTrip;
    assert TripsOf(k, a, sets)(want, curoff) == TakeTrip(k, a, sets, want, curoff);
  }

  lemma PreadNone(k: Codec, a: Alg, sets: Sets, curoff: nat)
    ensures PreadFrom(k, a, sets, 0, curoff) == Data("")
  {
  }

  /** h5fd_pread on any container whatsoever. */
  function Pread(k: Codec, sets: Sets, count: nat, offset: nat): Outcome {
    var a := AlgorithmOf(sets);
    if a.Unknown? then Error else PreadFrom(k, a, sets, count, offset)
  }

  /**
   A container tagged zlib. Its reader takes the length to decompress to from a variable nobody
   has set, so nothing but the empty read is defined once a block is there to decompress.
   */
  lemma ZlibRead(k: Codec, sets: Sets, count: nat, offset: nat)
    requires AlgorithmOf(sets) == Zlib
    ensures var name := BlockName(BlockNumber(offset));
            Pread(k, sets, count, offset) ==
            if count == 0 then Data("")
            else if name !in sets || |sets[name]| == 0 || |sets[name]| >= H5_BUFSIZE then Error
            else Undefined
  {
    hide BlockNumber, AlgorithmOf;
    if count == 0 {
      PreadNone(k, Zlib, sets, offset);
    } else {
      PreadUnfolds(k, Zlib, sets, count, offset);
    }
  }

  /** A container tagged isal is recognised and not read; one without a tag is not read at all. */
  lemma OtherReads(k: Codec, sets: Sets, count: nat, offset: nat)
    ensures AlgorithmOf(sets) == Isal ==> Pread(k, sets, count, offset) == if count == 0 then Data("") else Error
    ensures AlgorithmOf(sets) == Unknown ==> Pread(k, sets, count, offset) == Error
  {
    hide BlockNumber, AlgorithmOf;
    if AlgorithmOf(sets) == Isal {
      if count == 0 {
        PreadNone(k, Isal, sets, offset);
      } else {
        PreadUnfolds(k, Isal, sets, count, offset);
      }
    }
  }

  /**
   One byte at any offset below 2^31 of any container tagged zstd: the byte of the block that the
   offset falls in, nothing right behind the block, and not defined further on, or for a block whose
   length is no int. A dataset of 4 MiB or more is not read, nor is one of no bytes.
   */
  lemma OneByteRead(k: Codec, sets: Sets, i: nat, j: nat)
    requires AlgorithmOf(sets) == Zstd && i < 512 && j < 4194304
    ensures var r, name := Pread(k, sets, 1, i * 4194304 + j), BlockName(i);
            if name !in sets || |sets[name]| == 0 || |sets[name]| >= 4194304 || k.decompress(Zstd, sets[name]).None?
            then r == Error
            else
              var block := k.decompress(Zstd, sets[name]).value;
              r == if |block| >= 0x8000_0000 then Undefined
                   else if j < |block| then Data([block[j]]) else if j == |block| then Data("") else Undefined
  {
    hide AlgorithmOf, PreadFrom;
    var curoff := i * 4194304 + j;
    assert BlockNumber(curoff) == i;
    PreadUnfolds(k, Zstd, sets, 1, curoff);
    var f := FetchBlock(k, Zstd, sets, i);
    if f.Data? && |f.bytes| < 0x8000_0000 && j <= |f.bytes| {
      assert InsideBlock(|f.bytes|, curoff);
      ValidBytesExact(|f.bytes|, curoff);
      if j < |f.bytes| {
        assert Slice(f.bytes, j, 1) == [f.bytes[j]];
        PreadNone(k, Zstd, sets, curoff + 1);
      }
    }
  }

  lemma ThenAssociates(x: Bytes, y: Bytes, rest: Outcome)
    ensures Then(x, Then(y, rest)) == Then(x + y, rest)
  {
    if rest.Data? {
      assert x + (y + rest.bytes) == x + y + rest.bytes;
    }
  }

  /** The buffer holds these bytes from index `base` on. */
  ghost predicate Holds(buf: array<char>, base: nat, bytes: Bytes)
    reads buf
  {
    base + |bytes| <= buf.Length && forall i :: base <= i < base + |bytes| ==> buf[i] == bytes[i - base]
  }

  /** Nothing but buf[from..to] changed. */
  twostate predicate OnlyWithin(buf: array<char>, from: nat, to: nat)
    reads buf
  {
    forall i :: 0 <= i < buf.Length && !(from <= i < to) ==> buf[i] == old(buf[i])
  }

  /** The first half of the loop body: which part of which block to copy; 0 bytes to stop, -1 to fail. */
  method FindPiece(k: Codec, a: Alg, sets: Sets, want: nat, curoff: nat)
    returns (block: Bytes, srcp: nat, n: int, defined: bool)
    requires want > 0
    ensures var whole := PreadFrom(k, a, sets, want, curoff);
            if !defined then whole == Undefined
            else if n < 0 then n == -1 && whole == Error
            else if n == 0 then whole == Data("")
            else
              && n <= want && srcp + n <= |block|
              && whole == Then(Slice(block, srcp, n), PreadFrom(k, a, sets, want - n, curoff + n))
  {
    hide PreadFrom, BlockNumber, ValidBytes;
    PreadUnfolds(k, a, sets, want, curoff);
    block, srcp, n, defined := "", 0, 0, true;
    var blocknum := BlockNumber(curoff);
    var fetched := FetchBlock(k, a, sets, blocknum);
    if fetched == Error {
      n := -1;
      return;
    }
    if fetched == Undefined || !InsideBlock(|fetched.bytes|, curoff) {
      defined := false;
      return;
    }
    block := fetched.bytes;
    n := ValidBytes(|block|, curoff);
    ValidBytesExact(|block|, curoff);
    if n == 0 {
      return;
    }
    if n > want {
      n := want;
    }
    srcp := curoff - BlockStart(blocknum);
  }

  /** memmove from a decompressed block behind the bytes already delivered at `base`. */
  method CopyIn(buf: array<char>, to: nat, block: Bytes, from: nat, n: nat, ghost base: nat, ghost done: Bytes)
    requires to == base + |done| && to + n <= buf.Length && from + n <= |block| && Holds(buf, base, done)
    modifies buf
    ensures Holds(buf, base, done + Slice(block, from, n)) && OnlyWithin(buf, to, to + n)
  {
    forall i | 0 <= i < n {
      buf[to + i] := block[from + i];
    }
  }

  /** The loop: bytes copied to buf[base..], the answer to return. */
  method CopyOut(k: Codec, a: Alg, sets: Sets, buf: array<char>, base: nat, count: nat, offset: nat)
    returns (nbread: int, defined: bool)
    requires base + count <= buf.Length
    modifies buf
    ensures OnlyWithin(buf, base, base + count) && (defined && nbread >= 0 ==> OnlyWithin(buf, base, base + nbread))
    ensures Answers(PreadFrom(k, a, sets, count, offset), buf, base, count, nbread, defined)
  {
    hide PreadFrom;
    nbread, defined := 0, true;
    var curoff := offset;
    ghost var done: Bytes := "";
    while nbread < count
      invariant 0 <= nbread <= count && curoff == offset + nbread && defined
      invariant OnlyWithin(buf, base, base + nbread)
      invariant |done| == nbread && Holds(buf, base, done)
      invariant PreadFrom(k, a, sets, count, offset) == Then(done, PreadFrom(k, a, sets, count - nbread, curoff))
      decreases count - nbread
    {
      var block, srcp, n;
      block, srcp, n, defined := FindPiece(k, a, sets, count - nbread, curoff);
      if !defined || n < 0 {
        return -1, defined;
      }
      if n == 0 {
        break;
      }
      CopyIn(buf, base + nbread, block, srcp, n, base, done);
      nbread := nbread + n;
      curoff := curoff + n;
      ThenAssociates(done, Slice(block, srcp, n), PreadFrom(k, a, sets, count - nbread, curoff));
      done := done + Slice(block, srcp, n);
    }
    PreadNone(k, a, sets, curoff);
    assert done + "" == done;
  }

  /** What the caller of a read sees of its outcome: the return value and the bytes in the buffer. */
  ghost predicate Answers(r: Outcome, buf: array<char>, base: nat, count: nat, nbread: int, defined: bool)
    reads buf
  {
    match r
    case Data(bytes) => defined && nbread == |bytes| <= count && Holds(buf, base, bytes)
    case Error => defined && nbread == -1
    case Undefined => !defined
  }

  /** h5fd_pread into the caller's buffer from index `base` on. */
  method H5fdPread(k: Codec, sets: Sets, buf: array<char>, base: nat, count: nat, offset: nat)
    returns (nbread: int, defined: bool)
    requires base + count <= buf.Length
    modifies buf
    ensures OnlyWithin(buf, base, base + count) && (defined && nbread >= 0 ==> OnlyWithin(buf, base, base + nbread))
    ensures Answers(Pread(k, sets, count, offset), buf, base, count, nbread, defined)
  {
    var a := GetAlgorithm(sets);
    if a == Unknown {
      return -1, true;
    }
    nbread, defined := CopyOut(k, a, sets, buf, base, count, offset);
  }
}
