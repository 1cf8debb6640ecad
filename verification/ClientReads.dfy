/**
 Reads built on dzfile_pread: the dispatch and the vectored read (src/dzfile-api.c,
 dzfile_pread and dzfile_preadv).
 */
module ClientReads {
  import opened CStrings
  import opened Container
  import opened BlockReader
  import opened RoundTrip

  /** Where an open descriptor reads from: a container found in the descriptor map, or the plain file. */
  datatype Source = InBox(sets: Sets) | InFile(data: Bytes)

  /** pread of the operating system. */
  function PlainRead(data: Bytes, count: nat, offset: nat): Outcome {
    if offset >= |data| then Data("") else Data(Slice(data, offset, Min(count, |data| - offset)))
  }

  /** pwrite to a file, assuming it writes everything: what is there is replaced, a gap filled with zeros. */
  function Pwrite(file: Bytes, data: Bytes, offset: nat): (r: Bytes)
    ensures |r| == if |data| == 0 then |file| else if offset + |data| > |file| then offset + |data| else |file|
  {
    if |data| == 0 then file
    else
      seq(if offset + |data| > |file| then offset + |data| else |file|,
          i requires 0 <= i =>
            if offset <= i < offset + |data| then data[i - offset] else if i < |file| then file[i] else NUL)
  }

  /** dzfile_pread. */
  function ReadAt(k: Codec, src: Source, count: nat, offset: nat): Outcome {
    match src
    case InBox(sets) => Pread(k, sets, count, offset)
    case InFile(data) => PlainRead(data, count, offset)
  }

  /** No block of the container decompresses to more than a block, as the converter's do not. */
  ghost predicate BlocksFit(k: Codec, src: Source) {
    src.InBox? ==>
      forall i: int {:trigger FetchBlock(k, AlgorithmOf(src.sets), src.sets, i)} ::
        var f := FetchBlock(k, AlgorithmOf(src.sets), src.sets, i); f.Data? ==> |f.bytes| <= H5_BUFSIZE
  }

  // ----- one read is two reads -----

  /** Inside one block, what is copied for a + b bytes is what is copied for a, then for b. */
  lemma CopySplit(block: Bytes, a: nat, b: nat, curoff: nat)
    requires a > 0 && b > 0 && |block| <= H5_BUFSIZE
    requires InsideBlock(|block|, curoff) && ValidBytes(|block|, curoff) > a
    ensures BlockNumber(curoff + a) == BlockNumber(curoff)
    ensures var whole, first := CopyFrom(block, a + b, curoff), CopyFrom(block, a, curoff);
            var second := CopyFrom(block, b, curoff + a);
            && whole.Copy? && first.Copy? && second.Copy?
            && |first.piece| == a && whole.piece == first.piece + second.piece
  {
    ValidBytesExact(|block|, curoff);
    assert BlockNumber(curoff) == BlockOf(curoff) == BlockOf(curoff + a) == BlockNumber(curoff + a);
    assert InsideBlock(|block|, curoff + a);
    ValidBytesExact(|block|, curoff + a);
    SliceJoin(block, curoff - BlockStart(BlockNumber(curoff)), a, Min(ValidBytes(|block|, curoff) - a, b));
  }

  /** Behind `r`, what a longer read goes on to do. */
  function AndThen(r: Outcome, a: nat, rest: Outcome): Outcome {
    if r.Data? && |r.bytes| == a then Then(r.bytes, rest) else r
  }

  /** Wanting a + b bytes changes the trip for a bytes only by taking b more of the same block. */
  ghost predicate DividesAt(trips: Trips, a: nat, b: nat, curoff: nat) {
    a > 0 && b > 0 ==>
      var whole, first, second := trips(a + b, curoff), trips(a, curoff), trips(b, curoff + a);
      && Advances(whole, a + b) && Advances(first, a) && Advances(second, b)
      && (|| whole == first
          || (whole.Copy? && first.Copy? && second.Copy? && |first.piece| == a
              && whole.piece == first.piece + second.piece))
  }

  ghost predicate Divisible(trips: Trips) {
    forall a: nat, b: nat, curoff: nat :: DividesAt(trips, a, b, curoff)
  }

  lemma DividesHere(trips: Trips, a: nat, b: nat, curoff: nat)
    requires Divisible(trips)
    ensures DividesAt(trips, a, b, curoff)
  {
  }

  lemma LoopNone(trips: Trips, curoff: nat)
    ensures Loop(trips, 0, curoff) == Data("")
  {
  }

  lemma LoopUnfolds(trips: Trips, want: nat, curoff: nat)
    requires want > 0 && Advances(trips(want, curoff), want)
    ensures Loop(trips, want, curoff) ==
            match trips(want, curoff)
            case Stop(Data(_)) => Data("")
            case Stop(failure) => failure
            case Copy(piece) => Then(piece, Loop(trips, want - |piece|, curoff + |piece|))
  {
  }

  /** Reading a + b bytes is reading a, and b more behind them if all a came. */
  lemma {:induction false} LoopSplit(trips: Trips, a: nat, b: nat, curoff: nat)
    requires Divisible(trips)
    ensures Loop(trips, a + b, curoff) == AndThen(Loop(trips, a, curoff), a, Loop(trips, b, curoff + a))
    decreases a
  {
    hide Loop, Divisible;
    if a == 0 {
      LoopNone(trips, curoff);
      ThenNothing(Loop(trips, b, curoff));
    } else if b == 0 {
      LoopNone(trips, curoff + a);
      AndNothing(Loop(trips, a, curoff), a);
    } else {
      DividesHere(trips, a, b, curoff);
      LoopUnfolds(trips, a + b, curoff);
      LoopUnfolds(trips, a, curoff);
      var whole, first := trips(a + b, curoff), trips(a, curoff);
      if whole == first && first.Copy? {
        var n := |first.piece|;
        LoopSplit(trips, a - n, b, curoff + n);
        assert curoff + n + (a - n) == curoff + a;
        RegroupRead(first.piece, Loop(trips, a - n, curoff + n), a - n, Loop(trips, b, curoff + a));
      } else if whole != first {
        var second := trips(b, curoff + a);
        LoopUnfolds(trips, b, curoff + a);
        LoopNone(trips, curoff + a);
        AndNothing(Data(first.piece), a);
        ThenAssociates(first.piece, second.piece, Loop(trips, b - |second.piece|, curoff + a + |second.piece|));
      }
    }
  }

  lemma ThenNothing(r: Outcome)
    ensures Then("", r) == r
  {
    if r.Data? {
      assert "" + r.bytes == r.bytes;
    }
  }

  lemma AndNothing(r: Outcome, a: nat)
    ensures AndThen(r, a, Data("")) == r && (r.Data? ==> Then(r.bytes, Data("")) == r)
  {
    if r.Data? {
      assert r.bytes + "" == r.bytes;
    }
  }

  lemma RegroupRead(piece: Bytes, r: Outcome, left: nat, rest: Outcome)
    requires r.Data? ==> |r.bytes| <= left
    ensures Then(piece, AndThen(r, left, rest)) == AndThen(Then(piece, r), |piece| + left, rest)
  {
    if r.Data? {
      ThenAssociates(piece, r.bytes, rest);
    }
  }

  /** Trips through a container are divisible: the same piece, or the shorter read's and more of the same block. */
  lemma ContainerDivisible(k: Codec, sets: Sets)
    requires BlocksFit(k, InBox(sets))
    ensures Divisible(TripsOf(k, AlgorithmOf(sets), sets))
  {
    var trips := TripsOf(k, AlgorithmOf(sets), sets);
    forall a: nat, b: nat, curoff: nat
      ensures DividesAt(trips, a, b, curoff)
    {
      if a > 0 && b > 0 {
        TripSplit(k, AlgorithmOf(sets), sets, a, b, curoff);
      }
    }
  }

  lemma TripSplit(k: Codec, alg: Alg, sets: Sets, a: nat, b: nat, curoff: nat)
    requires a > 0 && b > 0
    requires forall i: int {:trigger FetchBlock(k, alg, sets, i)} ::
               var f := FetchBlock(k, alg, sets, i); f.Data? ==> |f.bytes| <= H5_BUFSIZE
    ensures var whole, first := TakeTrip(k, alg, sets, a + b, curoff), TakeTrip(k, alg, sets, a, curoff);
            || whole == first
            || (var second := TakeTrip(k, alg, sets, b, curoff + a);
                && whole.Copy? && first.Copy? && second.Copy?
                && |first.piece| == a && whole.piece == first.piece + second.piece)
  {
    var f := FetchBlock(k, alg, sets, BlockNumber(curoff));
    if f.Data? && InsideBlock(|f.bytes|, curoff) && ValidBytes(|f.bytes|, curoff) > a {
      CopySplit(f.bytes, a, b, curoff);
    }
  }

  /** Where one trip meets the end, every trip does. */
  ghost predicate SameEnd(trips: Trips) {
    forall a: nat, c: nat, curoff: nat {:trigger trips(a, curoff), trips(c, curoff)} ::
      a > 0 && c > 0 && trips(a, curoff).Stop? ==> trips(c, curoff) == trips(a, curoff)
  }

  /** A read that comes back short has met the end: the next one gets nothing. */
  lemma {:induction false} ShortMeansEnd(trips: Trips, a: nat, c: nat, curoff: nat)
    requires SameEnd(trips)
    requires var r := Loop(trips, a, curoff); r.Data? && |r.bytes| < a
    ensures Loop(trips, c, curoff + |Loop(trips, a, curoff).bytes|) == Data("")
    decreases a
  {
    match trips(a, curoff)
    case Stop(_) =>
    case Copy(piece) =>
      ShortMeansEnd(trips, a - |piece|, c, curoff + |piece|);
  }

  lemma ContainerEnds(k: Codec, alg: Alg, sets: Sets)
    ensures SameEnd(TripsOf(k, alg, sets))
  {
    hide FetchBlock, BlockNumber, InsideBlock, ValidBytes;
  }

  lemma ReadSplit(k: Codec, src: Source, a: nat, b: nat, offset: nat)
    requires BlocksFit(k, src)
    ensures ReadAt(k, src, a + b, offset) == AndThen(ReadAt(k, src, a, offset), a, ReadAt(k, src, b, offset + a))
  {
    match src
    case InBox(sets) =>
      if !AlgorithmOf(sets).Unknown? {
        ContainerDivisible(k, sets);
        LoopSplit(TripsOf(k, AlgorithmOf(sets), sets), a, b, offset);
      }
    case InFile(data) =>
      if offset >= |data| || a >= |data| - offset {
        AndNothing(ReadAt(k, src, a, offset), a);
      } else {
        SliceJoin(data, offset, a, Min(b, |data| - offset - a));
      }
  }

  lemma ShortReadIsLast(k: Codec, src: Source, a: nat, c: nat, offset: nat)
    requires var r := ReadAt(k, src, a, offset); r.Data? && |r.bytes| < a
    ensures ReadAt(k, src, c, offset + |ReadAt(k, src, a, offset).bytes|) == Data("")
  {
    hide SameEnd, TripsOf, Loop, AlgorithmOf;
    match src
    case InBox(sets) =>
      ContainerEnds(k, AlgorithmOf(sets), sets);
      ShortMeansEnd(TripsOf(k, AlgorithmOf(sets), sets), a, c, offset);
    case InFile(data) =>
  }

  // ----- the vectored read -----

  /** dzfile_preadv over the buffers from number i on, of these lengths: the bytes delivered, buffer after buffer. */
  function PreadvFrom(k: Codec, src: Source, lens: seq<nat>, i: nat, offset: nat): Outcome
    requires i <= |lens|
    decreases |lens| - i
  {
    if i == |lens| then Data("")
    else
      var r := ReadAt(k, src, lens[i], offset);
      if !r.Data? || |r.bytes| == 0 then r
      else Then(r.bytes, PreadvFrom(k, src, lens, i + 1, offset + |r.bytes|))
  }

  lemma PreadvUnfolds(k: Codec, src: Source, lens: seq<nat>, i: nat, offset: nat)
    requires i < |lens|
    ensures var r := ReadAt(k, src, lens[i], offset);
            PreadvFrom(k, src, lens, i, offset) ==
            if !r.Data? || |r.bytes| == 0 then r else Then(r.bytes, PreadvFrom(k, src, lens, i + 1, offset + |r.bytes|))
  {
    hide ReadAt;
  }

  function Preadv(k: Codec, src: Source, lens: seq<nat>, offset: nat): Outcome {
    PreadvFrom(k, src, lens, 0, offset)
  }

  /** The total of the lengths from number i up to the first empty buffer. */
  function UpToEmpty(lens: seq<nat>, i: nat): nat
    requires i <= |lens|
    decreases |lens| - i
  {
    if i == |lens| || lens[i] == 0 then 0 else lens[i] + UpToEmpty(lens, i + 1)
  }

  function Total(lens: seq<nat>, i: nat): nat
    requires i <= |lens|
    decreases |lens| - i
  {
    if i == |lens| then 0 else lens[i] + Total(lens, i + 1)
  }

  /** A vectored read is one read of the buffers before the first empty one, on any source, with the same failures. */
  lemma {:induction false} PreadvIsPread(k: Codec, src: Source, lens: seq<nat>, i: nat, offset: nat)
    requires BlocksFit(k, src) && i < |lens|
    ensures PreadvFrom(k, src, lens, i, offset) == ReadAt(k, src, UpToEmpty(lens, i), offset)
    decreases |lens| - i
  {
    hide ReadAt;
    var a := lens[i];
    var r := ReadAt(k, src, a, offset);
    NoMoreThanAsked(k, src, a, offset);
    if a > 0 {
      ReadSplit(k, src, a, UpToEmpty(lens, i + 1), offset);
      AndNothing(r, a);
      if r.Data? && 0 < |r.bytes| < a {
        if i + 1 < |lens| {
          ShortReadIsLast(k, src, a, lens[i + 1], offset);
        }
      } else if r.Data? && |r.bytes| == a {
        if i + 1 < |lens| {
          PreadvIsPread(k, src, lens, i + 1, offset + a);
        } else {
          EmptyRead(k, src, a, offset);
        }
      }
    }
  }

  lemma NoMoreThanAsked(k: Codec, src: Source, a: nat, offset: nat)
    ensures var r := ReadAt(k, src, a, offset); r.Data? ==> |r.bytes| <= a
  {
  }

  lemma EmptyRead(k: Codec, src: Source, a: nat, offset: nat)
    requires ReadAt(k, src, a, offset).Data?
    ensures ReadAt(k, src, 0, offset + a) == Data("")
  {
  }

  /** With no empty buffer, a vectored read is one read of the total length. */
  lemma PreadvPositive(k: Codec, src: Source, lens: seq<nat>, offset: nat)
    requires BlocksFit(k, src) && |lens| > 0 && forall i :: 0 <= i < |lens| ==> lens[i] > 0
    ensures Preadv(k, src, lens, offset) == ReadAt(k, src, Total(lens, 0), offset)
  {
    PreadvIsPread(k, src, lens, 0, offset);
    PositiveTotal(lens, 0);
  }

  lemma {:induction false} PositiveTotal(lens: seq<nat>, i: nat)
    requires i <= |lens| && forall j :: i <= j < |lens| ==> lens[j] > 0
    ensures UpToEmpty(lens, i) == Total(lens, i)
    decreases |lens| - i
  {
    if i < |lens| {
      PositiveTotal(lens, i + 1);
    }
  }

  lemma StoredBlocksFit(k: Codec, file: Bytes)
    requires Sound(k)
    ensures BlocksFit(k, InBox(Stored(k, file)))
  {
    var sets := Stored(k, file);
    BoxAlgorithm(k, Zstd, Chunks(file));
    forall i: int ensures var f := FetchBlock(k, Zstd, sets, i); f.Data? ==> |f.bytes| <= H5_BUFSIZE {
      BoxLookup(k, Zstd, Chunks(file), i);
    }
  }

  /**
   On a converted file, vectored over positive lengths: the same value as one read of the total,
   -1 past the end of a file of whole blocks included, and the same bytes.
   */
  lemma PreadvOfStored(k: Codec, file: Bytes, lens: seq<nat>, offset: nat)
    requires Sound(k) && |lens| > 0 && forall i :: 0 <= i < |lens| ==> lens[i] > 0
    ensures Preadv(k, InBox(Stored(k, file)), lens, offset) == Pread(k, Stored(k, file), Total(lens, 0), offset)
  {
    StoredBlocksFit(k, file);
    PreadvPositive(k, InBox(Stored(k, file)), lens, offset);
  }

  // ----- the code -----

  /** pread of the operating system into buf[base..]. */
  method OsPread(data: Bytes, buf: array<char>, base: nat, count: nat, offset: nat) returns (nbread: int)
    requires base + count <= buf.Length
    modifies buf
    ensures nbread >= 0 && OnlyWithin(buf, base, base + nbread)
    ensures Answers(PlainRead(data, count, offset), buf, base, count, nbread, true)
  {
    if offset >= |data| {
      return 0;
    }
    nbread := Min(count, |data| - offset);
    forall i | 0 <= i < nbread {
      buf[base + i] := data[offset + i];
    }
  }

  /** dzfile_pread: the container if the descriptor has one, else the operating system. */
  method DzfilePread(k: Codec, src: Source, buf: array<char>, base: nat, count: nat, offset: nat)
    returns (nbread: int, defined: bool)
    requires base + count <= buf.Length
    modifies buf
    ensures OnlyWithin(buf, base, base + count) && (defined && nbread >= 0 ==> OnlyWithin(buf, base, base + nbread))
    ensures Answers(ReadAt(k, src, count, offset), buf, base, count, nbread, defined)
  {
    match src
    case InBox(sets) =>
      nbread, defined := H5fdPread(k, sets, buf, base, count, offset);
    case InFile(data) =>
      nbread := OsPread(data, buf, base, count, offset);
      defined := true;
  }

  ghost function Lengths(iov: seq<array<char>>): (r: seq<nat>)
    ensures |r| == |iov| && forall j :: 0 <= j < |iov| ==> r[j] == iov[j].Length
  {
    seq(|iov|, j requires 0 <= j < |iov| => iov[j].Length)
  }

  predicate Apart(iov: seq<array<char>>) {
    forall i, j :: 0 <= i < j < |iov| ==> iov[i] != iov[j]
  }

  lemma OthersApart(iov: seq<array<char>>, i: nat)
    requires Apart(iov) && i < |iov|
    ensures forall j {:trigger iov[j]} :: 0 <= j < |iov| && j != i ==> iov[j] != iov[i]
  {
  }

  /**
   The bytes stand in the buffers in order: one part at the front of each, every part but the last
   filling its buffer.
   */
  ghost predicate Scattered(iov: seq<array<char>>, parts: seq<Bytes>)
    reads iov
  {
    && |parts| <= |iov|
    && (forall j {:trigger parts[j]} :: 0 <= j < |parts| ==> Holds(iov[j], 0, parts[j]))
    && (forall j {:trigger parts[j]} :: 0 <= j < |parts| - 1 ==> |parts[j]| == iov[j].Length)
  }

  /** Behind its part, and in the buffers behind the last part, nothing has changed. */
  twostate predicate Untouched(iov: seq<array<char>>, parts: seq<Bytes>)
    reads iov
  {
    forall j {:trigger iov[j]} :: 0 <= j < |iov| ==> OnlyWithin(iov[j], 0, if j < |parts| then |parts[j]| else 0)
  }

  lemma ConcatNext(chunks: seq<Bytes>, chunk: Bytes)
    ensures Concat(chunks + [chunk]) == Concat(chunks) + chunk
  {
    assert (chunks + [chunk])[..|chunks|] == chunks;
  }

  /** What is known before buffer i: the parts delivered, and that a short one was the end. */
  ghost predicate Progress(k: Codec, src: Source, lens: seq<nat>, offset: nat, i: nat, parts: seq<Bytes>) {
    && i == |parts| <= |lens|
    && Preadv(k, src, lens, offset) == Then(Concat(parts), PreadvFrom(k, src, lens, i, offset + |Concat(parts)|))
    && (0 < i < |lens| && |parts[i - 1]| < lens[i - 1] ==>
          ReadAt(k, src, lens[i], offset + |Concat(parts)|) == Data(""))
  }

  lemma ProgressStarts(k: Codec, src: Source, lens: seq<nat>, offset: nat)
    ensures Progress(k, src, lens, offset, 0, []) && Concat([]) == ""
  {
    ThenNothing(Preadv(k, src, lens, offset));
  }

  /** The read for buffer i: it fails the whole read, ends it, or delivers the next part. */
  lemma ProgressGoesOn(k: Codec, src: Source, lens: seq<nat>, offset: nat, i: nat, parts: seq<Bytes>)
    requires Progress(k, src, lens, offset, i, parts) && i < |lens|
    ensures var r := ReadAt(k, src, lens[i], offset + |Concat(parts)|);
            if !r.Data? then Preadv(k, src, lens, offset) == r
            else if |r.bytes| == 0 then Preadv(k, src, lens, offset) == Data(Concat(parts))
            else
              && Progress(k, src, lens, offset, i + 1, parts + [r.bytes])
              && (i > 0 ==> |parts[i - 1]| >= lens[i - 1])
  {
    hide ReadAt, PreadvFrom;
    var cur := offset + |Concat(parts)|;
    var r := ReadAt(k, src, lens[i], cur);
    PreadvUnfolds(k, src, lens, i, cur);
    if r.Data? && |r.bytes| > 0 {
      if |r.bytes| < lens[i] && i + 1 < |lens| {
        ShortReadIsLast(k, src, lens[i], lens[i + 1], cur);
      }
      ThenAssociates(Concat(parts), r.bytes, PreadvFrom(k, src, lens, i + 1, cur + |r.bytes|));
      ConcatNext(parts, r.bytes);
      assert cur + |r.bytes| == offset + |Concat(parts + [r.bytes])|;
    } else if r.Data? {
      AndNothing(Data(Concat(parts)), 0);
    }
  }

  lemma ProgressEnds(k: Codec, src: Source, lens: seq<nat>, offset: nat, parts: seq<Bytes>)
    requires Progress(k, src, lens, offset, |lens|, parts)
    ensures Preadv(k, src, lens, offset) == Data(Concat(parts))
  {
    AndNothing(Data(Concat(parts)), 0);
  }

  /** dzfile_preadv. */
  method DzfilePreadv(k: Codec, src: Source, iov: seq<array<char>>, offset: nat)
    returns (count: int, defined: bool, ghost parts: seq<Bytes>)
    modifies iov
    ensures match Preadv(k, src, Lengths(iov), offset)
            case Data(bytes) =>
              && defined && count == |bytes| && Concat(parts) == bytes
              && (Apart(iov) ==> Scattered(iov, parts) && Untouched(iov, parts))
            case Error => defined && count == -1
            case Undefined => !defined
  {
    hide ReadAt, Progress, Preadv, Concat, Apart;
    count, defined, parts := 0, true, [];
    var cur := offset;
    ghost var lens := Lengths(iov);
    ProgressStarts(k, src, lens, offset);
    for i := 0 to |iov|
      invariant cur == offset + count && count == |Concat(parts)| && defined && |parts| == i
      invariant Apart(iov) ==> Scattered(iov, parts) && Untouched(iov, parts)
      invariant Progress(k, src, lens, offset, i, parts)
    {
      ghost var r := ReadAt(k, src, lens[i], cur);
      ProgressGoesOn(k, src, lens, offset, i, parts);
      var nbread;
      if Apart(iov) {
        OthersApart(iov, i);
      }
      nbread, defined := DzfilePread(k, src, iov[i], 0, iov[i].Length, cur);
      if !defined || nbread < 0 {
        return nbread, defined, parts;
      }
      if nbread == 0 {
        return;
      }
      ConcatNext(parts, r.bytes);
      parts := parts + [r.bytes];
      count := count + nbread;
      cur := cur + nbread;
    }
    ProgressEnds(k, src, lens, offset, parts);
  }
}
