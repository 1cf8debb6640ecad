/**
 What short reads do to a conversion (src/dzfile-intern.cc, the loop of convert2h5): the container
 holds the pieces as they were read, and any cut of the file into pieces can come about without a
 call that fails. Only the cut into full blocks can be read back.
 */
module ShortReads {
  import opened CStrings
  import opened Container
  import opened BlockReader
  import opened RoundTrip
  import opened Conversion
  import opened FullReads

  /** No piece is empty, and none is more than a buffer. */
  ghost predicate Pieces(chunks: seq<Bytes>) {
    forall j {:trigger chunks[j]} :: 0 <= j < |chunks| ==> 0 < |chunks[j]| <= 4194304
  }

  /** The state after the first i pieces. */
  function After(k: Codec, v0: View, alg: Alg, chunks: seq<Bytes>, i: nat): Task
    requires i <= |chunks|
  {
    var done := chunks[..i];
    Task(v0.(temp := Some(Boxed(Box(k, alg, done)))), Worker(alg, ReadBlock, |Concat(done)|, done))
  }

  /** The read returns that many bytes. */
  lemma PieceRead(k: Codec, file: Bytes, v: View, w: Worker, piece: Bytes)
    requires v.plain == Some(Raw(file)) && w.stage.ReadBlock? && 0 < |piece| <= 4194304
    requires w.off + |piece| <= |file| && Slice(file, w.off, |piece|) == piece
    ensures Step(k, Task(v, w), Short(|piece|)) ==
            Task(v, w.(stage := WriteBlock(piece), off := w.off + |piece|))
  {
    hide Slice;
    assert ReadLength(|file| - w.off, Short(|piece|)) == |piece|;
  }

  /** And the write does not fail. */
  lemma PieceWritten(k: Codec, v: View, alg: Alg, done: seq<Bytes>, piece: Bytes, off: nat)
    requires v.temp == Some(Boxed(Box(k, alg, done)))
    ensures Step(k, Task(v, Worker(alg, WriteBlock(piece), off, done)), Ok) ==
            Task(v.(temp := Some(Boxed(Box(k, alg, done + [piece])))), Worker(alg, ReadBlock, off, done + [piece]))
  {
    BoxNext(k, alg, done, piece);
    hide Box;
  }

  /** One piece more. */
  lemma OnePiece(k: Codec, file: Bytes, v0: View, alg: Alg, chunks: seq<Bytes>, i: nat)
    requires v0.plain == Some(Raw(file)) && Concat(chunks) == file && Pieces(chunks) && i < |chunks|
    ensures Step(k, Step(k, After(k, v0, alg, chunks, i), Short(|chunks[i]|)), Ok) == After(k, v0, alg, chunks, i + 1)
  {
    hide Step, Box, Slice, Concat;
    var t, piece := After(k, v0, alg, chunks, i), chunks[i];
    ChunkPlace(chunks, i);
    PieceRead(k, file, t.view, t.worker, piece);
    PieceWritten(k, t.view, alg, chunks[..i], piece, t.worker.off + |piece|);
    assert chunks[..i + 1] == chunks[..i] + [piece];
    LastChunk(chunks[..i + 1]);
    assert chunks[..i + 1][..i] == chunks[..i];
  }

  lemma {:induction false} PiecesRead(k: Codec, file: Bytes, v0: View, alg: Alg, chunks: seq<Bytes>, i: nat)
    returns (answers: seq<Answer>)
    requires v0 == View(Some(Raw(file)), None, None) && Writes(alg) && Concat(chunks) == file && Pieces(chunks)
    requires i <= |chunks|
    ensures forall j :: 0 <= j < |answers| ==> !answers[j].Fail?
    ensures Run(k, Task(v0, Fresh(alg)), answers) == After(k, v0, alg, chunks, i)
  {
    hide Run, Step, After;
    var t0 := Task(v0, Fresh(alg));
    if i == 0 {
      answers := Taken([], 5);
      FirstCalls(k, v0, alg, chunks);
    } else {
      var before := PiecesRead(k, file, v0, alg, chunks, i - 1);
      OnePiece(k, file, v0, alg, chunks, i - 1);
      RunAdded(k, t0, before, Short(|chunks[i - 1]|));
      RunAdded(k, t0, before + [Short(|chunks[i - 1]|)], Ok);
      answers := before + [Short(|chunks[i - 1]|)] + [Ok];
    }
  }

  lemma FirstCalls(k: Codec, v0: View, alg: Alg, chunks: seq<Bytes>)
    requires v0.plain.Some? && v0.hidden == None && v0.temp == None && Writes(alg)
    ensures Run(k, Task(v0, Fresh(alg)), Taken([], 5)) == After(k, v0, alg, chunks, 0)
  {
    hide Run, Taken;
    var t0 := Task(v0, Fresh(alg));
    RunTaken(k, t0, [], 0);
    RunTaken(k, t0, [], 1);
    RunTaken(k, t0, [], 2);
    RunTaken(k, t0, [], 3);
    RunTaken(k, t0, [], 4);
  }

  lemma LastCalls(k: Codec, file: Bytes, v0: View, alg: Alg, chunks: seq<Bytes>)
    requires v0 == View(Some(Raw(file)), None, None) && Concat(chunks) == file
    ensures var t := After(k, v0, alg, chunks, |chunks|);
            var t' := Step(k, Step(k, Step(k, Step(k, Step(k, t, Ok), Ok), Ok), Ok), Ok);
            && t'.worker.stage == Done(0)
            && t'.view == View(Some(Raw(Zeros(|file|))), Some(Boxed(Box(k, alg, chunks))), None)
  {
    assert chunks[..|chunks|] == chunks;
  }

  /** Whatever the cut, there are reads that make it, and then the conversion succeeds with just these pieces. */
  lemma AnyCut(k: Codec, file: Bytes, alg: Alg, chunks: seq<Bytes>) returns (answers: seq<Answer>)
    requires Writes(alg) && Concat(chunks) == file && Pieces(chunks)
    ensures forall j :: 0 <= j < |answers| ==> !answers[j].Fail?
    ensures var t := Run(k, Task(View(Some(Raw(file)), None, None), Fresh(alg)), answers);
            && t.worker.stage == Done(0)
            && t.view == View(Some(Raw(Zeros(|file|))), Some(Boxed(Box(k, alg, chunks))), None)
  {
    hide Run, Step, After;
    var v0 := View(Some(Raw(file)), None, None);
    var t0 := Task(v0, Fresh(alg));
    var all := PiecesRead(k, file, v0, alg, chunks, |chunks|);
    LastCalls(k, file, v0, alg, chunks);
    RunAdded(k, t0, all, Ok);
    RunAdded(k, t0, all + [Ok], Ok);
    RunAdded(k, t0, all + [Ok] + [Ok], Ok);
    RunAdded(k, t0, all + [Ok] + [Ok] + [Ok], Ok);
    RunAdded(k, t0, all + [Ok] + [Ok] + [Ok] + [Ok], Ok);
    answers := all + [Ok] + [Ok] + [Ok] + [Ok] + [Ok];
  }

  /**
   A conversion that no failing call stops, and after which a byte of the file cannot be read at its
   offset: there is one for every cut but that into full blocks.
   */
  lemma ShortReadHidesByte(k: Codec, file: Bytes, chunks: seq<Bytes>) returns (answers: seq<Answer>, offset: nat)
    requires Sound(k) && |file| <= 0x8000_0000 && Concat(chunks) == file && Chunked(k, chunks) && chunks != Chunks(file)
    ensures forall j :: 0 <= j < |answers| ==> !answers[j].Fail?
    ensures var t := Run(k, Task(View(Some(Raw(file)), None, None), Fresh(Zstd)), answers);
            && t.worker.stage == Done(0) && t.view.hidden.Some? && t.view.hidden.value.Boxed? && offset < |file|
            && Pread(k, t.view.hidden.value.sets, 1, offset) != Data(Slice(file, offset, 1))
  {
    assert Pieces(chunks);
    answers := AnyCut(k, file, Zstd, chunks);
    hide Pread, Box, Run;
    FullReadsNeeded(k, file, chunks);
    offset :| offset < |file| && Pread(k, Box(k, Zstd, chunks), 1, offset) != Data(Slice(file, offset, 1));
  }
}
