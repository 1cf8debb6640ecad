/**
 convert2h5 (src/dzfile-intern.cc) as a machine that makes one system call at a time on the
 three files of one path: the plain file, the hidden container and its temporary form.
 Every call may fail, and a stop between any two calls is a state of the machine. A stat that
 fails, for whatever reason, counts as "not there": that is all the two checks look at.
 */
module Conversion {
  import opened CStrings
  import opened DatasetNames
  import opened Container

  datatype File = Raw(data: Bytes) | Boxed(sets: Sets) | Dir

  /** The three files a conversion of one path looks at. */
  datatype View = View(plain: Option<File>, hidden: Option<File>, temp: Option<File>)

  /** What the operating system answers to one call; a read may also return fewer bytes than asked. */
  datatype Answer = Ok | Fail | Short(n: nat)

  /** The next call to make. */
  datatype Stage =
    | CheckHidden
    | CheckTemp
    | OpenSource
    | CreateTemp
    | WriteTag
    | ReadBlock
    | WriteBlock(piece: Bytes)
    | RenameTemp
    | StatSource
    | Empty(size: nat)
    | Extend(size: nat)
    | Done(ret: int)

  /** One run of convert2h5; `written` is the history of chunks, of which the source keeps the count. */
  datatype Worker = Worker(alg: Alg, stage: Stage, off: nat, written: seq<Bytes>)

  datatype Task = Task(view: View, worker: Worker)

  function Fresh(alg: Alg): Worker {
    Worker(alg, CheckHidden, 0, [])
  }

  function Zeros(n: nat): Bytes {
    seq(n, _ => NUL)
  }

  lemma ZerosAreNul(n: nat)
    ensures |Zeros(n)| == n && forall i :: 0 <= i < n ==> Zeros(n)[i] == '\0'
  {
  }

  function Fails(t: Task): Task {
    t.(worker := t.worker.(stage := Done(-1)))
  }

  function Goes(t: Task, stage: Stage): Task {
    t.(worker := t.worker.(stage := stage))
  }

  /** The bytes one read returns: a full block, or less when the source is short or the call is. */
  function ReadLength(left: nat, answer: Answer): (n: nat)
    requires left > 0
    ensures 0 < n <= left && n <= H5_BUFSIZE
  {
    var most := Min(H5_BUFSIZE, left);
    match answer case Short(n) => if 0 < n < most then n else most case _ => most
  }

  /** One system call of convert2h5 and what the code does with its result. */
  function Step(k: Codec, t: Task, answer: Answer): Task {
    var v, w := t.view, t.worker;
    match w.stage
    case CheckHidden => if v.hidden.Some? && !answer.Fail? then Fails(t) else Goes(t, CheckTemp)
    case CheckTemp => if v.temp.Some? && !answer.Fail? then Fails(t) else Goes(t, OpenSource)
    case OpenSource => if answer.Fail? || v.plain.None? then Fails(t) else Goes(t, CreateTemp)
    case CreateTemp =>
      if answer.Fail? || v.temp == Some(Dir) then Fails(t)
      else Goes(t.(view := v.(temp := Some(Boxed(map[])))), WriteTag)
    case WriteTag =>
      if answer.Fail? || !Writes(w.alg) then Fails(t)
      else Dataset(t, ALGORITHM, Tag(k, w.alg), w.(stage := ReadBlock))
    case ReadBlock =>
      if answer.Fail? || v.plain.None? || !v.plain.value.Raw? then Fails(t)
      else if w.off >= |v.plain.value.data| then Goes(t, RenameTemp)
      else
        var n := ReadLength(|v.plain.value.data| - w.off, answer);
        t.(worker := w.(stage := WriteBlock(Slice(v.plain.value.data, w.off, n)), off := w.off + n))
    case WriteBlock(piece) =>
      if answer.Fail? then Fails(t)
      else Dataset(t, BlockName(|w.written|), k.compress(w.alg, piece),
                   w.(stage := ReadBlock, written := w.written + [piece]))
    case RenameTemp =>
      if answer.Fail? || v.temp.None? || v.hidden == Some(Dir) then Fails(t)
      else Goes(t.(view := v.(hidden := v.temp, temp := None)), StatSource)
    case StatSource =>
      if answer.Fail? || v.plain.None? || !v.plain.value.Raw? then Fails(t)
      else Goes(t, Empty(|v.plain.value.data|))
    case Empty(size) =>
      if answer.Fail? || v.plain.None? then Fails(t) else Goes(t.(view := v.(plain := Some(Raw("")))), Extend(size))
    case Extend(size) =>
      if answer.Fail? || v.plain.None? then Fails(t) else Goes(t.(view := v.(plain := Some(Raw(Zeros(size))))), Done(0))
    case Done(_) => t
  }

  /** hdf5_writestr and hdf5_writedata: creating a dataset that is already there fails. */
  function Dataset(t: Task, name: string, data: Bytes, next: Worker): Task {
    match t.view.temp
    case Some(Boxed(sets)) =>
      if name in sets then Fails(t)
      else Task(t.view.(temp := Some(Boxed(sets[name := data]))), next)
    case _ => Fails(t)
  }

  /** The state after these answers; the last one was given last. */
  function Run(k: Codec, t: Task, answers: seq<Answer>): Task {
    if |answers| == 0 then t
    else Step(k, Run(k, t, answers[..|answers| - 1]), answers[|answers| - 1])
  }

  // ----- what every state keeps -----

  /** The original bytes can be had from what is on disk. */
  predicate Recoverable(k: Codec, v: View, file: Bytes) {
    || v.plain == Some(Raw(file))
    || (v.hidden.Some? && v.hidden.value.Boxed? && Decode(k, v.hidden.value.sets) == Some(file))
  }

  /** The chunks read so far are the first `off` bytes of the file, none of them empty. */
  ghost predicate Cut(file: Bytes, chunks: seq<Bytes>, off: nat) {
    && off <= |file| && Concat(chunks) == Slice(file, 0, off)
    && forall i {:trigger chunks[i]} :: 0 <= i < |chunks| ==> |chunks[i]| > 0
  }

  function SoFar(k: Codec, w: Worker): Option<File> {
    Some(Boxed(Box(k, w.alg, w.written)))
  }

  /** The container is complete and in place. */
  ghost predicate Moved(k: Codec, file: Bytes, v: View, w: Worker) {
    Writes(w.alg) && Cut(file, w.written, |file|) && v.hidden == SoFar(k, w) && v.temp == None
  }

  ghost predicate Inv(k: Codec, file: Bytes, v0: View, t: Task) {
    var v, w := t.view, t.worker;
    match w.stage
    case CheckHidden => v == v0 && w == Fresh(w.alg)
    case CheckTemp => v == v0 && w == Fresh(w.alg).(stage := CheckTemp)
    case OpenSource => v == v0 && w == Fresh(w.alg).(stage := OpenSource)
    case CreateTemp => v == v0 && w == Fresh(w.alg).(stage := CreateTemp)
    case WriteTag => v == v0.(temp := Some(Boxed(map[]))) && w == Fresh(w.alg).(stage := WriteTag)
    case ReadBlock => Copying(k, file, v0, t) && Cut(file, w.written, w.off)
    case WriteBlock(piece) => Copying(k, file, v0, t) && |piece| > 0 && Cut(file, w.written + [piece], w.off)
    case RenameTemp => Copying(k, file, v0, t) && Cut(file, w.written, |file|)
    case StatSource => Moved(k, file, v, w) && v.plain == v0.plain
    case Empty(size) => Moved(k, file, v, w) && v.plain == v0.plain && size == |file|
    case Extend(size) => Moved(k, file, v, w) && v.plain == Some(Raw("")) && size == |file|
    case Done(ret) => Ended(k, file, v0, v, w, ret)
  }

  ghost predicate Copying(k: Codec, file: Bytes, v0: View, t: Task) {
    Writes(t.worker.alg) && t.view == v0.(temp := SoFar(k, t.worker))
  }

  /** How a conversion can end: converted, untouched, a leftover temporary file, or stopped after the rename. */
  ghost predicate Ended(k: Codec, file: Bytes, v0: View, v: View, w: Worker, ret: int) {
    if ret == 0 then Moved(k, file, v, w) && v.plain == Some(Raw(Zeros(|file|)))
    else
      && ret == -1
      && (|| v == v0
          || (v == v0.(temp := v.temp) && v.temp.Some?)
          || (Moved(k, file, v, w) && (v.plain == v0.plain || v.plain == Some(Raw("")))))
  }

  lemma CutNext(file: Bytes, chunks: seq<Bytes>, off: nat, n: nat)
    requires Cut(file, chunks, off) && n > 0 && off + n <= |file|
    ensures Cut(file, chunks + [Slice(file, off, n)], off + n)
  {
    assert (chunks + [Slice(file, off, n)])[..|chunks|] == chunks;
    SliceJoin(file, 0, off, n);
  }

  lemma BoxNext(k: Codec, alg: Alg, chunks: seq<Bytes>, piece: Bytes)
    ensures BlockName(|chunks|) !in Box(k, alg, chunks)
    ensures Box(k, alg, chunks + [piece]) == Box(k, alg, chunks)[BlockName(|chunks|) := k.compress(alg, piece)]
  {
    BoxLookup(k, alg, chunks, |chunks|);
    assert (chunks + [piece])[..|chunks|] == chunks;
  }

  lemma CheckStepKeepsInv(k: Codec, file: Bytes, v0: View, t: Task, answer: Answer)
    requires v0.plain == Some(Raw(file)) && Inv(k, file, v0, t)
    requires t.worker.stage.CheckHidden? || t.worker.stage.CheckTemp? || t.worker.stage.OpenSource?
          || t.worker.stage.CreateTemp?
    ensures Inv(k, file, v0, Step(k, t, answer))
  {
  }

  lemma TagStepKeepsInv(k: Codec, file: Bytes, v0: View, t: Task, answer: Answer)
    requires v0.plain == Some(Raw(file)) && Inv(k, file, v0, t)
    requires t.worker.stage.WriteTag?
    ensures Inv(k, file, v0, Step(k, t, answer))
  {
    assert Box(k, t.worker.alg, []) == map[ALGORITHM := Tag(k, t.worker.alg)];
    assert Concat([]) == Slice(file, 0, 0);
  }

  lemma ReadStepKeepsInv(k: Codec, file: Bytes, v0: View, t: Task, answer: Answer)
    requires v0.plain == Some(Raw(file)) && Inv(k, file, v0, t)
    requires t.worker.stage.ReadBlock?
    ensures Inv(k, file, v0, Step(k, t, answer))
  {
    var w := t.worker;
    if !answer.Fail? && w.off < |file| {
      CutNext(file, w.written, w.off, ReadLength(|file| - w.off, answer));
    }
  }

  lemma WriteStepKeepsInv(k: Codec, file: Bytes, v0: View, t: Task, answer: Answer)
    requires v0.plain == Some(Raw(file)) && Inv(k, file, v0, t)
    requires t.worker.stage.WriteBlock?
    ensures Inv(k, file, v0, Step(k, t, answer))
  {
    BoxNext(k, t.worker.alg, t.worker.written, t.worker.stage.piece);
  }

  lemma FinalStepKeepsInv(k: Codec, file: Bytes, v0: View, t: Task, answer: Answer)
    requires v0.plain == Some(Raw(file)) && Inv(k, file, v0, t)
    requires t.worker.stage.RenameTemp? || t.worker.stage.StatSource? || t.worker.stage.Empty?
          || t.worker.stage.Extend? || t.worker.stage.Done?
    ensures Inv(k, file, v0, Step(k, t, answer))
  {
  }

  lemma StepKeepsInv(k: Codec, file: Bytes, v0: View, t: Task, answer: Answer)
    requires v0.plain == Some(Raw(file)) && Inv(k, file, v0, t)
    ensures Inv(k, file, v0, Step(k, t, answer))
  {
    match t.worker.stage
    case CheckHidden | CheckTemp | OpenSource | CreateTemp => CheckStepKeepsInv(k, file, v0, t, answer);
    case WriteTag => TagStepKeepsInv(k, file, v0, t, answer);
    case ReadBlock => ReadStepKeepsInv(k, file, v0, t, answer);
    case WriteBlock(_) => WriteStepKeepsInv(k, file, v0, t, answer);
    case _ => FinalStepKeepsInv(k, file, v0, t, answer);
  }

  lemma {:induction false} RunKeepsAlg(k: Codec, t: Task, answers: seq<Answer>)
    ensures Run(k, t, answers).worker.alg == t.worker.alg
  {
    if |answers| > 0 {
      RunKeepsAlg(k, t, answers[..|answers| - 1]);
    }
  }

  /** Every state of a run, stopped wherever it is, is accounted for. */
  lemma {:induction false} RunKeepsInv(k: Codec, file: Bytes, v0: View, alg: Alg, answers: seq<Answer>)
    requires v0.plain == Some(Raw(file))
    ensures Inv(k, file, v0, Run(k, Task(v0, Fresh(alg)), answers))
  {
    if |answers| > 0 {
      var n := |answers| - 1;
      RunKeepsInv(k, file, v0, alg, answers[..n]);
      StepKeepsInv(k, file, v0, Run(k, Task(v0, Fresh(alg)), answers[..n]), answers[n]);
    }
  }

  /** The first, or the second, answer of the system, if there is one yet, is no failure. */
  predicate StatOk(answers: seq<Answer>, i: nat) {
    i < |answers| ==> !answers[i].Fail?
  }

  /** A container or a leftover temporary file is there and its check does not fail. */
  predicate Blocked(v0: View, answers: seq<Answer>) {
    (v0.hidden.Some? && StatOk(answers, 0)) || (v0.temp.Some? && StatOk(answers, 1))
  }

  /** Then the conversion stops before it changes anything. */
  lemma {:induction false} LeftoverBlocks(k: Codec, v0: View, alg: Alg, answers: seq<Answer>)
    requires Blocked(v0, answers)
    ensures var t := Run(k, Task(v0, Fresh(alg)), answers);
            && t.view == v0
            && (|| (t.worker.stage.CheckHidden? && |answers| == 0)
                || (t.worker.stage.CheckTemp? && |answers| == 1 && (v0.hidden.Some? ==> answers[0].Fail?))
                || t.worker.stage == Done(-1))
  {
    if |answers| > 0 {
      LeftoverBlocks(k, v0, alg, answers[..|answers| - 1]);
    }
  }

  predicate StartsWith(answers: seq<Answer>, first: seq<Answer>) {
    |answers| >= |first| && forall i :: 0 <= i < |first| ==> answers[i] == first[i]
  }

  /**
   When leftovers protect a path. Given what its two checks are answered, a conversion of a plain
   file leaves everything alone, whatever else happens, exactly when a leftover is there whose
   check does not fail, or a directory stands where the temporary file would.
   */
  lemma BlockedIff(k: Codec, v0: View, alg: Alg, first: Answer, second: Answer)
    requires v0.plain.Some? && v0.plain.value.Raw? && Writes(alg)
    ensures (forall answers {:trigger Run(k, Task(v0, Fresh(alg)), answers)} :: StartsWith(answers, [first, second]) ==>
               Run(k, Task(v0, Fresh(alg)), answers).view == v0)
            <==> Blocked(v0, [first, second]) || v0.temp == Some(Dir)
  {
    var t0 := Task(v0, Fresh(alg));
    if Blocked(v0, [first, second]) {
      forall answers | StartsWith(answers, [first, second]) ensures Run(k, t0, answers).view == v0 {
        LeftoverBlocks(k, v0, alg, answers);
      }
    } else if v0.temp == Some(Dir) {
      forall answers ensures Run(k, t0, answers).view == v0 {
        DirBlocks(k, v0, alg, answers);
      }
    } else {
      TwoCreations(k, v0, alg, first, second);
    }
  }

  lemma {:induction false} DirBlocks(k: Codec, v0: View, alg: Alg, answers: seq<Answer>)
    requires v0.temp == Some(Dir)
    ensures var t := Run(k, Task(v0, Fresh(alg)), answers);
            && t.view == v0
            && (|| t.worker.stage.CheckHidden? || t.worker.stage.CheckTemp? || t.worker.stage.OpenSource?
                || t.worker.stage.CreateTemp? || t.worker.stage == Done(-1))
  {
    if |answers| > 0 {
      DirBlocks(k, v0, alg, answers[..|answers| - 1]);
    }
  }

  /** Right after its creation, and right after the tag, the temporary file is not the same. */
  lemma TwoCreations(k: Codec, v0: View, alg: Alg, first: Answer, second: Answer)
    requires v0.plain.Some? && v0.plain.value.Raw? && Writes(alg)
    requires !Blocked(v0, [first, second]) && v0.temp != Some(Dir)
    ensures exists answers :: StartsWith(answers, [first, second]) && Run(k, Task(v0, Fresh(alg)), answers).view != v0
  {
    var t0, four := Task(v0, Fresh(alg)), [first, second, Ok, Ok];
    var five := four + [Ok];
    assert four[..3] == [first, second, Ok] && four[..3][..2] == [first, second];
    assert [first, second][..1] == [first] && [first][..0] == [] && five[..4] == four;
    assert Run(k, t0, [first]) == Step(k, t0, first);
    assert Run(k, t0, [first, second]) == Task(v0, Fresh(alg).(stage := OpenSource));
    assert Run(k, t0, [first, second, Ok]) == Task(v0, Fresh(alg).(stage := CreateTemp));
    assert Run(k, t0, four).view.temp == Some(Boxed(map[]));
    assert Run(k, t0, five).view.temp == Some(Boxed(map[ALGORITHM := Tag(k, alg)]));
    assert ALGORITHM in map[ALGORITHM := Tag(k, alg)];
    assert Run(k, t0, four).view != v0 || Run(k, t0, five).view != v0;
  }

  lemma InvRecoverable(k: Codec, file: Bytes, v0: View, t: Task)
    requires Sound(k) && v0.plain == Some(Raw(file)) && Inv(k, file, v0, t)
    ensures Recoverable(k, t.view, file)
  {
    if Moved(k, file, t.view, t.worker) {
      DecodeOfBox(k, t.worker.alg, t.worker.written);
      assert Slice(file, 0, |file|) == file;
    }
  }

  /**
   Whatever fails and wherever it stops, a conversion keeps the file recoverable, if the file is
   still in place or the check for its container does not fail.
   */
  lemma ConversionSafe(k: Codec, file: Bytes, v0: View, alg: Alg, answers: seq<Answer>)
    requires Sound(k) && Recoverable(k, v0, file)
    requires v0.plain == Some(Raw(file)) || StatOk(answers, 0)
    ensures Recoverable(k, Run(k, Task(v0, Fresh(alg)), answers).view, file)
  {
    if v0.plain == Some(Raw(file)) {
      RunKeepsInv(k, file, v0, alg, answers);
      InvRecoverable(k, file, v0, Run(k, Task(v0, Fresh(alg)), answers));
    } else {
      LeftoverBlocks(k, v0, alg, answers);
    }
  }

  /** Nothing lies in the way of the three calls that replace a name. */
  predicate Replaceable(v: View) {
    v.plain.Some? && v.plain.value.Raw? && v.temp != Some(Dir) && v.hidden != Some(Dir)
  }

  /** A call that does not fail brings an unblocked conversion on. */
  lemma OkStep(k: Codec, file: Bytes, v0: View, t: Task)
    requires v0.plain == Some(Raw(file)) && Replaceable(v0) && Inv(k, file, v0, t) && Writes(t.worker.alg)
    requires !t.worker.stage.CheckHidden? && !t.worker.stage.CheckTemp? && !t.worker.stage.Done?
    ensures !Step(k, t, Ok).worker.stage.Done? || Step(k, t, Ok).worker.stage == Done(0)
    ensures Step(k, t, Ok).worker.stage.Done? ==> t.worker.stage.Extend?
    ensures !Step(k, t, Ok).worker.stage.CheckHidden? && !Step(k, t, Ok).worker.stage.CheckTemp?
  {
    if t.worker.stage.WriteBlock? {
      BoxNext(k, t.worker.alg, t.worker.written, t.worker.stage.piece);
    }
  }

  /** The stages before the container is in place. */
  predicate BeforeRename(stage: Stage) {
    || stage.OpenSource? || stage.CreateTemp? || stage.WriteTag? || stage.ReadBlock? || stage.WriteBlock?
    || stage.RenameTemp?
  }

  /** With nothing in its way and no failure, a conversion comes to the point right after the rename. */
  lemma {:induction false} ReachRename(k: Codec, file: Bytes, v0: View, alg: Alg, before: seq<Answer>)
    returns (all: seq<Answer>)
    requires v0.plain == Some(Raw(file)) && Replaceable(v0) && Writes(alg)
    requires var stage := Run(k, Task(v0, Fresh(alg)), before).worker.stage; BeforeRename(stage) || stage.StatSource?
    ensures StartsWith(all, before) && Run(k, Task(v0, Fresh(alg)), all).worker.stage.StatSource?
    decreases Measure(Run(k, Task(v0, Fresh(alg)), before))
  {
    var t := Run(k, Task(v0, Fresh(alg)), before);
    if t.worker.stage.StatSource? {
      all := before;
    } else {
      RunKeepsInv(k, file, v0, alg, before);
      RunKeepsAlg(k, Task(v0, Fresh(alg)), before);
      OkStep(k, file, v0, t);
      OkStage(k, t);
      StepMakesProgress(k, t, Ok);
      assert (before + [Ok])[..|before|] == before;
      all := ReachRename(k, file, v0, alg, before + [Ok]);
    }
  }

  lemma OkStage(k: Codec, t: Task)
    requires BeforeRename(t.worker.stage)
    ensures var stage := Step(k, t, Ok).worker.stage; stage.Done? || BeforeRename(stage) || stage.StatSource?
  {
  }

  /**
   Exactly when a conversion keeps a recoverable file recoverable, whatever happens after its
   first check: the file is in place, or that check does not fail, or the source cannot be read or
   the temporary file not be made.
   */
  lemma RecoverableIff(k: Codec, file: Bytes, v0: View, alg: Alg, first: Answer)
    requires Sound(k) && Recoverable(k, v0, file) && Writes(alg)
    ensures (forall answers {:trigger Run(k, Task(v0, Fresh(alg)), answers)} :: StartsWith(answers, [first]) ==>
               Recoverable(k, Run(k, Task(v0, Fresh(alg)), answers).view, file))
            <==> v0.plain == Some(Raw(file)) || !first.Fail? || !Replaceable(v0)
  {
    if v0.plain == Some(Raw(file)) || !first.Fail? {
      forall answers | StartsWith(answers, [first])
        ensures Recoverable(k, Run(k, Task(v0, Fresh(alg)), answers).view, file)
      {
        ConversionSafe(k, file, v0, alg, answers);
      }
    } else if !Replaceable(v0) {
      forall answers ensures Run(k, Task(v0, Fresh(alg)), answers).view.hidden == v0.hidden {
        NotReplaced(k, v0, alg, answers);
      }
    } else {
      var _ := LostFile(k, file, v0, alg, first);
    }
  }

  /** Without a source that can be read, or a place for the temporary file, the container stays. */
  lemma {:induction false} NotReplaced(k: Codec, v0: View, alg: Alg, answers: seq<Answer>)
    requires !Replaceable(v0)
    ensures var t := Run(k, Task(v0, Fresh(alg)), answers);
            && t.view.hidden == v0.hidden && t.view.plain == v0.plain
            && (v0.temp == Some(Dir) ==> t.view.temp == v0.temp)
            && (|| t.worker.stage.CheckHidden? || t.worker.stage.CheckTemp? || t.worker.stage.OpenSource?
                || t.worker.stage.CreateTemp? || t.worker.stage == Done(-1)
                || (v0.temp != Some(Dir)
                    && (t.worker.stage.WriteTag? || t.worker.stage.ReadBlock?
                        || (v0.hidden == Some(Dir) && (t.worker.stage.WriteBlock? || t.worker.stage.RenameTemp?)))))
  {
    if |answers| > 0 {
      NotReplaced(k, v0, alg, answers[..|answers| - 1]);
    }
  }

  /** The container is replaced by one of what stands in place of the file, and the file is gone. */
  lemma LostFile(k: Codec, file: Bytes, v0: View, alg: Alg, first: Answer) returns (answers: seq<Answer>)
    requires Sound(k) && Recoverable(k, v0, file) && Writes(alg)
    requires v0.plain != Some(Raw(file)) && first.Fail? && Replaceable(v0)
    ensures StartsWith(answers, [first]) && !Recoverable(k, Run(k, Task(v0, Fresh(alg)), answers).view, file)
  {
    var t0, other := Task(v0, Fresh(alg)), v0.plain.value.data;
    assert [first, Fail][..1] == [first] && [first][..0] == [];
    assert Run(k, t0, [first]) == Step(k, t0, first);
    assert Run(k, t0, [first, Fail]).worker.stage == OpenSource;
    answers := ReachRename(k, other, v0, alg, [first, Fail]);
    RunKeepsInv(k, other, v0, alg, answers);
    RunKeepsAlg(k, t0, answers);
    DecodeOfBox(k, alg, Run(k, t0, answers).worker.written);
    assert Slice(other, 0, |other|) == other;
  }

  /**
   The smallest loss: one byte, a placeholder of one zero, the container of the byte. The first
   stat fails and the zero's container takes the place of the byte's.
   */
  lemma OneByteLost(k: Codec) returns (answers: seq<Answer>)
    requires Sound(k)
    ensures var v0 := View(Some(Raw(Zeros(1))), Some(Boxed(Box(k, Zstd, ["A"]))), None);
            && Recoverable(k, v0, "A")
            && StartsWith(answers, [Fail]) && !Recoverable(k, Run(k, Task(v0, Fresh(Zstd)), answers).view, "A")
  {
    var v0 := View(Some(Raw(Zeros(1))), Some(Boxed(Box(k, Zstd, ["A"]))), None);
    DecodeOfBox(k, Zstd, ["A"]);
    assert Concat(["A"]) == "A" by { assert ["A"][..0] == []; }
    assert Zeros(1)[0] != "A"[0];
    answers := LostFile(k, "A", v0, Zstd, Fail);
  }

  /** Where a conversion of a plain file can end, by the value it returns. */
  lemma ConversionOutcomes(k: Codec, file: Bytes, v0: View, alg: Alg, answers: seq<Answer>, ret: int)
    requires Sound(k) && v0.plain == Some(Raw(file))
    requires Run(k, Task(v0, Fresh(alg)), answers).worker.stage == Done(ret)
    ensures var v := Run(k, Task(v0, Fresh(alg)), answers).view;
            if ret == 0 then
              && v.plain == Some(Raw(Zeros(|file|))) && v.temp == None
              && v.hidden.Some? && v.hidden.value.Boxed? && Decode(k, v.hidden.value.sets) == Some(file)
            else
              && ret == -1
              && (|| v == v0
                  || (v == v0.(temp := v.temp) && v.temp.Some? && !Blocked(v0, answers))
                  || (&& v.temp == None && (v.plain == v0.plain || v.plain == Some(Raw(""))) && !Blocked(v0, answers)
                      && v.hidden.Some? && v.hidden.value.Boxed? && Decode(k, v.hidden.value.sets) == Some(file)))
    ensures ret == 0 ==> !Blocked(v0, answers)
  {
    RunKeepsInv(k, file, v0, alg, answers);
    var t := Run(k, Task(v0, Fresh(alg)), answers);
    if Blocked(v0, answers) {
      LeftoverBlocks(k, v0, alg, answers);
    }
    if Moved(k, file, t.view, t.worker) {
      DecodeOfBox(k, t.worker.alg, t.worker.written);
      assert Slice(file, 0, |file|) == file;
    }
  }

  /** With a method that is not written, a conversion never gets to its source. */
  lemma {:induction false} NeverOther(k: Codec, v0: View, alg: Alg, answers: seq<Answer>)
    requires alg == Isal || alg == Unknown
    ensures var t := Run(k, Task(v0, Fresh(alg)), answers);
            && t.view.plain == v0.plain && t.view.hidden == v0.hidden
            && t.worker.alg == alg && t.worker.stage != Done(0)
            && (t.worker.stage.Done? ==> t.worker.stage.ret == -1)
            && !t.worker.stage.ReadBlock? && !t.worker.stage.WriteBlock? && !t.worker.stage.RenameTemp?
            && !t.worker.stage.StatSource? && !t.worker.stage.Empty? && !t.worker.stage.Extend?
  {
    if |answers| > 0 {
      NeverOther(k, v0, alg, answers[..|answers| - 1]);
    }
  }

  /** A directory can be opened and not be read: the temporary file is left with its tag. */
  lemma DirSource(k: Codec, v0: View, alg: Alg)
    requires v0 == View(Some(Dir), None, None) && Writes(alg)
    ensures var t := Finish(k, Task(v0, Fresh(alg)), [], 0);
            && t.worker.stage == Done(-1)
            && t.view == v0.(temp := Some(Boxed(map["algorithm" := Tag(k, alg)])))
  {
    hide Run, Taken, Finish;
    var t0 := Task(v0, Fresh(alg));
    RunTaken(k, t0, [], 0);
    RunTaken(k, t0, [], 1);
    RunTaken(k, t0, [], 2);
    RunTaken(k, t0, [], 3);
    RunTaken(k, t0, [], 4);
    RunTaken(k, t0, [], 5);
    FinishFrom(k, t0, [], 6);
    FinishedIs(k, Run(k, t0, Taken([], 6)), [], 6);
  }

  // ----- full reads -----

  predicate NoShortReads(answers: seq<Answer>) {
    forall i :: 0 <= i < |answers| ==> !answers[i].Short?
  }

  /** The chunks are the first blocks of the file. */
  ghost predicate Aligned(file: Bytes, chunks: seq<Bytes>, off: nat) {
    && |chunks| <= NumChunks(file) && off == Min(BlockStart(|chunks|), |file|)
    && forall i {:trigger chunks[i]} :: 0 <= i < |chunks| ==> chunks[i] == Chunk(file, i)
  }

  ghost predicate FullInv(file: Bytes, v0: View, t: Task) {
    var w := t.worker;
    match w.stage
    case ReadBlock => Aligned(file, w.written, w.off)
    case WriteBlock(piece) => Aligned(file, w.written + [piece], w.off)
    case RenameTemp => w.written == Chunks(file)
    case StatSource => w.written == Chunks(file)
    case Empty(_) => w.written == Chunks(file)
    case Extend(_) => w.written == Chunks(file)
    case Done(ret) =>
      w.written == Chunks(file) || (ret == -1 && t.view.hidden == v0.hidden && t.view.plain == v0.plain)
    case _ => true
  }

  lemma ReadStepKeepsFull(k: Codec, file: Bytes, v0: View, t: Task, answer: Answer)
    requires v0.plain == Some(Raw(file)) && Inv(k, file, v0, t) && FullInv(file, v0, t) && !answer.Short?
    requires t.worker.stage.ReadBlock?
    ensures FullInv(file, v0, Step(k, t, answer))
  {
    var w := t.worker;
    if w.off >= |file| {
      assert w.written == Chunks(file);
    } else {
      assert Slice(file, w.off, ReadLength(|file| - w.off, answer)) == Chunk(file, |w.written|);
    }
  }

  lemma LaterStepKeepsFull(k: Codec, file: Bytes, v0: View, t: Task, answer: Answer)
    requires v0.plain == Some(Raw(file)) && Inv(k, file, v0, t) && FullInv(file, v0, t)
    requires !t.worker.stage.ReadBlock? && !t.worker.stage.WriteBlock?
    ensures FullInv(file, v0, Step(k, t, answer))
  {
  }

  lemma StepKeepsFull(k: Codec, file: Bytes, v0: View, t: Task, answer: Answer)
    requires v0.plain == Some(Raw(file)) && Inv(k, file, v0, t) && FullInv(file, v0, t) && !answer.Short?
    ensures FullInv(file, v0, Step(k, t, answer))
  {
    match t.worker.stage
    case ReadBlock => ReadStepKeepsFull(k, file, v0, t, answer);
    case WriteBlock(piece) => BoxNext(k, t.worker.alg, t.worker.written, piece);
    case _ => LaterStepKeepsFull(k, file, v0, t, answer);
  }

  /** When no read is short, a finished conversion has cut the file into its blocks. */
  lemma {:induction false} RunKeepsFull(k: Codec, file: Bytes, v0: View, alg: Alg, answers: seq<Answer>)
    requires v0.plain == Some(Raw(file)) && NoShortReads(answers)
    ensures FullInv(file, v0, Run(k, Task(v0, Fresh(alg)), answers))
  {
    if |answers| > 0 {
      var n := |answers| - 1;
      RunKeepsFull(k, file, v0, alg, answers[..n]);
      RunKeepsInv(k, file, v0, alg, answers[..n]);
      StepKeepsFull(k, file, v0, Run(k, Task(v0, Fresh(alg)), answers[..n]), answers[n]);
    }
  }

  /** A conversion that reports success leaves the container of the file's blocks and a placeholder of its length. */
  lemma SuccessStores(k: Codec, file: Bytes, v0: View, alg: Alg, answers: seq<Answer>)
    requires v0.plain == Some(Raw(file)) && NoShortReads(answers)
    requires Run(k, Task(v0, Fresh(alg)), answers).worker.stage == Done(0)
    ensures Run(k, Task(v0, Fresh(alg)), answers).view ==
            View(Some(Raw(Zeros(|file|))), Some(Boxed(Box(k, alg, Chunks(file)))), None)
  {
    RunKeepsAlg(k, Task(v0, Fresh(alg)), answers);
    RunKeepsInv(k, file, v0, alg, answers);
    RunKeepsFull(k, file, v0, alg, answers);
  }

  /**
   How a conversion ends, when no read is short: container and source as they were, or the
   container of the file's blocks in place.
   */
  lemma FullEnds(k: Codec, file: Bytes, v0: View, alg: Alg, answers: seq<Answer>, ret: int)
    requires v0.plain == Some(Raw(file)) && NoShortReads(answers)
    requires Run(k, Task(v0, Fresh(alg)), answers).worker.stage == Done(ret)
    ensures var v := Run(k, Task(v0, Fresh(alg)), answers).view;
            || (v.hidden == v0.hidden && v.plain == v0.plain && ret == -1)
            || (&& v.hidden == Some(Boxed(Box(k, alg, Chunks(file)))) && v.temp == None
                && (v.plain == v0.plain || v.plain == Some(Raw("")) || v.plain == Some(Raw(Zeros(|file|)))))
  {
    RunKeepsAlg(k, Task(v0, Fresh(alg)), answers);
    RunKeepsInv(k, file, v0, alg, answers);
    RunKeepsFull(k, file, v0, alg, answers);
  }

  // ----- termination -----

  function SourceLeft(t: Task): nat {
    if t.view.plain.Some? && t.view.plain.value.Raw? && t.worker.off < |t.view.plain.value.data|
    then |t.view.plain.value.data| - t.worker.off else 0
  }

  /** Calls still to make, at most. */
  function Measure(t: Task): nat {
    match t.worker.stage
    case CheckHidden => 2 * SourceLeft(t) + 10
    case CheckTemp => 2 * SourceLeft(t) + 9
    case OpenSource => 2 * SourceLeft(t) + 8
    case CreateTemp => 2 * SourceLeft(t) + 7
    case WriteTag => 2 * SourceLeft(t) + 6
    case ReadBlock => 2 * SourceLeft(t) + 5
    case WriteBlock(_) => 2 * SourceLeft(t) + 6
    case RenameTemp => 4
    case StatSource => 3
    case Empty(_) => 2
    case Extend(_) => 1
    case Done(_) => 0
  }

  /** Every call brings the end nearer, also on a source that is not a plain file. */
  lemma StepMakesProgress(k: Codec, t: Task, answer: Answer)
    requires !t.worker.stage.Done?
    ensures Measure(Step(k, t, answer)) < Measure(t)
  {
  }

  ghost predicate AllOk(answers: seq<Answer>) {
    forall i {:trigger answers[i]} :: 0 <= i < |answers| ==> answers[i] == Ok
  }

  function AnswerAt(answers: seq<Answer>, i: nat): Answer {
    if i < |answers| then answers[i] else Ok
  }

  /** The conversion run to its end with the answers from the i-th on; past the last, every call succeeds. */
  function Finish(k: Codec, t: Task, answers: seq<Answer>, i: nat): (r: Task)
    ensures r.worker.stage.Done?
    decreases Measure(t)
  {
    if t.worker.stage.Done? then t
    else
      StepMakesProgress(k, t, AnswerAt(answers, i));
      Finish(k, Step(k, t, AnswerAt(answers, i)), answers, i + 1)
  }

  lemma RunAdded(k: Codec, t0: Task, answers: seq<Answer>, answer: Answer)
    ensures Run(k, t0, answers + [answer]) == Step(k, Run(k, t0, answers), answer)
  {
    hide Step;
    assert (answers + [answer])[..|answers|] == answers;
  }

  /** Running to the end is one of the runs. */
  lemma {:induction false} FinishIsRun(k: Codec, t0: Task, before: seq<Answer>, answers: seq<Answer>,
          i: nat) returns (all: seq<Answer>)
    ensures Finish(k, Run(k, t0, before), answers, i) == Run(k, t0, all)
    ensures NoShortReads(before) && NoShortReads(answers) ==> NoShortReads(all)
    ensures |all| >= |before| && forall j :: 0 <= j < |before| ==> all[j] == before[j]
    ensures forall j :: |before| <= j < |all| ==> all[j] == AnswerAt(answers, i + j - |before|)
    decreases Measure(Run(k, t0, before))
  {
    hide Run, Step, Measure;
    var t := Run(k, t0, before);
    if t.worker.stage.Done? {
      all := before;
    } else {
      var a := AnswerAt(answers, i);
      StepMakesProgress(k, t, a);
      RunAdded(k, t0, before, a);
      all := FinishIsRun(k, t0, before + [a], answers, i + 1);
    }
  }

  // ----- the call a conversion is at -----

  /** The first answers, success where there are none left. */
  function Taken(answers: seq<Answer>, n: nat): (r: seq<Answer>)
    ensures |r| == n && forall i :: 0 <= i < n ==> r[i] == AnswerAt(answers, i)
  {
    seq(n, i requires 0 <= i => AnswerAt(answers, i))
  }

  lemma TakenFull(answers: seq<Answer>, n: nat)
    requires NoShortReads(answers)
    ensures NoShortReads(Taken(answers, n))
  {
  }

  lemma RunTaken(k: Codec, t0: Task, answers: seq<Answer>, n: nat)
    ensures Run(k, t0, Taken(answers, 0)) == t0
    ensures Run(k, t0, Taken(answers, n + 1)) == Step(k, Run(k, t0, Taken(answers, n)), AnswerAt(answers, n))
  {
    hide Step;
    assert Taken(answers, n + 1)[..n] == Taken(answers, n);
  }

  lemma {:induction false} FinishFrom(k: Codec, t0: Task, answers: seq<Answer>, n: nat)
    ensures Finish(k, t0, answers, 0) == Finish(k, Run(k, t0, Taken(answers, n)), answers, n)
  {
    hide Run, Taken, Finish;
    if n == 0 {
      RunTaken(k, t0, answers, 0);
    } else {
      FinishFrom(k, t0, answers, n - 1);
      RunTaken(k, t0, answers, n - 1);
      FinishNext(k, Run(k, t0, Taken(answers, n - 1)), answers, n - 1);
    }
  }

  lemma FinishNext(k: Codec, t: Task, answers: seq<Answer>, i: nat)
    ensures Finish(k, t, answers, i) == Finish(k, Step(k, t, AnswerAt(answers, i)), answers, i + 1)
  {
  }

  lemma FinishedIs(k: Codec, t: Task, answers: seq<Answer>, i: nat)
    requires t.worker.stage.Done?
    ensures Finish(k, t, answers, i) == t
  {
  }

  /** Which call a conversion of a file of n blocks is at, after so many calls that did not fail. */
  predicate AtCall(n: nat, i: nat, w: Worker) {
    if i == 2 then w.stage.OpenSource?
    else if i == 3 then w.stage.CreateTemp?
    else if i == 4 then w.stage.WriteTag?
    else if 5 <= i <= 5 + 2 * n then
      if i % 2 == 1 then w.stage.ReadBlock? && |w.written| == (i - 5) / 2
      else w.stage.WriteBlock? && |w.written| == (i - 6) / 2
    else if i == 6 + 2 * n then w.stage.RenameTemp?
    else if i == 7 + 2 * n then w.stage.StatSource?
    else if i == 8 + 2 * n then w.stage.Empty?
    else i == 9 + 2 * n && w.stage.Extend?
  }

  /** No call from the open on up to this one fails. */
  predicate Unfailing(answers: seq<Answer>, n: nat) {
    forall i :: 2 <= i < n ==> !AnswerAt(answers, i).Fail?
  }

  lemma {:induction false} CallReached(k: Codec, file: Bytes, v0: View, alg: Alg, answers: seq<Answer>, i: nat)
    requires v0.plain == Some(Raw(file)) && Replaceable(v0) && Writes(alg) && NoShortReads(answers)
    requires !Blocked(v0, Taken(answers, 2)) && Unfailing(answers, i) && 2 <= i <= 9 + 2 * NumChunks(file)
    ensures AtCall(NumChunks(file), i, Run(k, Task(v0, Fresh(alg)), Taken(answers, i)).worker)
  {
    hide Run, Step, Taken, Inv, FullInv;
    var t0 := Task(v0, Fresh(alg));
    if i == 2 {
      ChecksPassed(k, v0, alg, answers);
    } else {
      CallReached(k, file, v0, alg, answers, i - 1);
      var t := Run(k, t0, Taken(answers, i - 1));
      TakenFull(answers, i - 1);
      RunKeepsInv(k, file, v0, alg, Taken(answers, i - 1));
      RunKeepsFull(k, file, v0, alg, Taken(answers, i - 1));
      RunKeepsAlg(k, t0, Taken(answers, i - 1));
      RunTaken(k, t0, answers, i - 1);
      NextCall(k, file, v0, t, AnswerAt(answers, i - 1), i - 1);
    }
  }

  lemma ChecksPassed(k: Codec, v0: View, alg: Alg, answers: seq<Answer>)
    requires !Blocked(v0, Taken(answers, 2))
    ensures Run(k, Task(v0, Fresh(alg)), Taken(answers, 2)).worker.stage.OpenSource?
  {
    hide Run;
    RunTaken(k, Task(v0, Fresh(alg)), answers, 0);
    RunTaken(k, Task(v0, Fresh(alg)), answers, 1);
  }

  lemma NextCall(k: Codec, file: Bytes, v0: View, t: Task, answer: Answer, i: nat)
    requires v0.plain == Some(Raw(file)) && Replaceable(v0) && Inv(k, file, v0, t) && FullInv(file, v0, t)
    requires Writes(t.worker.alg) && !answer.Fail? && 2 <= i < 9 + 2 * NumChunks(file)
    requires AtCall(NumChunks(file), i, t.worker)
    ensures AtCall(NumChunks(file), i + 1, Step(k, t, answer).worker)
  {
    if t.worker.stage.WriteBlock? {
      BoxNext(k, t.worker.alg, t.worker.written, t.worker.stage.piece);
    }
  }

  /**
   The second truncate fails and nothing before it did: the placeholder stands empty. In a
   conversion of n blocks it is call 9 + 2n, counted from 0.
   */
  predicate LosesSize(v0: View, answers: seq<Answer>) {
    && Replaceable(v0) && |v0.plain.value.data| > 0 && !Blocked(v0, Taken(answers, 2))
    && var last := 9 + 2 * NumChunks(v0.plain.value.data);
       Unfailing(answers, last) && AnswerAt(answers, last).Fail?
  }

  /** A conversion succeeds exactly when nothing lies in its way and none of its calls fails. */
  lemma SucceedsIff(k: Codec, v0: View, alg: Alg, answers: seq<Answer>)
    requires v0.plain.Some? && v0.plain.value.Raw? && Writes(alg) && NoShortReads(answers)
    ensures Finish(k, Task(v0, Fresh(alg)), answers, 0).worker.stage == Done(0) <==>
            && Replaceable(v0) && !Blocked(v0, Taken(answers, 2))
            && Unfailing(answers, 10 + 2 * NumChunks(v0.plain.value.data))
  {
    hide Run, Step, Taken, Inv, Finish, Blocked, StatOk, AtCall, Replaceable;
    var file := v0.plain.value.data;
    var last := 9 + 2 * NumChunks(file);
    if !Replaceable(v0) || Blocked(v0, Taken(answers, 2)) {
      StoppedEarly(k, v0, alg, answers);
    } else if Unfailing(answers, last) {
      EndsAt(k, file, v0, alg, answers, last);
    } else {
      var j := FirstFailure(answers, last);
      EndsAt(k, file, v0, alg, answers, j);
    }
  }

  /** A conversion that fails changes its source exactly when the second truncate is what fails. */
  lemma LosesSizeIff(k: Codec, v0: View, alg: Alg, answers: seq<Answer>)
    requires v0.plain.Some? && v0.plain.value.Raw? && Writes(alg) && NoShortReads(answers)
    ensures var t := Finish(k, Task(v0, Fresh(alg)), answers, 0);
            t.worker.stage.ret != 0 && t.view.plain != v0.plain <==> LosesSize(v0, answers)
    ensures LosesSize(v0, answers) ==> Finish(k, Task(v0, Fresh(alg)), answers, 0).view.plain == Some(Raw(""))
  {
    hide Run, Step, Taken, Inv, Finish, Blocked, StatOk, AtCall, Replaceable;
    var t0, file := Task(v0, Fresh(alg)), v0.plain.value.data;
    if !Replaceable(v0) || Blocked(v0, Taken(answers, 2)) {
      StoppedEarly(k, v0, alg, answers);
    } else if Unfailing(answers, 9 + 2 * NumChunks(file)) {
      EndsAt(k, file, v0, alg, answers, 9 + 2 * NumChunks(file));
    } else {
      var j := FirstFailure(answers, 9 + 2 * NumChunks(file));
      EndsAt(k, file, v0, alg, answers, j);
    }
  }

  /** The first call that fails ends the conversion, and so does the last. */
  lemma EndsAt(k: Codec, file: Bytes, v0: View, alg: Alg, answers: seq<Answer>, j: nat)
    requires v0.plain == Some(Raw(file)) && Replaceable(v0) && Writes(alg) && NoShortReads(answers)
    requires !Blocked(v0, Taken(answers, 2)) && Unfailing(answers, j)
    requires 2 <= j <= 9 + 2 * NumChunks(file) && (AnswerAt(answers, j).Fail? || j == 9 + 2 * NumChunks(file))
    ensures var t := Finish(k, Task(v0, Fresh(alg)), answers, 0);
            if !AnswerAt(answers, j).Fail? then t.worker.stage == Done(0)
            else
              && t.worker.stage == Done(-1)
              && t.view.plain == if j == 9 + 2 * NumChunks(file) then Some(Raw("")) else v0.plain
  {
    hide Run, Step, Taken, Inv, Finish, Blocked, Replaceable;
    var t0 := Task(v0, Fresh(alg));
    var t := Run(k, t0, Taken(answers, j));
    CallReached(k, file, v0, alg, answers, j);
    RunKeepsInv(k, file, v0, alg, Taken(answers, j));
    RunTaken(k, t0, answers, j);
    FinishFrom(k, t0, answers, j + 1);
    LastCall(k, file, v0, t, AnswerAt(answers, j));
    FinishedIs(k, Step(k, t, AnswerAt(answers, j)), answers, j + 1);
  }

  lemma LastCall(k: Codec, file: Bytes, v0: View, t: Task, answer: Answer)
    requires v0.plain == Some(Raw(file)) && Inv(k, file, v0, t)
    requires var stage := t.worker.stage;
             stage.Extend? || (answer.Fail? && (BeforeRename(stage) || stage.StatSource? || stage.Empty?))
    ensures var t' := Step(k, t, answer);
            if !answer.Fail? then t'.worker.stage == Done(0)
            else
              && t'.worker.stage == Done(-1)
              && t'.view.plain == if t.worker.stage.Extend? then Some(Raw("")) else v0.plain
  {
  }

  /** What stands there when call j, the first to fail, has failed. */
  ghost predicate StandsAfter(k: Codec, file: Bytes, v0: View, alg: Alg, v: View, j: nat) {
    var n, stored := NumChunks(file), Some(Boxed(Box(k, alg, Chunks(file))));
    if j <= 3 then v == v0
    else if j <= 6 + 2 * n then v.temp.Some? && v.temp.value.Boxed? && v == v0.(temp := v.temp)
    else v == View(if j == 9 + 2 * n then Some(Raw("")) else v0.plain, stored, None)
  }

  lemma FailedCall(k: Codec, file: Bytes, v0: View, t: Task, j: nat)
    requires v0.plain == Some(Raw(file)) && Replaceable(v0) && Inv(k, file, v0, t) && FullInv(file, v0, t)
    requires 2 <= j <= 9 + 2 * NumChunks(file) && AtCall(NumChunks(file), j, t.worker)
    ensures StandsAfter(k, file, v0, t.worker.alg, Step(k, t, Fail).view, j) && Step(k, t, Fail).worker.stage.Done?
  {
  }

  /**
   What a failed conversion leaves, by its first call that fails: nothing, up to the creation of the
   temporary file; that file, up to the rename, and nothing removes it; from then on the container,
   with the source as it was, or empty.
   */
  lemma LeftBehind(k: Codec, file: Bytes, v0: View, alg: Alg, answers: seq<Answer>, j: nat)
    requires v0.plain == Some(Raw(file)) && Replaceable(v0) && Writes(alg) && NoShortReads(answers)
    requires !Blocked(v0, Taken(answers, 2)) && Unfailing(answers, j)
    requires 2 <= j <= 9 + 2 * NumChunks(file) && AnswerAt(answers, j).Fail?
    ensures StandsAfter(k, file, v0, alg, Finish(k, Task(v0, Fresh(alg)), answers, 0).view, j)
  {
    hide Run, Step, Taken, Inv, FullInv, Finish, Blocked, Replaceable, StandsAfter, AtCall;
    var t0 := Task(v0, Fresh(alg));
    var t := Run(k, t0, Taken(answers, j));
    CallReached(k, file, v0, alg, answers, j);
    TakenFull(answers, j);
    RunKeepsInv(k, file, v0, alg, Taken(answers, j));
    RunKeepsFull(k, file, v0, alg, Taken(answers, j));
    RunKeepsAlg(k, t0, Taken(answers, j));
    RunTaken(k, t0, answers, j);
    FinishFrom(k, t0, answers, j + 1);
    FailedCall(k, file, v0, t, j);
    FinishedIs(k, Step(k, t, Fail), answers, j + 1);
  }

  lemma StoppedEarly(k: Codec, v0: View, alg: Alg, answers: seq<Answer>)
    requires !Replaceable(v0) || Blocked(v0, Taken(answers, 2))
    ensures Finish(k, Task(v0, Fresh(alg)), answers, 0).view.plain == v0.plain
    ensures Finish(k, Task(v0, Fresh(alg)), answers, 0).worker.stage == Done(-1)
  {
    if Blocked(v0, Taken(answers, 2)) {
      BlockedStays(k, Task(v0, Fresh(alg)), v0, alg, answers);
    } else {
      var all := FinishIsRun(k, Task(v0, Fresh(alg)), [], answers, 0);
      NotReplaced(k, v0, alg, all);
    }
  }

  lemma BlockedStays(k: Codec, t0: Task, v0: View, alg: Alg, answers: seq<Answer>)
    requires t0 == Task(v0, Fresh(alg)) && Blocked(v0, Taken(answers, 2))
    ensures Finish(k, t0, answers, 0).view == v0 && Finish(k, t0, answers, 0).worker.stage == Done(-1)
  {
    hide Run, Step, Taken, Finish, Blocked;
    LeftoverBlocks(k, v0, alg, Taken(answers, 2));
    FinishFrom(k, t0, answers, 2);
    FinishedIs(k, Run(k, t0, Taken(answers, 2)), answers, 2);
  }

  lemma FirstFailure(answers: seq<Answer>, n: nat) returns (j: nat)
    requires !Unfailing(answers, n)
    ensures 2 <= j < n && Unfailing(answers, j) && AnswerAt(answers, j).Fail?
  {
    j := 2;
    while j < n && !AnswerAt(answers, j).Fail?
      invariant 2 <= j && Unfailing(answers, j) && (j > n ==> n < 2)
      decreases n - j
    {
      j := j + 1;
    }
  }
}
