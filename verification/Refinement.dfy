/**
 Transparency (src/dzfile-api.c over src/dzfile-intern.cc): the store with containers refines a
 plain store in which converting a file does nothing. Every call that succeeds gives the answer
 the plain store gives.
 */
module Refinement {
  import opened CStrings
  import opened Names
  import opened Container
  import opened Conversion
  import opened BlockReader
  import opened RoundTrip
  import opened ClientReads
  import opened Store
  import opened Relation
  import opened Converting

  /** A call, with what the system answers to it. */
  datatype Op =
    | Open(path: string, flags: Flags, statOk: bool, pick: Pick)
    | Close(fd: int)
    | Read(fd: int, count: nat, offset: nat)
    | Write(fd: int, data: Bytes, offset: nat)
    | Truncate(path: string, length: nat, statOk: bool, ok: bool)
    | Unlink(path: string, statOk: bool, hiddenOk: bool, plainOk: bool)
    | Stat(path: string)
    | Fstat(fd: int)
    | Convert(path: string, answers: seq<Answer>, ino: nat)

  const NO_PICK := Pick(-1, 0, 0)

  function Size0(size: Option<nat>): Reply {
    match size case Some(n) => Size(n) case None => Failed
  }

  function LengthOf(data: Option<Bytes>): Option<nat> {
    match data case Some(bytes) => Some(|bytes|) case None => None
  }

  /** One call on the store. */
  function Perform(k: Codec, s: Api, op: Op): (Api, Reply) {
    match op
    case Open(path, flags, statOk, pick) => Whole(s, OpenCall(path, flags), statOk, pick, true, true)
    case Close(fd) =>
      var (s', rc) := DzClose(s, fd);
      (s', if rc < 0 then Failed else Finished)
    case Read(fd, count, offset) =>
      (s, match DzPread(k, s, fd, count, offset) case Data(bytes) => Got(bytes) case Error => Failed
          case Undefined => Unspecified)
    case Write(fd, data, offset) =>
      var (os, n) := OsPwrite(s.os, fd, data, offset);
      (s.(os := os), if n < 0 then Failed else Wrote(n))
    case Truncate(path, length, statOk, ok) => Whole(s, TruncateCall(path, length), statOk, NO_PICK, ok, true)
    case Unlink(path, statOk, hiddenOk, plainOk) =>
      var first := FindHidden(s.os, path, statOk) == 1;
      Whole(s, UnlinkCall(path), statOk, NO_PICK, if first then hiddenOk else plainOk, plainOk)
    case Stat(path) => (s, Size0(OsStat(s.os, path)))
    case Fstat(fd) => (s, Size0(LengthOf(FdData(s.os, fd))))
    case Convert(path, answers, ino) => (DzConvert(k, s, path, answers, ino).0, Finished)
  }

  /** The same call on a plain store. */
  function Plainly(a: Os, op: Op): (Os, Reply) {
    match op
    case Open(path, flags, _, pick) =>
      var (a', fd) := OsOpen(a, path, flags, pick);
      (a', if fd < 0 then Failed else Opened(fd))
    case Close(fd) =>
      var (a', rc) := OsClose(a, fd);
      (a', if rc < 0 then Failed else Finished)
    case Read(fd, count, offset) =>
      (a, match FdData(a, fd) case Some(data) => Got(PlainRead(data, count, offset).bytes) case None => Failed)
    case Write(fd, data, offset) =>
      var (a', n) := OsPwrite(a, fd, data, offset);
      (a', if n < 0 then Failed else Wrote(n))
    case Truncate(path, length, _, ok) =>
      var (a', rc) := OsTruncate(a, path, length);
      if !ok || rc < 0 then (a, Failed) else (a', Finished)
    case Unlink(path, _, _, plainOk) =>
      var a' := OsUnlink(a, path);
      if !plainOk || a' == a then (a, Failed) else (a', Finished)
    case Stat(path) => (a, Size0(OsStat(a, path)))
    case Fstat(fd) => (a, Size0(LengthOf(FdData(a, fd))))
    case Convert(_, _, _) => (a, Finished)
  }

  /**
   Both stores, and the inodes of the placeholders that stand empty because a conversion was
   stopped between its two truncates.
   */
  datatype Pair = Pair(api: Api, plain: Os, short: set<nat>)

  /** What a call is expected to answer: what the plain store does, but for the size of an empty placeholder. */
  function Expected(pair: Pair, op: Op): Reply {
    var a := pair.plain;
    match op
    case Stat(path) => if path in a.names && a.names[path] in pair.short then Size(0) else Plainly(a, op).1
    case Fstat(fd) => if fd in a.fds && a.fds[fd].ino in pair.short then Size(0) else Plainly(a, op).1
    case _ => Plainly(a, op).1
  }

  /** A call without a result the plain store could give. */
  predicate NoAnswer(reply: Reply) {
    reply.Failed? || reply.Aborted? || reply.Unspecified?
  }

  /** A call that failed on the store is not made on the plain one. */
  function Follow(a: Os, op: Op, reply: Reply): Os {
    if NoAnswer(reply) then a else Plainly(a, op).0
  }

  /** Both stores after a call. */
  function After(k: Codec, pair: Pair, op: Op): Pair {
    var (s', reply) := Perform(k, pair.api, op);
    Pair(s', Follow(pair.plain, op, reply),
         if op.Convert? then ShortAfter(pair.api.os, pair.short, op.path, op.answers) else pair.short)
  }

  /**
   What is asked of a call. The system hands out numbers not in use; users name user paths;
   O_TRUNC is not used to open a converted file for reading; a container is seen by the stat that
   looks for it, and is not unlinked alone; a file is not open while it is converted, and is read in
   full blocks.
   */
  ghost predicate Legal(s: Api, op: Op) {
    match op
    case Open(path, flags, statOk, pick) =>
      && UserPath(path) && pick.fd !in s.os.fds && pick.ino !in s.os.nodes && pick.h5fd !in s.os.handles
      && (flags.trunc && flags.access.ReadOnly? && statOk ==> Hidden(path) !in s.os.names)
    case Truncate(path, _, statOk, _) => UserPath(path) && (Hidden(path) in s.os.names ==> statOk)
    case Unlink(path, statOk, hiddenOk, plainOk) =>
      UserPath(path) && (Hidden(path) in s.os.names ==> statOk && (hiddenOk ==> plainOk))
    case Stat(path) => UserPath(path)
    case Convert(path, answers, ino) => UserPath(path) && ConvertAllowed(s.os, path, answers, ino)
    case _ => true
  }

  /** Which calls are legal: all on descriptors; on a user's path, as long as a container that is there is seen. */
  lemma LegalIf(s: Api, op: Op)
    requires op.Open? ==> op.pick.fd !in s.os.fds && op.pick.ino !in s.os.nodes && op.pick.h5fd !in s.os.handles
    requires op.Open? || op.Truncate? || op.Unlink? || op.Stat? || op.Convert? ==> UserPath(op.path)
    requires op.Open? && op.flags.trunc && op.flags.access == ReadOnly && op.statOk ==> Hidden(op.path) !in s.os.names
    requires (op.Truncate? || op.Unlink?) && Hidden(op.path) in s.os.names ==> op.statOk
    requires op.Unlink? && Hidden(op.path) in s.os.names && op.hiddenOk ==> op.plainOk
    requires op.Convert? ==>
               && (forall i :: 0 <= i < |op.answers| ==> !op.answers[i].Short?) && op.ino !in s.os.nodes
               && (Hidden(op.path) in s.os.names ==> |op.answers| == 0 || op.answers[0] != Fail)
               && (Hidden(op.path) !in s.os.names && op.path in s.os.names ==>
                     forall fd :: fd in s.os.fds ==> s.os.fds[fd].ino != s.os.names[op.path])
    ensures Legal(s, op)
  {
    hide UserPath, Hidden;
  }

  // ----- one call -----

  ghost predicate Refines(k: Codec, pair: Pair) {
    exists boxed: map<nat, nat> :: Rel(k, pair.api, pair.plain, Links(boxed, pair.short, {}))
  }

  /** An open of a converted file that comes to the map with no descriptor. */
  ghost predicate Aborts(s: Api, op: Op) {
    && op.Open? && op.statOk && Hidden(op.path) in s.os.names && op.flags.access.ReadOnly?
    && op.pick.h5fd > 0 && op.pick.fd < 0
  }

  /** The calls a converted file refuses that a plain file does not, and an open whose first stat fails. */
  ghost predicate Refused(k: Codec, s: Api, a: Os, op: Op) {
    match op
    case Open(path, flags, statOk, pick) =>
      !statOk || (Hidden(path) in s.os.names && (!flags.access.ReadOnly? || pick.h5fd <= 0))
    case Read(fd, count, offset) =>
      && fd in s.h5fdmap && FdData(a, fd).Some?
      && var file := FdData(a, fd).value;
         !GoodRead(k, file, count, offset) && !StrayRead(k, file, count, offset)
    case Truncate(path, _, _, _) => Hidden(path) in s.os.names
    case Unlink(path, _, hiddenOk, _) => Hidden(path) in s.os.names && !hiddenOk
    case _ => false
  }

  /** A call as it should be: it keeps the relation, and its answer is known. */
  ghost predicate Right(k: Codec, s: Api, a: Os, l: Links, op: Op) {
    var (s', reply) := Perform(k, s, op);
    && (reply.Aborted? <==> Aborts(s, op)) && (reply.Unspecified? ==> op.Read?)
    && Rel(k, s', Follow(a, op, reply), l)
    && (NoAnswer(reply) || reply == Expected(Pair(s, a, l.short), op))
  }

  lemma OpenRight(k: Codec, s: Api, a: Os, l: Links, path: string, flags: Flags, statOk: bool, pick: Pick)
    requires Rel(k, s, a, l) && path !in l.leaving && Legal(s, Open(path, flags, statOk, pick))
    ensures var op := Open(path, flags, statOk, pick);
            && Right(k, s, a, l, op)
            && (Perform(k, s, op).1.Failed? <==> !Aborts(s, op) && (Plainly(a, op).1.Failed? || Refused(k, s, a, op)))
  {
    hide Rel, UserPath, Hidden, Stored, IllegalName, FindHidden, OsOpen, H5Open;
    AtPath(k, s, a, l, path);
    Found(k, s, a, l, path, statOk);
    FailedOpen(a, path, flags, pick);
    FailedOpen(s.os, path, flags, pick);
    if statOk && Hidden(path) in s.os.names {
      if flags.access.ReadOnly? {
        HandleKeeps(k, s, a, l, path, pick.h5fd);
        var (os, h) := H5Open(s.os, Hidden(path), pick.h5fd);
        if h > 0 {
          OpenHandleKeeps(k, s.(os := os), a, l, path, flags, h, pick);
          if pick.fd >= 0 {
            OldOpen(a, path, flags, pick);
          }
        }
      }
    } else if statOk {
      OpenPlainKeeps(k, s, a, l, path, flags, pick);
    }
  }

  lemma FailedOpen(a: Os, path: string, flags: Flags, pick: Pick)
    ensures pick.fd < 0 || OsOpen(a, path, flags, pick).1 < 0 ==> OsOpen(a, path, flags, pick) == (a, -1)
  {
  }

  lemma OldOpen(a: Os, path: string, flags: Flags, pick: Pick)
    requires Content(a, path).Some? && Content(a, path).value.Raw? && pick.fd >= 0
    ensures OsOpen(a, path, flags, pick).1 == pick.fd
  {
  }

  lemma TruncateRight(k: Codec, s: Api, a: Os, l: Links, path: string, length: nat, statOk: bool, ok: bool)
    requires Rel(k, s, a, l) && path !in l.leaving && Legal(s, Truncate(path, length, statOk, ok))
    ensures var op := Truncate(path, length, statOk, ok);
            && Right(k, s, a, l, op)
            && (Perform(k, s, op).1.Failed? <==> Plainly(a, op).1.Failed? || Refused(k, s, a, op))
  {
    hide Rel, UserPath, Hidden, Stored, FindHidden, OsTruncate;
    Found(k, s, a, l, path, statOk);
    if Hidden(path) !in s.os.names {
      ResizeKeeps(k, s, a, l, path, length);
    }
  }

  lemma UnlinkRight(k: Codec, s: Api, a: Os, l: Links, path: string, statOk: bool, hiddenOk: bool, plainOk: bool)
    requires Rel(k, s, a, l) && path !in l.leaving && Legal(s, Unlink(path, statOk, hiddenOk, plainOk))
    ensures var op := Unlink(path, statOk, hiddenOk, plainOk);
            && Right(k, s, a, l, op)
            && (Perform(k, s, op).1.Failed? <==> Plainly(a, op).1.Failed? || Refused(k, s, a, op))
  {
    hide Rel, UserPath, Hidden, Stored, FindHidden, OsUnlink;
    AtPath(k, s, a, l, path);
    Found(k, s, a, l, path, statOk);
    assert l.leaving - {path} == l.leaving && l.(leaving := l.leaving) == l;
    if Hidden(path) in s.os.names {
      UnlinkBoxedKeeps(k, s, a, l, path);
      var s1, l1 := s.(os := OsUnlink(s.os, Hidden(path))), l.(leaving := l.leaving + {path});
      assert Hidden(path) !in s1.os.names;
      assert l1.leaving - {path} == l.leaving && l1.(leaving := l1.leaving - {path}) == l;
      UnlinkPlainKeeps(k, s1, a, l1, path);
      PlainGoes(a, path);
    } else {
      UnlinkPlainKeeps(k, s, a, l, path);
    }
  }

  lemma PlainGoes(a: Os, path: string)
    requires Content(a, path).Some? && Content(a, path).value.Raw?
    ensures OsUnlink(a, path) != a
  {
    assert path in a.names && path !in OsUnlink(a, path).names;
  }

  lemma FdRight(k: Codec, s: Api, a: Os, l: Links, op: Op)
    requires Sound(k) && Rel(k, s, a, l) && (op.Close? || op.Read? || op.Write? || op.Fstat?)
    ensures Right(k, s, a, l, op)
    ensures !op.Read? ==> (Perform(k, s, op).1.Failed? <==> Plainly(a, op).1.Failed?)
  {
    hide Rel, DzClose, DzPread, OsPwrite, OsClose, FdData;
    match op {
      case Close(fd) =>
        CloseKeeps(k, s, a, l, fd);
        FailedFd(a, fd, "", 0);
      case Read(fd, count, offset) => ReadTrue(k, s, a, l, fd, count, offset);
      case Write(fd, data, offset) =>
        WriteKeeps(k, s, a, l, fd, data, offset);
        FailedFd(a, fd, data, offset);
      case Fstat(fd) =>
        FstatTrue(k, s, a, l, fd);
        OpenData(a, fd);
    }
  }

  lemma FailedFd(a: Os, fd: int, data: Bytes, offset: nat)
    ensures OsClose(a, fd).1 < 0 ==> OsClose(a, fd).0 == a
    ensures OsPwrite(a, fd, data, offset).1 < 0 ==> OsPwrite(a, fd, data, offset).0 == a
  {
  }

  lemma OpenData(a: Os, fd: int)
    ensures FdData(a, fd).Some? ==> fd in a.fds
  {
  }

  lemma StatRight(k: Codec, s: Api, a: Os, l: Links, op: Op)
    requires Rel(k, s, a, l) && op.Stat? && UserPath(op.path)
    ensures Right(k, s, a, l, op) && (Perform(k, s, op).1.Failed? <==> Plainly(a, op).1.Failed?)
  {
    hide Rel, OsStat, UserPath;
    StatTrue(k, s, a, l, op.path);
  }

  /** A user's call that names no path in the middle of an unlink. */
  lemma CallRight(k: Codec, s: Api, a: Os, l: Links, op: Op)
    requires Sound(k) && Rel(k, s, a, l) && Legal(s, op) && !op.Convert?
    requires op.Open? || op.Truncate? || op.Unlink? || op.Stat? ==> op.path !in l.leaving
    ensures Right(k, s, a, l, op)
    ensures !op.Read? ==>
              (Perform(k, s, op).1.Failed? <==> !Aborts(s, op) && (Plainly(a, op).1.Failed? || Refused(k, s, a, op)))
  {
    hide Rel, Perform, Plainly, Follow, Aborts, Expected;
    NoAbort(s, op);
    NoRefusal(k, s, a, op);
    match op
    case Open(path, flags, statOk, pick) => OpenRight(k, s, a, l, path, flags, statOk, pick);
    case Truncate(path, length, statOk, ok) => TruncateRight(k, s, a, l, path, length, statOk, ok);
    case Unlink(path, statOk, hiddenOk, plainOk) => UnlinkRight(k, s, a, l, path, statOk, hiddenOk, plainOk);
    case Stat(path) => StatRight(k, s, a, l, op);
    case _ => FdRight(k, s, a, l, op);
  }

  lemma NoAbort(s: Api, op: Op)
    ensures !op.Open? ==> !Aborts(s, op)
  {
  }

  lemma NoRefusal(k: Codec, s: Api, a: Os, op: Op)
    ensures op.Close? || op.Write? || op.Stat? || op.Fstat? || op.Convert? ==> !Refused(k, s, a, op)
  {
  }

  /**
   One call keeps the refinement. If it neither fails nor asks the descriptor map for what that
   does not define, it gives the answer the plain store gives; only the size of a placeholder left
   empty is 0.
   */
  lemma StepRefines(k: Codec, pair: Pair, op: Op)
    requires Sound(k) && Refines(k, pair) && Legal(pair.api, op)
    ensures Refines(k, After(k, pair, op))
    ensures var reply := Perform(k, pair.api, op).1;
            NoAnswer(reply) || reply == Expected(pair, op)
  {
    hide Rel, Perform, Plainly, Follow, Expected, Aborts, ShortAfter;
    var boxed: map<nat, nat> :| Rel(k, pair.api, pair.plain, Links(boxed, pair.short, {}));
    var l := Links(boxed, pair.short, {});
    if op.Convert? {
      ConvertIs(k, pair, op);
      var l' := ConvertKeeps(k, pair.api, pair.plain, l, op.path, op.answers, op.ino);
      assert l' == Links(l'.boxed, l'.short, {});
    } else {
      CallRight(k, pair.api, pair.plain, l, op);
      assert pair == Pair(pair.api, pair.plain, pair.short);
    }
  }

  lemma ConvertIs(k: Codec, pair: Pair, op: Op)
    requires op.Convert?
    ensures Perform(k, pair.api, op) == (DzConvert(k, pair.api, op.path, op.answers, op.ino).0, Finished)
    ensures Follow(pair.plain, op, Finished) == pair.plain && Expected(pair, op) == Finished
  {
  }

  // ----- when a call fails -----

  /** The C of this call, a read, is not defined. */
  ghost predicate Strays(k: Codec, s: Api, a: Os, op: Op) {
    && op.Read? && op.fd in s.h5fdmap && FdData(a, op.fd).Some?
    && StrayRead(k, FdData(a, op.fd).value, op.count, op.offset)
  }

  lemma ReadEnds(k: Codec, s: Api, a: Os, l: Links, op: Op)
    requires Sound(k) && Rel(k, s, a, l) && op.Read?
    requires FdData(a, op.fd).Some? ==> Addressable(FdData(a, op.fd).value)
    ensures Perform(k, s, op).1.Failed? <==> Plainly(a, op).1.Failed? || Refused(k, s, a, op)
    ensures Perform(k, s, op).1.Unspecified? <==> Strays(k, s, a, op)
  {
    hide UserPath, SameNames, Stored, Pread, GoodRead, StrayRead, Addressable, TempsApart;
    if op.fd in s.h5fdmap {
      var file := a.nodes[a.fds[op.fd].ino].data;
      assert SourceOf(s, op.fd) == Some(InBox(Stored(k, file)));
      PreadEnds(k, file, op.count, op.offset);
    }
  }

  /**
   A call fails exactly when the plain store's does, or the stat before an open does, or a
   converted file refuses it: opened for writing, truncated, or read where a block cannot be read
   back. It aborts exactly when an open of a converted file is refused its descriptor, and its
   result is not specified exactly when a read runs into a product that overflows or starts behind
   the end in a block of the file.
   */
  lemma FailsExactly(k: Codec, pair: Pair, op: Op)
    requires Sound(k) && Refines(k, pair) && Legal(pair.api, op)
    requires op.Read? && FdData(pair.plain, op.fd).Some? ==> Addressable(FdData(pair.plain, op.fd).value)
    ensures Perform(k, pair.api, op).1.Aborted? <==> Aborts(pair.api, op)
    ensures Perform(k, pair.api, op).1.Unspecified? <==> Strays(k, pair.api, pair.plain, op)
    ensures Perform(k, pair.api, op).1.Failed? <==>
            !Aborts(pair.api, op) && (Plainly(pair.plain, op).1.Failed? || Refused(k, pair.api, pair.plain, op))
  {
    hide Rel, DzPread, FdData, Addressable, Refused, Aborts, StrayRead;
    var boxed: map<nat, nat> :| Rel(k, pair.api, pair.plain, Links(boxed, pair.short, {}));
    NoAbort(pair.api, op);
    NoRefusal(k, pair.api, pair.plain, op);
    if op.Read? {
      ReadEnds(k, pair.api, pair.plain, Links(boxed, pair.short, {}), op);
    } else if !op.Convert? {
      CallRight(k, pair.api, pair.plain, Links(boxed, pair.short, {}), op);
    }
  }

  /**
   The smallest read that is not specified: ten bytes behind the end of a converted file of one.
   The plain store answers with no bytes; the source copies ten from outside the block.
   */
  lemma BehindOneByte(k: Codec, s: Api, a: Os, l: Links, fd: int)
    requires Sound(k) && Rel(k, s, a, l) && fd in s.h5fdmap
    requires FdData(a, fd).Some? && |FdData(a, fd).value| == 1 && Fits(k, FdData(a, fd).value, 0)
    ensures Perform(k, s, Read(fd, 10, 2)).1 == Unspecified && Plainly(a, Read(fd, 10, 2)).1 == Got("")
  {
    hide UserPath, SameNames, Stored, Pread, TempsApart, Fits, Sound;
    ReadEnds(k, s, a, l, Read(fd, 10, 2));
    assert BlockNumber(2) == 0;
  }

  // ----- every run -----

  /** Both stores after these calls. */
  function AfterAll(k: Codec, pair: Pair, ops: seq<Op>): Pair {
    if |ops| == 0 then pair
    else After(k, AfterAll(k, pair, ops[..|ops| - 1]), ops[|ops| - 1])
  }

  ghost predicate LegalRun(k: Codec, pair: Pair, ops: seq<Op>) {
    forall i {:trigger ops[i]} :: 0 <= i < |ops| ==> Legal(AfterAll(k, pair, ops[..i]).api, ops[i])
  }

  lemma LegalPrefix(k: Codec, pair: Pair, ops: seq<Op>, n: nat)
    requires LegalRun(k, pair, ops) && n <= |ops|
    ensures LegalRun(k, pair, ops[..n])
  {
    hide Legal, AfterAll;
    forall i | 0 <= i < n ensures Legal(AfterAll(k, pair, ops[..n][..i]).api, ops[..n][i]) {
      assert ops[..n][..i] == ops[..i] && ops[..n][i] == ops[i];
    }
  }

  lemma {:induction false} RunRefines(k: Codec, pair: Pair, ops: seq<Op>)
    requires Sound(k) && Refines(k, pair) && LegalRun(k, pair, ops)
    ensures Refines(k, AfterAll(k, pair, ops))
  {
    hide Refines, After, Legal;
    if |ops| > 0 {
      var n := |ops| - 1;
      LegalPrefix(k, pair, ops, n);
      RunRefines(k, pair, ops[..n]);
      StepRefines(k, AfterAll(k, pair, ops[..n]), ops[n]);
    }
  }

  /**
   Transparency. In every run of open, close, pread, pwrite, truncate, unlink, stat and convert,
   each call that succeeds gives the answer of the plain store: a pread the slice of the file's
   content, a stat its length unless the placeholder was left empty.
   */
  lemma RunTransparent(k: Codec, pair: Pair, ops: seq<Op>, i: nat)
    requires Sound(k) && Refines(k, pair) && LegalRun(k, pair, ops) && i < |ops|
    ensures var before := AfterAll(k, pair, ops[..i]); var reply := Perform(k, before.api, ops[i]).1;
            NoAnswer(reply) || reply == Expected(before, ops[i])
  {
    hide Refines, Perform, Expected, Legal;
    LegalPrefix(k, pair, ops, i);
    RunRefines(k, pair, ops[..i]);
    StepRefines(k, AfterAll(k, pair, ops[..i]), ops[i]);
  }

  /** The inodes of the users' files. */
  function UserNodes(os: Os): set<nat> {
    set p | p in os.names && UserPath(p) :: os.names[p]
  }

  /** What a plain store sees of a file system before anything is open or converted. */
  function PlainPart(os: Os): Os {
    Os(map p | p in os.names && UserPath(p) :: os.names[p], map n | n in UserNodes(os) && n in os.nodes :: os.nodes[n],
       map[], map[])
  }

  /** Plain files without hard links, nothing open and nothing converted. */
  ghost predicate AllPlain(os: Os) {
    && os.fds == map[] && Tidy(os)
    && (forall p {:trigger UserPath(p)} :: UserPath(p) ==> Hidden(p) !in os.names)
    && (forall p {:trigger Content(os, p)} :: p in os.names && UserPath(p) ==> Content(os, p).value.Raw?)
  }

  /** Any such file system is a start. */
  lemma StartRefines(k: Codec, os: Os)
    requires AllPlain(os)
    ensures Rel(k, Api(os, map[]), PlainPart(os), Links(map[], {}, {}))
    ensures Refines(k, Pair(Api(os, map[]), PlainPart(os), {}))
  {
    hide UserPath, Hidden, Temp, Stored;
    StartTemps(os);
    StartData(k, os);
    assert Rel(k, Api(os, map[]), PlainPart(os), Links(map[], {}, {}));
  }

  lemma StartTemps(os: Os)
    requires Tidy(os)
    ensures TempsApart(os.names, PlainPart(os).nodes, map[])
  {
    hide UserPath, Hidden, Temp;
    forall p | UserPath(p) && Temp(p) in os.names ensures os.names[Temp(p)] !in UserNodes(os) {
      UserNames(p);
    }
  }

  lemma StartData(k: Codec, os: Os)
    requires Tidy(os)
    requires forall p {:trigger Content(os, p)} :: p in os.names && UserPath(p) ==> Content(os, p).value.Raw?
    ensures SameData(k, os.nodes, PlainPart(os).nodes, map[], {})
  {
    hide UserPath, Hidden, Temp, Stored;
    forall n | n in UserNodes(os) ensures n in os.nodes && os.nodes[n].Raw? {
      var p :| p in os.names && UserPath(p) && os.names[p] == n;
      assert Content(os, p) == Some(os.nodes[n]);
    }
  }

  /**
   The descriptor map in every run: each key is an open descriptor whose entry holds that number,
   and what it is read from is the container of that descriptor's file, also when the number was
   used before.
   */
  lemma MapNeverStale(k: Codec, pair: Pair, ops: seq<Op>, fd: int)
    requires Sound(k) && Refines(k, pair) && LegalRun(k, pair, ops)
    ensures var after := AfterAll(k, pair, ops);
            fd in after.api.h5fdmap ==>
              && fd in after.api.os.fds && after.api.h5fdmap[fd].fd == fd && FdData(after.plain, fd).Some?
              && SourceOf(after.api, fd) == Some(InBox(Stored(k, FdData(after.plain, fd).value)))
  {
    RunRefines(k, pair, ops);
    hide AfterAll, UserPath, SameNames, Stored, TempsApart;
    var after := AfterAll(k, pair, ops);
    var boxed: map<nat, nat> :| Rel(k, after.api, after.plain, Links(boxed, after.short, {}));
  }

  // ----- where the hypotheses are needed -----

  /**
   A conversion whose second truncate, alone of its calls, fails: stat now says 0, where the plain
   store says the length.
   */
  lemma StatAfterLostSize(k: Codec, pair: Pair, path: string, answers: seq<Answer>, ino: nat)
    requires Sound(k) && Refines(k, pair) && Legal(pair.api, Convert(path, answers, ino))
    requires LosesSize(OsView(pair.api.os, path), answers)
    ensures var after := After(k, pair, Convert(path, answers, ino));
            && Perform(k, after.api, Stat(path)).1 == Size(0)
            && Plainly(after.plain, Stat(path)).1.Size? && Plainly(after.plain, Stat(path)).1.size > 0
  {
    hide Rel, Legal, ShortAfter, DzConvert, LosesSize, OsStat, OsView;
    var boxed: map<nat, nat> :| Rel(k, pair.api, pair.plain, Links(boxed, pair.short, {}));
    ConvertIs(k, pair, Convert(path, answers, ino));
    LegalConvert(pair.api, path, answers, ino);
    SizeLost(k, pair.api, pair.plain, Links(boxed, pair.short, {}), path, answers, ino);
  }

  lemma LegalConvert(s: Api, path: string, answers: seq<Answer>, ino: nat)
    requires Legal(s, Convert(path, answers, ino))
    ensures UserPath(path) && ConvertAllowed(s.os, path, answers, ino)
  {
  }

  lemma SizeLost(k: Codec, s: Api, a: Os, l: Links, path: string, answers: seq<Answer>, ino: nat)
    requires Rel(k, s, a, l) && UserPath(path) && path !in l.leaving && ConvertAllowed(s.os, path, answers, ino)
    requires LosesSize(OsView(s.os, path), answers)
    ensures OsStat(DzConvert(k, s, path, answers, ino).0.os, path) == Some(0)
    ensures OsStat(a, path).Some? && OsStat(a, path).value > 0
  {
    hide Rel, UserPath, Hidden, Temp, Stored, DzConvert, ConvertAllowed, OsView, LosesSize;
    AtPath(k, s, a, l, path);
    var s' := DzConvert(k, s, path, answers, ino).0;
    var l' := ConvertKeeps(k, s, a, l, path, answers, ino);
    SameNameAfter(k, s, path, answers, ino);
    ContainerSeen(s.os, path, answers, ino);
    Unconverted(k, s, a, l, path, answers);
    AtPath(k, s', a, l', path);
    StatTrue(k, s', a, l', path);
  }

  lemma ContainerSeen(os: Os, path: string, answers: seq<Answer>, ino: nat)
    requires ConvertAllowed(os, path, answers, ino)
    ensures Hidden(path) in os.names ==> !AnswerAt(answers, 0).Fail?
  {
  }

  lemma SameNameAfter(k: Codec, s: Api, path: string, answers: seq<Answer>, ino: nat)
    ensures var os' := DzConvert(k, s, path, answers, ino).0.os;
            (path in os'.names <==> path in s.os.names) && (path in s.os.names ==> os'.names[path] == s.os.names[path])
  {
    SameName(k, s.os, path, Task(OsView(s.os, path), Fresh(Zstd)), answers, 0, ino);
  }

  /** Only a file without a container that is seen loses its size: the plain store's file is what is there. */
  lemma Unconverted(k: Codec, s: Api, a: Os, l: Links, path: string, answers: seq<Answer>)
    requires Rel(k, s, a, l) && UserPath(path) && path !in l.leaving
    requires LosesSize(OsView(s.os, path), answers) && (Hidden(path) in s.os.names ==> !AnswerAt(answers, 0).Fail?)
    ensures Content(a, path) == Content(s.os, path) && Content(a, path).Some? && Content(a, path).value.Raw?
    ensures |Content(a, path).value.data| > 0
  {
    hide Rel, UserPath, Hidden, Temp, Stored;
    AtPath(k, s, a, l, path);
    FirstTaken(answers);
  }

  /**
   O_TRUNC on a converted file: the descriptor still reads the old bytes, so the plain store is
   still refined exactly when there are none.
   */
  lemma TruncatingOpen(k: Codec, s: Api, a: Os, l: Links, path: string, pick: Pick)
    requires Sound(k) && Rel(k, s, a, l) && UserPath(path) && Hidden(path) in s.os.names
    requires pick.fd >= 0 && pick.h5fd > 0
    ensures var op := Open(path, Flags(ReadOnly, false, true), true, pick);
            var s', a', file := Perform(k, s, op).0, Plainly(a, op).0, Content(a, path).value.data;
            && Perform(k, s, op).1 == Plainly(a, op).1 == Opened(pick.fd)
            && FdData(a', pick.fd) == Some("") && SourceOf(s', pick.fd) == Some(InBox(Stored(k, file)))
            && (pick.fd !in s.os.fds && pick.h5fd !in s.os.handles ==>
                  ((exists l' :: Rel(k, s', a', l')) <==> file == ""))
  {
    hide Rel, UserPath, Hidden, Stored, Sound, Perform, Plainly, Content, SourceOf, FdData;
    TruncatingReads(k, s, a, l, path, pick);
    var op := Open(path, Flags(ReadOnly, false, true), true, pick);
    var s', a', file := Perform(k, s, op).0, Plainly(a, op).0, Content(a, path).value.data;
    forall l' | Rel(k, s', a', l') ensures file == "" {
      AtPath(k, s', a', l', path);
      StoredInjective(k, file, "");
    }
    if file == "" && pick.fd !in s.os.fds && pick.h5fd !in s.os.handles {
      TruncatingNothing(k, s, a, l, path, pick);
    }
  }

  lemma TruncatingReads(k: Codec, s: Api, a: Os, l: Links, path: string, pick: Pick)
    requires Rel(k, s, a, l) && UserPath(path) && Hidden(path) in s.os.names
    requires pick.fd >= 0 && pick.h5fd > 0
    ensures Content(a, path).Some? && Content(a, path).value.Raw?
    ensures var op := Open(path, Flags(ReadOnly, false, true), true, pick);
            var s', a', file := Perform(k, s, op).0, Plainly(a, op).0, Content(a, path).value.data;
            && Perform(k, s, op).1 == Plainly(a, op).1 == Opened(pick.fd)
            && FdData(a', pick.fd) == Some("") && SourceOf(s', pick.fd) == Some(InBox(Stored(k, file)))
            && Hidden(path) in s'.os.names && Content(s'.os, Hidden(path)) == Some(Boxed(Stored(k, file)))
            && Content(a', path) == Some(Raw(""))
  {
    hide Rel, UserPath, Hidden, IllegalName, FindHidden, Stored;
    AtPath(k, s, a, l, path);
    Found(k, s, a, l, path, true);
    HiddenIsOther(path);
  }

  lemma TruncatingNothing(k: Codec, s: Api, a: Os, l: Links, path: string, pick: Pick)
    requires Rel(k, s, a, l) && UserPath(path) && Hidden(path) in s.os.names && Content(a, path) == Some(Raw(""))
    requires pick.fd >= 0 && pick.h5fd > 0 && pick.fd !in s.os.fds && pick.h5fd !in s.os.handles
    ensures var op := Open(path, Flags(ReadOnly, false, true), true, pick);
            Rel(k, Perform(k, s, op).0, Plainly(a, op).0, l)
  {
    hide Rel, UserPath, Hidden, IllegalName, FindHidden, Stored, H5Open;
    AtPath(k, s, a, l, path);
    Found(k, s, a, l, path, true);
    EmptyPlaceholder(k, s, a, l, path);
    HandleKeeps(k, s, a, l, path, pick.h5fd);
    var os := H5Open(s.os, Hidden(path), pick.h5fd).0;
    OpenHandleKeeps(k, s.(os := os), a, l, path, Flags(ReadOnly, false, false), pick.h5fd, pick);
    SameOpen(a, path, pick);
    SameOpen(os, path, pick);
  }

  lemma EmptyPlaceholder(k: Codec, s: Api, a: Os, l: Links, path: string)
    requires Rel(k, s, a, l) && UserPath(path) && Content(a, path) == Some(Raw(""))
    ensures Content(s.os, path) == Some(Raw(""))
  {
    hide UserPath, Hidden, Stored, SameFds, MapSound, TempsApart, Tidy;
  }

  /** To empty what is empty is to leave it as it is. */
  lemma SameOpen(os: Os, path: string, pick: Pick)
    requires Content(os, path) == Some(Raw(""))
    ensures OsOpen(os, path, Flags(ReadOnly, false, true), pick) ==
            OsOpen(os, path, Flags(ReadOnly, false, false), pick)
  {
    assert os.nodes[os.names[path] := Raw("")] == os.nodes;
  }

  /** With a container in place, every descriptor of the file must be in the map. */
  lemma OutsideMap(k: Codec, s: Api, a: Os, l: Links, fd: int, path: string)
    requires UserPath(path) && Hidden(path) in s.os.names && fd !in s.h5fdmap
    requires fd in a.fds && path in a.names && a.fds[fd].ino == a.names[path]
    ensures !Rel(k, s, a, l)
  {
    if Rel(k, s, a, l) {
      AtPath(k, s, a, l, path);
      hide SameNames, SameData, TempsApart, UserPath, Hidden;
      assert false;
    }
  }

  /** A descriptor open on a file while it is converted reads zeros afterwards. */
  lemma OpenAcrossConvert(k: Codec, s: Api, a: Os, l: Links, fd: int, path: string, answers: seq<Answer>, ino: nat)
    requires Rel(k, s, a, l) && UserPath(path) && path !in l.leaving && NoShortReads(answers) && ino !in s.os.nodes
    requires path in a.names && fd in a.fds && a.fds[fd].ino == a.names[path] && fd !in s.h5fdmap
    requires DzConvert(k, s, path, answers, ino).1 == 0
    ensures SourceOf(DzConvert(k, s, path, answers, ino).0, fd) == Some(InFile(Zeros(|FdData(a, fd).value|)))
    ensures forall l' :: !Rel(k, DzConvert(k, s, path, answers, ino).0, a, l')
  {
    ReadsZeros(k, s, a, l, fd, path, answers, ino);
    var s' := DzConvert(k, s, path, answers, ino).0;
    hide Rel, UserPath, Hidden, DzConvert;
    forall l' ensures !Rel(k, s', a, l') {
      OutsideMap(k, s', a, l', fd, path);
    }
  }

  lemma ReadsZeros(k: Codec, s: Api, a: Os, l: Links, fd: int, path: string, answers: seq<Answer>, ino: nat)
    requires Rel(k, s, a, l) && UserPath(path) && path !in l.leaving && NoShortReads(answers) && ino !in s.os.nodes
    requires path in a.names && fd in a.fds && a.fds[fd].ino == a.names[path] && fd !in s.h5fdmap
    requires DzConvert(k, s, path, answers, ino).1 == 0
    ensures var s' := DzConvert(k, s, path, answers, ino).0;
            && SourceOf(s', fd) == Some(InFile(Zeros(|FdData(a, fd).value|)))
            && Hidden(path) in s'.os.names && s'.h5fdmap == s.h5fdmap
  {
    hide UserPath, Hidden, Temp, Stored, ConvertOs, MapSound, TempsApart, Tidy;
    AtPath(k, s, a, l, path);
    IsTidy(k, s, a, l);
    var v0, file := OsView(s.os, path), FdData(a, fd).value;
    ConvertOsIsFinish(k, s.os, path, Task(v0, Fresh(Zstd)), answers, 0, ino);
    SameName(k, s.os, path, Task(v0, Fresh(Zstd)), answers, 0, ino);
    var all := FinishIsRun(k, Task(v0, Fresh(Zstd)), [], answers, 0);
    SuccessStores(k, file, v0, Zstd, all);
  }

  /**
   If the container of a file is unlinked and the placeholder then is not, the plain store is still
   refined exactly when the file is what the placeholder is, and nobody has it open.
   */
  lemma UnlinkedAlone(k: Codec, s: Api, a: Os, l: Links, path: string)
    requires Rel(k, s, a, l) && UserPath(path) && Hidden(path) in s.os.names
    ensures var (s', reply) := Perform(k, s, Unlink(path, true, true, false));
            && reply == Failed && Hidden(path) !in s'.os.names && Content(s'.os, path) == Content(s.os, path)
            && ((exists l' :: Rel(k, s', a, l') && path !in l'.leaving) <==>
                Content(a, path) == Content(s.os, path) && NotOpen(s.os, path))
  {
    hide Rel, UserPath, Hidden, Stored, FindHidden, NotOpen;
    AtPath(k, s, a, l, path);
    Found(k, s, a, l, path, true);
    HiddenIsOther(path);
    var s' := Perform(k, s, Unlink(path, true, true, false)).0;
    assert s' == s.(os := OsUnlink(s.os, Hidden(path)));
    forall l' | Rel(k, s', a, l') && path !in l'.leaving
      ensures Content(a, path) == Content(s.os, path) && NotOpen(s.os, path)
    {
      AtPath(k, s', a, l', path);
      NobodyHasIt(k, s, s', a, l, l', path);
    }
    if Content(a, path) == Content(s.os, path) && NotOpen(s.os, path) {
      UnboxedKeeps(k, s, a, l, path);
    }
  }

  lemma NobodyHasIt(k: Codec, s: Api, s': Api, a: Os, l: Links, l': Links, path: string)
    requires Rel(k, s, a, l) && Rel(k, s', a, l') && s'.h5fdmap == s.h5fdmap && UserPath(path)
    requires Hidden(path) in s.os.names && Hidden(path) !in s'.os.names && path !in l'.leaving
    ensures NotOpen(s.os, path)
  {
    AtPath(k, s, a, l, path);
    AtPath(k, s', a, l', path);
    hide SameNames, SameData, TempsApart, UserPath, Hidden, MapSound, Tidy;
  }

  lemma NamesUnboxed(names: map<string, nat>, plain: map<string, nat>, boxed: map<nat, nat>, leaving: set<string>,
          path: string)
    requires SameNames(names, plain, boxed, leaving) && UserPath(path) && Hidden(path) in names
    ensures SameNames(names - {Hidden(path)}, plain, boxed - {plain[path]}, leaving)
  {
    hide UserPath, Hidden;
    UserNames(path);
    forall q | UserPath(q) ensures Hidden(q) == Hidden(path) ==> q == path {
      HiddenDiffer(q, path);
    }
  }

  lemma DataUnboxed(k: Codec, nodes: map<nat, File>, plain: map<nat, File>, boxed: map<nat, nat>, short: set<nat>,
          n: nat)
    requires SameData(k, nodes, plain, boxed, short) && n in plain && nodes[n] == plain[n]
    ensures SameData(k, nodes, plain, boxed - {n}, short - {n})
  {
    hide Stored;
  }

  lemma FdsUnboxed(fds: map<int, OpenFile>, h5fdmap: map<int, Dzfd>, handles: map<int, nat>, boxed: map<nat, nat>,
          n: nat)
    requires SameFds(fds, h5fdmap, handles, boxed)
    requires forall fd {:trigger fds[fd]} :: fd in fds ==> fds[fd].ino != n
    ensures SameFds(fds, h5fdmap, handles, boxed - {n})
  {
  }

  lemma TempsUnboxed(names: map<string, nat>, plain: map<nat, File>, boxed: map<nat, nat>, name: string, n: nat)
    requires TempsApart(names, plain, boxed)
    ensures TempsApart(names - {name}, plain, boxed - {n})
  {
    hide UserPath, Temp;
  }

  /** A file whose placeholder is the same file goes on as a plain one. */
  lemma UnboxedKeeps(k: Codec, s: Api, a: Os, l: Links, path: string)
    requires Rel(k, s, a, l) && UserPath(path) && Hidden(path) in s.os.names
    requires Content(a, path) == Content(s.os, path) && NotOpen(s.os, path)
    ensures path !in l.leaving
    ensures var n := a.names[path];
            Rel(k, s.(os := OsUnlink(s.os, Hidden(path))), a, l.(boxed := l.boxed - {n}, short := l.short - {n}))
  {
    hide UserPath, Hidden, Temp, Stored, SameNames, SameFds, SameData, MapSound, TempsApart;
    AtPath(k, s, a, l, path);
    var n := a.names[path];
    NamesUnboxed(s.os.names, a.names, l.boxed, l.leaving, path);
    DataUnboxed(k, s.os.nodes, a.nodes, l.boxed, l.short, n);
    FdsUnboxed(a.fds, s.h5fdmap, s.os.handles, l.boxed, n);
    TempsUnboxed(s.os.names, a.nodes, l.boxed, Hidden(path), n);
  }

  lemma HiddenIsOther(path: string)
    ensures Hidden(path) != path
  {
    TrioDistinct(path);
  }

  // ----- acting on a check that does not hold: the stat failed, or a conversion came in between -----

  /** An open that did not see the container of a converted file reads the placeholder. */
  lemma UnseenOpen(k: Codec, s: Api, a: Os, l: Links, path: string, flags: Flags, pick: Pick)
    requires Rel(k, s, a, l) && UserPath(path) && Hidden(path) in s.os.names && pick.fd !in s.os.fds
    requires pick.fd >= 0 && !flags.trunc
    ensures var (s', next) := Act(s, OpenPlain(path, flags), pick, true); var a' := OsOpen(a, path, flags, pick).0;
            && next == Ret(Opened(pick.fd))
            && SourceOf(s', pick.fd) == Some(InFile(Content(s.os, path).value.data))
            && FdData(a', pick.fd) == Some(Content(a, path).value.data)
            && forall l' :: !Rel(k, s', a', l')
  {
    UnseenReads(k, s, a, l, path, flags, pick);
    hide Rel, UserPath, Hidden;
    var s', a' := Act(s, OpenPlain(path, flags), pick, true).0, OsOpen(a, path, flags, pick).0;
    forall l' ensures !Rel(k, s', a', l') {
      OutsideMap(k, s', a', l', pick.fd, path);
    }
  }

  lemma UnseenReads(k: Codec, s: Api, a: Os, l: Links, path: string, flags: Flags, pick: Pick)
    requires Rel(k, s, a, l) && UserPath(path) && Hidden(path) in s.os.names && pick.fd !in s.os.fds
    requires pick.fd >= 0 && !flags.trunc
    ensures var (s', next) := Act(s, OpenPlain(path, flags), pick, true); var a' := OsOpen(a, path, flags, pick).0;
            && next == Ret(Opened(pick.fd)) && pick.fd !in s'.h5fdmap && Hidden(path) in s'.os.names
            && SourceOf(s', pick.fd) == Some(InFile(Content(s.os, path).value.data))
            && FdData(a', pick.fd) == Some(Content(a, path).value.data)
            && pick.fd in a'.fds && path in a'.names && a'.fds[pick.fd].ino == a'.names[path]
  {
    hide UserPath, Hidden, Stored, SameNames, SameData, TempsApart, Tidy;
    AtPath(k, s, a, l, path);
  }

  /**
   A truncate that did not see it cuts the placeholder and reports success. The container keeps the
   old bytes, so the plain store is still refined exactly when the length is the old one.
   */
  lemma UnseenTruncate(k: Codec, s: Api, a: Os, l: Links, path: string, length: nat)
    requires Sound(k) && Rel(k, s, a, l) && UserPath(path) && Hidden(path) in s.os.names
    ensures var op := Truncate(path, length, false, true); var (s', reply) := Perform(k, s, op);
            && reply == Finished && (s', Ret(reply)) == Act(s, Resize(path, length), NO_PICK, true)
            && var file := Content(a, path).value.data;
               (exists l' :: Rel(k, s', Plainly(a, op).0, l')) <==> length == |file|
  {
    hide Rel, UserPath, Hidden, Stored, Resized, Sound;
    AtPath(k, s, a, l, path);
    Found(k, s, a, l, path, false);
    HiddenIsOther(path);
    var op := Truncate(path, length, false, true);
    var s', a', file := Perform(k, s, op).0, Plainly(a, op).0, Content(a, path).value.data;
    forall l' | Rel(k, s', a', l') ensures length == |file| {
      AtPath(k, s', a', l', path);
      StoredInjective(k, file, Resized(file, length));
    }
    if length == |file| {
      ResizedSame(file);
      assert a.nodes[a.names[path] := Raw(file)] == a.nodes;
      TruncatingKeeps(k, s, a, l, path, Resized(Content(s.os, path).value.data, length));
      assert a' == a && s' == s.(os := s.os.(nodes := s.os.nodes[s.os.names[path] := Content(s'.os, path).value]));
    }
  }

  /**
   An unlink that did not see it removes the placeholder and leaves the container behind: nothing is
   refined any more.
   */
  lemma UnseenUnlink(k: Codec, s: Api, a: Os, l: Links, path: string)
    requires Rel(k, s, a, l) && UserPath(path) && Hidden(path) in s.os.names
    ensures var op := Unlink(path, false, true, true); var (s', reply) := Perform(k, s, op);
            && reply == Finished && (s', Ret(reply)) == Act(s, UnlinkPlain(path, false), NO_PICK, true)
            && Hidden(path) in s'.os.names && forall l' :: !Rel(k, s', Plainly(a, op).0, l')
  {
    hide Rel, UserPath, Hidden, Stored;
    AtPath(k, s, a, l, path);
    Found(k, s, a, l, path, false);
    HiddenIsOther(path);
    PlainGoes(s.os, path);
    var op := Unlink(path, false, true, true);
    var s', a' := Perform(k, s, op).0, Plainly(a, op).0;
    forall l' | Rel(k, s', a', l') ensures false {
      AtPath(k, s', a', l', path);
    }
  }

  lemma ResizedSame(file: Bytes)
    ensures Resized(file, |file|) == file
  {
  }

  lemma StoredInjective(k: Codec, f: Bytes, g: Bytes)
    requires Sound(k) && Stored(k, f) == Stored(k, g)
    ensures f == g
  {
    DecodeOfBox(k, Zstd, Chunks(f));
    DecodeOfBox(k, Zstd, Chunks(g));
    ChunksMakeFile(f);
    ChunksMakeFile(g);
  }
}
