/**
 What the users call (src/dzfile-api.c): open, close, pread, pwrite, truncate, unlink and stat
 over an operating system with inodes and descriptors, and the map from descriptor to open
 container (src/sparsehash-map.cc) that decides where a pread goes.
 */
module Store {
  import opened CStrings
  import opened Names
  import opened Container
  import opened Conversion
  import opened BlockReader
  import opened ClientReads
  import SystemDirs

  // ----- the operating system -----

  datatype Access = ReadOnly | WriteOnly | ReadWrite

  datatype Flags = Flags(access: Access, creat: bool, trunc: bool)

  datatype OpenFile = OpenFile(ino: nat, writable: bool)

  /** Names lead to inodes, descriptors and open containers hold on to them. */
  datatype Os = Os(names: map<string, nat>, nodes: map<nat, File>, fds: map<int, OpenFile>, handles: map<int, nat>)

  /** The numbers the system picks when it opens or creates; a negative descriptor or a handle of 0 is a refusal. */
  datatype Pick = Pick(fd: int, ino: nat, h5fd: int)

  function Content(os: Os, path: string): Option<File> {
    if path in os.names && os.names[path] in os.nodes then Some(os.nodes[os.names[path]]) else None
  }

  /** open(2): the new state, and the descriptor or -1. */
  function OsOpen(os: Os, path: string, flags: Flags, pick: Pick): (Os, int) {
    if pick.fd < 0 then (os, -1)
    else
      match Content(os, path)
      case None =>
        if !flags.creat then (os, -1)
        else
          (os.(names := os.names[path := pick.ino], nodes := os.nodes[pick.ino := Raw("")],
               fds := os.fds[pick.fd := OpenFile(pick.ino, !flags.access.ReadOnly?)]), pick.fd)
      case Some(f) =>
        if f.Dir? && !flags.access.ReadOnly? then (os, -1)
        else
          var n := os.names[path];
          (os.(nodes := if flags.trunc && !f.Dir? then os.nodes[n := Raw("")] else os.nodes,
               fds := os.fds[pick.fd := OpenFile(n, !flags.access.ReadOnly?)]), pick.fd)
  }

  function OsClose(os: Os, fd: int): (Os, int) {
    if fd in os.fds then (os.(fds := os.fds - {fd}), 0) else (os, -1)
  }

  /** The bytes behind a descriptor. */
  function FdData(os: Os, fd: int): Option<Bytes> {
    if fd in os.fds && os.fds[fd].ino in os.nodes && os.nodes[os.fds[fd].ino].Raw?
    then Some(os.nodes[os.fds[fd].ino].data) else None
  }

  function OsPwrite(os: Os, fd: int, data: Bytes, offset: nat): (Os, int) {
    match FdData(os, fd)
    case None => (os, -1)
    case Some(data0) =>
      if !os.fds[fd].writable then (os, -1)
      else (os.(nodes := os.nodes[os.fds[fd].ino := Raw(Pwrite(data0, data, offset))]), |data|)
  }

  function Resized(data: Bytes, length: nat): (r: Bytes)
    ensures |r| == length
  {
    if length <= |data| then Slice(data, 0, length) else data + Zeros(length - |data|)
  }

  function OsTruncate(os: Os, path: string, length: nat): (Os, int) {
    match Content(os, path)
    case Some(Raw(data0)) =>
      (os.(nodes := os.nodes[os.names[path] := Raw(Resized(data0, length))]), 0)
    case _ => (os, -1)
  }

  function OsUnlink(os: Os, path: string): Os {
    match Content(os, path)
    case None => os
    case Some(Dir) => os
    case Some(_) => os.(names := os.names - {path})
  }

  function OsStat(os: Os, path: string): Option<nat> {
    match Content(os, path) case Some(Raw(data)) => Some(|data|) case _ => None
  }

  /** hdf5_open for reading: a handle on the inode, or 0 when the name is no container. */
  function H5Open(os: Os, path: string, h5fd: int): (Os, int) {
    match Content(os, path)
    case Some(Boxed(_)) => if h5fd <= 0 then (os, 0) else (os.(handles := os.handles[h5fd := os.names[path]]), h5fd)
    case _ => (os, 0)
  }

  function H5Close(os: Os, h5fd: int): Os {
    os.(handles := os.handles - {h5fd})
  }

  // ----- the API, one system call at a time -----

  /** dzfd_t: a descriptor of the placeholder and a handle of the container. */
  datatype Dzfd = Dzfd(fd: int, h5fd: int)

  datatype Api = Api(os: Os, h5fdmap: map<int, Dzfd>)

  /** hashmap_init: the key the map uses to mark what was erased; storing under it is not defined. */
  const DELETED_KEY := -1

  /**
   What a call returns; aborted if it asks the map for what that does not define, unspecified if
   what it then does is not defined by C.
   */
  datatype Reply =
    | Failed
    | Aborted
    | Unspecified
    | Finished
    | Opened(fd: int)
    | Got(bytes: Bytes)
    | Wrote(n: int)
    | Size(size: nat)

  /** The calls that look for a container before they act. */
  datatype Call =
    | OpenCall(path: string, flags: Flags)
    | TruncateCall(path: string, length: nat)
    | UnlinkCall(path: string)

  /** Such a call between two of its system calls. */
  datatype Pending =
    | OpenPlain(path: string, flags: Flags)
    | OpenBoxed(path: string, flags: Flags)
    | OpenHandle(path: string, flags: Flags, h5fd: int)
    | Resize(path: string, length: nat)
    | UnlinkBoxed(path: string)
    | UnlinkPlain(path: string, half: bool)

  datatype Next = More(pending: Pending) | Ret(reply: Reply)

  /** The base name has the form of a container: starts with a dot, ends in ".DZF". */
  predicate IllegalName(path: string) {
    var bname := BaseName(path);
    |bname| > 0 && bname[0] == '.' && EndsWith(bname, ".DZF")
  }

  /** findhiddenFile; the stat may fail for another reason than that nothing is there. */
  function FindHidden(os: Os, path: string, statOk: bool): int {
    if !HasSlash(path) || !statOk then -1
    else match Content(os, Hidden(path)) case None => 0 case Some(Dir) => 2 case Some(_) => 1
  }

  /** The first half of dzfile_open, dzfile_truncate and dzfile_unlink: refuse, or go on. */
  function Check(os: Os, call: Call, statOk: bool): Option<Pending> {
    var isexist := FindHidden(os, call.path, statOk);
    match call
    case OpenCall(path, flags) =>
      if SystemDirs.MatchSysdir(path) || IllegalName(path) then None
      else if isexist == 1 then if flags.access.ReadOnly? then Some(OpenBoxed(path, flags)) else None
      else if isexist == 0 then Some(OpenPlain(path, flags))
      else None
    case TruncateCall(path, length) => if isexist == 1 then None else Some(Resize(path, length))
    case UnlinkCall(path) =>
      if SystemDirs.MatchSysdir(path) then None
      else if isexist == 1 then Some(UnlinkBoxed(path))
      else Some(UnlinkPlain(path, false))
  }

  /** The next system call of a pending call; for unlink and truncate, `ok` is what the system answers. */
  function Act(s: Api, p: Pending, pick: Pick, ok: bool): (Api, Next) {
    match p
    case OpenPlain(path, flags) =>
      var (os, fd) := OsOpen(s.os, path, flags, pick);
      (s.(os := os), Ret(if fd < 0 then Failed else Opened(fd)))
    case OpenBoxed(path, flags) =>
      var (os, h5fd) := H5Open(s.os, Hidden(path), pick.h5fd);
      if h5fd <= 0 then (s, Ret(Failed)) else (s.(os := os), More(OpenHandle(path, flags, h5fd)))
    case OpenHandle(path, flags, h5fd) =>
      var (os, fd) := OsOpen(s.os, path, flags, pick);
      if fd == DELETED_KEY then (s, Ret(Aborted))
      else (Api(os, s.h5fdmap[fd := Dzfd(fd, h5fd)]), Ret(Opened(fd)))
    case Resize(path, length) =>
      var (os, rc) := OsTruncate(s.os, path, length);
      if !ok || rc < 0 then (s, Ret(Failed)) else (s.(os := os), Ret(Finished))
    case UnlinkBoxed(path) =>
      if !ok || Content(s.os, Hidden(path)).None? then (s, Ret(Failed))
      else (s.(os := OsUnlink(s.os, Hidden(path))), More(UnlinkPlain(path, true)))
    case UnlinkPlain(path, _) =>
      if !ok || OsUnlink(s.os, path) == s.os then (s, Ret(Failed))
      else (s.(os := OsUnlink(s.os, path)), Ret(Finished))
  }

  /** A call with nothing in between. */
  function Whole(s: Api, call: Call, statOk: bool, pick: Pick, ok: bool, ok': bool): (Api, Reply) {
    match Check(s.os, call, statOk)
    case None => (s, Failed)
    case Some(p) =>
      match Act(s, p, pick, ok)
      case (s', Ret(reply)) => (s', reply)
      case (s', More(p')) =>
        match Act(s', p', pick, ok')
        case (s'', Ret(reply)) => (s'', reply)
        case (s'', More(_)) => (s'', Failed)
  }

  /** dzfile_close. */
  function DzClose(s: Api, fd: int): (Api, int) {
    var s' := if fd in s.h5fdmap
              then Api(H5Close(s.os, s.h5fdmap[fd].h5fd), s.h5fdmap - {s.h5fdmap[fd].fd})
              else s;
    var (os, rc) := OsClose(s'.os, fd);
    (s'.(os := os), rc)
  }

  /** Where dzfile_pread reads from; nothing for a descriptor or a handle that is not open. */
  function SourceOf(s: Api, fd: int): Option<Source> {
    if fd in s.h5fdmap then
      var h := s.h5fdmap[fd].h5fd;
      if h in s.os.handles && s.os.handles[h] in s.os.nodes && s.os.nodes[s.os.handles[h]].Boxed?
      then Some(InBox(s.os.nodes[s.os.handles[h]].sets)) else None
    else
      match FdData(s.os, fd) case Some(data) => Some(InFile(data)) case None => None
  }

  /** dzfile_pread. */
  function DzPread(k: Codec, s: Api, fd: int, count: nat, offset: nat): Outcome {
    match SourceOf(s, fd) case Some(src) => ReadAt(k, src, count, offset) case None => Error
  }

  // ----- what the calls come to -----

  /** No user may open these: what is in a private directory, and the name of a container. */
  ghost predicate Barred(path: string) {
    || (exists i: nat :: SystemDirs.PrivateAt(path, i))
    || BaseName(path) == ".DZF"
    || (exists q :: HasSlash(q) && path == Hidden(q))
  }

  lemma IllegalIff(path: string)
    requires HasSlash(path)
    ensures IllegalName(path) <==> BaseName(path) == ".DZF" || exists q :: HasSlash(q) && path == Hidden(q)
  {
    assert EndsWith(".DZF", ".DZF");
    hide Hidden, Temp, BaseName, MatchHidden, DirPart;
    if IllegalName(path) && BaseName(path) != ".DZF" {
      IllegalCaught(path);
      var q := CaughtFrom(path);
      TempIsNone(q);
    }
    if q :| HasSlash(q) && path == Hidden(q) {
      HiddenParts(q);
      assert EndsWith("." + BaseName(q) + ".DZF", ".DZF");
    }
  }

  lemma IllegalCaught(path: string)
    requires IllegalName(path) && BaseName(path) != ".DZF"
    ensures MatchHidden(path) && !Special(BaseName(path))
  {
  }

  /** The name of a temporary file is not illegal. */
  lemma TempIsNone(q: string)
    requires HasSlash(q)
    ensures !IllegalName(Temp(q))
  {
    HiddenParts(q);
    var name := BaseName(Temp(q));
    assert |name| >= 4 && name[|name| - 4..][3] == 'p' && ".DZF"[3] == 'F';
  }

  lemma BarredIff(path: string)
    requires HasSlash(path)
    ensures Barred(path) <==> SystemDirs.MatchSysdir(path) || IllegalName(path)
  {
    hide SystemDirs.MatchSysdir, IllegalName;
    IllegalIff(path);
    SystemDirs.SysdirIff(path);
  }

  /** An open, from any state whatsoever: what refuses it, and what it leaves if nothing does. */
  lemma OpenOutcome(s: Api, path: string, flags: Flags, statOk: bool, pick: Pick)
    requires HasSlash(path)
    ensures var r, seen := Whole(s, OpenCall(path, flags), statOk, pick, true, true), Content(s.os, Hidden(path));
            var (os, fd) := OsOpen(s.os, path, flags, pick);
            if Barred(path) || !statOk || seen == Some(Dir) then r == (s, Failed)
            else if seen.None? then r == (s.(os := os), if fd < 0 then Failed else Opened(fd))
            else if !flags.access.ReadOnly? || !seen.value.Boxed? || pick.h5fd <= 0 then r == (s, Failed)
            else if fd == -1 then r.1 == Aborted
            else
              r == (Api(os.(handles := s.os.handles[pick.h5fd := s.os.names[Hidden(path)]]),
                        s.h5fdmap[fd := Dzfd(fd, pick.h5fd)]), Opened(fd))
  {
    hide SystemDirs.MatchSysdir, IllegalName, Hidden, Barred;
    BarredIff(path);
  }

  /** A truncate: only a container that is seen refuses it. */
  lemma TruncateOutcome(s: Api, path: string, length: nat, statOk: bool, pick: Pick, ok: bool)
    requires HasSlash(path)
    ensures var r, seen := Whole(s, TruncateCall(path, length), statOk, pick, ok, true), Content(s.os, Hidden(path));
            var file := Content(s.os, path);
            if statOk && seen.Some? && !seen.value.Dir? then r == (s, Failed)
            else if !ok || file.None? || !file.value.Raw? then r == (s, Failed)
            else
              var n, data := s.os.names[path], Resized(file.value.data, length);
              r == (s.(os := s.os.(nodes := s.os.nodes[n := Raw(data)])), Finished)
  {
    hide Hidden, Resized;
  }

  /** What unlink(2) removes. */
  predicate Removable(os: Os, path: string) {
    Content(os, path).Some? && !Content(os, path).value.Dir?
  }

  function Without(os: Os, path: string): Os {
    os.(names := os.names - {path})
  }

  lemma UnlinkRemoves(os: Os, path: string)
    ensures OsUnlink(os, path) == if Removable(os, path) then Without(os, path) else os
    ensures Removable(os, path) ==> Without(os, path) != os
  {
    if Removable(os, path) {
      assert path in os.names && path !in Without(os, path).names;
    }
  }

  /** An unlink: nothing under a private directory; a container that is seen first, then the name itself. */
  lemma UnlinkOutcome(s: Api, path: string, statOk: bool, pick: Pick, ok: bool, ok': bool)
    requires HasSlash(path)
    ensures var r, seen := Whole(s, UnlinkCall(path), statOk, pick, ok, ok'), Content(s.os, Hidden(path));
            if exists i: nat :: SystemDirs.PrivateAt(path, i) then r == (s, Failed)
            else if statOk && seen.Some? && !seen.value.Dir? then
              if !ok then r == (s, Failed)
              else
                var os := Without(s.os, Hidden(path));
                r == if ok' && Removable(os, path) then (s.(os := Without(os, path)), Finished)
                     else (s.(os := os), Failed)
            else r == if ok && Removable(s.os, path) then (s.(os := Without(s.os, path)), Finished) else (s, Failed)
  {
    hide SystemDirs.MatchSysdir, Hidden, OsUnlink, Removable, Without, SystemDirs.PrivateAt;
    SystemDirs.SysdirIff(path);
    UnlinkRemoves(s.os, path);
    UnlinkRemoves(s.os, Hidden(path));
    UnlinkRemoves(Without(s.os, Hidden(path)), path);
    SeenRemovable(s.os, Hidden(path));
  }

  lemma SeenRemovable(os: Os, path: string)
    ensures Removable(os, path) <==> Content(os, path).Some? && !Content(os, path).value.Dir?
  {
  }

  /** A close: the descriptor goes, and with it the entry of the map and the handle on the container. */
  lemma CloseOutcome(s: Api, fd: int)
    requires fd in s.h5fdmap ==> s.h5fdmap[fd].fd == fd
    ensures var (s', rc) := DzClose(s, fd);
            && s'.h5fdmap == s.h5fdmap - {fd} && s'.os.fds == s.os.fds - {fd}
            && rc == (if fd in s.os.fds then 0 else -1)
            && s'.os.handles == (if fd in s.h5fdmap then s.os.handles - {s.h5fdmap[fd].h5fd} else s.os.handles)
            && s'.os.names == s.os.names && s'.os.nodes == s.os.nodes
  {
    if fd !in s.h5fdmap {
      assert s.h5fdmap - {fd} == s.h5fdmap;
    }
    if fd !in s.os.fds {
      assert s.os.fds - {fd} == s.os.fds;
    }
  }

  /** Opening a file that is there and closing it again leaves nothing behind, converted or not. */
  lemma OpenClose(s: Api, path: string, flags: Flags, statOk: bool, pick: Pick)
    requires HasSlash(path) && Content(s.os, path).Some? && !flags.trunc
    requires pick.fd !in s.os.fds && pick.fd !in s.h5fdmap && pick.h5fd !in s.os.handles
    ensures var (s', reply) := Whole(s, OpenCall(path, flags), statOk, pick, true, true);
            reply.Opened? ==> DzClose(s', reply.fd) == (s, 0)
  {
    hide Hidden, Barred, Whole, DzClose;
    var (s', reply) := Whole(s, OpenCall(path, flags), statOk, pick, true, true);
    OpenOutcome(s, path, flags, statOk, pick);
    if reply.Opened? {
      CloseOutcome(s', reply.fd);
      var c := DzClose(s', reply.fd).0;
      assert c.os.fds == s.os.fds && c.h5fdmap == s.h5fdmap && c.os.handles == s.os.handles;
      assert c.os == Os(s.os.names, s.os.nodes, s.os.fds, s.os.handles);
    }
  }

  // ----- conversion on inodes -----

  /** The three files of one path. */
  function OsView(os: Os, path: string): View {
    View(Content(os, path), Content(os, Hidden(path)), Content(os, Temp(path)))
  }

  /** What one system call of a conversion does to names and inodes, given where it leaves the conversion. */
  function Change(os: Os, path: string, stage: Stage, after: Task, ino: nat): Os {
    var hidden, temp, v := Hidden(path), Temp(path), after.view;
    if after.worker.stage == Done(-1) then os
    else
      match stage
      case CreateTemp =>
        if temp in os.names then os.(nodes := os.nodes[os.names[temp] := Boxed(map[])])
        else os.(names := os.names[temp := ino], nodes := os.nodes[ino := Boxed(map[])])
      case WriteTag | WriteBlock(_) =>
        if temp in os.names && v.temp.Some? then os.(nodes := os.nodes[os.names[temp] := v.temp.value]) else os
      case RenameTemp => if temp in os.names then os.(names := os.names[hidden := os.names[temp]] - {temp}) else os
      case Empty(_) | Extend(_) =>
        if path in os.names && v.plain.Some? then os.(nodes := os.nodes[os.names[path] := v.plain.value]) else os
      case _ => os
  }

  /** A conversion from a task on to its end. */
  function ConvertOs(k: Codec, os: Os, path: string, t: Task, answers: seq<Answer>, i: nat, ino: nat): Os
    decreases Measure(t)
  {
    if t.worker.stage.Done? then os
    else
      StepMakesProgress(k, t, AnswerAt(answers, i));
      var t' := Step(k, t, AnswerAt(answers, i));
      ConvertOs(k, Change(os, path, t.worker.stage, t', ino), path, t', answers, i + 1, ino)
  }

  /** convert2h5 on an inode file system, run to its end. */
  function DzConvert(k: Codec, s: Api, path: string, answers: seq<Answer>, ino: nat): (Api, int) {
    if !HasSlash(path) then (s, -1)
    else
      var t := Task(OsView(s.os, path), Fresh(Zstd));
      (s.(os := ConvertOs(k, s.os, path, t, answers, 0, ino)), Finish(k, t, answers, 0).worker.stage.ret)
  }

  // ----- the code -----

  class Client {
    var os: Os
    var h5fdmap: map<int, Dzfd>

    function State(): Api
      reads this
    {
      Api(os, h5fdmap)
    }

    /** hashmap_init. */
    constructor (os: Os)
      ensures State() == Api(os, map[])
    {
      this.os, h5fdmap := os, map[];
    }

    /** add_dzfd: not defined for the key that marks erased entries. */
    method AddDzfd(fd: int, dzfd: Dzfd) returns (defined: bool)
      modifies this`h5fdmap
      ensures defined <==> fd != DELETED_KEY
      ensures h5fdmap == if defined then old(h5fdmap)[fd := dzfd] else old(h5fdmap)
    {
      defined := fd != DELETED_KEY;
      if defined {
        h5fdmap := h5fdmap[fd := dzfd];
      }
    }

    /** remove_dzfd. */
    method RemoveDzfd(fd: int)
      modifies this`h5fdmap
      ensures h5fdmap == old(h5fdmap) - {fd}
    {
      h5fdmap := h5fdmap - {fd};
    }

    /** find_dzfd. */
    method FindDzfd(fd: int) returns (r: Option<Dzfd>)
      ensures r == if fd in h5fdmap then Some(h5fdmap[fd]) else None
    {
      if fd !in h5fdmap {
        return None;
      }
      return Some(h5fdmap[fd]);
    }

    /** dzfile_open, undefined where it aborts. */
    method Open(filename: string, flags: Flags, statOk: bool, pick: Pick) returns (fd: int, defined: bool)
      requires HasSlash(filename) && NUL !in filename
      modifies this
      ensures var (s, reply) := Whole(old(State()), OpenCall(filename, flags), statOk, pick, true, true);
              match reply
              case Aborted => !defined
              case Opened(n) => defined && fd == n && State() == s
              case _ => defined && fd == -1 && State() == s
    {
      fd, defined := -1, true;
      var sysdir := SystemDirs.CheckSysdir(filename);
      if sysdir == 1 || IllegalName(filename) {
        return;
      }
      var isexist := FindHidden(os, filename, statOk);
      if isexist == 1 {
        if flags.access != ReadOnly {
          return;
        }
        var h5 := H5Open(os, Hidden(filename), pick.h5fd);
        var h5fd := h5.1;
        if h5fd <= 0 {
          return;
        }
        os := h5.0;
        var result := OsOpen(os, filename, flags, pick);
        os, fd := result.0, result.1;
        defined := AddDzfd(fd, Dzfd(fd, h5fd));
        return;
      }
      if isexist < 0 || isexist == 2 {
        return;
      }
      var result := OsOpen(os, filename, flags, pick);
      os, fd := result.0, result.1;
    }

    /** dzfile_close. */
    method Close(fd: int) returns (rc: int)
      modifies this
      ensures (State(), rc) == DzClose(old(State()), fd)
    {
      var dzfd := FindDzfd(fd);
      if dzfd.Some? {
        os := H5Close(os, dzfd.value.h5fd);
        RemoveDzfd(dzfd.value.fd);
      }
      var result := OsClose(os, fd);
      os, rc := result.0, result.1;
    }

    /** dzfile_pread. */
    method Pread(k: Codec, fd: int, buf: array<char>, count: nat, offset: nat) returns (nbread: int, defined: bool)
      requires count <= buf.Length
      modifies buf
      ensures OnlyWithin(buf, 0, count)
      ensures Answers(DzPread(k, State(), fd, count, offset), buf, 0, count, nbread, defined)
    {
      hide ReadAt;
      var src := SourceOf(State(), fd);
      if src == None {
        return -1, true;
      }
      nbread, defined := DzfilePread(k, src.value, buf, 0, count, offset);
    }

    /** dzfile_truncate; only a container that is seen stops it. */
    method Truncate(path: string, length: nat, statOk: bool, pick: Pick, ok: bool) returns (rc: int)
      modifies this`os
      ensures var (s, reply) := Whole(old(State()), TruncateCall(path, length), statOk, pick, ok, true);
              State() == s && rc == if reply.Finished? then 0 else -1
    {
      var isexist := FindHidden(os, path, statOk);
      if isexist == 1 {
        return -1;
      }
      var result := OsTruncate(os, path, length);
      if !ok || result.1 < 0 {
        return -1;
      }
      os, rc := result.0, 0;
    }

    /** dzfile_unlink, without its return code; only a container that is seen is removed. */
    method Unlink(filename: string, statOk: bool, pick: Pick, hiddenOk: bool, plainOk: bool)
      requires NUL !in filename
      modifies this`os
      ensures var first := FindHidden(old(os), filename, statOk) == 1;
              State() == Whole(old(State()), UnlinkCall(filename), statOk, pick,
                               if first then hiddenOk else plainOk, plainOk).0
    {
      var sysdir := SystemDirs.CheckSysdir(filename);
      if sysdir == 1 {
        return;
      }
      var rc := FindHidden(os, filename, statOk);
      if rc == 1 {
        if !hiddenOk {
          return;
        }
        os := OsUnlink(os, Hidden(filename));
      }
      if plainOk {
        os := OsUnlink(os, filename);
      }
    }
  }
}
