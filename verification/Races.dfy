/**
 Calls that overlap where they must not (src/dzfile-api.c against src/dzfile-intern.cc): an open
 across the rename of a conversion, and an open between the two unlinks of a converted file. Each
 is reached from plain files by a run in which all else is as it should be.
 */
module Races {
  import opened CStrings
  import opened Names
  import opened Container
  import opened Conversion
  import opened ClientReads
  import opened Store
  import opened Relation
  import opened Converting
  import opened Refinement
  import opened ConcurrentUse
  import opened ConcurrentRuns

  // ----- what goes wrong -----

  /** The last four calls of a conversion that nothing stops. */
  function Published(k: Codec, s: System, i: nat): System {
    var s1 := Do(k, s, Work(i, Ok, 0)).0;
    var s2 := Do(k, s1, Work(i, Ok, 0)).0;
    var s3 := Do(k, s2, Work(i, Ok, 0)).0;
    Do(k, s3, Work(i, Ok, 0)).0
  }

  /** What one converter's call leaves: the three files as the machine says, the rest of the system as it was. */
  lemma WorkIs(k: Codec, s: System, i: nat, answer: Answer, ino: nat)
    requires i < |s.jobs| && Tidy(s.api.os) && (s.jobs[i].worker.stage.CreateTemp? ==> ino !in s.api.os.nodes)
    ensures var s', job := Do(k, s, Work(i, answer, ino)).0, s.jobs[i];
            var t := Step(k, Task(OsView(s.api.os, job.path), job.worker), answer);
            && |s'.jobs| == |s.jobs| && s'.jobs[i].path == job.path && s'.jobs[i].worker == t.worker
            && Tidy(s'.api.os) && OsView(s'.api.os, job.path) == t.view
            && s'.calls == s.calls && s'.api.h5fdmap == s.api.h5fdmap && s'.api.os.fds == s.api.os.fds
            && (job.path in s'.api.os.names <==> job.path in s.api.os.names)
            && (job.path in s.api.os.names ==> s'.api.os.names[job.path] == s.api.os.names[job.path])
  {
    hide Step, Tidy, OsView, Change;
    var job := s.jobs[i];
    ChangeIsStep(k, s.api.os, job.path, job.worker, answer, ino);
    SamePlace(s.api.os, job.path, job.worker.stage, Step(k, Task(OsView(s.api.os, job.path), job.worker), answer), ino);
    OpenStays(s.api.os, job.path, job.worker.stage, Step(k, Task(OsView(s.api.os, job.path), job.worker), answer), ino);
  }

  /** From its rename on, the files of a conversion that nothing stops. */
  lemma PublishSteps(k: Codec, file: Bytes, t: Task)
    requires InStep(k, file, t) && t.worker.stage.RenameTemp?
    ensures var t1 := Step(k, t, Ok); var t2 := Step(k, t1, Ok); var t3 := Step(k, t2, Ok); var t4 := Step(k, t3, Ok);
            && t1.worker.stage.StatSource? && t2.worker.stage.Empty? && t3.worker.stage.Extend?
            && t4.view.plain == Some(Raw(Zeros(|file|))) && t4.view.hidden.Some?
  {
    ViewNow(k, file, t);
  }

  lemma PublishedFile(k: Codec, s: System, a: Os, i: nat)
    requires Sees(k, s, a) && i < |s.jobs| && s.jobs[i].worker.stage.RenameTemp?
    ensures var s4, path := Published(k, s, i), s.jobs[i].path;
            && Content(a, path).Some? && Content(a, path).value.Raw?
            && Content(s4.api.os, path) == Some(Raw(Zeros(|Content(a, path).value.data|)))
            && Content(s4.api.os, Hidden(path)).Some?
            && s4.calls == s.calls && s4.api.h5fdmap == s.api.h5fdmap && s4.api.os.fds == s.api.os.fds
  {
    hide Rel, AllWaiting, CallsApart, Leavers, Staying, Emptied, UserPath, Hidden, Temp, InStep, Tidy, Do, Step,
      OneEach, Content;
    var l :| Good(k, s, a, l);
    var path := s.jobs[i].path;
    IsTidy(k, s.api, a, l);
    assert InOrder(k, s.api.os, a, s.jobs[i]);
    PublishSteps(k, Content(a, path).value.data, Task(OsView(s.api.os, path), s.jobs[i].worker));
    var s1 := Do(k, s, Work(i, Ok, 0)).0;
    var s2 := Do(k, s1, Work(i, Ok, 0)).0;
    var s3 := Do(k, s2, Work(i, Ok, 0)).0;
    WorkIs(k, s, i, Ok, 0);
    WorkIs(k, s1, i, Ok, 0);
    WorkIs(k, s2, i, Ok, 0);
    WorkIs(k, s3, i, Ok, 0);
  }

  /**
   An open that looked for the container before the rename, found none, and opens the file after
   the truncates: its descriptor is not in the map, and reads zeros. The plain store is refined no more.
   */
  lemma OpenAcrossRename(k: Codec, s: System, a: Os, i: nat, id: nat, flags: Flags, pick: Pick)
    requires Sees(k, s, a) && i < |s.jobs| && s.jobs[i].worker.stage.RenameTemp?
    requires id in s.calls && s.calls[id] == OpenPlain(s.jobs[i].path, flags) && !flags.trunc
    requires pick.fd >= 0 && pick.fd !in s.api.os.fds
    ensures var file := Content(a, s.jobs[i].path).value.data;
            var (s', reply) := Do(k, Published(k, s, i), Go(id, pick, true));
            && reply == Some(Opened(pick.fd)) && pick.fd !in s'.api.h5fdmap
            && SourceOf(s'.api, pick.fd) == Some(InFile(Zeros(|file|)))
            && var a' := Plainly(a, OpOf(s.calls[id], pick, true)).0;
               FdData(a', pick.fd) == Some(file) && forall l' :: !Rel(k, s'.api, a', l')
  {
    hide Published, Sees, Content, OsOpen, FdData, Rel, Hidden, UserPath;
    var path, s4 := s.jobs[i].path, Published(k, s, i);
    PublishedFile(k, s, a, i);
    NotMapped(k, s, a, pick.fd);
    OpensOn(s4.api.os, path, flags, pick);
    OpensOn(a, path, flags, pick);
    HasName(s4.api.os, Hidden(path));
    HasName(a, path);
    JobUser(k, s, a, i);
    var s', a' := Do(k, s4, Go(id, pick, true)).0, OsOpen(a, path, flags, pick).0;
    forall l' ensures !Rel(k, s'.api, a', l') {
      OutsideMap(k, s'.api, a', l', pick.fd, path);
    }
  }

  lemma HasName(os: Os, name: string)
    requires Content(os, name).Some?
    ensures name in os.names
  {
  }

  lemma JobUser(k: Codec, s: System, a: Os, i: nat)
    requires Sees(k, s, a) && i < |s.jobs|
    ensures UserPath(s.jobs[i].path)
  {
    hide Rel, AllWaiting, CallsApart, Leavers, Staying, Emptied, UserPath, Going;
    var l :| Good(k, s, a, l);
    assert InOrder(k, s.api.os, a, s.jobs[i]);
  }

  lemma OpensOn(os: Os, path: string, flags: Flags, pick: Pick)
    requires Content(os, path).Some? && Content(os, path).value.Raw? && !flags.trunc && pick.fd >= 0
    ensures var (os', fd) := OsOpen(os, path, flags, pick);
            && fd == pick.fd && FdData(os', fd) == Some(Content(os, path).value.data) && os'.names == os.names
            && path in os.names && fd in os'.fds && os'.fds[fd].ino == os.names[path]
  {
  }

  lemma NotMapped(k: Codec, s: System, a: Os, fd: int)
    requires Sees(k, s, a) && fd !in s.api.os.fds
    ensures fd !in s.api.h5fdmap
  {
    hide AllGoing, AllWaiting, CallsApart, Leavers, Staying, Emptied, SameNames, SameData, SameFds, TempsApart, Tidy,
      Connected;
    var l :| Good(k, s, a, l);
  }

  /** An open between the two unlinks of a converted file finds no container, and reads the placeholder. */
  lemma OpenDuringUnlink(k: Codec, s: System, a: Os, id: nat, path: string, flags: Flags, pick: Pick)
    requires Sees(k, s, a) && id in s.calls && s.calls[id] == UnlinkPlain(path, true) && !flags.trunc
    requires pick.fd >= 0 && pick.fd !in s.api.os.fds
    ensures Check(s.api.os, OpenCall(path, flags), true) == Some(OpenPlain(path, flags))
    ensures var (s', next) := Act(s.api, OpenPlain(path, flags), pick, true);
            && next == Ret(Opened(pick.fd)) && Content(s.api.os, path).Some? && Content(s.api.os, path).value.Raw?
            && SourceOf(s', pick.fd) == Some(InFile(Content(s.api.os, path).value.data))
    ensures Content(a, path).Some? && Content(a, path).value.Raw?
    ensures FdData(OsOpen(a, path, flags, pick).0, pick.fd) == Some(Content(a, path).value.data)
  {
    hide Rel, UserPath, Hidden, IllegalName, Content, OsOpen, FdData, FindHidden, AllGoing, CallsApart, Staying,
      Leavers, Emptied;
    var l :| Good(k, s, a, l);
    assert Waiting(s.api, a, l, UnlinkPlain(path, true));
    AtPath(k, s.api, a, l, path);
    Found(k, s.api, a, l, path, true);
    LeavingIsThere(k, s.api, a, l, path);
    NotMapped(k, s, a, pick.fd);
    OpensOn(s.api.os, path, flags, pick);
    OpensOn(a, path, flags, pick);
  }

  lemma LeavingIsThere(k: Codec, s: Api, a: Os, l: Links, path: string)
    requires Rel(k, s, a, l) && path in l.leaving && UserPath(path)
    ensures Content(a, path).Some? && Content(s.os, path).Some?
  {
    hide SameData, SameFds, MapSound, TempsApart, UserPath, Hidden;
    AtPath(k, s, a, l, path);
  }

  // ----- how it comes to that -----

  function Start(os: Os): System {
    System(Api(os, map[]), [], map[])
  }

  /** A proper run from a file system to a state of the system; the plain store has not moved. */
  ghost predicate Reaches(k: Codec, os: Os, events: seq<Event>, s: System) {
    && ProperRun(k, Start(os), PlainPart(os), events)
    && AfterEvents(k, Start(os), PlainPart(os), events) == (s, PlainPart(os))
    && Sees(k, s, PlainPart(os))
  }

  lemma ReachesStart(k: Codec, os: Os)
    requires AllPlain(os)
    ensures Reaches(k, os, [], Start(os))
  {
    hide AllPlain, Sees, PlainPart;
    StartSees(k, os);
  }

  /** One more event that completes no call leaves the plain store alone. */
  lemma ReachesOn(k: Codec, os: Os, events: seq<Event>, s: System, e: Event)
    requires Sound(k) && Reaches(k, os, events, s) && Proper(k, s, e) && Do(k, s, e).1 == None
    ensures Reaches(k, os, events + [e], Do(k, s, e).0)
  {
    hide PlainPart, Sees, Proper, Do, Sound;
    var all := events + [e];
    assert all[..|events|] == events;
    EventKeeps(k, s, PlainPart(os), e);
    assert Follows(PlainPart(os), s, e, None) == PlainPart(os);
    forall i | 0 <= i < |all| ensures Proper(k, AfterEvents(k, Start(os), PlainPart(os), all[..i]).0, all[i]) {
      if i < |events| {
        assert all[..i] == events[..i] && all[i] == events[i];
      }
    }
  }

  lemma {:induction false} AboveAll(numbers: set<nat>) returns (n: nat)
    ensures forall x {:trigger x in numbers} :: x in numbers ==> x < n
  {
    if numbers == {} {
      n := 0;
    } else {
      var x :| x in numbers;
      var m := AboveAll(numbers - {x});
      n := if m <= x then x + 1 else m;
      forall y | y in numbers ensures y < n {
        assert y == x || y in numbers - {x};
      }
    }
  }

  /** An inode number not in use. */
  lemma NewInode(os: Os) returns (ino: nat)
    ensures ino !in os.nodes
  {
    ino := AboveAll(os.nodes.Keys);
  }

  /** Only this path's conversion is there, so far on its way, and no call has begun. */
  ghost predicate Halfway(k: Codec, os: Os, s: System, path: string, n: nat) {
    && s.calls == map[] && s.api.os.fds == map[] && |s.jobs| == 1 && s.jobs[0].path == path
    && Task(OsView(s.api.os, path), s.jobs[0].worker) == Run(k, Task(OsView(os, path), Fresh(Zstd)), Taken([], n))
  }

  /** The next call of that conversion is proper. */
  lemma WorkIsProper(k: Codec, os: Os, s: System, path: string, n: nat, ino: nat)
    requires Halfway(k, os, s, path, n) && ino !in s.api.os.nodes
    ensures Proper(k, s, Work(0, Ok, ino))
  {
    hide OsView, Run, Hidden;
  }

  lemma TidyNow(k: Codec, s: System, a: Os)
    requires Sees(k, s, a)
    ensures Tidy(s.api.os)
  {
    hide Rel, AllGoing, AllWaiting, CallsApart, Leavers, Staying, Emptied, Tidy;
    var l :| Good(k, s, a, l);
    IsTidy(k, s.api, a, l);
  }

  /** A conversion of a file of the start, after any number of calls. */
  lemma {:induction false} WorkReaches(k: Codec, os: Os, path: string, n: nat) returns (events: seq<Event>, s: System)
    requires Sound(k) && AllPlain(os) && UserPath(path)
    ensures Reaches(k, os, events, s) && Halfway(k, os, s, path, n)
  {
    hide AllPlain, UserPath, Sound, Run, Step, Sees, Tidy, OsView;
    if n == 0 {
      ReachesStart(k, os);
      NoFds(os);
      ReachesOn(k, os, [], Start(os), Begin(path));
      events, s := [] + [Begin(path)], Do(k, Start(os), Begin(path)).0;
      RunTaken(k, Task(OsView(os, path), Fresh(Zstd)), [], 0);
    } else {
      events, s := WorkReaches(k, os, path, n - 1);
      hide Reaches, Proper;
      var ino := NewInode(s.api.os);
      WorkIsProper(k, os, s, path, n - 1, ino);
      ReachesOn(k, os, events, s, Work(0, Ok, ino));
      TidyReached(k, os, events, s);
      WorkIs(k, s, 0, Ok, ino);
      RunTaken(k, Task(OsView(os, path), Fresh(Zstd)), [], n - 1);
      events, s := events + [Work(0, Ok, ino)], Do(k, s, Work(0, Ok, ino)).0;
    }
  }

  lemma TidyReached(k: Codec, os: Os, events: seq<Event>, s: System)
    requires Reaches(k, os, events, s)
    ensures Tidy(s.api.os)
  {
    TidyNow(k, s, PlainPart(os));
  }

  lemma NoFds(os: Os)
    requires AllPlain(os)
    ensures os.fds == map[]
  {
  }

  /** The files of a path before anything is converted, if no temporary file is left over. */
  lemma FirstView(os: Os, path: string)
    requires AllPlain(os) && UserPath(path) && path in os.names && Temp(path) !in os.names
    ensures var v := OsView(os, path);
            v.plain.Some? && v.plain.value.Raw? && v.hidden == None && v.temp == None && Content(os, path) == v.plain
  {
    hide UserPath, Hidden, Temp;
  }

  /** A call looks for the container. */
  lemma EnterReaches(k: Codec, os: Os, events: seq<Event>, s: System, call: Call)
    requires Sound(k) && Reaches(k, os, events, s) && s.calls == map[] && UserPath(call.path)
    requires !call.TruncateCall? && (call.OpenCall? ==> call.flags == Flags(ReadOnly, false, false))
    ensures var s' := Do(k, s, Enter(0, call, true)).0;
            var found := Hidden(call.path) in s.api.os.names;
            && Reaches(k, os, events + [Enter(0, call, true)], s') && s'.api == s.api && s'.jobs == s.jobs
            && s'.calls == map[0 := match call
                                    case OpenCall(path, flags) =>
                                      if found then OpenBoxed(path, flags) else OpenPlain(path, flags)
                                    case _ => if found then UnlinkBoxed(call.path) else UnlinkPlain(call.path, false)]
  {
    hide Rel, Hidden, FindHidden, UserPath, Sound, Emptied, Staying, AllGoing, AllWaiting, PlainPart, AfterEvents,
      ProperRun;
    var l :| Good(k, s, PlainPart(os), l);
    Found(k, s.api, PlainPart(os), l, call.path, true);
    AtPath(k, s.api, PlainPart(os), l, call.path);
    hide Good;
    ReachesOn(k, os, events, s, Enter(0, call, true));
  }

  /**
   From any file of plain files: a proper run to where a conversion stands before its rename and an
   open has looked for its container. If the open goes on after the conversion, it reads zeros.
   */
  lemma RenameRace(k: Codec, os: Os, path: string, pick: Pick) returns (events: seq<Event>, s: System)
    requires Sound(k) && AllPlain(os) && UserPath(path) && path in os.names && Temp(path) !in os.names && pick.fd >= 0
    ensures Reaches(k, os, events, s) && |s.jobs| == 1 && s.jobs[0].worker.stage.RenameTemp?
    ensures Content(os, path).Some? && Content(os, path).value.Raw?
    ensures var (s', reply) := Do(k, Published(k, s, 0), Go(0, pick, true));
            && reply == Some(Opened(pick.fd))
            && SourceOf(s'.api, pick.fd) == Some(InFile(Zeros(|Content(os, path).value.data|)))
  {
    hide AllPlain, UserPath, Sound, Run, Step, Sees, Tidy, OsView, Hidden, Temp, Taken, PlainPart, ProperRun,
      AfterEvents;
    FirstView(os, path);
    var file := Content(os, path).value.data;
    var n, flags := 6 + 2 * NumChunks(file), Flags(ReadOnly, false, false);
    events, s := WorkReaches(k, os, path, n);
    NothingBlocks(OsView(os, path));
    CallReached(k, file, OsView(os, path), Zstd, [], n);
    NoContainerYet(k, s, PlainPart(os), 0);
    EnterReaches(k, os, events, s, OpenCall(path, flags));
    events, s := events + [Enter(0, OpenCall(path, flags), true)], Do(k, s, Enter(0, OpenCall(path, flags), true)).0;
    OpenAcrossRename(k, s, PlainPart(os), 0, 0, flags, pick);
    PlainContent(os, path);
  }

  lemma NothingBlocks(v: View)
    requires v.hidden == None && v.temp == None
    ensures !Blocked(v, Taken([], 2))
  {
  }

  lemma PlainContent(os: Os, path: string)
    requires UserPath(path) && path in os.names
    ensures Content(PlainPart(os), path) == Content(os, path)
  {
    hide UserPath;
    assert path in PlainPart(os).names;
    assert os.names[path] in UserNodes(os);
  }

  lemma NoContainerYet(k: Codec, s: System, a: Os, i: nat)
    requires Sees(k, s, a) && i < |s.jobs| && s.jobs[i].worker.stage.RenameTemp?
    ensures Hidden(s.jobs[i].path) !in s.api.os.names
  {
    hide Rel, AllWaiting, CallsApart, Leavers, Staying, Emptied, UserPath, Hidden, Temp, InStep, Tidy, OneEach;
    var l :| Good(k, s, a, l);
    var path := s.jobs[i].path;
    IsTidy(k, s.api, a, l);
    NamesAreContents(s.api.os);
    assert InOrder(k, s.api.os, a, s.jobs[i]);
    ViewNow(k, Content(a, path).value.data, Task(OsView(s.api.os, path), s.jobs[i].worker));
  }

  /** A conversion with nothing in its way, when no call fails. */
  lemma WholeTaken(k: Codec, v: View, file: Bytes)
    requires v.plain == Some(Raw(file)) && v.hidden == None && v.temp == None
    ensures var t := Run(k, Task(v, Fresh(Zstd)), Taken([], 10 + 2 * NumChunks(file)));
            && t.worker.stage == Done(0)
            && t.view == View(Some(Raw(Zeros(|file|))), Some(Boxed(Box(k, Zstd, Chunks(file)))), None)
  {
    hide Run, Step, Taken, Inv;
    var t0, n := Task(v, Fresh(Zstd)), 9 + 2 * NumChunks(file);
    NothingBlocks(v);
    CallReached(k, file, v, Zstd, [], n);
    RunKeepsInv(k, file, v, Zstd, Taken([], n));
    LastCall(k, file, v, Run(k, t0, Taken([], n)), Ok);
    RunTaken(k, t0, [], n);
    TakenFull([], n + 1);
    SuccessStores(k, file, v, Zstd, Taken([], n + 1));
  }

  /** A handle not in use. */
  lemma NewHandle(os: Os) returns (h5fd: int)
    ensures h5fd !in os.handles
  {
    var used := set h: nat | h in os.handles.Keys :: h;
    var n := AboveAll(used);
    assert n !in used;
    h5fd := n;
  }

  /** The first of the two unlinks of a converted file. */
  lemma UnlinkReaches(k: Codec, os: Os, events: seq<Event>, s: System, path: string)
    returns (events': seq<Event>, s': System)
    requires Sound(k) && Reaches(k, os, events, s) && s.calls == map[0 := UnlinkBoxed(path)] && s.api.os.fds == map[]
    requires Content(s.api.os, Hidden(path)).Some? && !Content(s.api.os, Hidden(path)).value.Dir?
    requires |s.jobs| == 1 && s.jobs[0].worker.stage.Done?
    ensures Reaches(k, os, events', s') && s'.calls == map[0 := UnlinkPlain(path, true)] && s'.api.os.fds == map[]
    ensures Content(s'.api.os, path) == Content(s.api.os, path)
  {
    hide Reaches, Hidden, Sound;
    var ino := NewInode(s.api.os);
    var h5fd := NewHandle(s.api.os);
    HiddenIsOther(path);
    ReachesOn(k, os, events, s, Go(0, Pick(0, ino, h5fd), true));
    events', s' := events + [Go(0, Pick(0, ino, h5fd), true)], Do(k, s, Go(0, Pick(0, ino, h5fd), true)).0;
  }

  /**
   From any file of plain files: a proper run to where the file is converted, its container
   unlinked, and its placeholder not yet. An open then finds no container and reads zeros.
   */
  lemma UnlinkRace(k: Codec, os: Os, path: string, pick: Pick) returns (events: seq<Event>, s: System)
    requires Sound(k) && AllPlain(os) && UserPath(path) && path in os.names && Temp(path) !in os.names && pick.fd >= 0
    ensures Reaches(k, os, events, s) && s.calls == map[0 := UnlinkPlain(path, true)]
    ensures Content(os, path).Some? && Content(os, path).value.Raw?
    ensures var flags := Flags(ReadOnly, false, false);
            var (s', next) := Act(s.api, OpenPlain(path, flags), pick, true);
            && Check(s.api.os, OpenCall(path, flags), true) == Some(OpenPlain(path, flags))
            && next == Ret(Opened(pick.fd))
            && SourceOf(s', pick.fd) == Some(InFile(Zeros(|Content(os, path).value.data|)))
  {
    hide AllPlain, UserPath, Sound, Run, Step, Sees, Tidy, Hidden, Temp, Taken, PlainPart, ProperRun, AfterEvents, Act,
      Check, Content;
    FirstView(os, path);
    var file := Content(os, path).value.data;
    events, s := WorkReaches(k, os, path, 10 + 2 * NumChunks(file));
    WholeTaken(k, OsView(os, path), file);
    HasName(s.api.os, Hidden(path));
    EnterReaches(k, os, events, s, UnlinkCall(path));
    events, s := events + [Enter(0, UnlinkCall(path), true)], Do(k, s, Enter(0, UnlinkCall(path), true)).0;
    events, s := UnlinkReaches(k, os, events, s, path);
    OpenDuringUnlink(k, s, PlainPart(os), 0, path, Flags(ReadOnly, false, false), pick);
  }

  /** Such a file system, with a file of one byte. */
  lemma OneFile()
    ensures var os := Os(map["/a" := 0], map[0 := Raw("x")], map[], map[]);
            AllPlain(os) && UserPath("/a") && "/a" in os.names && Temp("/a") !in os.names
  {
    var os := Os(map["/a" := 0], map[0 := Raw("x")], map[], map[]);
    ShortPath();
    TrioDistinct("/a");
    hide UserPath, Hidden, Temp;
    forall p | UserPath(p) ensures Hidden(p) !in os.names {
      UserNames(p);
    }
  }

  lemma ShortPath()
    ensures UserPath("/a")
  {
    assert "/a"[1] != '/' && BaseName("/a") == "a";
  }
}
