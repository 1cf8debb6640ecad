/**
 Everything at once: the system calls of any number of converters (src/dzfile-intern.cc,
 convert2h5) interleave with the system calls of any number of users' calls (src/dzfile-api.c),
 each of which looks for a container first and acts on it later. Users still see a plain store.
 */
module ConcurrentUse {
  import opened CStrings
  import opened Names
  import opened Container
  import opened Conversion
  import opened ClientReads
  import opened RoundTrip
  import opened Store
  import opened Relation
  import opened Converting
  import opened Refinement

  /** A conversion; `emptied` is the inode of its source while that stands empty between the truncates, or for good. */
  datatype Job = Job(path: string, worker: Worker, emptied: Option<nat>)

  /** The store, the conversions, and the users' calls that have looked for a container and not returned. */
  datatype System = System(api: Api, jobs: seq<Job>, calls: map<nat, Pending>)

  /**
   A conversion is begun; a converter makes its next system call; a user's call looks for the
   container; makes its next system call; or is a single system call.
   */
  datatype Event =
    | Begin(path: string)
    | Work(job: nat, answer: Answer, ino: nat)
    | Enter(id: nat, call: Call, statOk: bool)
    | Go(id: nat, pick: Pick, ok: bool)
    | Once(op: Op)

  function EmptiedAfter(os: Os, job: Job, after: Worker): Option<nat> {
    if after.stage == Done(-1) then job.emptied
    else
      match job.worker.stage
      case Empty(_) => if job.path in os.names then Some(os.names[job.path]) else job.emptied
      case Extend(_) => None
      case _ => job.emptied
  }

  function WorkOn(k: Codec, os: Os, job: Job, answer: Answer, ino: nat): (Os, Job) {
    var t := Step(k, Task(OsView(os, job.path), job.worker), answer);
    (Change(os, job.path, job.worker.stage, t, ino), Job(job.path, t.worker, EmptiedAfter(os, job, t.worker)))
  }

  /** One event, and the reply if it completes a user's call. */
  function Do(k: Codec, s: System, e: Event): (System, Option<Reply>) {
    match e
    case Begin(path) => (s.(jobs := s.jobs + [Job(path, Fresh(Zstd), None)]), None)
    case Work(i, answer, ino) =>
      if i >= |s.jobs| then (s, None)
      else
        var (os, job) := WorkOn(k, s.api.os, s.jobs[i], answer, ino);
        (s.(api := s.api.(os := os), jobs := s.jobs[i := job]), None)
    case Enter(id, call, statOk) =>
      (match Check(s.api.os, call, statOk)
       case None => (s, Some(Failed))
       case Some(p) => (s.(calls := s.calls[id := p]), None))
    case Go(id, pick, ok) =>
      if id !in s.calls then (s, None)
      else
        var (api, next) := Act(s.api, s.calls[id], pick, ok);
        (match next
         case More(p) => (s.(api := api, calls := s.calls[id := p]), None)
         case Ret(reply) => (s.(api := api, calls := s.calls - {id}), Some(reply)))
    case Once(op) =>
      var (api, reply) := Perform(k, s.api, op);
      (s.(api := api), Some(reply))
  }

  /** The plain store's call that a pending call stands for, at its last system call. */
  function OpOf(p: Pending, pick: Pick, ok: bool): Op {
    match p
    case OpenPlain(path, flags) => Open(path, flags, true, pick)
    case OpenBoxed(path, flags) => Open(path, flags, true, pick)
    case OpenHandle(path, flags, _) => Open(path, flags, true, pick)
    case Resize(path, length) => Truncate(path, length, true, ok)
    case UnlinkBoxed(path) => Unlink(path, true, true, ok)
    case UnlinkPlain(path, _) => Unlink(path, true, true, ok)
  }

  /** The plain store makes a user's call when that succeeds, and knows of no conversion. */
  function Follows(a: Os, s: System, e: Event, reply: Option<Reply>): Os {
    match e
    case Once(op) => if reply.Some? then Follow(a, op, reply.value) else a
    case Go(id, pick, ok) =>
      if id in s.calls && reply.Some? then Follow(a, OpOf(s.calls[id], pick, ok), reply.value) else a
    case _ => a
  }

  // ----- what is asked -----

  predicate Unlinking(p: Pending) {
    p.UnlinkBoxed? || p.UnlinkPlain?
  }

  /** The next system call of this pending call changes the bytes under its path. */
  predicate Changes(p: Pending) {
    (p.OpenPlain? && p.flags.trunc) || p.Resize? || Unlinking(p)
  }

  ghost predicate NoneOn(calls: map<nat, Pending>, path: string) {
    forall id {:trigger calls[id]} :: id in calls ==> calls[id].path != path
  }

  ghost predicate NoUnlinkOn(calls: map<nat, Pending>, path: string) {
    forall id {:trigger calls[id]} :: id in calls && calls[id].path == path ==> !Unlinking(calls[id])
  }

  ghost predicate NotUnderWay(jobs: seq<Job>, path: string) {
    forall i {:trigger jobs[i]} :: 0 <= i < |jobs| && jobs[i].path == path ==> !UnderWay(jobs[i].worker.stage)
  }

  ghost predicate NotWritten(os: Os, jobs: seq<Job>, fd: int) {
    forall i {:trigger jobs[i]} :: 0 <= i < |jobs| && UnderWay(jobs[i].worker.stage) ==>
      fd in os.fds && jobs[i].path in os.names ==> os.fds[fd].ino != os.names[jobs[i].path]
  }

  ghost predicate AllDone(jobs: seq<Job>, path: string) {
    forall i {:trigger jobs[i]} :: 0 <= i < |jobs| && jobs[i].path == path ==> jobs[i].worker.stage.Done?
  }

  /**
   What is asked of an event. One conversion of a path at a time; a conversion sees a container
   that is there, and none starts reading a file in the middle of its unlink. A file is not changed
   while it is being converted. When its container is renamed into place, nobody has the file open
   and no user's call on it is between its check and its end. An unlink overlaps no other call on
   its path, and, like a truncate, sees the container that is there; a file that has one is not opened
   for reading with O_TRUNC.
   */
  ghost predicate Proper(k: Codec, s: System, e: Event) {
    match e
    case Begin(path) => UserPath(path) && AllDone(s.jobs, path)
    case Work(i, answer, ino) =>
      i < |s.jobs| ==>
        var job := s.jobs[i];
        && CallAllowed(s.api.os, job.path, job.worker.stage, answer, ino)
        && (job.worker.stage.OpenSource? ==> NoUnlinkOn(s.calls, job.path))
        && (job.worker.stage.RenameTemp? ==> NoneOn(s.calls, job.path))
    case Enter(id, call, statOk) =>
      && id !in s.calls && UserPath(call.path) && NoUnlinkOn(s.calls, call.path)
      && (call.UnlinkCall? ==> NoneOn(s.calls, call.path))
      && (Hidden(call.path) in s.api.os.names ==>
            if call.OpenCall? then call.flags.access.ReadOnly? && statOk ==> !call.flags.trunc else statOk)
    case Go(id, pick, ok) =>
      id in s.calls ==>
        var p := s.calls[id];
        && pick.fd !in s.api.os.fds && pick.ino !in s.api.os.nodes && pick.h5fd !in s.api.os.handles
        && (Changes(p) ==> NotUnderWay(s.jobs, p.path))
        && (p.UnlinkPlain? && p.half ==> ok)
    case Once(op) =>
      match op
      case Close(_) | Read(_, _, _) | Fstat(_) => true
      case Write(fd, _, _) => NotWritten(s.api.os, s.jobs, fd)
      case Stat(path) => UserPath(path) && NoUnlinkOn(s.calls, path)
      case _ => false
  }

  // ----- the invariant -----

  /** A conversion is in step with its files, and has emptied its source only where it says so. */
  ghost predicate InOrder(k: Codec, os: Os, a: Os, job: Job) {
    && UserPath(job.path) && Going(k, os, a, job.path, job.worker)
    && (job.emptied.Some? ==>
          || job.worker.stage.Done?
          || (job.worker.stage.Extend? && job.path in os.names && os.names[job.path] == job.emptied.value))
  }

  ghost predicate AllGoing(k: Codec, os: Os, a: Os, jobs: seq<Job>) {
    forall i {:trigger jobs[i]} :: 0 <= i < |jobs| ==> InOrder(k, os, a, jobs[i])
  }

  /** No two conversions of one path at a time. */
  ghost predicate OneEach(jobs: seq<Job>) {
    forall i, j {:trigger jobs[i], jobs[j]} :: 0 <= i < j < |jobs| && jobs[i].path == jobs[j].path ==>
      jobs[i].worker.stage.Done? || jobs[j].worker.stage.Done?
  }

  /** What a pending call found is still so. */
  ghost predicate Waiting(s: Api, a: Os, l: Links, p: Pending) {
    && UserPath(p.path)
    && (p.path in l.leaving <==> p.UnlinkPlain? && p.half)
    && match p
       case OpenPlain(path, _) => Hidden(path) !in s.os.names
       case OpenBoxed(path, flags) => Hidden(path) in s.os.names && flags.access.ReadOnly? && !flags.trunc
       case OpenHandle(path, flags, h5fd) =>
         Hidden(path) in s.os.names && flags.access.ReadOnly? && !flags.trunc && Handled(s, a, l, path, h5fd)
       case Resize(path, _) => Hidden(path) !in s.os.names
       case UnlinkBoxed(path) => Hidden(path) in s.os.names
       case UnlinkPlain(path, _) => Hidden(path) !in s.os.names
  }

  ghost predicate AllWaiting(s: Api, a: Os, l: Links, calls: map<nat, Pending>) {
    forall id {:trigger calls[id]} :: id in calls ==> Waiting(s, a, l, calls[id])
  }

  /** Two calls on one path are no unlinks, and no two calls hold one handle. */
  ghost predicate CallsApart(calls: map<nat, Pending>) {
    forall id, other {:trigger calls[id], calls[other]} :: id in calls && other in calls && id != other ==>
      && (calls[id].path == calls[other].path ==> !Unlinking(calls[id]))
      && (calls[id].OpenHandle? && calls[other].OpenHandle? ==> calls[id].h5fd != calls[other].h5fd)
  }

  /** A path is in the middle of an unlink only if such a call is pending. */
  ghost predicate Leavers(l: Links, calls: map<nat, Pending>) {
    forall p {:trigger p in l.leaving} :: p in l.leaving ==>
      exists id {:trigger calls[id]} :: id in calls && calls[id] == UnlinkPlain(p, true)
  }

  /** A placeholder stands empty only if a conversion has emptied it. */
  ghost predicate Emptied(l: Links, jobs: seq<Job>) {
    forall n {:trigger n in l.short} :: n in l.short ==>
      exists i {:trigger jobs[i]} :: 0 <= i < |jobs| && jobs[i].emptied == Some(n)
  }

  /** A path that a conversion is reading is not in the middle of an unlink. */
  ghost predicate Staying(l: Links, jobs: seq<Job>) {
    forall i {:trigger jobs[i]} :: 0 <= i < |jobs| && UnderWay(jobs[i].worker.stage) ==> jobs[i].path !in l.leaving
  }

  ghost predicate Good(k: Codec, s: System, a: Os, l: Links) {
    && Rel(k, s.api, a, l) && AllGoing(k, s.api.os, a, s.jobs) && OneEach(s.jobs)
    && AllWaiting(s.api, a, l, s.calls) && CallsApart(s.calls)
    && Leavers(l, s.calls) && Emptied(l, s.jobs) && Staying(l, s.jobs)
  }

  // ----- what a call leaves as it was -----

  /** Seen from a path: its three names lead where they led, to what they led to. */
  ghost predicate SameTrio(os: Os, os': Os, path: string) {
    forall x {:trigger x in Trio(path)} :: x in Trio(path) ==>
      && (x in os'.names <==> x in os.names)
      && (x in os.names ==> os'.names[x] == os.names[x])
      && Content(os', x) == Content(os, x)
  }

  lemma SameIsSame(os: Os, os': Os, path: string)
    requires os.names == os'.names && os.nodes == os'.nodes
    ensures SameTrio(os, os', path)
  {
    hide Trio;
  }

  lemma OneNodeElsewhere(os: Os, os': Os, n: nat, f: File, path: string)
    requires Tidy(os) && os'.names == os.names && os'.nodes == os.nodes[n := f]
    requires forall x {:trigger x in Trio(path)} :: x in Trio(path) && x in os.names ==> os.names[x] != n
    ensures SameTrio(os, os', path)
  {
    hide Trio;
  }

  lemma NotInTrio(path: string, other: string)
    requires UserPath(path) && UserPath(other) && path != other
    ensures path !in Trio(other) && Hidden(path) !in Trio(other) && Temp(path) !in Trio(other)
  {
    TriosDisjoint(path, other);
    assert path in Trio(path) && Hidden(path) in Trio(path) && Temp(path) in Trio(path);
  }

  lemma TrioIs(path: string)
    ensures path in Trio(path) && Hidden(path) in Trio(path) && Temp(path) in Trio(path)
  {
  }

  /** The names and inodes after an open: as they were, a file made, or a file emptied. */
  lemma OpenEffect(os: Os, path: string, flags: Flags, pick: Pick)
    requires Tidy(os)
    ensures var os' := OsOpen(os, path, flags, pick).0;
            && (os'.handles == os.handles)
            && (|| (os'.names == os.names && os'.nodes == os.nodes)
                || (&& path !in os.names && os'.names == os.names[path := pick.ino]
                    && os'.nodes == os.nodes[pick.ino := Raw("")])
                || (&& path in os.names && flags.trunc && os'.names == os.names
                    && os'.nodes == os.nodes[os.names[path] := Raw("")]))
  {
    hide Tidy;
    NamesAreContents(os);
  }

  lemma OpenSpares(os: Os, path: string, flags: Flags, pick: Pick, other: string)
    requires Tidy(os) && UserPath(path) && UserPath(other) && other in os.names && pick.ino !in os.nodes
    requires path == other ==> !flags.trunc
    ensures SameTrio(os, OsOpen(os, path, flags, pick).0, other)
  {
    hide UserPath, Trio, OsOpen;
    OpenEffect(os, path, flags, pick);
    if path != other {
      NotInTrio(path, other);
    }
  }

  lemma TruncateSpares(os: Os, path: string, length: nat, other: string)
    requires Tidy(os) && UserPath(path) && UserPath(other) && path != other
    ensures SameTrio(os, OsTruncate(os, path, length).0, other)
  {
    hide UserPath, Trio, Hidden, Temp, Resized;
    NotInTrio(path, other);
    if Content(os, path).Some? && Content(os, path).value.Raw? {
      OneNodeElsewhere(os, OsTruncate(os, path, length).0, os.names[path],
        Raw(Resized(Content(os, path).value.data, length)), other);
    }
  }

  lemma UnlinkSpares(os: Os, name: string, other: string)
    requires name !in Trio(other)
    ensures SameTrio(os, OsUnlink(os, name), other)
  {
    hide Trio;
  }

  /** A pending call's next system call leaves the files of a path alone, unless it is on that path and changes it. */
  lemma ActSpares(k: Codec, s: Api, a: Os, l: Links, p: Pending, pick: Pick, ok: bool, other: string)
    requires Rel(k, s, a, l) && Waiting(s, a, l, p) && pick.ino !in s.os.nodes
    requires UserPath(other) && other in s.os.names && (Changes(p) ==> p.path != other)
    ensures SameTrio(s.os, Act(s, p, pick, ok).0.os, other)
  {
    hide Rel, UserPath, Trio, Hidden, Temp, OsOpen, OsTruncate, OsUnlink, SameTrio, Handled;
    IsTidy(k, s, a, l);
    SameIsSame(s.os, s.os, other);
    if p.path != other {
      NotInTrio(p.path, other);
    }
    match p {
      case OpenPlain(path, flags) => OpenSpares(s.os, path, flags, pick, other);
      case OpenBoxed(path, flags) => SameIsSame(s.os, H5Open(s.os, Hidden(path), pick.h5fd).0, other);
      case OpenHandle(path, flags, h5fd) => OpenSpares(s.os, path, flags, pick, other);
      case Resize(path, length) => TruncateSpares(s.os, path, length, other);
      case UnlinkBoxed(path) => UnlinkSpares(s.os, Hidden(path), other);
      case UnlinkPlain(path, _) => UnlinkSpares(s.os, path, other);
    }
  }

  /** What stands under the three names of a conversion under way: its source, and containers. */
  lemma UnderWayFiles(k: Codec, os: Os, a: Os, job: Job)
    requires InOrder(k, os, a, job) && UnderWay(job.worker.stage)
    ensures job.path in os.names && Content(a, job.path).Some?
  {
    hide UserPath, Hidden, Temp;
    ViewNow(k, Content(a, job.path).value.data, Task(OsView(os, job.path), job.worker));
  }

  lemma WriteSpares(k: Codec, s: Api, a: Os, l: Links, fd: int, data: Bytes, offset: nat, other: string)
    requires Rel(k, s, a, l) && UserPath(other) && other in s.os.names
    requires fd in s.os.fds ==> s.os.fds[fd].ino != s.os.names[other]
    ensures SameTrio(s.os, OsPwrite(s.os, fd, data, offset).0, other)
  {
    hide UserPath, Hidden, Temp, Stored, Pwrite, SameFds, MapSound, SameNames;
    AtPath(k, s, a, l, other);
    if FdData(s.os, fd).Some? && s.os.fds[fd].writable {
      OneNodeElsewhere(s.os, OsPwrite(s.os, fd, data, offset).0, s.os.fds[fd].ino,
        Raw(Pwrite(FdData(s.os, fd).value, data, offset)), other);
    }
  }

  /** The file of a path is what the store has under its three names. */
  lemma SameFile(k: Codec, s: Api, s': Api, a: Os, a': Os, l: Links, l': Links, path: string)
    requires Sound(k) && Rel(k, s, a, l) && Rel(k, s', a', l') && UserPath(path)
    requires SameTrio(s.os, s'.os, path) && Content(a, path).Some? && path !in l.leaving && path !in l'.leaving
    ensures Content(a', path) == Content(a, path)
  {
    hide Rel, UserPath, Hidden, Temp, Stored, Sound, Trio;
    TrioIs(path);
    AtPath(k, s, a, l, path);
    AtPath(k, s', a', l', path);
    if Hidden(path) in s.os.names {
      StoredInjective(k, Content(a, path).value.data, Content(a', path).value.data);
    }
  }

  lemma OrderStays(k: Codec, os: Os, os': Os, a: Os, a': Os, job: Job)
    requires InOrder(k, os, a, job)
    requires Hidden(job.path) in os'.names ==> Hidden(job.path) in os.names
    requires UnderWay(job.worker.stage) ==> SameTrio(os, os', job.path) && Content(a', job.path) == Content(a, job.path)
    ensures InOrder(k, os', a', job)
  {
    hide UserPath, Hidden, Temp, InStep, Trio;
    TrioIs(job.path);
  }

  // ----- a user's system call -----

  /** How the links change with it. */
  function LinksAct(l: Links, p: Pending, next: Next): Links {
    match p
    case UnlinkBoxed(path) => if next.More? then l.(leaving := l.leaving + {path}) else l
    case UnlinkPlain(path, true) => if next == Ret(Finished) then l.(leaving := l.leaving - {path}) else l
    case _ => l
  }

  /** It fails because the plain store's call does, or because the container cannot be opened. */
  predicate ActFails(a: Os, p: Pending, pick: Pick, ok: bool) {
    if p.OpenBoxed? then pick.h5fd <= 0 else !p.OpenHandle? && Plainly(a, OpOf(p, pick, ok)).1.Failed?
  }

  /**
   It keeps the relation; if it completes the call, and that succeeds, the answer is the plain
   store's; if not, the call waits on.
   */
  ghost predicate ActsRight(k: Codec, s: Api, a: Os, l: Links, p: Pending, pick: Pick, ok: bool) {
    var (s', next) := Act(s, p, pick, ok);
    var l' := LinksAct(l, p, next);
    match next
    case More(p') => Rel(k, s', a, l') && Waiting(s', a, l', p') && p'.path == p.path
    case Ret(reply) =>
      && Rel(k, s', Follow(a, OpOf(p, pick, ok), reply), l')
      && !reply.Unspecified? && (reply.Failed? || reply.Aborted? || reply == Plainly(a, OpOf(p, pick, ok)).1)
      && (reply.Failed? <==> ActFails(a, p, pick, ok)) && (reply.Aborted? <==> p.OpenHandle? && pick.fd < 0)
  }

  lemma OpenActs(k: Codec, s: Api, a: Os, l: Links, p: Pending, pick: Pick, ok: bool)
    requires Rel(k, s, a, l) && Waiting(s, a, l, p) && (p.OpenPlain? || p.OpenBoxed? || p.OpenHandle?)
    requires pick.fd !in s.os.fds && pick.ino !in s.os.nodes && pick.h5fd !in s.os.handles
    ensures ActsRight(k, s, a, l, p, pick, ok)
  {
    hide Rel, UserPath, Hidden, Stored, OsOpen, H5Open, Handled;
    FailedOpen(a, p.path, p.flags, pick);
    match p {
      case OpenPlain(path, flags) => OpenPlainKeeps(k, s, a, l, path, flags, pick);
      case OpenBoxed(path, flags) =>
        HandleKeeps(k, s, a, l, path, pick.h5fd);
      case OpenHandle(path, flags, h5fd) =>
        AtPath(k, s, a, l, path);
        OpenHandleKeeps(k, s, a, l, path, flags, h5fd, pick);
        if pick.fd >= 0 {
          OldOpen(a, path, flags, pick);
        }
    }
  }

  lemma OtherActs(k: Codec, s: Api, a: Os, l: Links, p: Pending, pick: Pick, ok: bool)
    requires Rel(k, s, a, l) && Waiting(s, a, l, p) && (p.Resize? || p.UnlinkBoxed? || p.UnlinkPlain?)
    ensures ActsRight(k, s, a, l, p, pick, ok)
  {
    hide Rel, UserPath, Hidden, Stored, OsTruncate, OsUnlink;
    AtPath(k, s, a, l, p.path);
    match p {
      case Resize(path, length) => ResizeKeeps(k, s, a, l, path, length);
      case UnlinkBoxed(path) => UnlinkBoxedKeeps(k, s, a, l, path);
      case UnlinkPlain(path, half) =>
        UnlinkPlainKeeps(k, s, a, l, path);
        if !half {
          assert l.leaving - {path} == l.leaving && l.(leaving := l.leaving) == l;
        }
    }
  }

  /** A path that is leaving is still there, so the last unlink finds it. */
  lemma HalfUnlinks(k: Codec, s: Api, a: Os, l: Links, path: string, pick: Pick)
    requires Rel(k, s, a, l) && path in l.leaving
    ensures Act(s, UnlinkPlain(path, true), pick, true).1 == Ret(Finished)
  {
    hide Rel, OsUnlink, Content;
    HalfThere(k, s, a, l, path);
    PlainGoes(s.os, path);
  }

  lemma HalfThere(k: Codec, s: Api, a: Os, l: Links, path: string)
    requires Rel(k, s, a, l) && path in l.leaving
    ensures Content(s.os, path).Some? && Content(s.os, path).value.Raw?
  {
    hide SameFds, MapSound, TempsApart, Hidden, Stored, UserPath;
  }

  // ----- what one event leaves of the invariant -----

  /** A call waits on when the container of its path is where it was and its handle is untouched. */
  lemma WaitsOn(k: Codec, s: Api, s': Api, a: Os, a': Os, l: Links, l': Links, p: Pending)
    requires Rel(k, s, a, l) && Rel(k, s', a', l') && Waiting(s, a, l, p)
    requires Hidden(p.path) in s'.os.names <==> Hidden(p.path) in s.os.names
    requires Hidden(p.path) in s.os.names ==> s'.os.names[Hidden(p.path)] == s.os.names[Hidden(p.path)]
    requires p.path in l'.leaving <==> p.path in l.leaving
    requires p.OpenHandle? && p.h5fd in s.os.handles ==>
               && p.h5fd in s'.os.handles && s'.os.handles[p.h5fd] == s.os.handles[p.h5fd]
               && forall fd {:trigger s'.h5fdmap[fd]} :: fd in s'.h5fdmap ==> s'.h5fdmap[fd].h5fd != p.h5fd
    ensures Waiting(s', a', l', p)
  {
    hide Rel, UserPath, Hidden, Stored;
    AtPath(k, s, a, l, p.path);
    AtPath(k, s', a', l', p.path);
  }

  /** A conversion is in step still when, once it has its source, its files are left alone. */
  lemma JobStays(k: Codec, s: Api, s': Api, a: Os, a': Os, l: Links, l': Links, job: Job)
    requires Sound(k) && Rel(k, s, a, l) && Rel(k, s', a', l') && InOrder(k, s.os, a, job)
    requires Hidden(job.path) in s'.os.names ==> Hidden(job.path) in s.os.names
    requires UnderWay(job.worker.stage) ==>
               SameTrio(s.os, s'.os, job.path) && job.path !in l.leaving && job.path !in l'.leaving
    ensures InOrder(k, s'.os, a', job)
  {
    hide Rel, Hidden, Stored, Sound, SameTrio, Going, UserPath;
    if UnderWay(job.worker.stage) {
      UnderWayFiles(k, s.os, a, job);
      SameFile(k, s, s', a, a', l, l', job.path);
    }
    OrderStays(k, s.os, s'.os, a, a', job);
  }

  lemma NotLeaving(l: Links, calls: map<nat, Pending>, path: string)
    requires Leavers(l, calls) && NoUnlinkOn(calls, path)
    ensures path !in l.leaving
  {
  }

  // ----- a converter's system call -----

  /** Before it has its source, and after its end, a conversion changes nothing. */
  lemma StandsStill(k: Codec, os: Os, l: Links, job: Job, answer: Answer, ino: nat)
    requires !UnderWay(job.worker.stage)
    ensures var t := Step(k, Task(OsView(os, job.path), job.worker), answer);
            && Change(os, job.path, job.worker.stage, t, ino) == os
            && NextLinks(k, os, l, job.path, job.worker, answer) == l
            && EmptiedAfter(os, job, t.worker) == job.emptied
            && (UnderWay(t.worker.stage) ==> job.worker.stage.OpenSource?)
  {
  }

  /** Its call keeps the relation, with the plain store standing still, and leaves it in step. */
  lemma OwnStays(k: Codec, s: Api, a: Os, l: Links, job: Job, answer: Answer, ino: nat)
    requires Rel(k, s, a, l) && InOrder(k, s.os, a, job) && CallAllowed(s.os, job.path, job.worker.stage, answer, ino)
    requires UnderWay(job.worker.stage) || job.worker.stage.OpenSource? ==> job.path !in l.leaving
    ensures var (os', job') := WorkOn(k, s.os, job, answer, ino);
            Rel(k, s.(os := os'), a, NextLinks(k, s.os, l, job.path, job.worker, answer)) && InOrder(k, os', a, job')
  {
    hide Rel, Hidden, Temp, Stored, Step, UserPath, Going, Change, OsView, CallAllowed, NextLinks, EmptiedAfter;
    SeesContainer(s.os, job.path, job.worker.stage, answer, ino);
    EmptiedNext(k, s.os, a, job, answer, ino);
    if UnderWay(job.worker.stage) {
      ChangeKeeps(k, s, a, l, job.path, job.worker, answer, ino);
      ChangeGoesOn(k, s, a, l, job.path, job.worker, answer, ino);
    } else {
      StandsStill(k, s.os, l, job, answer, ino);
      EarlyGoesOn(k, s, a, l, job.path, job.worker, answer);
    }
  }

  lemma SeesContainer(os: Os, path: string, stage: Stage, answer: Answer, ino: nat)
    requires CallAllowed(os, path, stage, answer, ino)
    ensures stage.CheckHidden? && Hidden(path) in os.names ==> !answer.Fail?
  {
  }

  lemma EmptiedNext(k: Codec, os: Os, a: Os, job: Job, answer: Answer, ino: nat)
    requires InOrder(k, os, a, job)
    ensures var (os', job') := WorkOn(k, os, job, answer, ino);
            job'.emptied.Some? ==>
              || job'.worker.stage.Done?
              || (job'.worker.stage.Extend? && job.path in os'.names && os'.names[job.path] == job'.emptied.value)
  {
    hide Hidden, Temp, Going, OsView, UserPath;
    SamePlace(os, job.path, job.worker.stage, Step(k, Task(OsView(os, job.path), job.worker), answer), ino);
  }

  lemma TriosApart(path: string, other: string)
    requires UserPath(path) && UserPath(other) && path != other
    ensures forall x {:trigger x in Trio(other)} :: x in Trio(other) ==> x !in Trio(path)
  {
    hide Trio, Visible;
    TriosDisjoint(path, other);
  }

  /** Another path's files are left alone. */
  lemma Elsewhere(os: Os, os': Os, path: string, other: string)
    requires OnlyTrio(os, os', path) && UserPath(path) && UserPath(other) && path != other
    ensures SameTrio(os, os', other)
    ensures Hidden(other) in os'.names <==> Hidden(other) in os.names
    ensures Hidden(other) in os.names ==> os'.names[Hidden(other)] == os.names[Hidden(other)]
  {
    hide UserPath, Trio, Hidden, Temp;
    NotInTrio(other, path);
    TriosApart(path, other);
  }

  /** The name of the container moves only with the rename. */
  lemma HiddenStays(os: Os, path: string, stage: Stage, after: Task, ino: nat)
    requires !stage.RenameTemp?
    ensures var os' := Change(os, path, stage, after, ino);
            && (Hidden(path) in os'.names <==> Hidden(path) in os.names)
            && (Hidden(path) in os.names ==> os'.names[Hidden(path)] == os.names[Hidden(path)])
  {
    hide Hidden, Temp;
    TrioDistinct(path);
  }

  lemma OpenStays(os: Os, path: string, stage: Stage, after: Task, ino: nat)
    ensures var os' := Change(os, path, stage, after, ino); os'.fds == os.fds && os'.handles == os.handles
  {
    hide Hidden, Temp;
  }

  /** The placeholders that stand empty are still those that some conversion has emptied. */
  lemma EmptiedStays(k: Codec, os: Os, a: Os, l: Links, jobs: seq<Job>, i: nat, answer: Answer, ino: nat)
    requires Emptied(l, jobs) && i < |jobs| && InOrder(k, os, a, jobs[i])
    ensures var l' := NextLinks(k, os, l, jobs[i].path, jobs[i].worker, answer);
            Emptied(l', jobs[i := WorkOn(k, os, jobs[i], answer, ino).1])
  {
    hide Hidden, Temp, OsView, Change, Step, UserPath;
    var job, job' := jobs[i], WorkOn(k, os, jobs[i], answer, ino).1;
    var l', jobs' := NextLinks(k, os, l, job.path, job.worker, answer), jobs[i := job'];
    if UnderWay(job.worker.stage) {
      UnderWayFiles(k, os, a, job);
    }
    forall n | n in l'.short ensures exists j {:trigger jobs'[j]} :: 0 <= j < |jobs'| && jobs'[j].emptied == Some(n) {
      if n in l.short {
        var j :| 0 <= j < |jobs| && jobs[j].emptied == Some(n);
        assert jobs'[j].emptied == Some(n);
      } else {
        assert jobs'[i].emptied == Some(n);
      }
    }
  }

  /** The jobs after it: each in step, and no two on one path. */
  lemma JobsStay(k: Codec, s: Api, a: Os, l: Links, jobs: seq<Job>, i: nat, answer: Answer, ino: nat)
    requires Rel(k, s, a, l) && AllGoing(k, s.os, a, jobs) && OneEach(jobs) && i < |jobs|
    requires CallAllowed(s.os, jobs[i].path, jobs[i].worker.stage, answer, ino)
    requires UnderWay(jobs[i].worker.stage) || jobs[i].worker.stage.OpenSource? ==> jobs[i].path !in l.leaving
    ensures var (os', job') := WorkOn(k, s.os, jobs[i], answer, ino);
            AllGoing(k, os', a, jobs[i := job']) && OneEach(jobs[i := job'])
  {
    hide Rel, Hidden, Temp, Step, UserPath, Going, Change, OsView, CallAllowed, NextLinks, EmptiedAfter, InOrder;
    var job := jobs[i];
    var (os', job') := WorkOn(k, s.os, job, answer, ino);
    IsTidy(k, s, a, l);
    AllowedFresh(s.os, job.path, job.worker.stage, answer, ino);
    ChangeIsStep(k, s.os, job.path, job.worker, answer, ino);
    StageNext(k, Task(OsView(s.os, job.path), job.worker), answer);
    OwnStays(k, s, a, l, job, answer, ino);
    forall j | 0 <= j < |jobs| && j != i ensures InOrder(k, os', a, jobs[j]) {
      OtherStays(k, s.os, os', a, l, jobs, i, j, answer, ino);
    }
  }

  lemma OtherStays(k: Codec, os: Os, os': Os, a: Os, l: Links, jobs: seq<Job>, i: nat, j: nat, answer: Answer, ino: nat)
    requires AllGoing(k, os, a, jobs) && OneEach(jobs) && i < |jobs| && j < |jobs| && i != j
    requires OnlyTrio(os, os', jobs[i].path) && os' == WorkOn(k, os, jobs[i], answer, ino).0
    ensures InOrder(k, os', a, jobs[j])
  {
    hide Hidden, Temp, Step, UserPath, Going, Change, OsView, NextLinks, EmptiedAfter;
    if jobs[i].path != jobs[j].path {
      Elsewhere(os, os', jobs[i].path, jobs[j].path);
      OrderStays(k, os, os', a, a, jobs[j]);
    } else if jobs[j].worker.stage.Done? {
      assert Going(k, os', a, jobs[j].path, jobs[j].worker) by { DoneGoes(k, os', a, jobs[j].path, jobs[j].worker); }
    } else {
      StandsStill(k, os, l, jobs[i], answer, ino);
    }
  }

  lemma DoneGoes(k: Codec, os: Os, a: Os, path: string, w: Worker)
    requires w.stage.Done?
    ensures Going(k, os, a, path, w)
  {
  }

  /** The calls that wait. */
  lemma CallsStay(k: Codec, s: Api, a: Os, l: Links, calls: map<nat, Pending>, job: Job, answer: Answer, ino: nat)
    requires Rel(k, s, a, l) && AllWaiting(s, a, l, calls) && InOrder(k, s.os, a, job)
    requires CallAllowed(s.os, job.path, job.worker.stage, answer, ino)
    requires UnderWay(job.worker.stage) || job.worker.stage.OpenSource? ==> job.path !in l.leaving
    requires job.worker.stage.RenameTemp? ==> NoneOn(calls, job.path)
    ensures var os' := WorkOn(k, s.os, job, answer, ino).0;
            AllWaiting(s.(os := os'), a, NextLinks(k, s.os, l, job.path, job.worker, answer), calls)
  {
    hide Rel, Hidden, Temp, Step, UserPath, Going, Change, OsView, CallAllowed, NextLinks, EmptiedAfter;
    var t := Step(k, Task(OsView(s.os, job.path), job.worker), answer);
    var os', l' := WorkOn(k, s.os, job, answer, ino).0, NextLinks(k, s.os, l, job.path, job.worker, answer);
    IsTidy(k, s, a, l);
    AllowedFresh(s.os, job.path, job.worker.stage, answer, ino);
    ChangeIsStep(k, s.os, job.path, job.worker, answer, ino);
    OwnStays(k, s, a, l, job, answer, ino);
    LinksLocal(k, s.os, l, job.path, job.worker, answer);
    OpenStays(s.os, job.path, job.worker.stage, t, ino);
    forall id | id in calls ensures Waiting(s.(os := os'), a, l', calls[id]) {
      var p := calls[id];
      if p.path == job.path {
        HiddenStays(s.os, job.path, job.worker.stage, t, ino);
      } else {
        Elsewhere(s.os, os', job.path, p.path);
      }
      WaitsOn(k, s, s.(os := os'), a, a, l, l', p);
    }
  }

  /** A converter's call, failed or not, keeps all there is to keep, with the plain store standing still. */
  lemma WorkKeeps(k: Codec, s: System, a: Os, l: Links, i: nat, answer: Answer, ino: nat) returns (l': Links)
    requires Good(k, s, a, l) && i < |s.jobs| && Proper(k, s, Work(i, answer, ino))
    ensures Good(k, Do(k, s, Work(i, answer, ino)).0, a, l')
  {
    hide Rel, Hidden, Temp, Step, UserPath, Change, OsView, CallAllowed, NextLinks, EmptiedAfter, InOrder, Waiting,
      CallsApart;
    var job := s.jobs[i];
    if job.worker.stage.OpenSource? {
      NotLeaving(l, s.calls, job.path);
    }
    l' := NextLinks(k, s.api.os, l, job.path, job.worker, answer);
    LinksLocal(k, s.api.os, l, job.path, job.worker, answer);
    OwnStays(k, s.api, a, l, job, answer, ino);
    JobsStay(k, s.api, a, l, s.jobs, i, answer, ino);
    CallsStay(k, s.api, a, l, s.calls, job, answer, ino);
    EmptiedStays(k, s.api.os, a, l, s.jobs, i, answer, ino);
    if !UnderWay(job.worker.stage) {
      StandsStill(k, s.api.os, l, job, answer, ino);
    }
  }

  /** No user's call makes a hidden name, and only the unlink of its own path takes one away. */
  lemma ActHidden(k: Codec, s: Api, a: Os, l: Links, p: Pending, pick: Pick, ok: bool, other: string)
    requires Rel(k, s, a, l) && Waiting(s, a, l, p) && UserPath(other)
    ensures var os' := Act(s, p, pick, ok).0.os;
            && (Hidden(other) in os'.names ==> Hidden(other) in s.os.names)
            && (p.path != other || !Unlinking(p) ==>
                  && (Hidden(other) in os'.names <==> Hidden(other) in s.os.names)
                  && (Hidden(other) in s.os.names ==> os'.names[Hidden(other)] == s.os.names[Hidden(other)]))
  {
    hide Rel, UserPath, Hidden, Handled;
    IsTidy(k, s, a, l);
    UserNames(other);
    HiddenDiffer(other, p.path);
    assert Hidden(other) != p.path;
    if p.OpenPlain? || p.OpenHandle? {
      OpenEffect(s.os, p.path, p.flags, pick);
    }
  }

  /** Only the handle a call asks for is new, and only a call that has its handle stores it in the map. */
  lemma ActHandles(s: Api, p: Pending, pick: Pick, ok: bool, h5fd: int)
    requires h5fd in s.os.handles && pick.h5fd !in s.os.handles && (p.OpenHandle? ==> p.h5fd != h5fd)
    requires forall fd {:trigger s.h5fdmap[fd]} :: fd in s.h5fdmap ==> s.h5fdmap[fd].h5fd != h5fd
    ensures var s' := Act(s, p, pick, ok).0;
            && h5fd in s'.os.handles && s'.os.handles[h5fd] == s.os.handles[h5fd]
            && forall fd {:trigger s'.h5fdmap[fd]} :: fd in s'.h5fdmap ==> s'.h5fdmap[fd].h5fd != h5fd
  {
    hide Hidden;
  }

  /** The calls after it. */
  function CallsAfter(calls: map<nat, Pending>, id: nat, next: Next): map<nat, Pending> {
    match next case More(p) => calls[id := p] case Ret(_) => calls - {id}
  }

  lemma LinksLittle(l: Links, p: Pending, next: Next)
    ensures var l' := LinksAct(l, p, next);
            && l'.boxed == l.boxed && l'.short == l.short
            && forall q {:trigger q in l'.leaving} ::
                 q != p.path || !Unlinking(p) ==> (q in l'.leaving <==> q in l.leaving)
  {
  }

  /** The other calls wait on. */
  lemma OthersWait(k: Codec, s: Api, a: Os, a': Os, l: Links, calls: map<nat, Pending>, id: nat, pick: Pick, ok: bool)
    requires Rel(k, s, a, l) && AllWaiting(s, a, l, calls) && CallsApart(calls)
    requires id in calls && pick.h5fd !in s.os.handles
    requires var (s', next) := Act(s, calls[id], pick, ok); var l' := LinksAct(l, calls[id], next);
             && Rel(k, s', a', l') && (next.More? ==> Waiting(s', a', l', next.pending))
    ensures var (s', next) := Act(s, calls[id], pick, ok);
            AllWaiting(s', a', LinksAct(l, calls[id], next), CallsAfter(calls, id, next))
  {
    hide Rel, UserPath, Hidden, Act, LinksAct;
    var (s', next) := Act(s, calls[id], pick, ok);
    var p, l' := calls[id], LinksAct(l, calls[id], next);
    LinksLittle(l, p, next);
    forall other | other in calls && other != id ensures Waiting(s', a', l', calls[other]) {
      var q := calls[other];
      ActHidden(k, s, a, l, p, pick, ok, q.path);
      if q.OpenHandle? {
        ActHandles(s, p, pick, ok, q.h5fd);
      }
      WaitsOn(k, s, s', a, a', l, l', q);
    }
  }

  lemma StaysApart(s: Api, a: Os, l: Links, calls: map<nat, Pending>, id: nat, pick: Pick, ok: bool)
    requires AllWaiting(s, a, l, calls) && CallsApart(calls) && id in calls && pick.h5fd !in s.os.handles
    ensures CallsApart(CallsAfter(calls, id, Act(s, calls[id], pick, ok).1))
  {
    hide UserPath, Hidden;
    NextCall(s, calls[id], pick, ok);
    hide Act;
    forall other | other in calls && calls[other].OpenHandle? ensures calls[other].h5fd in s.os.handles {
      assert Waiting(s, a, l, calls[other]);
    }
  }

  /** What a call is after a system call that does not complete it. */
  lemma NextCall(s: Api, p: Pending, pick: Pick, ok: bool)
    ensures var next := Act(s, p, pick, ok).1;
            match next
            case More(p') =>
              p'.path == p.path && Unlinking(p') == Unlinking(p) && (p'.OpenHandle? ==> p'.h5fd == pick.h5fd)
            case Ret(_) => true
    ensures var next := Act(s, p, pick, ok).1;
            next.More? && p.UnlinkBoxed? ==> next == More(UnlinkPlain(p.path, true))
  {
    hide Hidden, OsOpen, OsUnlink, OsTruncate;
  }

  /** A path leaves the middle of its unlink with the call that brought it there. */
  lemma StaysLeaver(k: Codec, s: Api, a: Os, l: Links, calls: map<nat, Pending>, id: nat, pick: Pick, ok: bool)
    requires Rel(k, s, a, l) && id in calls && Leavers(l, calls) && Waiting(s, a, l, calls[id])
    requires calls[id].UnlinkPlain? && calls[id].half ==> ok
    ensures var next := Act(s, calls[id], pick, ok).1;
            Leavers(LinksAct(l, calls[id], next), CallsAfter(calls, id, next))
  {
    hide Rel, UserPath, Hidden, Handled;
    var p, next := calls[id], Act(s, calls[id], pick, ok).1;
    NextCall(s, p, pick, ok);
    if p.UnlinkPlain? && p.half {
      HalfUnlinks(k, s, a, l, p.path, pick);
    }
    hide Act;
    var l', calls' := LinksAct(l, p, next), CallsAfter(calls, id, next);
    forall q | q in l'.leaving
      ensures exists other {:trigger calls'[other]} :: other in calls' && calls'[other] == UnlinkPlain(q, true)
    {
      if q in l.leaving {
        var other :| other in calls && calls[other] == UnlinkPlain(q, true);
        assert other in calls' && calls'[other] == UnlinkPlain(q, true);
      } else {
        assert calls'[id] == UnlinkPlain(q, true);
      }
    }
  }

  lemma ActIs(k: Codec, s: Api, a: Os, l: Links, p: Pending, pick: Pick, ok: bool)
    requires Rel(k, s, a, l) && Waiting(s, a, l, p)
    requires pick.fd !in s.os.fds && pick.ino !in s.os.nodes && pick.h5fd !in s.os.handles
    ensures ActsRight(k, s, a, l, p, pick, ok)
  {
    hide Rel, Waiting, ActsRight;
    if p.OpenPlain? || p.OpenBoxed? || p.OpenHandle? {
      OpenActs(k, s, a, l, p, pick, ok);
    } else {
      OtherActs(k, s, a, l, p, pick, ok);
    }
  }

  /** The conversions after it. */
  lemma JobsSpared(k: Codec, s: Api, a: Os, a': Os, l: Links, jobs: seq<Job>, p: Pending, pick: Pick, ok: bool)
    requires Sound(k) && Rel(k, s, a, l) && AllGoing(k, s.os, a, jobs) && Staying(l, jobs) && Waiting(s, a, l, p)
    requires pick.ino !in s.os.nodes && (Changes(p) ==> NotUnderWay(jobs, p.path))
    requires var (s', next) := Act(s, p, pick, ok); Rel(k, s', a', LinksAct(l, p, next))
    ensures var (s', next) := Act(s, p, pick, ok);
            AllGoing(k, s'.os, a', jobs) && Staying(LinksAct(l, p, next), jobs)
  {
    hide Rel, UserPath, Hidden, Act, LinksAct, InOrder, Waiting, Sound;
    var (s', next) := Act(s, p, pick, ok);
    var l' := LinksAct(l, p, next);
    LinksLittle(l, p, next);
    forall i | 0 <= i < |jobs|
      ensures InOrder(k, s'.os, a', jobs[i]) && (UnderWay(jobs[i].worker.stage) ==> jobs[i].path !in l'.leaving)
    {
      NamesUser(k, s.os, a, jobs[i]);
      ActHidden(k, s, a, l, p, pick, ok, jobs[i].path);
      if UnderWay(jobs[i].worker.stage) {
        UnderWayFiles(k, s.os, a, jobs[i]);
        ActSpares(k, s, a, l, p, pick, ok, jobs[i].path);
      }
      JobStays(k, s, s', a, a', l, l', jobs[i]);
    }
  }

  lemma NamesUser(k: Codec, os: Os, a: Os, job: Job)
    requires InOrder(k, os, a, job)
    ensures UserPath(job.path)
  {
  }

  /** A user's system call among conversions and other calls keeps all there is to keep. */
  lemma GoKeeps(k: Codec, s: System, a: Os, l: Links, id: nat, pick: Pick, ok: bool) returns (l': Links)
    requires Sound(k) && Good(k, s, a, l) && id in s.calls && Proper(k, s, Go(id, pick, ok))
    ensures var (s', reply) := Do(k, s, Go(id, pick, ok)); Good(k, s', Follows(a, s, Go(id, pick, ok), reply), l')
    ensures ActsRight(k, s.api, a, l, s.calls[id], pick, ok)
  {
    hide Rel, UserPath, Hidden, Act, LinksAct, Waiting, CallsApart, Staying, AllGoing, Sound, Leavers, Plainly,
      Follow, OpOf, ActFails;
    var p := s.calls[id];
    var (s1, next) := Act(s.api, p, pick, ok);
    ActIs(k, s.api, a, l, p, pick, ok);
    var a' := if next.Ret? then Follow(a, OpOf(p, pick, ok), next.reply) else a;
    l' := LinksAct(l, p, next);
    LinksLittle(l, p, next);
    OthersWait(k, s.api, a, a', l, s.calls, id, pick, ok);
    StaysApart(s.api, a, l, s.calls, id, pick, ok);
    StaysLeaver(k, s.api, a, l, s.calls, id, pick, ok);
    JobsSpared(k, s.api, a, a', l, s.jobs, p, pick, ok);
  }
}
