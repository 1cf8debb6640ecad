/**
 Every run of converters and users together (src/dzfile-intern.cc, convert2h5; src/dzfile-api.c):
 each event keeps the invariant, and each user's call that succeeds gives the plain store's answer.
 */
module ConcurrentRuns {
  import opened CStrings
  import opened Names
  import opened Container
  import opened Conversion
  import opened RoundTrip
  import opened Store
  import opened Relation
  import opened Converting
  import opened Refinement
  import opened ConcurrentUse

  // ----- the other events -----

  lemma BeginKeeps(k: Codec, s: System, a: Os, l: Links, path: string)
    requires Good(k, s, a, l) && Proper(k, s, Begin(path))
    ensures Good(k, Do(k, s, Begin(path)).0, a, l)
  {
    hide Rel, UserPath, Hidden, Waiting, CallsApart, Leavers;
    var job := Job(path, Fresh(Zstd), None);
    var jobs' := s.jobs + [job];
    assert InOrder(k, s.api.os, a, job);
    hide InOrder;
    forall i | 0 <= i < |jobs'| ensures InOrder(k, s.api.os, a, jobs'[i]) {
      if i < |s.jobs| {
        assert jobs'[i] == s.jobs[i];
      }
    }
    forall n | n in l.short ensures exists i {:trigger jobs'[i]} :: 0 <= i < |jobs'| && jobs'[i].emptied == Some(n) {
      var i :| 0 <= i < |s.jobs| && s.jobs[i].emptied == Some(n);
      assert jobs'[i] == s.jobs[i];
    }
  }

  /** A user's call whose check refuses it. */
  predicate Refuses(os: Os, call: Call, statOk: bool) {
    match call
    case OpenCall(path, flags) => !statOk || (Hidden(path) in os.names && !flags.access.ReadOnly?)
    case TruncateCall(path, _) => Hidden(path) in os.names
    case UnlinkCall(_) => false
  }

  /** What a check leaves to be done. */
  lemma Checked(k: Codec, s: Api, a: Os, l: Links, call: Call, statOk: bool)
    requires Rel(k, s, a, l) && UserPath(call.path) && call.path !in l.leaving
    requires Hidden(call.path) in s.os.names ==>
               if call.OpenCall? then call.flags.access.ReadOnly? && statOk ==> !call.flags.trunc else statOk
    ensures var r := Check(s.os, call, statOk);
            && (r.None? <==> Refuses(s.os, call, statOk))
            && (r.Some? ==> Waiting(s, a, l, r.value) && r.value.path == call.path && !r.value.OpenHandle?)
            && (r.Some? ==> (Unlinking(r.value) <==> call.UnlinkCall?))
  {
    hide Rel, Hidden, FindHidden;
    Found(k, s, a, l, call.path, statOk);
    AtPath(k, s, a, l, call.path);
  }

  /** A user's call looks for the container. */
  lemma EnterKeeps(k: Codec, s: System, a: Os, l: Links, id: nat, call: Call, statOk: bool)
    requires Good(k, s, a, l) && Proper(k, s, Enter(id, call, statOk))
    ensures var (s', reply) := Do(k, s, Enter(id, call, statOk));
            && Good(k, s', a, l) && (reply.None? || reply == Some(Failed))
            && (reply == Some(Failed) <==> Refuses(s.api.os, call, statOk))
  {
    hide Rel, UserPath, Hidden, Check, Waiting, Refuses, AllGoing, Emptied, Staying;
    NotLeaving(l, s.calls, call.path);
    Checked(k, s.api, a, l, call, statOk);
    var r := Check(s.api.os, call, statOk);
    if r.Some? {
      forall q | q in l.leaving ensures exists other {:trigger s.calls[id := r.value][other]} ::
          other in s.calls[id := r.value] && s.calls[id := r.value][other] == UnlinkPlain(q, true) {
        var other :| other in s.calls && s.calls[other] == UnlinkPlain(q, true);
        assert s.calls[id := r.value][other] == s.calls[other];
      }
    }
  }

  /** A call of one system call: what it may touch. */
  lemma OnceTouches(k: Codec, s: Api, op: Op)
    requires op.Close? || op.Read? || op.Write? || op.Stat? || op.Fstat?
    ensures var s' := Perform(k, s, op).0;
            && s'.os.names == s.os.names
            && (op.Write? ==> s' == s.(os := OsPwrite(s.os, op.fd, op.data, op.offset).0))
            && (!op.Write? ==> s'.os.nodes == s.os.nodes)
            && (op.Close? ==> s' == DzClose(s, op.fd).0)
            && (!op.Close? ==> s'.os.handles == s.os.handles && s'.h5fdmap == s.h5fdmap)
  {
    hide DzPread;
  }

  lemma CloseHandles(s: Api, fd: int, h5fd: int)
    requires h5fd in s.os.handles
    requires forall other {:trigger s.h5fdmap[other]} :: other in s.h5fdmap ==> s.h5fdmap[other].h5fd != h5fd
    ensures var s' := DzClose(s, fd).0;
            && h5fd in s'.os.handles && s'.os.handles[h5fd] == s.os.handles[h5fd]
            && forall other {:trigger s'.h5fdmap[other]} :: other in s'.h5fdmap ==> s'.h5fdmap[other].h5fd != h5fd
  {
  }

  lemma OnceWaits(k: Codec, s: Api, s': Api, a: Os, a': Os, l: Links, calls: map<nat, Pending>, op: Op)
    requires Rel(k, s, a, l) && AllWaiting(s, a, l, calls)
    requires op.Close? || op.Read? || op.Write? || op.Stat? || op.Fstat?
    requires s' == Perform(k, s, op).0 && Rel(k, s', a', l)
    ensures AllWaiting(s', a', l, calls)
  {
    hide Rel, UserPath, Hidden, Perform, DzClose, OsPwrite;
    OnceTouches(k, s, op);
    forall id | id in calls ensures Waiting(s', a', l, calls[id]) {
      var p := calls[id];
      if p.OpenHandle? && op.Close? {
        CloseHandles(s, op.fd, p.h5fd);
      }
      WaitsOn(k, s, s', a, a', l, l, p);
    }
  }

  lemma OnceSpares(k: Codec, s: Api, s': Api, a: Os, a': Os, l: Links, jobs: seq<Job>, op: Op)
    requires Sound(k) && Rel(k, s, a, l) && AllGoing(k, s.os, a, jobs) && Staying(l, jobs)
    requires op.Close? || op.Read? || op.Write? || op.Stat? || op.Fstat?
    requires op.Write? ==> NotWritten(s.os, jobs, op.fd)
    requires s' == Perform(k, s, op).0 && Rel(k, s', a', l)
    ensures AllGoing(k, s'.os, a', jobs)
  {
    hide Rel, UserPath, Hidden, Perform, DzClose, OsPwrite, InOrder, Sound, SameTrio;
    OnceTouches(k, s, op);
    forall i | 0 <= i < |jobs| ensures InOrder(k, s'.os, a', jobs[i]) {
      NamesUser(k, s.os, a, jobs[i]);
      if UnderWay(jobs[i].worker.stage) {
        UnderWayFiles(k, s.os, a, jobs[i]);
        if op.Write? {
          WriteSpares(k, s, a, l, op.fd, op.data, op.offset, jobs[i].path);
        } else {
          SameIsSame(s.os, s'.os, jobs[i].path);
        }
      }
      JobStays(k, s, s', a, a', l, l, jobs[i]);
    }
  }

  /** A call that is one system call. */
  lemma OnceKeeps(k: Codec, s: System, a: Os, l: Links, op: Op)
    requires Sound(k) && Good(k, s, a, l) && Proper(k, s, Once(op))
    ensures var (s', reply) := Do(k, s, Once(op)); Good(k, s', Follows(a, s, Once(op), reply), l)
    ensures Right(k, s.api, a, l, op)
    ensures !op.Read? ==> (Perform(k, s.api, op).1.Failed? <==> Plainly(a, op).1.Failed?)
  {
    hide Rel, UserPath, Hidden, Perform, Plainly, Follow, Expected, Aborts, Refused, Sound, AllGoing, AllWaiting,
      CallsApart, Staying,
      Leavers, Emptied, NotWritten;
    if op.Stat? {
      NotLeaving(l, s.calls, op.path);
    }
    CallRight(k, s.api, a, l, op);
    NoAbort(s.api, op);
    NoRefusal(k, s.api, a, op);
    var (s', reply) := Perform(k, s.api, op);
    var a' := Follow(a, op, reply);
    OnceWaits(k, s.api, s', a, a', l, s.calls, op);
    OnceSpares(k, s.api, s', a, a', l, s.jobs, op);
  }

  // ----- every run -----

  ghost predicate Sees(k: Codec, s: System, a: Os) {
    exists l :: Good(k, s, a, l)
  }

  /** A conversion has emptied this placeholder and not yet, or never, given it its length. */
  ghost predicate EmptiedBy(jobs: seq<Job>, n: nat) {
    exists i {:trigger jobs[i]} :: 0 <= i < |jobs| && jobs[i].emptied == Some(n)
        && (jobs[i].worker.stage.Extend? || jobs[i].worker.stage.Done?)
  }

  /** The inode a stat is about. */
  function StatOf(a: Os, op: Op): Option<nat> {
    match op
    case Stat(path) => if path in a.names then Some(a.names[path]) else None
    case Fstat(fd) => if fd in a.fds then Some(a.fds[fd].ino) else None
    case _ => None
  }

  /** The reply is the plain store's; only a stat of an emptied placeholder says 0. */
  ghost predicate PlainReply(s: System, a: Os, e: Event, reply: Reply) {
    match e
    case Go(id, pick, ok) => id in s.calls && reply == Plainly(a, OpOf(s.calls[id], pick, ok)).1
    case Once(op) =>
      || reply == Plainly(a, op).1
      || (reply == Size(0) && StatOf(a, op).Some? && EmptiedBy(s.jobs, StatOf(a, op).value))
    case _ => false
  }

  /** The call that ends with this event fails. */
  ghost predicate CallFails(k: Codec, s: System, a: Os, e: Event) {
    match e
    case Enter(_, call, statOk) => Refuses(s.api.os, call, statOk)
    case Go(id, pick, ok) =>
      id in s.calls && Act(s.api, s.calls[id], pick, ok).1.Ret? && ActFails(a, s.calls[id], pick, ok)
    case Once(op) => Plainly(a, op).1.Failed? || Refused(k, s.api, a, op)
    case _ => false
  }

  lemma WhoEmptied(k: Codec, s: System, a: Os, l: Links, n: nat)
    requires Good(k, s, a, l) && n in l.short
    ensures EmptiedBy(s.jobs, n)
  {
    hide Rel, AllWaiting, CallsApart, Leavers, Staying, Going, UserPath;
    var i :| 0 <= i < |s.jobs| && s.jobs[i].emptied == Some(n);
    assert InOrder(k, s.api.os, a, s.jobs[i]);
  }

  lemma ShortReply(s: Api, a: Os, l: Links, op: Op)
    ensures var reply := Expected(Pair(s, a, l.short), op);
            || reply == Plainly(a, op).1
            || (reply == Size(0) && StatOf(a, op).Some? && StatOf(a, op).value in l.short)
  {
    hide Plainly;
  }

  /** One event keeps the refinement; a call it completes gives the plain store's answer, or fails as it may. */
  lemma EventKeeps(k: Codec, s: System, a: Os, e: Event)
    requires Sound(k) && Sees(k, s, a) && Proper(k, s, e)
    ensures var (s', reply) := Do(k, s, e);
            && Sees(k, s', Follows(a, s, e, reply))
            && (reply.Some? ==> NoAnswer(reply.value) || PlainReply(s, a, e, reply.value))
  {
    hide Good, Rel, Act, Plainly, Perform, Expected, Aborts, Sound, Proper, ActFails, EmptiedBy, StatOf, Check,
      WorkOn, OpOf, Follow;
    var l :| Good(k, s, a, l);
    match e {
      case Begin(path) => BeginKeeps(k, s, a, l, path);
      case Work(i, answer, ino) =>
        if i < |s.jobs| {
          var l' := WorkKeeps(k, s, a, l, i, answer, ino);
        }
      case Enter(id, call, statOk) => EnterKeeps(k, s, a, l, id, call, statOk);
      case Go(id, pick, ok) =>
        if id in s.calls {
          var l' := GoKeeps(k, s, a, l, id, pick, ok);
        }
      case Once(op) =>
        OnceKeeps(k, s, a, l, op);
        ShortReply(s.api, a, l, op);
        if StatOf(a, op).Some? && StatOf(a, op).value in l.short {
          WhoEmptied(k, s, a, l, StatOf(a, op).value);
        }
        NeverAborts(k, s, op);
    }
  }

  lemma NeverAborts(k: Codec, s: System, op: Op)
    requires Proper(k, s, Once(op))
    ensures !Aborts(s.api, op)
  {
  }

  /**
   A call fails exactly when the plain store's does, or the check or the container stands in its
   way; its result is not specified exactly where a read's is not.
   */
  lemma EventFails(k: Codec, s: System, a: Os, e: Event)
    requires Sound(k) && Sees(k, s, a) && Proper(k, s, e)
    requires e.Once? && e.op.Read? && FdData(a, e.op.fd).Some? ==> Addressable(FdData(a, e.op.fd).value)
    ensures Do(k, s, e).1 == Some(Failed) <==> CallFails(k, s, a, e)
    ensures Do(k, s, e).1 == Some(Unspecified) <==> e.Once? && Strays(k, s.api, a, e.op)
  {
    hide Rel, Act, Plainly, Perform, Expected, Aborts, Sound, ActFails, EmptiedBy, StatOf, Check, WorkOn, OpOf,
      Follow, Refused,
      Refuses, AllGoing, AllWaiting, CallsApart, Staying, Leavers, Emptied, FdData, Addressable;
    var l :| Good(k, s, a, l);
    match e {
      case Enter(id, call, statOk) => EnterKeeps(k, s, a, l, id, call, statOk);
      case Go(id, pick, ok) =>
        if id in s.calls {
          var l' := GoKeeps(k, s, a, l, id, pick, ok);
        }
      case Once(op) =>
        OnceKeeps(k, s, a, l, op);
        NoRefusal(k, s.api, a, op);
        if op.Read? {
          ReadEnds(k, s.api, a, l, op);
        }
      case _ =>
    }
  }

  /** The system and the plain store after these events. */
  function AfterEvents(k: Codec, s: System, a: Os, events: seq<Event>): (System, Os) {
    if |events| == 0 then (s, a)
    else
      var (s1, a1) := AfterEvents(k, s, a, events[..|events| - 1]);
      var (s2, reply) := Do(k, s1, events[|events| - 1]);
      (s2, Follows(a1, s1, events[|events| - 1], reply))
  }

  ghost predicate ProperRun(k: Codec, s: System, a: Os, events: seq<Event>) {
    forall i {:trigger events[i]} :: 0 <= i < |events| ==> Proper(k, AfterEvents(k, s, a, events[..i]).0, events[i])
  }

  lemma ProperPrefix(k: Codec, s: System, a: Os, events: seq<Event>, n: nat)
    requires ProperRun(k, s, a, events) && n <= |events|
    ensures ProperRun(k, s, a, events[..n])
  {
    hide Proper, AfterEvents;
    forall i | 0 <= i < n ensures Proper(k, AfterEvents(k, s, a, events[..n][..i]).0, events[..n][i]) {
      assert events[..n][..i] == events[..i] && events[..n][i] == events[i];
    }
  }

  lemma {:induction false} RunSees(k: Codec, s: System, a: Os, events: seq<Event>)
    requires Sound(k) && Sees(k, s, a) && ProperRun(k, s, a, events)
    ensures var (s', a') := AfterEvents(k, s, a, events); Sees(k, s', a')
  {
    hide Sees, Do, Proper, Follows, Sound;
    if |events| > 0 {
      var n := |events| - 1;
      ProperPrefix(k, s, a, events, n);
      RunSees(k, s, a, events[..n]);
      var (s1, a1) := AfterEvents(k, s, a, events[..n]);
      EventKeeps(k, s1, a1, events[n]);
    }
  }

  /**
   Transparency at the grain of system calls. However the calls of converters and users interleave,
   each user's call that succeeds gives the plain store's answer, taken at its last system call;
   only stat says 0 of a placeholder that a conversion has emptied and not, or never, extended.
   */
  lemma ConcurrentTransparent(k: Codec, s: System, a: Os, events: seq<Event>, i: nat)
    requires Sound(k) && Sees(k, s, a) && ProperRun(k, s, a, events) && i < |events|
    ensures var (s1, a1) := AfterEvents(k, s, a, events[..i]); var reply := Do(k, s1, events[i]).1;
            reply.Some? ==> NoAnswer(reply.value) || PlainReply(s1, a1, events[i], reply.value)
  {
    hide Sees, Do, Proper, PlainReply, Follows, Sound;
    ProperPrefix(k, s, a, events, i);
    RunSees(k, s, a, events[..i]);
    var (s1, a1) := AfterEvents(k, s, a, events[..i]);
    EventKeeps(k, s1, a1, events[i]);
  }

  /** Any file system of plain files, with nothing open, converted or begun, is a start. */
  lemma StartSees(k: Codec, os: Os)
    requires AllPlain(os)
    ensures Sees(k, System(Api(os, map[]), [], map[]), PlainPart(os))
  {
    hide Rel, PlainPart, AllPlain;
    StartRefines(k, os);
    assert Good(k, System(Api(os, map[]), [], map[]), PlainPart(os), Links(map[], {}, {}));
  }

  /** While a conversion stands between its truncates, stat says 0. */
  lemma StatWhileEmpty(k: Codec, s: System, a: Os, i: nat)
    requires Sound(k) && Sees(k, s, a) && i < |s.jobs| && s.jobs[i].worker.stage.Extend?
    ensures Do(k, s, Once(Stat(s.jobs[i].path))).1 == Some(Size(0))
    ensures Plainly(a, Stat(s.jobs[i].path)).1 == Size(s.jobs[i].worker.stage.size)
  {
    hide Rel, AllWaiting, CallsApart, Leavers, Staying, Emptied, UserPath, Hidden, Temp, InStep, Sound;
    var l :| Good(k, s, a, l);
    var job := s.jobs[i];
    assert InOrder(k, s.api.os, a, job);
    ViewNow(k, Content(a, job.path).value.data, Task(OsView(s.api.os, job.path), job.worker));
  }
}
