/**
 Open containers (src/dzfile-api.c, dzfile_open and dzfile_close): no call leaves a handle behind.
 At any point of any run the open handles are exactly those that an entry of the descriptor map,
 or an open that is under way, still has; only an open that aborts loses one.
 */
module Handles {
  import opened CStrings
  import opened Names
  import opened Container
  import opened Conversion
  import opened ClientReads
  import opened Store
  import opened Relation
  import opened Converting
  import opened Refinement
  import opened ConcurrentUse
  import opened ConcurrentRuns

  ghost predicate InMap(h5fdmap: map<int, Dzfd>, h: int) {
    exists fd {:trigger h5fdmap[fd]} :: fd in h5fdmap && h5fdmap[fd].h5fd == h
  }

  ghost predicate InCall(calls: map<nat, Pending>, h: int) {
    exists id {:trigger calls[id]} :: id in calls && calls[id].OpenHandle? && calls[id].h5fd == h
  }

  /** No handle is open that nobody has. */
  ghost predicate NoneLost(s: Api, calls: map<nat, Pending>) {
    forall h {:trigger h in s.os.handles} :: h in s.os.handles ==> InMap(s.h5fdmap, h) || InCall(calls, h)
  }

  // ----- one call -----

  lemma EntryStays(h5fdmap: map<int, Dzfd>, fd: int, entry: Dzfd, h: int)
    requires fd !in h5fdmap
    ensures InMap(h5fdmap[fd := entry], h) <==> InMap(h5fdmap, h) || h == entry.h5fd
  {
    var h5fdmap' := h5fdmap[fd := entry];
    assert h5fdmap'[fd] == entry;
    if InMap(h5fdmap, h) {
      var other :| other in h5fdmap && h5fdmap[other].h5fd == h;
      assert h5fdmap'[other] == h5fdmap[other];
    }
  }

  lemma EntryGoes(h5fdmap: map<int, Dzfd>, fd: int, h: int)
    requires InMap(h5fdmap, h) && (fd in h5fdmap ==> h5fdmap[fd].h5fd != h)
    ensures InMap(h5fdmap - {fd}, h)
  {
    var other :| other in h5fdmap && h5fdmap[other].h5fd == h;
    assert (h5fdmap - {fd})[other] == h5fdmap[other];
  }

  lemma OpenLeaves(os: Os, path: string, flags: Flags, pick: Pick)
    ensures var (os', fd) := OsOpen(os, path, flags, pick);
            os'.handles == os.handles && (fd == pick.fd || (fd == -1 && os' == os))
  {
  }

  lemma OtherLeaves(os: Os, path: string, length: nat)
    ensures OsUnlink(os, path).handles == os.handles && OsTruncate(os, path, length).0.handles == os.handles
  {
  }

  lemma CallStays(calls: map<nat, Pending>, id: nat, next: Next, h: int)
    requires InCall(calls, h) && id in calls && !(calls[id].OpenHandle? && calls[id].h5fd == h)
    ensures InCall(CallsAfter(calls, id, next), h)
  {
    var other :| other in calls && calls[other].OpenHandle? && calls[other].h5fd == h;
    assert CallsAfter(calls, id, next)[other] == calls[other];
  }

  /** What a system call of an open, a truncate or an unlink does to the map and the handles. */
  lemma ActLeaves(s: Api, p: Pending, pick: Pick, ok: bool)
    requires p.OpenHandle? ==> pick.fd != DELETED_KEY
    ensures var (s', next) := Act(s, p, pick, ok);
            match p
            case OpenBoxed(path, flags) =>
              s'.h5fdmap == s.h5fdmap
              && (s'.os.handles == s.os.handles
                  || (&& s'.os.handles.Keys == s.os.handles.Keys + {pick.h5fd}
                      && next == More(OpenHandle(path, flags, pick.h5fd))))
            case OpenHandle(_, _, h5fd) =>
              s'.os.handles == s.os.handles
              && (next == Ret(Aborted) || (s'.h5fdmap == s.h5fdmap[pick.fd := Dzfd(pick.fd, h5fd)] && next.Ret?))
            case _ => s'.h5fdmap == s.h5fdmap && s'.os.handles == s.os.handles
  {
    hide Hidden, OsOpen, OsTruncate, OsUnlink;
    match p {
      case OpenPlain(path, flags) => OpenLeaves(s.os, path, flags, pick);
      case OpenBoxed(path, flags) =>
      case OpenHandle(path, flags, h5fd) => OpenLeaves(s.os, path, flags, pick);
      case Resize(path, length) => OtherLeaves(s.os, path, length);
      case UnlinkBoxed(path) => OtherLeaves(s.os, Hidden(path), 0);
      case UnlinkPlain(path, _) => OtherLeaves(s.os, path, 0);
    }
  }

  lemma ActLosesNone(s: Api, calls: map<nat, Pending>, id: nat, pick: Pick, ok: bool)
    requires NoneLost(s, calls) && id in calls && pick.fd !in s.h5fdmap
    requires Act(s, calls[id], pick, ok).1 != Ret(Aborted)
    ensures var (s', next) := Act(s, calls[id], pick, ok); NoneLost(s', CallsAfter(calls, id, next))
  {
    hide InMap, InCall;
    var p := calls[id];
    var (s', next) := Act(s, p, pick, ok);
    AbortsAt(s, p, pick, ok);
    hide Act;
    ActLeaves(s, p, pick, ok);
    forall h | h in s'.os.handles ensures InMap(s'.h5fdmap, h) || InCall(CallsAfter(calls, id, next), h) {
      if h !in s.os.handles {
        JustOpened(CallsAfter(calls, id, next), id, h);
      } else {
        if p.OpenHandle? {
          EntryStays(s.h5fdmap, pick.fd, Dzfd(pick.fd, p.h5fd), h);
        }
        if InCall(calls, h) && !(p.OpenHandle? && p.h5fd == h) {
          CallStays(calls, id, next, h);
        }
      }
    }
  }

  lemma AbortsAt(s: Api, p: Pending, pick: Pick, ok: bool)
    ensures Act(s, p, pick, ok).1 != Ret(Aborted) && p.OpenHandle? ==> pick.fd != DELETED_KEY
  {
  }

  lemma JustOpened(calls: map<nat, Pending>, id: nat, h: int)
    requires id in calls && calls[id].OpenHandle? && calls[id].h5fd == h
    ensures InCall(calls, h)
  {
  }

  lemma CloseLosesNone(s: Api, calls: map<nat, Pending>, fd: int)
    requires NoneLost(s, calls) && (fd in s.h5fdmap ==> s.h5fdmap[fd].fd == fd)
    ensures NoneLost(DzClose(s, fd).0, calls)
  {
    hide InMap, InCall, DzClose;
    CloseOutcome(s, fd);
    forall h | h in DzClose(s, fd).0.os.handles ensures InMap(DzClose(s, fd).0.h5fdmap, h) || InCall(calls, h) {
      if InMap(s.h5fdmap, h) {
        EntryGoes(s.h5fdmap, fd, h);
      }
    }
  }

  // ----- among other calls -----

  /** What the invariant says of the map: its keys are open descriptors that its entries name; its handles are open. */
  lemma MapIs(k: Codec, s: System, a: Os)
    requires Sees(k, s, a)
    ensures forall fd {:trigger s.api.h5fdmap[fd]} :: fd in s.api.h5fdmap ==>
              fd in s.api.os.fds && s.api.h5fdmap[fd].fd == fd && s.api.h5fdmap[fd].h5fd in s.api.os.handles
    ensures forall id {:trigger s.calls[id]} :: id in s.calls && s.calls[id].OpenHandle? ==>
              s.calls[id].h5fd in s.api.os.handles
  {
    hide SameNames, SameData, SameFds, TempsApart, Tidy, Connected, AllGoing, CallsApart, Leavers, Emptied, Staying,
      UserPath, Hidden;
    var l :| Good(k, s, a, l);
    forall id | id in s.calls && s.calls[id].OpenHandle? ensures s.calls[id].h5fd in s.api.os.handles {
      assert Waiting(s.api, a, l, s.calls[id]);
    }
  }

  lemma EnterLosesNone(k: Codec, s: System, id: nat, call: Call, statOk: bool)
    requires NoneLost(s.api, s.calls) && id !in s.calls
    ensures var s' := Do(k, s, Enter(id, call, statOk)).0; NoneLost(s'.api, s'.calls)
  {
    hide InMap, Check, InCall;
    var s' := Do(k, s, Enter(id, call, statOk)).0;
    forall h | h in s'.api.os.handles ensures InMap(s'.api.h5fdmap, h) || InCall(s'.calls, h) {
      if InCall(s.calls, h) {
        MoreCalls(s.calls, s'.calls, h);
      }
    }
  }

  lemma MoreCalls(calls: map<nat, Pending>, calls': map<nat, Pending>, h: int)
    requires InCall(calls, h)
    requires forall id {:trigger calls[id]} :: id in calls ==> id in calls' && calls'[id] == calls[id]
    ensures InCall(calls', h)
  {
    var id :| id in calls && calls[id].OpenHandle? && calls[id].h5fd == h;
    assert calls'[id] == calls[id];
  }

  lemma WorkLeaves(k: Codec, s: System, i: nat, answer: Answer, ino: nat)
    ensures var s' := Do(k, s, Work(i, answer, ino)).0;
            s'.api.h5fdmap == s.api.h5fdmap && s'.api.os.handles == s.api.os.handles && s'.calls == s.calls
  {
    hide Step, Change, OsView;
    if i < |s.jobs| {
      var job := s.jobs[i];
      var t := Step(k, Task(OsView(s.api.os, job.path), job.worker), answer);
      OpenStays(s.api.os, job.path, job.worker.stage, t, ino);
    }
  }

  /** No event but an open that aborts loses a handle. */
  lemma EventLosesNone(k: Codec, s: System, a: Os, e: Event)
    requires Sees(k, s, a) && Proper(k, s, e) && NoneLost(s.api, s.calls) && Do(k, s, e).1 != Some(Aborted)
    ensures var s' := Do(k, s, e).0; NoneLost(s'.api, s'.calls)
  {
    MapIs(k, s, a);
    hide Sees, InMap, InCall, Act, Perform, WorkOn, Check;
    match e {
      case Begin(path) =>
      case Work(i, answer, ino) => WorkLeaves(k, s, i, answer, ino);
      case Enter(id, call, statOk) => EnterLosesNone(k, s, id, call, statOk);
      case Go(id, pick, ok) =>
        if id in s.calls {
          ActLosesNone(s.api, s.calls, id, pick, ok);
        }
      case Once(op) =>
        OnceTouches(k, s.api, op);
        if op.Close? {
          CloseLosesNone(s.api, s.calls, op.fd);
        }
    }
  }

  /** No event of the run is an open that aborts. */
  ghost predicate NeverAborted(k: Codec, s: System, a: Os, events: seq<Event>) {
    forall i {:trigger events[i]} :: 0 <= i < |events| ==>
      Do(k, AfterEvents(k, s, a, events[..i]).0, events[i]).1 != Some(Aborted)
  }

  lemma {:induction false} RunLosesNone(k: Codec, s: System, a: Os, events: seq<Event>)
    requires Sound(k) && Sees(k, s, a) && ProperRun(k, s, a, events) && NeverAborted(k, s, a, events)
    requires NoneLost(s.api, s.calls)
    ensures var s' := AfterEvents(k, s, a, events).0; NoneLost(s'.api, s'.calls)
  {
    hide Sees, Do, Proper, Follows, Sound, NoneLost;
    if |events| > 0 {
      var n := |events| - 1;
      ProperPrefix(k, s, a, events, n);
      assert NeverAborted(k, s, a, events[..n]) by {
        forall i | 0 <= i < n
          ensures Do(k, AfterEvents(k, s, a, events[..n][..i]).0, events[..n][i]).1 != Some(Aborted)
        {
          assert events[..n][..i] == events[..i] && events[..n][i] == events[i];
        }
      }
      RunLosesNone(k, s, a, events[..n]);
      RunSees(k, s, a, events[..n]);
      var (s1, a1) := AfterEvents(k, s, a, events[..n]);
      EventLosesNone(k, s1, a1, events[n]);
    }
  }

  /**
   The handles that are open, at any point of any interleaving of calls and conversions that began
   with none and in which no open aborted: those of the entries of the map, and those of the opens
   that have their container and not yet their descriptor.
   */
  lemma HandlesExactly(k: Codec, os: Os, events: seq<Event>, h: int)
    requires Sound(k) && AllPlain(os) && os.handles == map[]
    requires var s := System(Api(os, map[]), [], map[]);
             ProperRun(k, s, PlainPart(os), events) && NeverAborted(k, s, PlainPart(os), events)
    ensures var s' := AfterEvents(k, System(Api(os, map[]), [], map[]), PlainPart(os), events).0;
            h in s'.api.os.handles <==> InMap(s'.api.h5fdmap, h) || InCall(s'.calls, h)
  {
    hide AllPlain, Sees, AfterEvents, ProperRun, NeverAborted, PlainPart, Sound;
    var s := System(Api(os, map[]), [], map[]);
    StartSees(k, os);
    RunLosesNone(k, s, PlainPart(os), events);
    RunSees(k, s, PlainPart(os), events);
    var (s', a') := AfterEvents(k, s, PlainPart(os), events);
    MapIs(k, s', a');
  }

  // ----- call after call -----

  /** An open as a whole is a check and one or two system calls. */
  lemma WholeLosesNone(s: Api, call: Call, statOk: bool, pick: Pick, ok: bool, ok': bool)
    requires NoneLost(s, map[]) && pick.fd !in s.h5fdmap
    requires Whole(s, call, statOk, pick, ok, ok').1 != Aborted
    ensures NoneLost(Whole(s, call, statOk, pick, ok, ok').0, map[])
  {
    hide NoneLost, Act, Check;
    match Check(s.os, call, statOk)
    case None =>
    case Some(p) =>
      CallsAdd(s, p);
      ActLosesNone(s, map[0 := p], 0, pick, ok);
      var (s', next) := Act(s, p, pick, ok);
      SameKeys(s, p, pick, ok);
      assert map[0 := p] - {0} == map[];
      if next.More? {
        assert map[0 := p][0 := next.pending] == map[0 := next.pending];
        TwoSteps(s, p, pick, ok, ok');
        ActLosesNone(s', map[0 := next.pending], 0, pick, ok');
        assert map[0 := next.pending] - {0} == map[];
      }
  }

  lemma CallsAdd(s: Api, p: Pending)
    requires NoneLost(s, map[])
    ensures NoneLost(s, map[0 := p])
  {
    forall h | h in s.os.handles ensures InMap(s.h5fdmap, h) {
      assert !InCall(map[], h);
    }
  }

  lemma SameKeys(s: Api, p: Pending, pick: Pick, ok: bool)
    ensures Act(s, p, pick, ok).1.More? ==> Act(s, p, pick, ok).0.h5fdmap == s.h5fdmap
  {
  }

  /** The second system call is the last. */
  lemma TwoSteps(s: Api, p: Pending, pick: Pick, ok: bool, ok': bool)
    ensures var (s', next) := Act(s, p, pick, ok); next.More? ==> Act(s', next.pending, pick, ok').1.Ret?
  {
    hide Hidden, OsOpen, OsUnlink;
  }

  lemma {:induction false} ConvertLeaves(k: Codec, os: Os, path: string, t: Task, answers: seq<Answer>, i: nat,
          ino: nat)
    ensures ConvertOs(k, os, path, t, answers, i, ino).handles == os.handles
    decreases Measure(t)
  {
    hide Step, Change, Measure;
    if !t.worker.stage.Done? {
      var t' := Step(k, t, AnswerAt(answers, i));
      OpenStays(os, path, t.worker.stage, t', ino);
      StepMakesProgress(k, t, AnswerAt(answers, i));
      ConvertLeaves(k, Change(os, path, t.worker.stage, t', ino), path, t', answers, i + 1, ino);
    }
  }

  lemma StepLosesNone(k: Codec, pair: Pair, op: Op)
    requires Refines(k, pair) && Legal(pair.api, op) && NoneLost(pair.api, map[])
    requires !Perform(k, pair.api, op).1.Aborted?
    ensures NoneLost(Perform(k, pair.api, op).0, map[])
  {
    PairMap(k, pair);
    var s := pair.api;
    hide Refines, NoneLost, Whole, DzClose, ConvertOs, FindHidden, OsPwrite, Hidden;
    match op {
      case Open(path, flags, statOk, pick) => WholeLosesNone(s, OpenCall(path, flags), statOk, pick, true, true);
      case Close(fd) => CloseLosesNone(s, map[], fd);
      case Truncate(path, length, statOk, ok) => SmallWhole(s, TruncateCall(path, length), statOk, ok, true);
      case Unlink(path, statOk, hiddenOk, plainOk) =>
        var first := FindHidden(s.os, path, statOk) == 1;
        SmallWhole(s, UnlinkCall(path), statOk, if first then hiddenOk else plainOk, plainOk);
      case Write(fd, data, offset) => SameHandles(s, s.(os := OsPwrite(s.os, fd, data, offset).0), op);
      case Convert(path, answers, ino) =>
        ConvertLeaves(k, s.os, path, Task(OsView(s.os, path), Fresh(Zstd)), answers, 0, ino);
        SameHandles(s, DzConvert(k, s, path, answers, ino).0, op);
      case _ =>
    }
  }

  lemma SameHandles(s: Api, s': Api, op: Op)
    requires NoneLost(s, map[]) && s'.h5fdmap == s.h5fdmap
    requires op.Write? || s'.os.handles == s.os.handles
    requires op.Write? ==> s' == s.(os := OsPwrite(s.os, op.fd, op.data, op.offset).0)
    ensures NoneLost(s', map[])
  {
  }

  lemma PairMap(k: Codec, pair: Pair)
    requires Refines(k, pair)
    ensures forall fd {:trigger pair.api.h5fdmap[fd]} :: fd in pair.api.h5fdmap ==>
              && fd in pair.api.os.fds && fd >= 0 && pair.api.h5fdmap[fd].fd == fd
              && pair.api.h5fdmap[fd].h5fd in pair.api.os.handles
  {
    hide SameNames, SameData, TempsApart, Tidy, Connected;
    var boxed: map<nat, nat> :| Rel(k, pair.api, pair.plain, Links(boxed, pair.short, {}));
  }

  lemma SmallWhole(s: Api, call: Call, statOk: bool, ok: bool, ok': bool)
    requires !call.OpenCall? && NoneLost(s, map[])
    requires forall fd {:trigger s.h5fdmap[fd]} :: fd in s.h5fdmap ==> fd >= 0
    requires Whole(s, call, statOk, NO_PICK, ok, ok').1 != Aborted
    ensures NoneLost(Whole(s, call, statOk, NO_PICK, ok, ok').0, map[])
  {
    hide NoneLost, Whole;
    assert -1 !in s.h5fdmap;
    WholeLosesNone(s, call, statOk, NO_PICK, ok, ok');
  }

  /** The same for calls one after the other: the open handles are those of the map, if no open aborted. */
  lemma HandlesOfMap(k: Codec, pair: Pair, ops: seq<Op>)
    requires Sound(k) && Refines(k, pair) && LegalRun(k, pair, ops) && NoneLost(pair.api, map[])
    requires NoneAborts(k, pair, ops)
    ensures var s := AfterAll(k, pair, ops).api;
            forall h {:trigger h in s.os.handles} :: h in s.os.handles <==> InMap(s.h5fdmap, h)
  {
    hide Refines, LegalRun, NoneAborts, AfterAll, Sound;
    OpsLoseNone(k, pair, ops);
    RunRefines(k, pair, ops);
    PairMap(k, AfterAll(k, pair, ops));
  }

  ghost predicate NoneAborts(k: Codec, pair: Pair, ops: seq<Op>) {
    forall i {:trigger ops[i]} :: 0 <= i < |ops| ==> !Perform(k, AfterAll(k, pair, ops[..i]).api, ops[i]).1.Aborted?
  }

  lemma {:induction false} OpsLoseNone(k: Codec, pair: Pair, ops: seq<Op>)
    requires Sound(k) && Refines(k, pair) && LegalRun(k, pair, ops) && NoneLost(pair.api, map[])
    requires NoneAborts(k, pair, ops)
    ensures NoneLost(AfterAll(k, pair, ops).api, map[])
  {
    hide Refines, Perform, Legal, Sound, ShortAfter, Follow, NoneLost;
    if |ops| > 0 {
      var n := |ops| - 1;
      LegalPrefix(k, pair, ops, n);
      forall i | 0 <= i < n ensures !Perform(k, AfterAll(k, pair, ops[..n][..i]).api, ops[..n][i]).1.Aborted? {
        assert ops[..n][..i] == ops[..i] && ops[..n][i] == ops[i];
      }
      OpsLoseNone(k, pair, ops[..n]);
      RunRefines(k, pair, ops[..n]);
      StepLosesNone(k, AfterAll(k, pair, ops[..n]), ops[n]);
    }
  }
}
