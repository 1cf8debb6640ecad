/**
 Several workers on one path (src/dzfile-walker.cc): every scan enqueues an old file again, so two
 workers can hold the same one. The two stats of a conversion (src/dzfile-intern.cc) are all that
 keeps them apart: when that is enough, and a run in which it is not.
 */
module SamePath {
  import opened CStrings
  import opened Names
  import opened Container
  import opened Conversion
  import opened Volumes
  import opened Interleaving

  // ----- when it is enough -----

  /** Past its two checks, and not at its end. */
  predicate Active(w: Worker) {
    !w.stage.CheckHidden? && !w.stage.CheckTemp? && !w.stage.Done?
  }

  /** This call is a worker's second stat, and does not stop it. */
  predicate Passes(s: World, e: Event) {
    && e.worker < |s.jobs| && s.jobs[e.worker].worker.stage.CheckTemp?
    && (ViewOf(s.files, s.jobs[e.worker].path).temp.None? || e.answer.Fail?)
  }

  /**
   A worker that passes its checks on this path finds the file in place, or no container by then,
   and no other worker between its checks and its end.
   */
  ghost predicate Clear(s: World, e: Event, path: string, file: Bytes) {
    Passes(s, e) && s.jobs[e.worker].path == path ==>
      && (ViewOf(s.files, path).hidden.None? || ViewOf(s.files, path).plain == Some(Raw(file)))
      && forall j {:trigger s.jobs[j]} :: 0 <= j < |s.jobs| && s.jobs[j].path == path ==> !Active(s.jobs[j].worker)
  }

  ghost predicate AlwaysClear(k: Codec, s: World, schedule: seq<Event>, path: string, file: Bytes) {
    forall i {:trigger schedule[i]} :: 0 <= i < |schedule| ==>
      Clear(RunWorld(k, s, schedule[..i]), schedule[i], path, file)
  }

  /** A worker before its checks is as it was made. */
  predicate Unstarted(w: Worker) {
    && (w.stage.CheckHidden? ==> w == Fresh(w.alg))
    && (w.stage.CheckTemp? ==> w == Fresh(w.alg).(stage := CheckTemp))
  }

  /** An active worker is in the machine's invariant, from files among which this one was in place. */
  ghost predicate Working(k: Codec, file: Bytes, v: View, w: Worker) {
    Active(w) ==> exists v0: View :: v0.plain == Some(Raw(file)) && Inv(k, file, v0, Task(v, w))
  }

  /** What every such run keeps. */
  ghost predicate Kept(k: Codec, s: World, path: string, file: Bytes) {
    && Recoverable(k, ViewOf(s.files, path), file)
    && (forall i {:trigger s.jobs[i]} :: 0 <= i < |s.jobs| ==>
          && Visible(s.jobs[i].path) && Unstarted(s.jobs[i].worker)
          && (s.jobs[i].path == path ==> Working(k, file, ViewOf(s.files, path), s.jobs[i].worker)))
    && (forall i, j {:trigger s.jobs[i], s.jobs[j]} ::
          0 <= i < j < |s.jobs| && s.jobs[i].path == path && s.jobs[j].path == path ==>
            !Active(s.jobs[i].worker) || !Active(s.jobs[j].worker))
  }

  lemma StepStarts(k: Codec, t: Task, answer: Answer)
    requires Unstarted(t.worker)
    ensures Unstarted(Step(k, t, answer).worker)
    ensures Active(Step(k, t, answer).worker) ==> Active(t.worker) || t.worker.stage.CheckTemp?
    ensures !Active(t.worker) ==> Step(k, t, answer).view == t.view
  {
  }

  /** A call of the active worker, or of one that has just found the way clear. */
  lemma StepWorks(k: Codec, file: Bytes, t: Task, answer: Answer)
    requires Sound(k) && Unstarted(t.worker) && Recoverable(k, t.view, file) && Working(k, file, t.view, t.worker)
    requires t.worker.stage.CheckTemp? && (t.view.temp.None? || answer.Fail?) ==>
               t.view.hidden.None? || t.view.plain == Some(Raw(file))
    ensures var t' := Step(k, t, answer);
            Recoverable(k, t'.view, file) && Working(k, file, t'.view, t'.worker)
  {
    hide Inv, Recoverable;
    var t' := Step(k, t, answer);
    if Active(t.worker) {
      var v0: View :| v0.plain == Some(Raw(file)) && Inv(k, file, v0, t);
      StepKeepsInv(k, file, v0, t, answer);
      InvRecoverable(k, file, v0, t');
    } else {
      StepStarts(k, t, answer);
      if Active(t'.worker) {
        InPlace(k, t.view, file);
        assert Inv(k, file, t.view, t') by { JustOpened(k, file, t, answer); }
      }
    }
  }

  lemma InPlace(k: Codec, v: View, file: Bytes)
    requires Recoverable(k, v, file) && (v.hidden.None? || v.plain == Some(Raw(file)))
    ensures v.plain == Some(Raw(file))
  {
  }

  lemma JustOpened(k: Codec, file: Bytes, t: Task, answer: Answer)
    requires Unstarted(t.worker) && !Active(t.worker) && Active(Step(k, t, answer).worker)
    ensures Inv(k, file, t.view, Step(k, t, answer))
  {
  }

  lemma StepKept(k: Codec, s: World, e: Event, path: string, file: Bytes)
    requires Sound(k) && Visible(path) && Kept(k, s, path, file) && Clear(s, e, path, file)
    ensures Kept(k, StepWorld(k, s, e), path, file)
  {
    if e.worker < |s.jobs| {
      hide Recoverable, Inv, Step, Visible, Put, Unstarted, Active, Working, ViewOf;
      var job := s.jobs[e.worker];
      var t := Task(ViewOf(s.files, job.path), job.worker);
      var t', s' := Step(k, t, e.answer), StepWorld(k, s, e);
      PutIsLocal(s.files, job.path, t'.view);
      StepStarts(k, t, e.answer);
      if job.path == path {
        StepWorks(k, file, t, e.answer);
        forall j | 0 <= j < |s.jobs| && j != e.worker && s.jobs[j].path == path
          ensures Working(k, file, t'.view, s.jobs[j].worker) && (!Active(s.jobs[j].worker) || !Active(t'.worker))
        {
          if Active(s.jobs[j].worker) {
            assert !Active(job.worker);
            assert !Active(t'.worker) by { OnlyByPassing(k, t, e.answer); }
          } else {
            Idle(k, file, t'.view, s.jobs[j].worker);
          }
        }
      } else {
        OthersUnseen(s.files, job.path, t'.view, path);
      }
    }
  }

  lemma Idle(k: Codec, file: Bytes, v: View, w: Worker)
    requires !Active(w)
    ensures Working(k, file, v, w)
  {
  }

  lemma OnlyByPassing(k: Codec, t: Task, answer: Answer)
    requires !Active(t.worker) && !(t.worker.stage.CheckTemp? && (t.view.temp.None? || answer.Fail?))
    ensures !Active(Step(k, t, answer).worker)
  {
  }

  /**
   Any number of workers on any paths, in any interleaving, with any failures: a file stays
   recoverable if whoever passes its checks on it finds the way clear.
   */
  lemma {:induction false} KeptWhenClear(k: Codec, s: World, schedule: seq<Event>, path: string, file: Bytes)
    requires Sound(k) && Visible(path) && Recoverable(k, ViewOf(s.files, path), file) && AllFresh(s.jobs)
    requires forall i {:trigger s.jobs[i]} :: 0 <= i < |s.jobs| ==> Visible(s.jobs[i].path)
    requires AlwaysClear(k, s, schedule, path, file)
    ensures Kept(k, RunWorld(k, s, schedule), path, file)
    ensures Recoverable(k, ViewOf(RunWorld(k, s, schedule).files, path), file)
  {
    hide Recoverable, Visible, Inv, StepWorld, Clear, ViewOf;
    if |schedule| > 0 {
      var n := |schedule| - 1;
      assert AlwaysClear(k, s, schedule[..n], path, file) by {
        forall i | 0 <= i < n
          ensures Clear(RunWorld(k, s, schedule[..n][..i]), schedule[..n][i], path, file)
        {
          assert schedule[..n][..i] == schedule[..i] && schedule[..n][i] == schedule[i];
        }
      }
      KeptWhenClear(k, s, schedule[..n], path, file);
      StepKept(k, RunWorld(k, s, schedule[..n]), schedule[n], path, file);
    }
  }

  // ----- when it is not -----

  lemma RunFrom(k: Codec, t: Task, answers: seq<Answer>)
    requires |answers| > 0
    ensures Run(k, t, answers) == Run(k, Step(k, t, answers[0]), answers[1..])
  {
    hide Step;
    if |answers| > 1 {
      var n := |answers| - 1;
      RunFrom(k, t, answers[..n]);
      assert answers[..n][1..] == answers[1..][..n - 1];
    }
  }

  lemma {:induction false} RunTwice(k: Codec, s: World, one: seq<Event>, two: seq<Event>)
    ensures RunWorld(k, s, one + two) == RunWorld(k, RunWorld(k, s, one), two)
  {
    hide StepWorld;
    if |two| == 0 {
      assert one + two == one;
    } else {
      var n := |two| - 1;
      RunTwice(k, s, one, two[..n]);
      assert (one + two)[..|one + two| - 1] == one + two[..n];
    }
  }

  /** While one worker makes all the calls, its files and position are those of its own run. */
  lemma {:induction false} RunsAlone(k: Codec, s: World, i: nat, answers: seq<Answer>)
    requires i < |s.jobs|
    ensures var s', job := RunWorld(k, s, Only(i, answers)), s.jobs[i];
            var t := Run(k, Task(ViewOf(s.files, job.path), job.worker), answers);
            ViewOf(s'.files, job.path) == t.view && s'.jobs == s.jobs[i := job.(worker := t.worker)]
  {
    hide Step, ViewOf, Put;
    if |answers| > 0 {
      var n := |answers| - 1;
      RunsAlone(k, s, i, answers[..n]);
      assert Only(i, answers)[..n] == Only(i, answers[..n]);
      var mid := RunWorld(k, s, Only(i, answers[..n]));
      var t := Step(k, Task(ViewOf(mid.files, s.jobs[i].path), mid.jobs[i].worker), answers[n]);
      PutIsLocal(mid.files, s.jobs[i].path, t.view);
    }
  }

  /**
   The state of the container at the second stat is what counts. A worker that comes to it keeps the
   file recoverable, whatever its calls are answered, exactly when the file is in place or there is
   no container by then, or nothing to read or nowhere to write.
   */
  lemma LateStatIff(k: Codec, s: World, i: nat, alg: Alg, file: Bytes)
    requires Sound(k) && i < |s.jobs| && s.jobs[i].worker == Fresh(alg).(stage := CheckTemp) && Writes(alg)
    requires Recoverable(k, ViewOf(s.files, s.jobs[i].path), file)
    ensures var path := s.jobs[i].path; var v := ViewOf(s.files, path);
            (forall answers {:trigger Only(i, answers)} ::
               Recoverable(k, ViewOf(RunWorld(k, s, Only(i, answers)).files, path), file))
            <==> v.hidden.None? || v.plain == Some(Raw(file)) || !Replaceable(v)
  {
    hide Run, RunWorld, ViewOf, Replaceable;
    var path := s.jobs[i].path;
    var v, t0 := ViewOf(s.files, path), Task(ViewOf(s.files, path), Fresh(alg));
    RecoverableIff(k, file, v, alg, Fail);
    if v.hidden.None? || v.plain == Some(Raw(file)) || !Replaceable(v) {
      forall answers ensures Recoverable(k, ViewOf(RunWorld(k, s, Only(i, answers)).files, path), file) {
        RunsAlone(k, s, i, answers);
        RunFrom(k, t0, [Fail] + answers);
        assert ([Fail] + answers)[1..] == answers;
        assert StartsWith([Fail] + answers, [Fail]);
      }
    } else {
      var all := LostFile(k, file, v, alg, Fail);
      RunFrom(k, t0, all);
      RunsAlone(k, s, i, all[1..]);
    }
  }

  /** A conversion with nothing in its way and no failure. */
  lemma WholeRun(k: Codec, v: View, file: Bytes) returns (answers: seq<Answer>)
    requires v.plain == Some(Raw(file)) && v.hidden == None && v.temp == None
    ensures AllOk(answers)
    ensures var t := Run(k, Task(v, Fresh(Zstd)), answers);
            && t.worker.stage == Done(0)
            && t.view == View(Some(Raw(Zeros(|file|))), Some(Boxed(Box(k, Zstd, Chunks(file)))), None)
  {
    hide Finish, Run, Step;
    var t0 := Task(v, Fresh(Zstd));
    answers := FinishIsRun(k, t0, [], [], 0);
    assert Run(k, t0, []) == t0 by { RunTaken(k, t0, [], 0); assert Taken([], 0) == []; }
    SucceedsIff(k, v, Zstd, []);
    SuccessStores(k, file, v, Zstd, answers);
  }

  /** The same from the second check on, whatever the container. */
  lemma LateRun(k: Codec, v: View, file: Bytes) returns (answers: seq<Answer>)
    requires v.plain == Some(Raw(file)) && v.hidden != Some(Dir) && v.temp == None
    ensures AllOk(answers)
    ensures var t := Run(k, Task(v, Fresh(Zstd).(stage := CheckTemp)), answers);
            && t.worker.stage == Done(0)
            && t.view == View(Some(Raw(Zeros(|file|))), Some(Boxed(Box(k, Zstd, Chunks(file)))), None)
  {
    hide Finish, Run, Inv;
    var t0 := Task(v, Fresh(Zstd));
    var t1 := Task(v, Fresh(Zstd).(stage := CheckTemp));
    assert Run(k, t0, [Fail]) == t1 && Taken([Fail], 1) == [Fail] by {
      RunTaken(k, t0, [Fail], 0);
      assert Taken([Fail], 1) == [Fail];
    }
    var all := FinishIsRun(k, t0, [Fail], [Fail], 1);
    FinishNext(k, t0, [Fail], 0);
    SucceedsIff(k, v, Zstd, [Fail]);
    SuccessStores(k, file, v, Zstd, all);
    RunFrom(k, t0, all);
    answers := all[1..];
  }

  /**
   Two workers on one path, and no call that fails. The second's two stats fall before and after
   the whole of the first's conversion, so it converts the placeholder. Both report success, and
   the container is one of zeros: the file is lost unless it is zeros itself.
   */
  lemma TwoWorkersLose(k: Codec, s: World, path: string, file: Bytes) returns (schedule: seq<Event>)
    requires Sound(k) && s.jobs == [Job(path, Fresh(Zstd)), Job(path, Fresh(Zstd))]
    requires ViewOf(s.files, path) == View(Some(Raw(file)), None, None)
    ensures forall e :: e in schedule ==> e.answer == Ok
    ensures var s', zeros := RunWorld(k, s, schedule), Zeros(|file|);
            && |s'.jobs| == 2 && s'.jobs[0].worker.stage == Done(0) && s'.jobs[1].worker.stage == Done(0)
            && ViewOf(s'.files, path) == View(Some(Raw(zeros)), Some(Boxed(Box(k, Zstd, Chunks(zeros)))), None)
            && (Recoverable(k, ViewOf(s'.files, path), file) <==> file == zeros)
  {
    hide Run, ViewOf, RunWorld;
    var v := ViewOf(s.files, path);
    var early := Only(1, [Ok]);
    RunsAlone(k, s, 1, [Ok]);
    FirstStat(k, v);
    var s1 := RunWorld(k, s, early);
    var first := WholeRun(k, v, file);
    RunsAlone(k, s1, 0, first);
    var s2 := RunWorld(k, s1, Only(0, first));
    var second := LateRun(k, ViewOf(s2.files, path), Zeros(|file|));
    RunsAlone(k, s2, 1, second);
    RunTwice(k, s, early, Only(0, first));
    RunTwice(k, s, early + Only(0, first), Only(1, second));
    schedule := early + Only(0, first) + Only(1, second);
    DecodeOfBox(k, Zstd, Chunks(Zeros(|file|)));
    ChunksMakeFile(Zeros(|file|));
  }

  lemma FirstStat(k: Codec, v: View)
    requires v.hidden == None
    ensures Run(k, Task(v, Fresh(Zstd)), [Ok]) == Task(v, Fresh(Zstd).(stage := CheckTemp))
  {
    assert [Ok][..0] == [];
  }
}
