/**
 Several pool workers converting at once (src/dzfile-walker.cc, src/dzfile-intern.cc): their
 system calls interleave in any order. For pairwise distinct visible paths the workers do not
 see each other.
 */
module Interleaving {
  import opened CStrings
  import opened Names
  import opened Container
  import opened Conversion
  import opened Volumes

  datatype Job = Job(path: string, worker: Worker)

  datatype World = World(files: Files, jobs: seq<Job>)

  /** Worker number `worker` makes its next call and gets this answer. */
  datatype Event = Event(worker: nat, answer: Answer)

  function PutAt(files: Files, name: string, file: Option<File>): Files {
    match file case None => files - {name} case Some(f) => files[name := f]
  }

  function Put(files: Files, path: string, v: View): Files {
    PutAt(PutAt(PutAt(files, path, v.plain), Hidden(path), v.hidden), Temp(path), v.temp)
  }

  function StepWorld(k: Codec, s: World, e: Event): World {
    if e.worker >= |s.jobs| then s
    else
      var job := s.jobs[e.worker];
      var t := Step(k, Task(ViewOf(s.files, job.path), job.worker), e.answer);
      World(Put(s.files, job.path, t.view), s.jobs[e.worker := job.(worker := t.worker)])
  }

  function RunWorld(k: Codec, s: World, schedule: seq<Event>): World {
    if |schedule| == 0 then s
    else StepWorld(k, RunWorld(k, s, schedule[..|schedule| - 1]), schedule[|schedule| - 1])
  }

  /** The answers worker i got, in order. */
  function Share(schedule: seq<Event>, i: nat): seq<Answer> {
    if |schedule| == 0 then []
    else
      var before, e := Share(schedule[..|schedule| - 1], i), schedule[|schedule| - 1];
      if e.worker == i then before + [e.answer] else before
  }

  /** No two jobs name the same path, and no job names a hidden file. */
  ghost predicate Separate(jobs: seq<Job>) {
    && (forall i {:trigger jobs[i]} :: 0 <= i < |jobs| ==> Visible(jobs[i].path))
    && (forall i, j {:trigger jobs[i], jobs[j]} :: 0 <= i < j < |jobs| ==> jobs[i].path != jobs[j].path)
  }

  lemma PutIsLocal(files: Files, path: string, v: View)
    ensures ViewOf(Put(files, path, v), path) == v
    ensures SameOutside(files, Put(files, path, v), Trio(path))
  {
    TrioDistinct(path);
  }

  lemma OthersUnseen(files: Files, path: string, v: View, other: string)
    requires Visible(path) && Visible(other) && path != other
    ensures ViewOf(Put(files, path, v), other) == ViewOf(files, other)
  {
    PutIsLocal(files, path, v);
    TriosDisjoint(path, other);
    assert {other, Hidden(other), Temp(other)} == Trio(other);
  }

  /** Worker i as if it were alone. */
  function Alone(k: Codec, s: World, schedule: seq<Event>, i: nat): Task
    requires i < |s.jobs|
  {
    Run(k, Task(ViewOf(s.files, s.jobs[i].path), s.jobs[i].worker), Share(schedule, i))
  }

  ghost predicate Isolated(k: Codec, s: World, schedule: seq<Event>, s': World) {
    && |s'.jobs| == |s.jobs|
    && (forall i {:trigger s'.jobs[i]} {:trigger s.jobs[i]} :: 0 <= i < |s.jobs| ==>
          s'.jobs[i].path == s.jobs[i].path
          && Task(ViewOf(s'.files, s.jobs[i].path), s'.jobs[i].worker) == Alone(k, s, schedule, i))
  }

  /** In any interleaving each worker's files and position are those of the worker run alone on its own answers. */
  lemma {:induction false} WorkersIsolated(k: Codec, s: World, schedule: seq<Event>)
    requires Separate(s.jobs)
    ensures Isolated(k, s, schedule, RunWorld(k, s, schedule))
  {
    if |schedule| > 0 {
      var n := |schedule| - 1;
      WorkersIsolated(k, s, schedule[..n]);
      IsolatedStep(k, s, schedule, RunWorld(k, s, schedule[..n]));
    }
  }

  lemma IsolatedStep(k: Codec, s: World, schedule: seq<Event>, mid: World)
    requires Separate(s.jobs) && |schedule| > 0 && Isolated(k, s, schedule[..|schedule| - 1], mid)
    ensures Isolated(k, s, schedule, StepWorld(k, mid, schedule[|schedule| - 1]))
  {
    var n := |schedule| - 1;
    var e := schedule[n];
    var s' := StepWorld(k, mid, e);
    forall i | 0 <= i < |s.jobs|
      ensures s'.jobs[i].path == s.jobs[i].path
              && Task(ViewOf(s'.files, s.jobs[i].path), s'.jobs[i].worker) == Alone(k, s, schedule, i)
    {
      if e.worker < |s.jobs| {
        var job := mid.jobs[e.worker];
        var t := Step(k, Task(ViewOf(mid.files, job.path), job.worker), e.answer);
        if e.worker == i {
          PutIsLocal(mid.files, job.path, t.view);
          var share := Share(schedule[..n], i);
          assert (share + [e.answer])[..|share|] == share;
        } else {
          assert job.path == s.jobs[e.worker].path != s.jobs[i].path;
          OthersUnseen(mid.files, job.path, t.view, s.jobs[i].path);
        }
      }
    }
  }

  /** A name that is none of the files of any job. */
  ghost predicate Foreign(jobs: seq<Job>, name: string) {
    forall i {:trigger jobs[i]} :: 0 <= i < |jobs| ==> name !in Trio(jobs[i].path)
  }

  /** Every other file in the system stays as it was. */
  lemma {:induction false} ForeignUntouched(k: Codec, s: World, schedule: seq<Event>, name: string)
    requires Separate(s.jobs) && Foreign(s.jobs, name)
    ensures Lookup(RunWorld(k, s, schedule).files, name) == Lookup(s.files, name)
  {
    if |schedule| > 0 {
      var n := |schedule| - 1;
      ForeignUntouched(k, s, schedule[..n], name);
      WorkersIsolated(k, s, schedule[..n]);
      var mid, e := RunWorld(k, s, schedule[..n]), schedule[n];
      if e.worker < |s.jobs| {
        var job := mid.jobs[e.worker];
        assert job.path == s.jobs[e.worker].path;
        PutIsLocal(mid.files, job.path, Step(k, Task(ViewOf(mid.files, job.path), job.worker), e.answer).view);
      }
    }
  }

  ghost predicate AllFresh(jobs: seq<Job>) {
    forall i {:trigger jobs[i]} :: 0 <= i < |jobs| ==> jobs[i].worker == Fresh(jobs[i].worker.alg)
  }

  /** The three files of a visible path no job names are foreign to all jobs. */
  lemma UnnamedIsForeign(jobs: seq<Job>, path: string)
    requires Separate(jobs) && Visible(path)
    requires forall i {:trigger jobs[i]} :: 0 <= i < |jobs| ==> jobs[i].path != path
    ensures Foreign(jobs, path) && Foreign(jobs, Hidden(path)) && Foreign(jobs, Temp(path))
  {
    forall i | 0 <= i < |jobs|
      ensures path !in Trio(jobs[i].path) && Hidden(path) !in Trio(jobs[i].path) && Temp(path) !in Trio(jobs[i].path)
    {
      TriosDisjoint(path, jobs[i].path);
      assert path in Trio(path) && Hidden(path) in Trio(path) && Temp(path) in Trio(path);
    }
  }

  /**
   Any interleaving, with any failures, stopped anywhere, keeps every visible file's bytes
   recoverable, if the file is in place or no worker's check for its container fails.
   */
  lemma EveryFileRecoverable(k: Codec, s: World, schedule: seq<Event>, path: string, file: Bytes)
    requires Sound(k) && Separate(s.jobs) && AllFresh(s.jobs)
    requires Visible(path) && Recoverable(k, ViewOf(s.files, path), file)
    requires || Lookup(s.files, path) == Some(Raw(file))
             || forall i: nat :: i < |s.jobs| && s.jobs[i].path == path ==> StatOk(Share(schedule, i), 0)
    ensures Recoverable(k, ViewOf(RunWorld(k, s, schedule).files, path), file)
  {
    if i: nat :| i < |s.jobs| && s.jobs[i].path == path {
      WorkersIsolated(k, s, schedule);
      assert RunWorld(k, s, schedule).jobs[i].path == path;
      ConversionSafe(k, file, ViewOf(s.files, path), s.jobs[i].worker.alg, Share(schedule, i));
    } else {
      UnnamedIsForeign(s.jobs, path);
      ForeignUntouched(k, s, schedule, path);
      ForeignUntouched(k, s, schedule, Hidden(path));
      ForeignUntouched(k, s, schedule, Temp(path));
    }
  }

  /** Worker i alone makes calls, and gets these answers. */
  function Only(i: nat, answers: seq<Answer>): seq<Event> {
    seq(|answers|, j requires 0 <= j < |answers| => Event(i, answers[j]))
  }

  lemma {:induction false} ShareOfOnly(i: nat, answers: seq<Answer>)
    ensures Share(Only(i, answers), i) == answers
  {
    if |answers| > 0 {
      var n := |answers| - 1;
      assert Only(i, answers)[..n] == Only(i, answers[..n]);
      ShareOfOnly(i, answers[..n]);
    }
  }

  /**
   Exactly when a file stays recoverable under every interleaving in which the check for its
   container is answered this way: the file is in place, or the answer is no failure, or there is
   nothing to read or nowhere to write.
   */
  lemma RecoverableIffSeen(k: Codec, s: World, i: nat, file: Bytes, first: Answer)
    requires Sound(k) && Separate(s.jobs) && AllFresh(s.jobs) && i < |s.jobs| && Writes(s.jobs[i].worker.alg)
    requires Recoverable(k, ViewOf(s.files, s.jobs[i].path), file)
    ensures (forall schedule {:trigger RunWorld(k, s, schedule)} :: StartsWith(Share(schedule, i), [first]) ==>
               Recoverable(k, ViewOf(RunWorld(k, s, schedule).files, s.jobs[i].path), file))
            <==> || Lookup(s.files, s.jobs[i].path) == Some(Raw(file))
                 || !first.Fail? || !Replaceable(ViewOf(s.files, s.jobs[i].path))
  {
    var path, alg := s.jobs[i].path, s.jobs[i].worker.alg;
    var v0 := ViewOf(s.files, path);
    if v0.plain == Some(Raw(file)) || !first.Fail? || !Replaceable(v0) {
      forall schedule | StartsWith(Share(schedule, i), [first])
        ensures Recoverable(k, ViewOf(RunWorld(k, s, schedule).files, path), file)
      {
        AloneIs(k, s, schedule, i);
        RecoverableIff(k, file, v0, alg, first);
      }
    } else {
      var answers := LostFile(k, file, v0, alg, first);
      ShareOfOnly(i, answers);
      AloneIs(k, s, Only(i, answers), i);
    }
  }

  lemma AloneIs(k: Codec, s: World, schedule: seq<Event>, i: nat)
    requires Separate(s.jobs) && AllFresh(s.jobs) && i < |s.jobs|
    ensures ViewOf(RunWorld(k, s, schedule).files, s.jobs[i].path) ==
            Run(k, Task(ViewOf(s.files, s.jobs[i].path), Fresh(s.jobs[i].worker.alg)), Share(schedule, i)).view
  {
    hide RunWorld, Run, Share;
    WorkersIsolated(k, s, schedule);
    assert RunWorld(k, s, schedule).jobs[i].path == s.jobs[i].path;
  }

  /** The order in which the calls of different workers interleave does not matter. */
  lemma OrderIrrelevant(k: Codec, s: World, one: seq<Event>, two: seq<Event>)
    requires Separate(s.jobs) && forall i: nat :: i < |s.jobs| ==> Share(one, i) == Share(two, i)
    ensures RunWorld(k, s, one) == RunWorld(k, s, two)
  {
    hide RunWorld, Share, Run, Hidden, Temp;
    var a, b := RunWorld(k, s, one), RunWorld(k, s, two);
    WorkersIsolated(k, s, one);
    WorkersIsolated(k, s, two);
    forall i | 0 <= i < |s.jobs| ensures a.jobs[i] == b.jobs[i] {
      assert Alone(k, s, one, i) == Alone(k, s, two, i);
      assert a.jobs[i].path == s.jobs[i].path == b.jobs[i].path;
    }
    assert a.jobs == b.jobs;
    forall name ensures Lookup(a.files, name) == Lookup(b.files, name) {
      if i: nat :| i < |s.jobs| && name in Trio(s.jobs[i].path) {
        assert Alone(k, s, one, i) == Alone(k, s, two, i);
        assert a.jobs[i].path == s.jobs[i].path == b.jobs[i].path;
      } else {
        assert Foreign(s.jobs, name);
        ForeignUntouched(k, s, one, name);
        ForeignUntouched(k, s, two, name);
      }
    }
    SameLookups(a.files, b.files);
  }

  // ----- what the directories show -----

  lemma {:induction false} PlainStays(k: Codec, t: Task, answers: seq<Answer>)
    ensures Run(k, t, answers).view.plain.Some? <==> t.view.plain.Some?
  {
    if |answers| > 0 {
      PlainStays(k, t, answers[..|answers| - 1]);
    }
  }

  /** The file a job works on never disappears, and is never made. */
  lemma SourceStays(k: Codec, s: World, schedule: seq<Event>, i: nat)
    requires Separate(s.jobs) && i < |s.jobs|
    ensures s.jobs[i].path in RunWorld(k, s, schedule).files <==> s.jobs[i].path in s.files
  {
    var s', path := RunWorld(k, s, schedule), s.jobs[i].path;
    WorkersIsolated(k, s, schedule);
    PlainStays(k, Task(ViewOf(s.files, path), s.jobs[i].worker), Share(schedule, i));
    hide RunWorld, Hidden, Temp, Run;
    assert s'.jobs[i].path == path;
    assert ViewOf(s'.files, path) == Alone(k, s, schedule, i).view;
  }

  /** No call of any worker makes a name appear or vanish that is not one of the hidden forms. */
  lemma VisibleNamesStay(k: Codec, s: World, schedule: seq<Event>, name: string)
    requires Separate(s.jobs) && !MatchHidden(name)
    ensures name in RunWorld(k, s, schedule).files <==> name in s.files
  {
    hide RunWorld, MatchHidden, Hidden, Temp;
    if i: nat :| i < |s.jobs| && name in Trio(s.jobs[i].path) {
      HiddenFormsMatch(s.jobs[i].path);
      SourceStays(k, s, schedule, i);
    } else {
      assert Foreign(s.jobs, name);
      ForeignUntouched(k, s, schedule, name);
    }
  }
}
