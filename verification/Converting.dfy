/**
 Conversion on inodes (src/dzfile-intern.cc, convert2h5): each of its system calls does what the
 step machine says to the three files of its path and to nothing else, and the plain store need
 not move for it.
 */
module Converting {
  import opened CStrings
  import opened Names
  import opened Container
  import opened Conversion
  import opened RoundTrip
  import opened Store
  import opened Relation
  import opened Volumes

  // ----- one call on the inodes -----

  /** Only these three names, and what they lead to, may differ. */
  ghost predicate OnlyTrio(os: Os, os': Os, path: string) {
    forall x {:trigger x in os'.names} {:trigger Content(os', x)} :: x !in Trio(path) ==>
      && (x in os'.names <==> x in os.names)
      && (x in os.names ==> os'.names[x] == os.names[x])
      && Content(os', x) == Content(os, x)
  }

  lemma NamesAreContents(os: Os)
    requires Tidy(os)
    ensures forall x {:trigger Content(os, x)} :: Content(os, x).Some? <==> x in os.names
  {
  }

  /** The inode under a name, and under a name only. */
  lemma NodeChanged(os: Os, name: string, f: File)
    requires Tidy(os) && name in os.names
    ensures var os' := os.(nodes := os.nodes[os.names[name] := f]);
            && Tidy(os') && Content(os', name) == Some(f)
            && (forall x {:trigger Content(os', x)} :: x != name ==> Content(os', x) == Content(os, x))
  {
  }

  lemma NameAdded(os: Os, name: string, ino: nat, f: File)
    requires Tidy(os) && name !in os.names && ino !in os.nodes
    ensures var os' := os.(names := os.names[name := ino], nodes := os.nodes[ino := f]);
            && Tidy(os') && Content(os', name) == Some(f)
            && (forall x {:trigger Content(os', x)} :: x != name ==> Content(os', x) == Content(os, x))
  {
  }

  lemma NameMoved(os: Os, from: string, to: string)
    requires Tidy(os) && from in os.names && from != to
    ensures var os' := os.(names := os.names[to := os.names[from]] - {from});
            && Tidy(os') && Content(os', to) == Content(os, from) && Content(os', from) == None
            && (forall x {:trigger Content(os', x)} :: x != from && x != to ==> Content(os', x) == Content(os, x))
  {
  }

  /** What one call of the machine does to the three files. */
  lemma ViewNext(k: Codec, t: Task, answer: Answer)
    ensures var v, t' := t.view, Step(k, t, answer);
            if t'.worker.stage == Done(-1) then t'.view == v
            else
              match t.worker.stage
              case CreateTemp => t'.view == v.(temp := Some(Boxed(map[])))
              case WriteTag | WriteBlock(_) => v.temp.Some? && t'.view == v.(temp := t'.view.temp) && t'.view.temp.Some?
              case RenameTemp => v.temp.Some? && t'.view == v.(hidden := v.temp, temp := None)
              case Empty(_) => v.plain.Some? && t'.view == v.(plain := Some(Raw("")))
              case Extend(size) => v.plain.Some? && t'.view == v.(plain := Some(Raw(Zeros(size))))
              case _ => t'.view == v
  {
  }

  /** One call of a conversion: tidy still, the three files as the machine says, nothing else touched. */
  lemma ChangeIsStep(k: Codec, os: Os, path: string, w: Worker, answer: Answer, ino: nat)
    requires Tidy(os) && (w.stage.CreateTemp? ==> ino !in os.nodes)
    ensures var t' := Step(k, Task(OsView(os, path), w), answer);
            var os' := Change(os, path, w.stage, t', ino);
            Tidy(os') && OsView(os', path) == t'.view && OnlyTrio(os, os', path)
  {
    hide Step, Tidy, Hidden, Temp;
    TrioDistinct(path);
    ViewNext(k, Task(OsView(os, path), w), answer);
    NamesAreContents(os);
    var t' := Step(k, Task(OsView(os, path), w), answer);
    if t'.worker.stage != Done(-1) {
      match w.stage {
        case CreateTemp =>
          if Temp(path) in os.names {
            NodeChanged(os, Temp(path), Boxed(map[]));
          } else {
            NameAdded(os, Temp(path), ino, Boxed(map[]));
          }
        case WriteTag => NodeChanged(os, Temp(path), t'.view.temp.value);
        case WriteBlock(_) => NodeChanged(os, Temp(path), t'.view.temp.value);
        case RenameTemp => NameMoved(os, Temp(path), Hidden(path));
        case Empty(_) => NodeChanged(os, path, t'.view.plain.value);
        case Extend(_) => NodeChanged(os, path, t'.view.plain.value);
        case _ =>
      }
    }
  }

  // ----- a conversion as a whole -----

  /** The temporary file is not made yet. */
  predicate Early(stage: Stage) {
    stage.CheckHidden? || stage.CheckTemp? || stage.OpenSource? || stage.CreateTemp?
  }

  /** The names and contents of an inode file system, as the converter's own model has them. */
  function FilesOf(os: Os): Files {
    map p | p in os.names && os.names[p] in os.nodes :: os.nodes[os.names[p]]
  }

  lemma {:induction false} ConvertOsIsFinish(k: Codec, os: Os, path: string, t: Task, answers: seq<Answer>, i: nat,
          ino: nat)
    requires Tidy(os) && t.view == OsView(os, path)
    requires Early(t.worker.stage) ==> ino !in os.nodes
    ensures var os' := ConvertOs(k, os, path, t, answers, i, ino);
            OsView(os', path) == Finish(k, t, answers, i).view && OnlyTrio(os, os', path)
    decreases Measure(t)
  {
    if !t.worker.stage.Done? {
      hide Step, Tidy, OsView, Trio, Measure, Change, OnlyTrio;
      var answer := AnswerAt(answers, i);
      var t' := Step(k, t, answer);
      var os' := Change(os, path, t.worker.stage, t', ino);
      ChangeIsStep(k, os, path, t.worker, answer, ino);
      StepMakesProgress(k, t, answer);
      StillFresh(k, os, path, t, answer, ino);
      ConvertOsIsFinish(k, os', path, t', answers, i + 1, ino);
      TrioTwice(os, os', ConvertOs(k, os', path, t', answers, i + 1, ino), path);
    }
  }

  lemma TrioTwice(os0: Os, os1: Os, os2: Os, path: string)
    requires OnlyTrio(os0, os1, path) && OnlyTrio(os1, os2, path)
    ensures OnlyTrio(os0, os2, path)
  {
    hide Trio, Content;
    forall x | x !in Trio(path) ensures Content(os2, x) == Content(os0, x) && (x in os2.names <==> x in os0.names) {
      assert Content(os2, x) == Content(os1, x) == Content(os0, x);
    }
  }

  lemma StillFresh(k: Codec, os: Os, path: string, t: Task, answer: Answer, ino: nat)
    requires Early(t.worker.stage) ==> ino !in os.nodes
    ensures var t' := Step(k, t, answer);
            Early(t'.worker.stage) ==> ino !in Change(os, path, t.worker.stage, t', ino).nodes
  {
  }

  /** Conversion over inodes is convert2h5's conversion over names, when every name has an inode of its own. */
  lemma ConvertOnNames(k: Codec, s: Api, path: string, answers: seq<Answer>, ino: nat)
    requires HasSlash(path) && Tidy(s.os) && ino !in s.os.nodes
    ensures var (s', ret) := DzConvert(k, s, path, answers, ino);
            Converted(k, FilesOf(s.os), FilesOf(s'.os), path, Zstd, answers, ret)
  {
    hide Hidden, Temp, Finish, Tidy, ConvertOs, Trio;
    var t := Task(OsView(s.os, path), Fresh(Zstd));
    ConvertOsIsFinish(k, s.os, path, t, answers, 0, ino);
    var os' := ConvertOs(k, s.os, path, t, answers, 0, ino);
    assert ViewOf(FilesOf(s.os), path) == OsView(s.os, path) && ViewOf(FilesOf(os'), path) == OsView(os', path);
    forall x ensures Lookup(FilesOf(s.os), x) == Content(s.os, x) && Lookup(FilesOf(os'), x) == Content(os', x) {
    }
    FinishEnds(k, t, answers, 0);
  }

  /** A path without a slash has no container to be: the conversion is refused. */
  lemma NoSlashNoConvert(k: Codec, s: Api, path: string, answers: seq<Answer>, ino: nat)
    requires '/' !in path
    ensures DzConvert(k, s, path, answers, ino) == (s, -1)
  {
  }

  lemma FinishEnds(k: Codec, t: Task, answers: seq<Answer>, i: nat)
    ensures Finish(k, t, answers, i).worker.stage.Done?
  {
  }

  // ----- the plain store stands still -----

  /** The source is open and the conversion not over. */
  predicate UnderWay(stage: Stage) {
    !stage.CheckHidden? && !stage.CheckTemp? && !stage.OpenSource? && !stage.Done?
  }

  /** The machine's own invariants, for full reads with zstd and no container to begin with. */
  ghost predicate InStep(k: Codec, file: Bytes, t: Task) {
    var v0 := View(Some(Raw(file)), None, t.view.temp);
    t.worker.alg == Zstd && Inv(k, file, v0, t) && FullInv(file, v0, t)
  }

  /** Where a conversion stands, as far as its next calls depend on it. */
  ghost predicate Going(k: Codec, os: Os, a: Os, path: string, w: Worker) {
    match w.stage
    case CheckHidden => w == Fresh(Zstd)
    case CheckTemp => w == Fresh(Zstd).(stage := CheckTemp) && Hidden(path) !in os.names
    case OpenSource => w == Fresh(Zstd).(stage := OpenSource) && Hidden(path) !in os.names
    case Done(_) => true
    case _ =>
      && Content(a, path).Some? && Content(a, path).value.Raw?
      && InStep(k, Content(a, path).value.data, Task(OsView(os, path), w))
  }

  ghost predicate NotOpen(os: Os, path: string) {
    path in os.names ==> forall fd {:trigger os.fds[fd]} :: fd in os.fds ==> os.fds[fd].ino != os.names[path]
  }

  /**
   What is asked of a conversion's next call: no read is short; an existing container is seen; and
   nobody has the file open at the moment its container is renamed into place.
   */
  ghost predicate CallAllowed(os: Os, path: string, stage: Stage, answer: Answer, ino: nat) {
    && !answer.Short?
    && (stage.CheckHidden? && Hidden(path) in os.names ==> !answer.Fail?)
    && (stage.CreateTemp? ==> ino !in os.nodes)
    && (stage.RenameTemp? ==> NotOpen(os, path))
  }

  lemma StepKeepsAlg(k: Codec, t: Task, answer: Answer)
    ensures Step(k, t, answer).worker.alg == t.worker.alg
  {
  }

  lemma StageNext(k: Codec, t: Task, answer: Answer)
    ensures var stage := Step(k, t, answer).worker.stage;
            UnderWay(t.worker.stage) ==> UnderWay(stage) || stage.Done?
    ensures t.worker.stage.Done? ==> Step(k, t, answer) == t
  {
  }

  /** The invariants speak of what stood under the temporary name only through what stands there now. */
  lemma Rebase(k: Codec, file: Bytes, v0: View, t: Task)
    requires v0.plain == Some(Raw(file)) && v0.hidden == None && Inv(k, file, v0, t) && FullInv(file, v0, t)
    requires UnderWay(t.worker.stage)
    ensures var v1 := View(Some(Raw(file)), None, t.view.temp); Inv(k, file, v1, t) && FullInv(file, v1, t)
  {
  }

  /** The machine's invariants survive its step. */
  lemma StepStays(k: Codec, file: Bytes, t: Task, answer: Answer)
    requires InStep(k, file, t) && !answer.Short? && UnderWay(Step(k, t, answer).worker.stage)
    ensures InStep(k, file, Step(k, t, answer))
  {
    hide Inv, FullInv, Step;
    var v0 := View(Some(Raw(file)), None, t.view.temp);
    StepKeepsInv(k, file, v0, t, answer);
    StepKeepsFull(k, file, v0, t, answer);
    StepKeepsAlg(k, t, answer);
    Rebase(k, file, v0, Step(k, t, answer));
  }

  /** Before its next call, the three files of a conversion that is under way. */
  lemma ViewNow(k: Codec, file: Bytes, t: Task)
    requires InStep(k, file, t) && UnderWay(t.worker.stage)
    ensures var v, w := t.view, t.worker;
            match w.stage
            case StatSource => v == View(Some(Raw(file)), Some(Boxed(Stored(k, file))), None)
            case Empty(size) => v == View(Some(Raw(file)), Some(Boxed(Stored(k, file))), None) && size == |file|
            case Extend(size) => v == View(Some(Raw("")), Some(Boxed(Stored(k, file))), None) && size == |file|
            case RenameTemp => v == View(Some(Raw(file)), None, Some(Boxed(Stored(k, file))))
            case CreateTemp => v.plain == Some(Raw(file)) && v.hidden == None
            case WriteTag | ReadBlock | WriteBlock(_) =>
              v.plain == Some(Raw(file)) && v.hidden == None && v.temp.Some? && v.temp.value.Boxed?
            case _ => true
  {
  }

  // ----- the parts of the relation -----

  lemma TempMade(names: map<string, nat>, plain: map<string, nat>, boxed: map<nat, nat>, leaving: set<string>,
          path: string, ino: nat)
    requires SameNames(names, plain, boxed, leaving) && UserPath(path)
    ensures SameNames(names[Temp(path) := ino], plain, boxed, leaving)
  {
    hide UserPath, Hidden, Temp;
    UserNames(path);
    forall q | UserPath(q) ensures Hidden(q) != Temp(path) {
      HiddenDiffer(q, path);
    }
  }

  lemma TempGone(names: map<string, nat>, plain: map<string, nat>, boxed: map<nat, nat>, leaving: set<string>,
          path: string)
    requires SameNames(names, plain, boxed, leaving) && UserPath(path)
    ensures SameNames(names - {Temp(path)}, plain, boxed, leaving)
  {
    hide UserPath, Hidden, Temp;
    UserNames(path);
    forall q | UserPath(q) ensures Hidden(q) != Temp(path) {
      HiddenDiffer(q, path);
    }
  }

  lemma HiddenMade(names: map<string, nat>, plain: map<string, nat>, boxed: map<nat, nat>, leaving: set<string>,
          path: string, ino: nat)
    requires SameNames(names, plain, boxed, leaving) && path in plain && plain[path] !in boxed
    ensures SameNames(names[Hidden(path) := ino], plain, boxed[plain[path] := ino], leaving)
  {
    hide UserPath, Hidden, Temp;
    UserNames(path);
    forall q | UserPath(q) && Hidden(q) == Hidden(path) ensures q == path {
      HiddenDiffer(q, path);
    }
  }

  lemma FileAdded(k: Codec, nodes: map<nat, File>, plain: map<nat, File>, boxed: map<nat, nat>, short: set<nat>,
          ino: nat, f: File)
    requires SameData(k, nodes, plain, boxed, short) && ino !in nodes
    ensures SameData(k, nodes[ino := f], plain, boxed, short)
  {
    hide Stored;
  }

  lemma TempFilled(k: Codec, nodes: map<nat, File>, plain: map<nat, File>, boxed: map<nat, nat>, short: set<nat>,
          m: nat, f: File)
    requires SameData(k, nodes, plain, boxed, short) && m !in plain && NoBox(boxed, m)
    ensures SameData(k, nodes[m := f], plain, boxed, short)
  {
    hide Stored;
  }

  lemma DataShelved(k: Codec, nodes: map<nat, File>, plain: map<nat, File>, boxed: map<nat, nat>, short: set<nat>,
          n: nat, m: nat)
    requires SameData(k, nodes, plain, boxed, short) && n in plain && n !in boxed && m in nodes
    requires nodes[m] == Boxed(Stored(k, plain[n].data))
    ensures SameData(k, nodes, plain, boxed[n := m], short)
  {
    hide Stored;
  }

  lemma PlaceholderChanged(k: Codec, nodes: map<nat, File>, plain: map<nat, File>, boxed: map<nat, nat>,
          short: set<nat>,
          n: nat, data: Bytes)
    requires SameData(k, nodes, plain, boxed, short) && n in boxed && n in plain
    ensures |data| == 0 ==> SameData(k, nodes[n := Raw(data)], plain, boxed, short + {n})
    ensures |data| == |plain[n].data| ==> SameData(k, nodes[n := Raw(data)], plain, boxed, short - {n})
  {
    hide Stored;
  }

  lemma FdsElsewhere(fds: map<int, OpenFile>, h5fdmap: map<int, Dzfd>, handles: map<int, nat>,
          boxed: map<nat, nat>, n: nat, ino: nat)
    requires SameFds(fds, h5fdmap, handles, boxed)
    requires forall fd {:trigger fds[fd]} :: fd in fds ==> fds[fd].ino != n
    ensures SameFds(fds, h5fdmap, handles, boxed[n := ino])
  {
  }

  lemma TempsWithNew(os: Os, plain: map<nat, File>, boxed: map<nat, nat>, path: string, ino: nat)
    requires TempsApart(os.names, plain, boxed) && UserPath(path) && ino !in plain && NoBox(boxed, ino)
    ensures TempsApart(os.names[Temp(path) := ino], plain, boxed)
  {
    hide UserPath, Temp, NoBox;
  }

  /** A temporary file that becomes a container leaves the other ones apart. */
  lemma TempsWithout(os: Os, plain: map<nat, File>, boxed: map<nat, nat>, path: string, n: nat)
    requires TempsApart(os.names, plain, boxed) && UserPath(path) && Tidy(os) && Temp(path) in os.names
    ensures var m := os.names[Temp(path)];
            TempsApart(os.names[Hidden(path) := m] - {Temp(path)}, plain, boxed[n := m])
  {
    hide UserPath, Temp, Hidden;
    forall q | UserPath(q) ensures Hidden(path) != Temp(q) && (Temp(q) == Temp(path) ==> q == path) {
      HiddenDiffer(path, q);
      HiddenDiffer(q, path);
    }
  }

  // ----- one call keeps the relation -----

  /** How the links change with a call that does not fail. */
  function LinksAfter(l: Links, stage: Stage, failed: bool, n: nat, m: nat): Links {
    if failed then l
    else
      match stage
      case RenameTemp => l.(boxed := l.boxed[n := m])
      case Empty(_) => l.(short := l.short + {n})
      case Extend(_) => l.(short := l.short - {n})
      case _ => l
  }

  function At(names: map<string, nat>, name: string): nat {
    if name in names then names[name] else 0
  }

  /** The links after the next call of a conversion. */
  function NextLinks(k: Codec, os: Os, l: Links, path: string, w: Worker, answer: Answer): Links {
    LinksAfter(l, w.stage, Step(k, Task(OsView(os, path), w), answer).worker.stage == Done(-1),
               At(os.names, path), At(os.names, Temp(path)))
  }

  lemma MakingKeeps(k: Codec, s: Api, a: Os, l: Links, path: string, ino: nat)
    requires Rel(k, s, a, l) && UserPath(path) && ino !in s.os.nodes
    ensures var os := s.os;
            var os' := if Temp(path) in os.names then os.(nodes := os.nodes[os.names[Temp(path)] := Boxed(map[])])
                       else os.(names := os.names[Temp(path) := ino], nodes := os.nodes[ino := Boxed(map[])]);
            Rel(k, s.(os := os'), a, l)
  {
    hide UserPath, Hidden, Temp, Stored, SameNames, SameData, SameFds, MapSound;
    if Temp(path) in s.os.names {
      FillingKeeps(k, s, a, l, path, Boxed(map[]));
    } else {
      Unused(k, s.os.nodes, a.nodes, l.boxed, l.short, ino);
      NameAdded(s.os, Temp(path), ino, Boxed(map[]));
      TempMade(s.os.names, a.names, l.boxed, l.leaving, path, ino);
      FileAdded(k, s.os.nodes, a.nodes, l.boxed, l.short, ino, Boxed(map[]));
      TempsWithNew(s.os, a.nodes, l.boxed, path, ino);
    }
  }

  lemma FillingKeeps(k: Codec, s: Api, a: Os, l: Links, path: string, f: File)
    requires Rel(k, s, a, l) && UserPath(path) && Temp(path) in s.os.names
    ensures Rel(k, s.(os := s.os.(nodes := s.os.nodes[s.os.names[Temp(path)] := f])), a, l)
  {
    hide UserPath, Hidden, Temp, Stored, SameNames, SameData, SameFds, MapSound;
    NodeChanged(s.os, Temp(path), f);
    TempFilled(k, s.os.nodes, a.nodes, l.boxed, l.short, s.os.names[Temp(path)], f);
  }

  lemma RenamingKeeps(k: Codec, s: Api, a: Os, l: Links, path: string)
    requires Rel(k, s, a, l) && UserPath(path) && Temp(path) in s.os.names && Hidden(path) !in s.os.names
    requires path in a.names && path !in l.leaving && NotOpen(s.os, path)
    requires Content(s.os, Temp(path)) == Some(Boxed(Stored(k, Content(a, path).value.data)))
    ensures var m := s.os.names[Temp(path)];
            Rel(k, s.(os := s.os.(names := s.os.names[Hidden(path) := m] - {Temp(path)})), a,
                l.(boxed := l.boxed[a.names[path] := m]))
  {
    hide UserPath, Hidden, Temp, Stored, SameNames, SameData, SameFds, MapSound, TempsApart, Tidy;
    AtPath(k, s, a, l, path);
    var n, m := a.names[path], s.os.names[Temp(path)];
    TrioDistinct(path);
    NameMoved(s.os, Temp(path), Hidden(path));
    HiddenMade(s.os.names, a.names, l.boxed, l.leaving, path, m);
    TempGone(s.os.names[Hidden(path) := m], a.names, l.boxed[n := m], l.leaving, path);
    DataShelved(k, s.os.nodes, a.nodes, l.boxed, l.short, n, m);
    FdsElsewhere(a.fds, s.h5fdmap, s.os.handles, l.boxed, n, m);
    TempsWithout(s.os, a.nodes, l.boxed, path, n);
  }

  lemma TruncatingKeeps(k: Codec, s: Api, a: Os, l: Links, path: string, data: Bytes)
    requires Rel(k, s, a, l) && UserPath(path) && Hidden(path) in s.os.names
    ensures var n := s.os.names[path]; var s' := s.(os := s.os.(nodes := s.os.nodes[n := Raw(data)]));
            && path in a.names && a.names[path] == n && Content(a, path).Some?
            && (|data| == 0 ==> Rel(k, s', a, l.(short := l.short + {n})))
            && (|data| == |Content(a, path).value.data| ==> Rel(k, s', a, l.(short := l.short - {n})))
  {
    hide UserPath, Hidden, Temp, Stored, SameNames, SameData, SameFds, MapSound, TempsApart, Tidy;
    AtPath(k, s, a, l, path);
    NodeChanged(s.os, path, Raw(data));
    PlaceholderChanged(k, s.os.nodes, a.nodes, l.boxed, l.short, s.os.names[path], data);
  }

  /** A call of a conversion keeps the relation, with the plain store standing still. */
  lemma ChangeKeeps(k: Codec, s: Api, a: Os, l: Links, path: string, w: Worker, answer: Answer, ino: nat)
    requires Rel(k, s, a, l) && UserPath(path) && path !in l.leaving && Going(k, s.os, a, path, w)
    requires CallAllowed(s.os, path, w.stage, answer, ino)
    ensures var t' := Step(k, Task(OsView(s.os, path), w), answer);
            Rel(k, s.(os := Change(s.os, path, w.stage, t', ino)), a, NextLinks(k, s.os, l, path, w, answer))
  {
    hide Rel, UserPath, Hidden, Temp, Stored, InStep, Step, Tidy;
    var t := Task(OsView(s.os, path), w);
    var t' := Step(k, t, answer);
    AtPath(k, s, a, l, path);
    ViewNext(k, t, answer);
    IsTidy(k, s, a, l);
    NamesAreContents(s.os);
    if UnderWay(w.stage) && t'.worker.stage != Done(-1) {
      var file := Content(a, path).value.data;
      ViewNow(k, file, t);
      match w.stage {
        case CreateTemp => MakingKeeps(k, s, a, l, path, ino);
        case WriteTag => FillingKeeps(k, s, a, l, path, t'.view.temp.value);
        case WriteBlock(_) => FillingKeeps(k, s, a, l, path, t'.view.temp.value);
        case RenameTemp => RenamingKeeps(k, s, a, l, path);
        case Empty(_) => TruncatingKeeps(k, s, a, l, path, "");
        case Extend(size) => TruncatingKeeps(k, s, a, l, path, Zeros(size));
        case _ =>
      }
    }
  }

  lemma IsTidy(k: Codec, s: Api, a: Os, l: Links)
    requires Rel(k, s, a, l)
    ensures Tidy(s.os)
  {
  }

  /** And the conversion is in step with it again. */
  lemma ChangeGoesOn(k: Codec, s: Api, a: Os, l: Links, path: string, w: Worker, answer: Answer, ino: nat)
    requires Rel(k, s, a, l) && UserPath(path) && path !in l.leaving && Going(k, s.os, a, path, w)
    requires CallAllowed(s.os, path, w.stage, answer, ino)
    ensures var t' := Step(k, Task(OsView(s.os, path), w), answer);
            Going(k, Change(s.os, path, w.stage, t', ino), a, path, t'.worker)
  {
    hide Rel, UserPath, Hidden, Temp, Stored, Tidy, OsView;
    var t := Task(OsView(s.os, path), w);
    var t' := Step(k, t, answer);
    IsTidy(k, s, a, l);
    StageNext(k, t, answer);
    ChangeIsStep(k, s.os, path, w, answer, ino);
    if UnderWay(w.stage) {
      if UnderWay(t'.worker.stage) {
        StepStays(k, Content(a, path).value.data, t, answer);
      }
    } else {
      EarlyGoesOn(k, s, a, l, path, w, answer);
    }
  }

  lemma EarlyGoesOn(k: Codec, s: Api, a: Os, l: Links, path: string, w: Worker, answer: Answer)
    requires Rel(k, s, a, l) && UserPath(path) && Going(k, s.os, a, path, w)
    requires w.stage.OpenSource? ==> path !in l.leaving
    requires !UnderWay(w.stage) && (w.stage.CheckHidden? && Hidden(path) in s.os.names ==> !answer.Fail?)
    ensures Going(k, s.os, a, path, Step(k, Task(OsView(s.os, path), w), answer).worker)
  {
    hide Rel, UserPath, Hidden, Temp, Stored;
    AtPath(k, s, a, l, path);
  }

  // ----- a conversion run to its end -----

  /** What is asked of a conversion as a whole. */
  ghost predicate ConvertAllowed(os: Os, path: string, answers: seq<Answer>, ino: nat) {
    && NoShortReads(answers) && ino !in os.nodes
    && (Hidden(path) in os.names ==> !AnswerAt(answers, 0).Fail?)
    && (Hidden(path) !in os.names ==> NotOpen(os, path))
  }

  /** What the calls still to come need. */
  ghost predicate RestAllowed(os: Os, path: string, w: Worker, answers: seq<Answer>, i: nat, ino: nat) {
    && NoShortReads(answers) && (Early(w.stage) ==> ino !in os.nodes)
    && (w.stage.CheckHidden? && Hidden(path) in os.names ==> !AnswerAt(answers, i).Fail?)
    && (BeforeRename(w.stage) || w.stage.CheckTemp? ==> NotOpen(os, path))
    && (w.stage.CheckHidden? && Hidden(path) !in os.names ==> NotOpen(os, path))
  }

  lemma RestGoesOn(k: Codec, os: Os, path: string, t: Task, answers: seq<Answer>, i: nat, ino: nat)
    requires RestAllowed(os, path, t.worker, answers, i, ino) && t.view == OsView(os, path) && Tidy(os)
    ensures CallAllowed(os, path, t.worker.stage, AnswerAt(answers, i), ino)
    ensures var t' := Step(k, t, AnswerAt(answers, i));
            RestAllowed(Change(os, path, t.worker.stage, t', ino), path, t'.worker, answers, i + 1, ino)
  {
    hide Hidden, Temp;
    TrioDistinct(path);
    NamesAreContents(os);
  }

  /** Only the inode of this path is newly a placeholder, or newly stands empty or full. */
  ghost predicate OnlyAt(os: Os, path: string, l: Links, l': Links) {
    && l'.leaving == l.leaving && l.boxed.Keys <= l'.boxed.Keys
    && forall n {:trigger n in l'.short} ::
         (path in os.names && n == os.names[path]) || (n in l'.short <==> n in l.short)
  }

  lemma LinksLocal(k: Codec, os: Os, l: Links, path: string, w: Worker, answer: Answer)
    ensures OnlyAt(os, path, l, NextLinks(k, os, l, path, w, answer))
  {
    hide Step, Temp, Hidden;
    ViewNext(k, Task(OsView(os, path), w), answer);
  }

  lemma {:induction false} RestKeeps(k: Codec, s: Api, a: Os, l: Links, path: string, t: Task, answers: seq<Answer>,
          i: nat, ino: nat)
    returns (l': Links)
    requires Rel(k, s, a, l) && UserPath(path) && path !in l.leaving && t.view == OsView(s.os, path)
    requires Going(k, s.os, a, path, t.worker) && RestAllowed(s.os, path, t.worker, answers, i, ino)
    ensures Rel(k, s.(os := ConvertOs(k, s.os, path, t, answers, i, ino)), a, l')
    ensures OnlyAt(s.os, path, l, l')
    decreases Measure(t)
  {
    hide Rel, UserPath, Hidden, Temp, Going, Step, Change, OsView, Tidy, RestAllowed, Measure;
    if t.worker.stage.Done? {
      l' := l;
    } else {
      var answer := AnswerAt(answers, i);
      var t' := Step(k, t, answer);
      IsTidy(k, s, a, l);
      RestGoesOn(k, s.os, path, t, answers, i, ino);
      ChangeKeeps(k, s, a, l, path, t.worker, answer, ino);
      ChangeGoesOn(k, s, a, l, path, t.worker, answer, ino);
      AllowedFresh(s.os, path, t.worker.stage, answer, ino);
      ChangeIsStep(k, s.os, path, t.worker, answer, ino);
      StepMakesProgress(k, t, answer);
      SamePlace(s.os, path, t.worker.stage, t', ino);
      LinksLocal(k, s.os, l, path, t.worker, answer);
      l' := RestKeeps(k, s.(os := Change(s.os, path, t.worker.stage, t', ino)), a,
        NextLinks(k, s.os, l, path, t.worker, answer), path, t', answers, i + 1, ino);
    }
  }

  lemma AllowedFresh(os: Os, path: string, stage: Stage, answer: Answer, ino: nat)
    requires CallAllowed(os, path, stage, answer, ino)
    ensures stage.CreateTemp? ==> ino !in os.nodes
  {
  }

  /** A conversion leaves its path on the same inode, and the descriptors alone. */
  lemma SamePlace(os: Os, path: string, stage: Stage, after: Task, ino: nat)
    ensures var os' := Change(os, path, stage, after, ino);
            && (path in os'.names <==> path in os.names) && (path in os.names ==> os'.names[path] == os.names[path])
            && os'.fds == os.fds
  {
    hide Hidden, Temp;
    TrioDistinct(path);
  }

  /** The placeholders that stand empty after a conversion: one more exactly when its second truncate is what fails. */
  function ShortAfter(os: Os, short: set<nat>, path: string, answers: seq<Answer>): set<nat> {
    if path in os.names && LosesSize(OsView(os, path), answers) then short + {os.names[path]} else short
  }

  /** A conversion, whatever fails in it, keeps the relation with the plain store standing still. */
  lemma ConvertKeeps(k: Codec, s: Api, a: Os, l: Links, path: string, answers: seq<Answer>, ino: nat)
    returns (l': Links)
    requires Rel(k, s, a, l) && UserPath(path) && path !in l.leaving && ConvertAllowed(s.os, path, answers, ino)
    ensures Rel(k, DzConvert(k, s, path, answers, ino).0, a, l')
    ensures l'.leaving == l.leaving && l'.short == ShortAfter(s.os, l.short, path, answers)
  {
    hide Rel, UserPath, Hidden, Temp, ConvertOs, Tidy, OsView, LosesSize, Stored;
    AtPath(k, s, a, l, path);
    IsTidy(k, s, a, l);
    var t := Task(OsView(s.os, path), Fresh(Zstd));
    var os' := ConvertOs(k, s.os, path, t, answers, 0, ino);
    var s' := s.(os := os');
    ConvertOsIsFinish(k, s.os, path, t, answers, 0, ino);
    var l1 := RestKeeps(k, s, a, l, path, t, answers, 0, ino);
    var short := ShortAfter(s.os, l.short, path, answers);
    SameName(k, s.os, path, t, answers, 0, ino);
    if path in a.names {
      FinalLength(k, s, a, l, path, answers);
      ViewIsContent(os', path);
      SizeFixed(k, s', a, l1, path, short);
      l' := l1.(short := short);
    } else {
      assert l1.short == l.short == short;
      l' := l1;
    }
  }

  lemma {:induction false} SameName(k: Codec, os: Os, path: string, t: Task, answers: seq<Answer>, i: nat, ino: nat)
    ensures var os' := ConvertOs(k, os, path, t, answers, i, ino);
            && (path in os'.names <==> path in os.names) && (path in os.names ==> os'.names[path] == os.names[path])
            && os'.fds == os.fds
    decreases Measure(t)
  {
    hide Step, Change, Measure;
    if !t.worker.stage.Done? {
      var t' := Step(k, t, AnswerAt(answers, i));
      SamePlace(os, path, t.worker.stage, t', ino);
      StepMakesProgress(k, t, AnswerAt(answers, i));
      SameName(k, Change(os, path, t.worker.stage, t', ino), path, t', answers, i + 1, ino);
    }
  }

  /** How long the source is when the conversion has ended. */
  lemma FinalLength(k: Codec, s: Api, a: Os, l: Links, path: string, answers: seq<Answer>)
    requires Rel(k, s, a, l) && UserPath(path) && path !in l.leaving && path in a.names && NoShortReads(answers)
    requires Hidden(path) in s.os.names ==> !AnswerAt(answers, 0).Fail?
    ensures var plain := Finish(k, Task(OsView(s.os, path), Fresh(Zstd)), answers, 0).view.plain;
            var n, file := s.os.names[path], a.nodes[a.names[path]];
            && plain.Some? && plain.value.Raw? && file.Raw?
            && |plain.value.data| == (if n in ShortAfter(s.os, l.short, path, answers) then 0 else |file.data|)
            && (n in ShortAfter(s.os, l.short, path, answers) ==> n in l.boxed || |file.data| > 0)
  {
    hide UserPath, Hidden, Temp, Stored, Finish, Taken, Run, SameNames, SameFds, MapSound, TempsApart, Tidy;
    AtPath(k, s, a, l, path);
    var v0 := OsView(s.os, path);
    LosesSizeIff(k, v0, Zstd, answers);
    if Hidden(path) in s.os.names {
      assert Blocked(v0, Taken(answers, 2)) by { FirstTaken(answers); }
      BlockedStays(k, Task(v0, Fresh(Zstd)), v0, Zstd, answers);
    } else {
      EndOfSource(k, v0, answers, a.nodes[a.names[path]].data);
    }
  }

  lemma FirstTaken(answers: seq<Answer>)
    ensures StatOk(Taken(answers, 2), 0) <==> !AnswerAt(answers, 0).Fail?
  {
  }

  lemma EndOfSource(k: Codec, v0: View, answers: seq<Answer>, file: Bytes)
    requires v0.plain == Some(Raw(file)) && NoShortReads(answers)
    ensures var t := Finish(k, Task(v0, Fresh(Zstd)), answers, 0); t.worker.stage.Done? && t.view.plain.Some?
    ensures var t := Finish(k, Task(v0, Fresh(Zstd)), answers, 0);
            t.worker.stage.ret == 0 || t.view.plain == v0.plain ==>
              t.view.plain.value.Raw? && |t.view.plain.value.data| == |file|
  {
    var all := FinishIsRun(k, Task(v0, Fresh(Zstd)), [], answers, 0);
    FinishEnds(k, Task(v0, Fresh(Zstd)), answers, 0);
    hide Finish, Run;
    var t := Run(k, Task(v0, Fresh(Zstd)), all);
    FullEnds(k, file, v0, Zstd, all, t.worker.stage.ret);
    if t.worker.stage.ret == 0 {
      SuccessStores(k, file, v0, Zstd, all);
    }
  }

  /** Which placeholders stand empty can be told from their inodes. */
  lemma SizeFixed(k: Codec, s: Api, a: Os, l: Links, path: string, short: set<nat>)
    requires Rel(k, s, a, l) && path in a.names
    requires var n := a.names[path];
             && (forall m {:trigger m in short} :: m != n ==> (m in short <==> m in l.short))
             && n in s.os.nodes && s.os.nodes[n].Raw? && a.nodes[n].Raw?
             && |s.os.nodes[n].data| == (if n in short then 0 else |a.nodes[n].data|)
             && (n in short ==> n in l.boxed || |a.nodes[n].data| > 0)
    ensures Rel(k, s, a, l.(short := short))
  {
    hide SameNames, SameFds, MapSound, TempsApart, Tidy, Stored;
    assert forall m :: m != a.names[path] ==> (m in short <==> m in l.short);
  }

  lemma ViewIsContent(os: Os, path: string)
    ensures OsView(os, path).plain == Content(os, path)
  {
  }
}
