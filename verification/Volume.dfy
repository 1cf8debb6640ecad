/**
 The file system a converter works on, and the code that changes it: convert2h5
 (src/dzfile-intern.cc), findhiddenFile (src/dz-common.c) and the task the pool runs,
 process_file (src/dzfile-walker.cc).
 */
module Volumes {
  import opened CStrings
  import opened Names
  import opened DatasetNames
  import opened Container
  import opened Conversion
  import SystemDirs
  import Blacklist

  type Files = map<string, File>

  function Lookup(files: Files, name: string): Option<File> {
    if name in files then Some(files[name]) else None
  }

  /** The three files of one path. */
  function ViewOf(files: Files, path: string): View {
    View(Lookup(files, path), Lookup(files, Hidden(path)), Lookup(files, Temp(path)))
  }

  /** Both file systems agree on every name outside the set. */
  ghost predicate SameOutside(a: Files, b: Files, names: set<string>) {
    forall p {:trigger Lookup(a, p)} {:trigger Lookup(b, p)} :: p !in names ==> Lookup(a, p) == Lookup(b, p)
  }

  /** What the view says is what the files are. */
  lemma InView(files: Files, path: string)
    ensures var v := ViewOf(files, path);
            && (path in files <==> v.plain.Some?) && (path in files ==> v.plain.value == files[path])
            && (Hidden(path) in files <==> v.hidden.Some?)
            && (Hidden(path) in files ==> v.hidden.value == files[Hidden(path)])
            && (Temp(path) in files <==> v.temp.Some?) && (Temp(path) in files ==> v.temp.value == files[Temp(path)])
  {
    hide Hidden, Temp;
  }

  lemma PlainChanged(before: Files, files: Files, path: string, f: File)
    requires SameOutside(before, files, Trio(path))
    ensures var files' := files[path := f];
            SameOutside(before, files', Trio(path)) && ViewOf(files', path) == ViewOf(files, path).(plain := Some(f))
  {
    hide Hidden, Temp;
    TrioDistinct(path);
  }

  lemma TempChanged(before: Files, files: Files, path: string, f: File)
    requires SameOutside(before, files, Trio(path))
    ensures var files' := files[Temp(path) := f];
            SameOutside(before, files', Trio(path)) && ViewOf(files', path) == ViewOf(files, path).(temp := Some(f))
  {
    hide Hidden, Temp;
    TrioDistinct(path);
  }

  lemma TempRenamed(before: Files, files: Files, path: string)
    requires SameOutside(before, files, Trio(path)) && Temp(path) in files
    ensures var files' := files[Hidden(path) := files[Temp(path)]] - {Temp(path)};
            && SameOutside(before, files', Trio(path))
            && ViewOf(files', path) == ViewOf(files, path).(hidden := Some(files[Temp(path)]), temp := None)
  {
    hide Hidden, Temp;
    TrioDistinct(path);
  }

  /**
   What the system answers to the two stats of process_file: of the file, with the size it reports
   for what is not a plain file, and of its container.
   */
  datatype Checks = Checks(file: Answer, bulk: nat, container: Answer)

  function SizeOf(f: File, bulk: nat): nat {
    match f case Raw(data) => |data| case _ => bulk
  }

  /** The task of process_file goes ahead: nothing it must skip, as far as its stats tell. */
  predicate Eligible(files: Files, filename: string, lowSize: int, blacklist: string, checks: Checks) {
    && !SystemDirs.MatchSysdir(filename) && !MatchHidden(filename)
    && filename in files && !checks.file.Fail? && SizeOf(files[filename], checks.bulk) >= lowSize
    && !(HasSlash(filename) && Hidden(filename) in files && !files[Hidden(filename)].Dir? && !checks.container.Fail?)
    && !(Blacklist.HasExtension(filename)
         && Blacklist.Compared(Blacklist.Entries(blacklist), Blacklist.Strip(filename)))
  }

  /** convert2h5 run to its end on a file system: the files after it. */
  ghost predicate Converted(k: Codec, before: Files, after: Files, path: string, alg: Alg,
          answers: seq<Answer>, ret: int) {
    if !HasSlash(path) then after == before && ret == -1
    else
      && SameOutside(before, after, Trio(path))
      && Finish(k, Task(ViewOf(before, path), Fresh(alg)), answers, 0).view == ViewOf(after, path)
      && Finish(k, Task(ViewOf(before, path), Fresh(alg)), answers, 0).worker.stage == Done(ret)
  }

  /** The name has an extension that the list is compared with. */
  predicate Listed(filename: string, blacklist: string) {
    '.' in filename && Blacklist.Compared(Blacklist.Entries(blacklist), Blacklist.Strip(filename))
  }

  /** The file is now in a container of its blocks, and zeros stand in its place. */
  function Replaced(k: Codec, files: Files, path: string, data: Bytes): Files {
    files[path := Raw(Zeros(|data|))][Hidden(path) := Boxed(Box(k, Zstd, Chunks(data)))]
  }

  class Volume {
    var files: Files

    constructor (files: Files)
      ensures this.files == files
    {
      this.files := files;
    }

    /** The files stand as the machine says after some calls, and the machine's future is unchanged. */
    ghost predicate Tracks(k: Codec, before: Files, path: string, t0: Task, answers: seq<Answer>, t: Task, i: nat)
      reads this
    {
      && SameOutside(before, files, Trio(path)) && ViewOf(files, path) == t.view
      && Finish(k, t0, answers, 0) == Finish(k, t, answers, i)
    }

    /**
     findhiddenFile: 1 a file, 0 nothing, 2 a directory, -1 no slash in the path or a stat that
     fails for another reason than that nothing is there.
     */
    method FindHiddenFile(path: string, answer: Answer) returns (rc: int)
      ensures rc == -1 <==> !HasSlash(path) || answer.Fail?
      ensures HasSlash(path) && !answer.Fail? ==>
                rc == match Lookup(files, Hidden(path)) case None => 0 case Some(Dir) => 2 case Some(_) => 1
    {
      if LastIndex(path, '/') < 0 {
        return -1;
      }
      if answer.Fail? {
        return -1;
      }
      var hiddenFile := Hidden(path);
      if hiddenFile !in files {
        return 0;
      }
      return if files[hiddenFile].Dir? then 2 else 1;
    }

    /** One more call made: the machine steps, its end stays the same. */
    lemma OneCall(k: Codec, t: Task, answers: seq<Answer>, i: nat)
      ensures Finish(k, t, answers, i) == Finish(k, Step(k, t, AnswerAt(answers, i)), answers, i + 1)
      ensures var t' := Step(k, t, AnswerAt(answers, i)); t'.worker.stage.Done? ==> Finish(k, t, answers, i) == t'
    {
    }

    /** convert2h5, with the operating system's answer to each call as a parameter. */
    method Convert2h5(k: Codec, path: string, alg: Alg, answers: seq<Answer>) returns (ret: int)
      modifies this
      ensures Converted(k, old(files), files, path, alg, answers, ret)
      ensures !HasSlash(path) ==> files == old(files) && ret == -1
    {
      if LastIndex(path, '/') < 0 {
        return -1;
      }
      var h5name, tmp := Hidden(path), Temp(path);
      TrioDistinct(path);
      ghost var before, t0 := files, Task(ViewOf(files, path), Fresh(alg));
      ghost var t := t0;
      // stat(h5name)
      OneCall(k, t, answers, 0);
      t := Step(k, t, AnswerAt(answers, 0));
      if h5name in files && !AnswerAt(answers, 0).Fail? {
        return -1;
      }
      // stat(tmp_h5name)
      OneCall(k, t, answers, 1);
      t := Step(k, t, AnswerAt(answers, 1));
      if tmp in files && !AnswerAt(answers, 1).Fail? {
        return -1;
      }
      // open(path, O_RDONLY)
      OneCall(k, t, answers, 2);
      t := Step(k, t, AnswerAt(answers, 2));
      if AnswerAt(answers, 2).Fail? || path !in files {
        return -1;
      }
      assert Tracks(k, before, path, t0, answers, t, 3);
      ret := CreateAndCopy(k, path, alg, answers, before, t0, t);
    }

    /** From H5Fcreate on: the tag, the blocks, the rename. */
    method CreateAndCopy(k: Codec, path: string, alg: Alg, answers: seq<Answer>, ghost before: Files,
            ghost t0: Task, ghost start: Task)
      returns (ret: int)
      requires HasSlash(path) && Tracks(k, before, path, t0, answers, start, 3)
      requires start.worker == Fresh(alg).(stage := CreateTemp)
      modifies this
      ensures SameOutside(before, files, Trio(path)) && Finish(k, t0, answers, 0).view == ViewOf(files, path)
      ensures Finish(k, t0, answers, 0).worker.stage == Done(ret)
    {
      hide Finish, Hidden, Temp, ViewOf, SameOutside;
      InView(files, path);
      var tmp := Temp(path);
      ghost var t := start;
      OneCall(k, t, answers, 3);
      t := Step(k, t, AnswerAt(answers, 3));
      if AnswerAt(answers, 3).Fail? || (tmp in files && files[tmp].Dir?) {
        return -1;
      }
      var sets: Sets := map[];
      TempChanged(before, files, path, Boxed(sets));
      files := files[tmp := Boxed(sets)];
      OneCall(k, t, answers, 4);
      t := Step(k, t, AnswerAt(answers, 4));
      if AnswerAt(answers, 4).Fail? || !Writes(alg) {
        return -1;
      }
      sets := sets[ALGORITHM := Tag(k, alg)];
      TempChanged(before, files, path, Boxed(sets));
      files := files[tmp := Boxed(sets)];
      ret := CopyBlocks(k, path, alg, answers, before, t0, t, sets);
    }

    /** The loop of convert2h5: read a block, compress it, write it as the next dataset. */
    method CopyBlocks(k: Codec, path: string, alg: Alg, answers: seq<Answer>, ghost before: Files,
            ghost t0: Task, ghost start: Task, tagged: Sets)
      returns (ret: int)
      requires HasSlash(path) && Tracks(k, before, path, t0, answers, start, 5)
      requires start.worker == Worker(alg, ReadBlock, 0, []) && start.view.temp == Some(Boxed(tagged))
      modifies this
      ensures SameOutside(before, files, Trio(path)) && Finish(k, t0, answers, 0).view == ViewOf(files, path)
      ensures Finish(k, t0, answers, 0).worker.stage == Done(ret)
    {
      hide Finish, Hidden, Temp, ViewOf, SameOutside, Measure;
      var tmp := Temp(path);
      var sets, off, count, i := tagged, 0, 0, 5;
      ghost var t := start;
      while true
        invariant Tracks(k, before, path, t0, answers, t, i)
        invariant t.worker.stage == ReadBlock && t.worker.alg == alg && t.worker.off == off
              && |t.worker.written| == count
        invariant t.view.temp == Some(Boxed(sets))
        decreases Measure(t)
      {
        InView(files, path);
        OneCall(k, t, answers, i);
        StepMakesProgress(k, t, AnswerAt(answers, i));
        t := Step(k, t, AnswerAt(answers, i));
        if AnswerAt(answers, i).Fail? || path !in files || !files[path].Raw? {
          return -1;
        }
        var data := files[path].data;
        if off >= |data| {
          i := i + 1;
          break;
        }
        var buffer := Slice(data, off, ReadLength(|data| - off, AnswerAt(answers, i)));
        off := off + |buffer|;
        i := i + 1;
        OneCall(k, t, answers, i);
        StepMakesProgress(k, t, AnswerAt(answers, i));
        t := Step(k, t, AnswerAt(answers, i));
        var name := BlockName(count);
        if AnswerAt(answers, i).Fail? || name in sets {
          return -1;
        }
        count := count + 1;
        sets := sets[name := k.compress(alg, buffer)];
        TempChanged(before, files, path, Boxed(sets));
        files := files[tmp := Boxed(sets)];
        i := i + 1;
      }
      ret := Publish(k, path, answers, before, t0, t, i);
    }

    /** The end of convert2h5: rename, stat, truncate to nothing, truncate to the old size. */
    method Publish(k: Codec, path: string, answers: seq<Answer>, ghost before: Files, ghost t0: Task,
            ghost start: Task, i: nat)
      returns (ret: int)
      requires HasSlash(path) && Tracks(k, before, path, t0, answers, start, i) && start.worker.stage == RenameTemp
      modifies this
      ensures SameOutside(before, files, Trio(path)) && Finish(k, t0, answers, 0).view == ViewOf(files, path)
      ensures Finish(k, t0, answers, 0).worker.stage == Done(ret)
    {
      hide Finish, Hidden, Temp, ViewOf, SameOutside;
      InView(files, path);
      var h5name, tmp := Hidden(path), Temp(path);
      ghost var t := start;
      OneCall(k, t, answers, i);
      t := Step(k, t, AnswerAt(answers, i));
      if AnswerAt(answers, i).Fail? || tmp !in files || (h5name in files && files[h5name].Dir?) {
        return -1;
      }
      TempRenamed(before, files, path);
      files := files[h5name := files[tmp]] - {tmp};
      InView(files, path);
      OneCall(k, t, answers, i + 1);
      t := Step(k, t, AnswerAt(answers, i + 1));
      if AnswerAt(answers, i + 1).Fail? || path !in files || !files[path].Raw? {
        return -1;
      }
      var st_size := |files[path].data|;
      OneCall(k, t, answers, i + 2);
      t := Step(k, t, AnswerAt(answers, i + 2));
      if AnswerAt(answers, i + 2).Fail? || path !in files {
        return -1;
      }
      PlainChanged(before, files, path, Raw(""));
      files := files[path := Raw("")];
      OneCall(k, t, answers, i + 3);
      t := Step(k, t, AnswerAt(answers, i + 3));
      if AnswerAt(answers, i + 3).Fail? || path !in files {
        return -1;
      }
      PlainChanged(before, files, path, Raw(Zeros(st_size)));
      files := files[path := Raw(Zeros(st_size))];
      return 0;
    }

    /** process_file: skip what must not be converted, else convert with zstd. */
    method ProcessFile(k: Codec, filename: string, lowSize: int, blacklist: string, checks: Checks,
            answers: seq<Answer>)
      requires NUL !in filename
      modifies this
      ensures !Eligible(old(files), filename, lowSize, blacklist, checks) ==> files == old(files)
      ensures Eligible(old(files), filename, lowSize, blacklist, checks) ==>
                exists ret :: Converted(k, old(files), files, filename, Zstd, answers, ret)
      ensures (exists i: nat :: SystemDirs.PrivateAt(filename, i)) || MatchHidden(filename) ==> files == old(files)
      ensures checks.file.Fail? || filename !in old(files) ==> files == old(files)
      ensures var file := Lookup(old(files), filename);
              file.Some? && file.value.Raw? && |file.value.data| < lowSize ==> files == old(files)
      ensures var box := Lookup(old(files), Hidden(filename));
              HasSlash(filename) && box.Some? && !box.value.Dir? && !checks.container.Fail? ==> files == old(files)
      ensures Listed(filename, blacklist) ==> files == old(files)
      ensures var file := Lookup(old(files), filename);
              && !(exists i: nat :: SystemDirs.PrivateAt(filename, i)) && Visible(filename)
              && file.Some? && file.value.Raw? && !checks.file.Fail? && |file.value.data| >= lowSize
              && Hidden(filename) !in old(files) && Temp(filename) !in old(files)
              && !Listed(filename, blacklist) && AllOk(answers) ==>
                files == Replaced(k, old(files), filename, file.value.data)
    {
      SystemDirs.SysdirIff(filename);
      Blacklist.ExtensionIff(filename);
      var sysdir := SystemDirs.CheckSysdir(filename);
      if sysdir == 1 || MatchHidden(filename) {
        return;
      }
      if filename !in files || checks.file.Fail? {
        return;
      }
      if SizeOf(files[filename], checks.bulk) < lowSize {
        return;
      }
      var found := FindHiddenFile(filename, checks.container);
      if found == 1 {
        return;
      }
      var ismatch := Blacklist.MatchExtension(filename, blacklist);
      if ismatch {
        return;
      }
      var ret := Convert2h5(k, filename, Zstd, answers);
      ghost var file := Lookup(old(files), filename);
      if Visible(filename) && file.Some? && file.value.Raw? && Hidden(filename) !in old(files)
         && Temp(filename) !in old(files) && AllOk(answers)
      {
        WholeConversion(k, old(files), files, filename, answers, ret, file.value.data);
      }
    }
  }

  // ----- what a finished conversion means for the file -----

  lemma ConvertedIsRun(k: Codec, before: Files, after: Files, path: string, alg: Alg, answers: seq<Answer>, ret: int)
    returns (all: seq<Answer>)
    requires HasSlash(path) && Converted(k, before, after, path, alg, answers, ret)
    ensures var t := Run(k, Task(ViewOf(before, path), Fresh(alg)), all);
            t.view == ViewOf(after, path) && t.worker.stage == Done(ret)
    ensures NoShortReads(answers) ==> NoShortReads(all)
    ensures forall j :: 0 <= j < |all| ==> all[j] == AnswerAt(answers, j)
  {
    all := FinishIsRun(k, Task(ViewOf(before, path), Fresh(alg)), [], answers, 0);
  }

  /**
   convert2h5 returning 0 on a plain file: placeholder, container of its blocks, no temporary file,
   nothing else changed.
   */
  lemma ConvertSucceeds(k: Codec, before: Files, after: Files, path: string, alg: Alg, answers: seq<Answer>,
          file: Bytes)
    requires Converted(k, before, after, path, alg, answers, 0) && NoShortReads(answers)
    requires Lookup(before, path) == Some(Raw(file))
    ensures ViewOf(after, path) == View(Some(Raw(Zeros(|file|))), Some(Boxed(Box(k, alg, Chunks(file)))), None)
    ensures SameOutside(before, after, Trio(path))
  {
    var all := ConvertedIsRun(k, before, after, path, alg, answers, 0);
    SuccessStores(k, file, ViewOf(before, path), alg, all);
  }

  lemma SameLookups(a: Files, b: Files)
    requires forall name {:trigger Lookup(a, name)} :: Lookup(a, name) == Lookup(b, name)
    ensures a == b
  {
    forall name ensures name in a <==> name in b {
      assert Lookup(a, name) == Lookup(b, name);
    }
    forall name | name in a ensures a[name] == b[name] {
      assert Lookup(a, name) == Lookup(b, name);
    }
  }

  /** With nothing in its way and no failure, this is all a conversion does. */
  lemma WholeConversion(k: Codec, before: Files, after: Files, path: string, answers: seq<Answer>, ret: int,
          data: Bytes)
    requires HasSlash(path) && Converted(k, before, after, path, Zstd, answers, ret) && AllOk(answers)
    requires Lookup(before, path) == Some(Raw(data)) && Hidden(path) !in before && Temp(path) !in before
    ensures ret == 0 && after == Replaced(k, before, path, data)
  {
    hide Finish, Hidden, Temp, Taken;
    SucceedsIff(k, ViewOf(before, path), Zstd, answers);
    assert NoShortReads(answers) && Unfailing(answers, 10 + 2 * NumChunks(data));
    ConvertSucceeds(k, before, after, path, Zstd, answers, data);
    TrioDistinct(path);
    var replaced := Replaced(k, before, path, data);
    forall name ensures Lookup(after, name) == Lookup(replaced, name) {
      if name in Trio(path) {
        InView(after, path);
      } else {
        assert Lookup(after, name) == Lookup(before, name);
      }
    }
    SameLookups(after, replaced);
  }

  /** convert2h5 does not lose the file, whatever it returns, if it is in place or its container is seen. */
  lemma ConvertKeepsFile(k: Codec, before: Files, after: Files, path: string, alg: Alg, answers: seq<Answer>,
          ret: int, file: Bytes)
    requires Sound(k) && HasSlash(path) && Converted(k, before, after, path, alg, answers, ret)
    requires Recoverable(k, ViewOf(before, path), file)
    requires Lookup(before, path) == Some(Raw(file)) || !AnswerAt(answers, 0).Fail?
    ensures Recoverable(k, ViewOf(after, path), file)
  {
    var all := ConvertedIsRun(k, before, after, path, alg, answers, ret);
    ConversionSafe(k, file, ViewOf(before, path), alg, all);
  }

  /**
   A second conversion, or one over a leftover temporary file, changes nothing and fails, if what is
   there is seen.
   */
  lemma ConvertAgain(k: Codec, before: Files, after: Files, path: string, alg: Alg, answers: seq<Answer>, ret: int)
    requires HasSlash(path) && Converted(k, before, after, path, alg, answers, ret)
    requires Blocked(ViewOf(before, path), Taken(answers, 2))
    ensures ret == -1 && forall p {:trigger Lookup(after, p)} :: Lookup(after, p) == Lookup(before, p)
  {
    var all := ConvertedIsRun(k, before, after, path, alg, answers, ret);
    LeftoverBlocks(k, ViewOf(before, path), alg, all);
    forall p ensures Lookup(after, p) == Lookup(before, p) {
      assert p in Trio(path) || Lookup(before, p) == Lookup(after, p);
      assert ViewOf(after, path) == ViewOf(before, path);
    }
  }
}
