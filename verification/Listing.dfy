/**
 Directory listings (src/dzfile-api.c, dzfile_readdir): the raw entries without the hidden
 forms and the private directory. A conversion, under way or finished, does not show in them.
 */
module Listing {
  import opened CStrings
  import opened Names
  import opened Container
  import opened Volumes
  import opened Interleaving
  import SystemDirs

  predicate Shown(name: string) {
    !MatchHidden(name) && name != SystemDirs.PRIVATE_DIR
  }

  /** The entries from index i on that are shown, in order. */
  function ShownFrom(entries: seq<string>, i: nat): (r: seq<string>)
    requires i <= |entries|
    decreases |entries| - i
  {
    if i == |entries| then []
    else if Shown(entries[i]) then [entries[i]] + ShownFrom(entries, i + 1)
    else ShownFrom(entries, i + 1)
  }

  lemma {:induction false} ShownMembers(entries: seq<string>, i: nat, name: string)
    requires i <= |entries|
    ensures name in ShownFrom(entries, i) <==> Shown(name) && exists j :: i <= j < |entries| && entries[j] == name
    decreases |entries| - i
  {
    if i < |entries| {
      ShownMembers(entries, i + 1, name);
    }
  }

  /** Listed is what is there but the private directory, the directory itself, its parent and the converter's files. */
  lemma ListedIff(entries: seq<string>)
    ensures forall name: string {:trigger name in ShownFrom(entries, 0)} :: '/' !in name ==>
              (name in ShownFrom(entries, 0) <==>
               && name in entries && name != ".dzs" && name !in [".", "..", ".DZF", ".DZF.tmp"]
               && (forall n :: name != "." + n + ".DZF") && (forall n :: name != "." + n + ".DZF.tmp"))
  {
    hide MatchHidden;
    forall name: string | '/' !in name
      ensures name in ShownFrom(entries, 0) <==>
              && name in entries && name != ".dzs" && name !in [".", "..", ".DZF", ".DZF.tmp"]
              && (forall n :: name != "." + n + ".DZF") && (forall n :: name != "." + n + ".DZF.tmp")
    {
      ShownMembers(entries, 0, name);
      CaughtName(name);
      assert name in entries <==> exists j :: 0 <= j < |entries| && entries[j] == name;
    }
  }

  /** What is listed keeps its order, and is listed as often as it is there: at these places. */
  lemma {:induction false} ListedInOrder(entries: seq<string>, i: nat) returns (places: seq<nat>)
    requires i <= |entries|
    ensures |places| == |ShownFrom(entries, i)|
    ensures forall a :: 0 <= a < |places| ==>
              i <= places[a] < |entries| && ShownFrom(entries, i)[a] == entries[places[a]]
    ensures forall a, b :: 0 <= a < b < |places| ==> places[a] < places[b]
    ensures forall j: nat {:trigger j in places} :: i <= j < |entries| && Shown(entries[j]) ==> j in places
    decreases |entries| - i
  {
    hide Shown;
    places := [];
    if i < |entries| {
      places := ListedInOrder(entries, i + 1);
      if Shown(entries[i]) {
        var rest := places;
        places := [i] + rest;
        forall j: nat | i <= j < |entries| && Shown(entries[j]) ensures j in places {
          assert j == i || j in rest;
        }
      }
    }
  }

  /** A directory stream: the raw entries and how many were read. */
  class Dir {
    const entries: seq<string>
    var pos: nat

    constructor (entries: seq<string>)
      ensures this.entries == entries && pos == 0
    {
      this.entries := entries;
      pos := 0;
    }

    ghost predicate Valid()
      reads this
    {
      pos <= |entries|
    }

    /** readdir of the C library. */
    method Readdir() returns (dent: Option<string>)
      requires Valid()
      modifies this
      ensures Valid()
      ensures old(pos) == |entries| ==> dent == None && pos == old(pos)
      ensures old(pos) < |entries| ==> dent == Some(entries[old(pos)]) && pos == old(pos) + 1
    {
      if pos == |entries| {
        return None;
      }
      dent := Some(entries[pos]);
      pos := pos + 1;
    }

    /** dzfile_readdir: the next entry that is shown. */
    method DzfileReaddir() returns (dent: Option<string>)
      requires Valid()
      modifies this
      ensures Valid() && (dent.Some? ==> pos > old(pos))
      ensures match dent
              case None => pos == |entries| && ShownFrom(entries, old(pos)) == []
              case Some(name) => ShownFrom(entries, old(pos)) == [name] + ShownFrom(entries, pos)
      decreases |entries| - pos
    {
      hide MatchHidden;
      dent := Readdir();
      if dent == None {
        return;
      }
      if MatchHidden(dent.value) || dent.value == SystemDirs.PRIVATE_DIR {
        dent := DzfileReaddir();
      }
    }

    /** The listing loop of the ls command, from the first entry to NULL. */
    method ReadAll() returns (names: seq<string>)
      requires pos == 0
      modifies this
      ensures names == ShownFrom(entries, 0)
      ensures forall name: string {:trigger name in names} :: '/' !in name ==>
                (name in names <==>
                 && name in entries && name != ".dzs" && name !in [".", "..", ".DZF", ".DZF.tmp"]
                 && (forall n :: name != "." + n + ".DZF") && (forall n :: name != "." + n + ".DZF.tmp"))
    {
      ListedIff(entries);
      names := [];
      var dent := DzfileReaddir();
      ghost var all := ShownFrom(entries, 0);
      while dent.Some?
        invariant Valid()
        invariant dent.None? ==> all == names
        invariant dent.Some? ==> all == names + [dent.value] + ShownFrom(entries, pos)
        decreases |entries| - pos, dent.Some?
      {
        names := names + [dent.value];
        ghost var rest := ShownFrom(entries, pos);
        dent := DzfileReaddir();
        if dent.Some? {
          Regroup(names, dent.value, ShownFrom(entries, pos));
        }
      }
    }
  }

  lemma Regroup(names: seq<string>, name: string, rest: seq<string>)
    ensures names + ([name] + rest) == names + [name] + rest
  {
  }

  // ----- listings and conversions -----

  ghost predicate NoRepeats(names: seq<string>) {
    forall i, j :: 0 <= i < j < |names| ==> names[i] != names[j]
  }

  /** What readdir returns for a directory, in some order: the last components under it, "." and "..". */
  ghost predicate Enumerates(files: Files, dir: string, entries: seq<string>) {
    && NoRepeats(entries)
    && forall name {:trigger name in entries} ::
         name in entries <==> name == "." || name == ".." || ('/' !in name && dir + name in files)
  }

  lemma {:induction false} ShownNoRepeats(entries: seq<string>, i: nat)
    requires i <= |entries| && NoRepeats(entries)
    ensures NoRepeats(ShownFrom(entries, i))
    decreases |entries| - i
  {
    if i < |entries| {
      ShownNoRepeats(entries, i + 1);
      ShownMembers(entries, i + 1, entries[i]);
    }
  }

  /** A name is hidden in its directory as it is on its own. */
  lemma HiddenByName(dir: string, name: string)
    requires |dir| > 0 && dir[|dir| - 1] == '/' && '/' !in name
    ensures MatchHidden(dir + name) == MatchHidden(name)
  {
    LastIndexAppend(dir, name, '/');
    assert LastIndex(dir, '/') == |dir| - 1;
    assert (dir + name)[|dir|..] == name;
    assert BaseName(dir + name) == name && BaseName(name) == name;
  }

  /**
   The listing of a directory before any conversion and at any point of any interleaving shows the
   same names, each once.
   */
  lemma ListingUnchanged(k: Codec, s: World, schedule: seq<Event>, dir: string, before: seq<string>, after: seq<string>)
    requires Separate(s.jobs) && |dir| > 0 && dir[|dir| - 1] == '/'
    requires Enumerates(s.files, dir, before) && Enumerates(RunWorld(k, s, schedule).files, dir, after)
    ensures NoRepeats(ShownFrom(before, 0)) && NoRepeats(ShownFrom(after, 0))
    ensures forall name :: name in ShownFrom(before, 0) <==> name in ShownFrom(after, 0)
  {
    ShownNoRepeats(before, 0);
    ShownNoRepeats(after, 0);
    forall name ensures name in ShownFrom(before, 0) <==> name in ShownFrom(after, 0) {
      ShownMembers(before, 0, name);
      ShownMembers(after, 0, name);
      if '/' !in name {
        HiddenByName(dir, name);
        if !MatchHidden(name) {
          VisibleNamesStay(k, s, schedule, dir + name);
        }
      }
      assert name in before <==> exists j :: 0 <= j < |before| && before[j] == name;
      assert name in after <==> exists j :: 0 <= j < |after| && after[j] == name;
    }
  }
}
