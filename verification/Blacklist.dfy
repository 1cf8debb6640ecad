/**
 The list of file kinds the converter skips (src/dzfile-walker.cc, match_extension): entries
 such as "*.gz" separated by semicolons.
 */
module Blacklist {
  import opened CStrings

  /** The entries of the list from an index on, empty ones included: "a;;b" has three. */
  function EntriesFrom(list: string, start: nat): (es: seq<string>)
    requires start <= |list|
    ensures |es| >= 1
    decreases |list| - start
  {
    var end := FirstIndex(list, ';', start);
    if end == |list| then [list[start..]] else [list[start..end]] + EntriesFrom(list, end + 1)
  }

  function Entries(list: string): (es: seq<string>)
    ensures |es| >= 1
  {
    EntriesFrom(list, 0)
  }

  /** An entry without everything up to its last dot. */
  function Strip(entry: string): (r: string)
    ensures '.' !in r
  {
    var pos := LastIndex(entry, '.');
    if pos < 0 then entry else entry[pos + 1..]
  }

  predicate HasExtension(filename: string) {
    LastIndex(filename, '.') >= 0
  }

  /** The entry, without its last dot and what precedes it, is this text. */
  predicate Names(entry: string, ext: string) {
    |entry| > 0 && Strip(entry) == ext
  }

  /**
   What the splitting loop ends up comparing with: non-final entries stripped, a final one
   as it stands, and the empty text when the list opens with a semicolon.
   */
  predicate Compared(es: seq<string>, ext: string)
    requires |es| > 0
  {
    var last := |es| - 1;
    || (exists i :: 0 <= i < last && Names(es[i], ext))
    || (last > 0 && |es[0]| == 0 && |ext| == 0)
    || (|es[last]| > 0 && es[last] == ext)
  }

  /** What the list says: some entry names this extension. */
  predicate Named(es: seq<string>, ext: string) {
    exists i :: 0 <= i < |es| && Names(es[i], ext)
  }

  /** `x` is compared on behalf of one of the first `n` entries, none of them the final one. */
  ghost predicate ComparedBefore(es: seq<string>, n: nat, x: string)
    requires n <= |es|
  {
    || (exists i :: 0 <= i < n && Names(es[i], x))
    || (n > 0 && |es[0]| == 0 && |x| == 0)
  }

  /** One more non-final entry: an empty one repeats the text before it, or pushes "" if there is none. */
  lemma ComparedNext(es: seq<string>, n: nat, x: string)
    requires n < |es|
    ensures ComparedBefore(es, n + 1, x) <==>
            || ComparedBefore(es, n, x)
            || (if |es[n]| > 0 then Strip(es[n]) == x else n == 0 && |x| == 0)
  {
    if ComparedBefore(es, n, x) && exists i :: 0 <= i < n && Names(es[i], x) {
      var i :| 0 <= i < n && Names(es[i], x);
    }
    if |es[n]| > 0 && Strip(es[n]) == x {
      assert Names(es[n], x);
    }
  }

  /** The list holds the compared texts, and the one the next empty entry would repeat. */
  ghost predicate Pushed(es: seq<string>, n: nat, list: seq<string>, exts: string)
    requires n <= |es|
  {
    && (forall x :: x in list <==> ComparedBefore(es, n, x))
    && (if n == 0 then |exts| == 0 else exts in list)
  }

  lemma PushedNext(es: seq<string>, n: nat, list: seq<string>, exts: string, next: string)
    requires n < |es| && Pushed(es, n, list, exts)
    requires next == if |es[n]| > 0 then Strip(es[n]) else exts
    ensures Pushed(es, n + 1, list + [next], next)
  {
    forall x ensures x in list + [next] <==> ComparedBefore(es, n + 1, x) {
      ComparedNext(es, n, x);
    }
  }

  /** From `start` on, the list reads as the entries of `es` from the i-th on. */
  ghost predicate InFrontOf(list: string, es: seq<string>, i: nat, start: nat)
    decreases |list| - start
  {
    && start <= |list| && i < |es|
    && var end := FirstIndex(list, ';', start);
       && es[i] == list[start..end]
       && if end == |list| then i == |es| - 1 else InFrontOf(list, es, i + 1, end + 1)
  }

  lemma {:induction false} EntriesInOrder(list: string, start: nat, before: seq<string>)
    requires start <= |list|
    ensures InFrontOf(list, before + EntriesFrom(list, start), |before|, start)
    decreases |list| - start
  {
    var end := FirstIndex(list, ';', start);
    if end < |list| {
      var entry, rest := list[start..end], EntriesFrom(list, end + 1);
      EntriesInOrder(list, end + 1, before + [entry]);
      assert before + ([entry] + rest) == before + [entry] + rest;
    }
  }

  lemma EntriesSplitList(list: string)
    ensures InFrontOf(list, Entries(list), 0, 0)
  {
    EntriesInOrder(list, 0, []);
    assert [] + Entries(list) == Entries(list);
  }

  lemma PushedLast(es: seq<string>, list: seq<string>, exts: string, x: string)
    requires |es| > 0 && Pushed(es, |es| - 1, list, exts)
    ensures var last := es[|es| - 1];
            x in (if |last| > 0 then list + [last] else list) <==> Compared(es, x)
  {
  }

  /** The splitting loop of match_extension, up to the entry behind the last semicolon. */
  method PushEntries(extensions: string, ghost es: seq<string>) returns (list: seq<string>, exts: string, last: string)
    requires InFrontOf(extensions, es, 0, 0)
    ensures |es| > 0 && last == es[|es| - 1] && Pushed(es, |es| - 1, list, exts)
  {
    list, exts := [], "";
    var start, end := 0, FirstIndex(extensions, ';', 0);
    ghost var n := 0;
    while end < |extensions|
      invariant InFrontOf(extensions, es, n, start) && end == FirstIndex(extensions, ';', start)
      invariant Pushed(es, n, list, exts)
      decreases |extensions| - start
    {
      var next := exts;
      if end != start {
        next := Strip(extensions[start..end]);
      }
      PushedNext(es, n, list, exts, next);
      exts := next;
      list := list + [exts];
      start, n := end + 1, n + 1;
      end := FirstIndex(extensions, ';', start);
    }
    last := extensions[start..];
  }

  /** match_extension: true exactly when the text after the last dot of the name is compared with. */
  method MatchExtension(filename: string, extensions: string) returns (r: bool)
    ensures r <==> '.' in filename && Compared(Entries(extensions), Strip(filename))
  {
    ExtensionIff(filename);
    ghost var es := Entries(extensions);
    EntriesSplitList(extensions);
    var list, exts, last := PushEntries(extensions, es);
    var ext := Strip(filename);
    PushedLast(es, list, exts, ext);
    if |last| > 0 {
      list := list + [last];
    }
    return LastIndex(filename, '.') >= 0 && ext in list;
  }

  // ----- when the loop does what the list says -----

  /** The last entry is compared as it stands, which only matters when it has a dot. */
  ghost predicate LastEntrySafe(es: seq<string>)
    requires |es| > 0
  {
    var last := |es| - 1;
    '.' !in es[last] || ComparedBefore(es, last, Strip(es[last]))
  }

  /** A list that opens with a semicolon also compares with the empty text. */
  predicate FirstEntrySafe(es: seq<string>)
    requires |es| > 0
  {
    |es| == 1 || |es[0]| > 0 || Named(es, "")
  }

  /**
   The loop agrees with the list on every file name exactly when the list neither opens with a
   stray semicolon nor closes on a dotted entry that no earlier one repeats.
   */
  lemma AgreementIff(es: seq<string>)
    requires |es| > 0
    ensures (forall name: string :: HasExtension(name) ==> (Compared(es, Strip(name)) <==> Named(es, Strip(name))))
            <==> LastEntrySafe(es) && FirstEntrySafe(es)
  {
    if !LastEntrySafe(es) {
      UnsafeLast(es);
    } else if !FirstEntrySafe(es) {
      UnsafeFirst(es);
    } else {
      forall name: string | HasExtension(name)
        ensures Compared(es, Strip(name)) <==> Named(es, Strip(name))
      {
        SafeListAgrees(es, Strip(name));
      }
    }
  }

  lemma UnsafeLast(es: seq<string>)
    requires |es| > 0 && !LastEntrySafe(es)
    ensures exists name: string :: HasExtension(name) && !Compared(es, Strip(name)) && Named(es, Strip(name))
  {
    var ext := Strip(es[|es| - 1]);
    StripDotted(ext);
    assert Names(es[|es| - 1], ext);
    assert HasExtension("." + ext) && !Compared(es, Strip("." + ext));
  }

  lemma UnsafeFirst(es: seq<string>)
    requires |es| > 0 && !FirstEntrySafe(es)
    ensures exists name: string :: HasExtension(name) && Compared(es, Strip(name)) && !Named(es, Strip(name))
  {
    StripDotted("");
    assert HasExtension("." + "") && Compared(es, Strip("." + ""));
  }

  lemma StripDotted(ext: string)
    requires '.' !in ext
    ensures HasExtension("." + ext) && Strip("." + ext) == ext
  {
    LastIndexAppend(".", ext, '.');
    assert ("." + ext)[0] == '.';
  }

  /** What follows the last dot. */
  lemma StripSplit(base: string, ext: string)
    requires '.' !in ext
    ensures Strip(base + "." + ext) == ext && HasExtension(base + "." + ext)
  {
    var name := base + ".";
    LastIndexAppend(name, ext, '.');
    assert name[|base|] == '.' && LastIndex(name, '.') == |base|;
    assert (name + ext)[|base| + 1..] == ext;
  }

  lemma ExtensionIff(name: string)
    ensures HasExtension(name) <==> '.' in name
  {
    if HasExtension(name) {
      assert name[LastIndex(name, '.')] == '.';
    }
  }

  lemma StripIff(entry: string, ext: string)
    requires '.' !in ext
    ensures Strip(entry) == ext <==> entry == ext || EndsWith(entry, "." + ext)
  {
    hide LastIndex;
    var pos := LastIndex(entry, '.');
    if pos < 0 {
      EndHasDot(entry, ext);
    } else {
      assert entry != ext by { assert entry[pos] == '.'; }
      if EndsWith(entry, "." + ext) {
        EndSplits(entry, ext);
        StripSplit(entry[..|entry| - |ext| - 1], ext);
      } else {
        assert entry[pos..] == "." + entry[pos + 1..];
      }
    }
  }

  lemma EndHasDot(entry: string, ext: string)
    ensures EndsWith(entry, "." + ext) ==> '.' in entry
  {
    if EndsWith(entry, "." + ext) {
      assert entry[|entry| - |ext| - 1..][0] == '.';
    }
  }

  lemma EndSplits(entry: string, ext: string)
    requires EndsWith(entry, "." + ext)
    ensures |ext| < |entry| && entry == entry[..|entry| - |ext| - 1] + "." + ext
  {
  }

  /**
   What an extension is compared with, in terms of the list itself: an entry before the last one that
   is the extension or ends in a dot and the extension, the last entry if it is the extension; and,
   if the list opens with a semicolon, nothing at all.
   */
  lemma ComparedIff(es: seq<string>, ext: string)
    requires |es| > 0 && '.' !in ext
    ensures var last := |es| - 1;
            Compared(es, ext) <==>
            || (exists i :: 0 <= i < last && |es[i]| > 0 && (es[i] == ext || EndsWith(es[i], "." + ext)))
            || (|ext| > 0 && es[last] == ext)
            || (|ext| == 0 && last > 0 && es[0] == "")
  {
    hide Strip, EndsWith;
    var last := |es| - 1;
    forall i | 0 <= i < last
      ensures Names(es[i], ext) <==> |es[i]| > 0 && (es[i] == ext || EndsWith(es[i], "." + ext))
    {
      StripIff(es[i], ext);
    }
  }

  lemma StripPlain(entry: string)
    requires '.' !in entry
    ensures Strip(entry) == entry
  {
  }

  lemma SafeListAgrees(es: seq<string>, ext: string)
    requires |es| > 0 && LastEntrySafe(es) && FirstEntrySafe(es) && '.' !in ext
    ensures Compared(es, ext) <==> Named(es, ext)
  {
    if '.' !in es[|es| - 1] {
      StripPlain(es[|es| - 1]);
    }
  }

  lemma StripStarDot(ext: string)
    requires '.' !in ext
    ensures Strip("*." + ext) == ext
  {
    LastIndexAppend("*.", ext, '.');
  }

  /** Entries put together with semicolons. */
  function Join(es: seq<string>): string
    requires |es| > 0
  {
    if |es| == 1 then es[0] else es[0] + (";" + Join(es[1..]))
  }

  lemma {:induction false} EntriesShift(before: string, list: string, start: nat)
    requires start <= |list|
    ensures EntriesFrom(before + list, |before| + start) == EntriesFrom(list, start)
    decreases |list| - start
  {
    hide FirstIndex;
    var all, end := before + list, FirstIndex(list, ';', start);
    IndexShift(before, list, start);
    SliceShift(before, list, start, end);
    if end < |list| {
      EntriesShift(before, list, end + 1);
    }
  }

  lemma SliceShift(before: string, list: string, start: nat, end: nat)
    requires start <= end <= |list|
    ensures (before + list)[|before| + start..|before| + end] == list[start..end]
    ensures end == |list| ==> (before + list)[|before| + start..] == list[start..]
  {
  }

  lemma IndexShift(before: string, list: string, start: nat)
    requires start <= |list|
    ensures FirstIndex(before + list, ';', |before| + start) == |before| + FirstIndex(list, ';', start)
  {
    hide FirstIndex;
    var all, end := before + list, FirstIndex(list, ';', start);
    assert forall j :: start <= j <= end && j < |list| ==> all[|before| + j] == list[j];
  }

  lemma EntriesCons(entry: string, rest: string)
    requires ';' !in entry
    ensures Entries(entry + (";" + rest)) == [entry] + Entries(rest)
  {
    hide FirstIndex;
    var list := entry + (";" + rest);
    assert list == (entry + ";") + rest;
    assert list[|entry|] == ';' && forall j :: 0 <= j < |entry| ==> list[j] == entry[j];
    assert list[0..|entry|] == entry;
    EntriesShift(entry + ";", rest, 0);
  }

  lemma OneEntry(entry: string)
    requires ';' !in entry
    ensures Entries(entry) == [entry]
  {
    assert entry[0..] == entry;
  }

  /** Splitting gives back the entries that were put together. */
  lemma {:induction false} EntriesOfJoin(es: seq<string>)
    requires |es| > 0 && forall i {:trigger es[i]} :: 0 <= i < |es| ==> ';' !in es[i]
    ensures Entries(Join(es)) == es
  {
    hide Entries;
    if |es| == 1 {
      OneEntry(es[0]);
    } else {
      EntriesCons(es[0], Join(es[1..]));
      EntriesOfJoin(es[1..]);
      assert [es[0]] + es[1..] == es;
    }
  }

  /** A list that closes on "*." and an extension names it, but never compares with it unless an earlier entry does. */
  lemma ClosingEntryMissed(es: seq<string>, ext: string)
    requires |es| > 0 && '.' !in ext && |ext| > 0 && es[|es| - 1] == "*." + ext
    requires forall i :: 0 <= i < |es| - 1 ==> !Names(es[i], ext)
    ensures Named(es, ext) && !Compared(es, ext)
  {
    StripStarDot(ext);
    assert Names(es[|es| - 1], ext);
  }

  const SHIPPED := ["*.gz", "*.rar", "*.h5", "*.jpg", "*.z7", "*.bz2"]

  /** The shipped configuration closes on "*.bz2": files of that kind are not skipped. */
  lemma ShippedListMissesBz2()
    ensures Entries("*.gz;*.rar;*.h5;*.jpg;*.z7;*.bz2") == SHIPPED
    ensures Named(SHIPPED, "bz2") && !Compared(SHIPPED, "bz2")
  {
    EntriesOfJoin(SHIPPED);
    ShippedText();
    assert "*." + "bz2" == "*.bz2";
    forall i | 0 <= i < 5 ensures !Names(SHIPPED[i], "bz2") {
      Unnamed(SHIPPED[i], i);
    }
    ClosingEntryMissed(SHIPPED, "bz2");
  }

  lemma JoinCons(entry: string, es: seq<string>)
    requires |es| > 0
    ensures Join([entry] + es) == entry + (";" + Join(es))
  {
    assert ([entry] + es)[1..] == es;
  }

  lemma ShippedText()
    ensures Join(SHIPPED) == "*.gz;*.rar;*.h5;*.jpg;*.z7;*.bz2"
  {
    assert Join(["*.bz2"]) == "*.bz2";
    hide Join;
    JoinCons("*.z7", ["*.bz2"]);
    JoinCons("*.jpg", ["*.z7", "*.bz2"]);
    JoinCons("*.h5", ["*.jpg", "*.z7", "*.bz2"]);
    JoinCons("*.rar", ["*.h5", "*.jpg", "*.z7", "*.bz2"]);
    JoinCons("*.gz", ["*.rar", "*.h5", "*.jpg", "*.z7", "*.bz2"]);
  }

  lemma Unnamed(entry: string, i: nat)
    requires i < 5 && entry == SHIPPED[i]
    ensures !Names(entry, "bz2")
  {
    assert entry[1] == '.' && entry[2] != 'b';
  }
}
