/**
 The names behind a stored file (src/dz-common.c): `dir/name` is kept in the hidden
 `dir/.name.DZF`, written first under `dir/.name.DZF.tmp`.
 */
module Names {
  import opened CStrings

  // ----- the names as values -----

  predicate HasSlash(path: string) {
    '/' in path
  }

  /** Everything up to and including the last slash. */
  function DirPart(path: string): string {
    path[..LastIndex(path, '/') + 1]
  }

  /** What follows the last slash; the whole path when there is none. */
  function BaseName(path: string): string {
    var slash := LastIndex(path, '/');
    if slash < 0 then path else path[slash + 1..]
  }

  function Hidden(path: string): string {
    DirPart(path) + "." + BaseName(path) + ".DZF"
  }

  function Temp(path: string): string {
    Hidden(path) + ".tmp"
  }

  /** match_hiddenfile: the names a listing must not show. */
  predicate MatchHidden(path: string) {
    var name := BaseName(path);
    || name == "." || name == ".."
    || (|name| >= 4 && name[0] == '.' && (EndsWith(name, ".DZF") || EndsWith(name, ".DZF.tmp")))
  }

  /** A path the converter is ever asked to work on. */
  predicate Visible(path: string) {
    HasSlash(path) && !MatchHidden(path)
  }

  // ----- separation of the name spaces -----

  lemma SplitPath(path: string)
    ensures DirPart(path) + BaseName(path) == path
    ensures '/' !in BaseName(path)
  {
  }

  /** The hidden and temporary names keep the directory and change only the base name. */
  lemma HiddenParts(path: string)
    requires HasSlash(path)
    ensures DirPart(Hidden(path)) == DirPart(path)
    ensures BaseName(Hidden(path)) == "." + BaseName(path) + ".DZF"
    ensures DirPart(Temp(path)) == DirPart(path)
    ensures BaseName(Temp(path)) == "." + BaseName(path) + ".DZF.tmp"
  {
    hide LastIndex;
    var d := DirPart(path);
    assert LastIndex(d, '/') == |d| - 1;
    var h := "." + BaseName(path) + ".DZF";
    LastIndexAppend(d, h, '/');
    assert d + h == Hidden(path);
    LastIndexAppend(d, h + ".tmp", '/');
    assert d + (h + ".tmp") == Temp(path);
    assert h + ".tmp" == "." + BaseName(path) + ".DZF.tmp";
  }

  /** match_hiddenfile catches both forms. */
  lemma HiddenFormsMatch(path: string)
    requires HasSlash(path)
    ensures MatchHidden(Hidden(path)) && MatchHidden(Temp(path))
    ensures HasSlash(Hidden(path)) && HasSlash(Temp(path))
  {
    HiddenParts(path);
    assert path[LastIndex(path, '/')] == '/';
    assert '/' in DirPart(path);
    assert EndsWith(BaseName(Hidden(path)), ".DZF");
    assert EndsWith(BaseName(Temp(path)), ".DZF.tmp");
  }

  /** The names match_hiddenfile catches and nothing else makes: the directory itself, its parent, two short forms. */
  predicate Special(name: string) {
    name == "." || name == ".." || name == ".DZF" || name == ".DZF.tmp"
  }

  /** A name that is caught without being special is a hidden or a temporary form. */
  lemma CaughtForm(name: string) returns (n: string)
    requires |name| >= 4 && name[0] == '.' && !Special(name) && (EndsWith(name, ".DZF") || EndsWith(name, ".DZF.tmp"))
    ensures n <= name[1..]
    ensures name == "." + n + ".DZF" || name == "." + n + ".DZF.tmp"
  {
    assert EndsWith(name, ".DZF.tmp") && |name| == 8 ==> name == ".DZF.tmp";
    assert EndsWith(name, ".DZF") && |name| == 4 ==> name == ".DZF";
    n := if EndsWith(name, ".DZF") then name[1..|name| - 4] else name[1..|name| - 8];
  }

  /** A path is caught exactly when its base name is special, or it is a hidden or a temporary form of some path. */
  lemma CaughtIff(path: string)
    requires HasSlash(path)
    ensures MatchHidden(path) <==>
            || BaseName(path) in [".", "..", ".DZF", ".DZF.tmp"]
            || (exists q :: HasSlash(q) && path == Hidden(q))
            || (exists q :: HasSlash(q) && path == Temp(q))
  {
    SpecialCaught(path);
    hide MatchHidden, Hidden, Temp, BaseName;
    if MatchHidden(path) && !Special(BaseName(path)) {
      var q := CaughtFrom(path);
    }
    if q :| HasSlash(q) && (path == Hidden(q) || path == Temp(q)) {
      HiddenFormsMatch(q);
    }
  }

  lemma SpecialCaught(path: string)
    ensures Special(BaseName(path)) ==> MatchHidden(path)
  {
    assert EndsWith(".DZF", ".DZF") && EndsWith(".DZF.tmp", ".DZF.tmp");
  }

  /** The path a caught one is a form of. */
  lemma CaughtFrom(path: string) returns (q: string)
    requires HasSlash(path) && MatchHidden(path) && !Special(BaseName(path))
    ensures HasSlash(q) && (path == Hidden(q) || path == Temp(q))
  {
    hide EndsWith, Hidden, Temp, LastIndex;
    var name, d := BaseName(path), DirPart(path);
    SplitPath(path);
    var n := CaughtForm(name);
    q := d + n;
    FormsIn(d, n);
  }

  /** The hidden and the temporary form of a name in a directory. */
  lemma FormsIn(d: string, n: string)
    requires |d| > 0 && d[|d| - 1] == '/' && '/' !in n
    ensures HasSlash(d + n)
    ensures Hidden(d + n) == d + ("." + n + ".DZF") && Temp(d + n) == d + ("." + n + ".DZF.tmp")
  {
    PathOf(d, n);
    assert d + "." + n + ".DZF" == d + ("." + n + ".DZF");
    assert d + "." + n + ".DZF" + ".tmp" == d + ("." + n + ".DZF.tmp");
  }

  /** The path of a name in a directory. */
  lemma PathOf(d: string, n: string)
    requires |d| > 0 && d[|d| - 1] == '/' && '/' !in n
    ensures HasSlash(d + n) && DirPart(d + n) == d && BaseName(d + n) == n
  {
    LastIndexAppend(d, n, '/');
    assert LastIndex(d, '/') == |d| - 1;
    assert (d + n)[|d| - 1] == '/';
  }

  /** The same of a name on its own. */
  lemma CaughtName(name: string)
    requires '/' !in name
    ensures MatchHidden(name) <==>
            || name in [".", "..", ".DZF", ".DZF.tmp"]
            || (exists n :: name == "." + n + ".DZF")
            || (exists n :: name == "." + n + ".DZF.tmp")
  {
    assert BaseName(name) == name;
    if MatchHidden(name) && !Special(name) {
      var n := CaughtForm(name);
    }
    if n :| name == "." + n + ".DZF" {
      assert EndsWith(name, ".DZF");
    }
    if n :| name == "." + n + ".DZF.tmp" {
      assert EndsWith(name, ".DZF.tmp");
    }
    assert EndsWith(".DZF", ".DZF") && EndsWith(".DZF.tmp", ".DZF.tmp");
  }

  /** A hidden name determines the file it stands for; so does a temporary name. */
  lemma HiddenInjective(p: string, q: string)
    requires HasSlash(p) && HasSlash(q)
    requires Hidden(p) == Hidden(q) || Temp(p) == Temp(q)
    ensures p == q
  {
    HiddenParts(p);
    HiddenParts(q);
    var np, nq := BaseName(p), BaseName(q);
    assert Hidden(p) == Temp(p)[..|Temp(p)| - 4] && Hidden(q) == Temp(q)[..|Temp(q)| - 4];
    assert ("." + np + ".DZF")[1..|np| + 1] == np;
    assert ("." + nq + ".DZF")[1..|nq| + 1] == nq;
    SplitPath(p);
    SplitPath(q);
  }

  lemma HiddenNeverTemp(p: string, q: string)
    ensures Hidden(p) != Temp(q)
  {
    var h, t := Hidden(p), Temp(q);
    assert h[|h| - 1] == 'F';
    assert t[|t| - 1] == 'p';
  }

  /** The three files a conversion touches. */
  function Trio(path: string): set<string> {
    {path, Hidden(path), Temp(path)}
  }

  lemma VisibleIsNeither(p: string, q: string)
    requires Visible(p) && HasSlash(q)
    ensures p != Hidden(q) && p != Temp(q)
  {
    HiddenFormsMatch(q);
  }

  /** Two distinct visible paths share none of the files their conversions touch. */
  lemma TriosDisjoint(p: string, q: string)
    requires Visible(p) && Visible(q) && p != q
    ensures Trio(p) !! Trio(q)
  {
    var hp, tp, hq, tq := Hidden(p), Temp(p), Hidden(q), Temp(q);
    assert p != hq && p != tq by { VisibleIsNeither(p, q); }
    assert q != hp && q != tp by { VisibleIsNeither(q, p); }
    assert hp != tq by { HiddenNeverTemp(p, q); }
    assert hq != tp by { HiddenNeverTemp(q, p); }
    assert hp != hq && tp != tq by {
      if hp == hq || tp == tq {
        HiddenInjective(p, q);
      }
    }
  }

  /** The three names of one path are three names. */
  lemma TrioDistinct(path: string)
    ensures path != Hidden(path) && path != Temp(path) && Hidden(path) != Temp(path)
  {
    assert |Hidden(path)| == |path| + 5 && |Temp(path)| == |path| + 9;
  }

  // ----- the same name built in place -----

  /** strlen on a buffer known to hold `s` and its terminator from index 0. */
  method Strlen(a: array<char>, ghost s: string) returns (n: nat)
    requires NUL !in s && |s| < a.Length && a[|s|] == NUL
    requires forall i :: 0 <= i < |s| ==> a[i] == s[i]
    ensures n == |s|
  {
    n := 0;
    while a[n] != NUL
      invariant n <= |s|
      decreases |s| - n
    {
      n := n + 1;
    }
  }

  /** memmove inside one buffer: all reads before any write. */
  method Memmove(a: array<char>, to: nat, from: nat, n: nat)
    requires to + n <= a.Length && from + n <= a.Length
    modifies a
    ensures forall i :: to <= i < to + n ==> a[i] == old(a[i - to + from])
    ensures forall i :: 0 <= i < a.Length && !(to <= i < to + n) ==> a[i] == old(a[i])
  {
    forall i | 0 <= i < n {
      a[to + i] := a[from + i];
    }
  }

  /** strcpy to an offset, terminator included. */
  method Strcpy(a: array<char>, to: nat, s: string)
    requires to + |s| < a.Length
    modifies a
    ensures forall i :: to <= i < to + |s| ==> a[i] == s[i - to]
    ensures a[to + |s|] == NUL
    ensures forall i :: 0 <= i < a.Length && !(to <= i <= to + |s|) ==> a[i] == old(a[i])
  {
    forall i | 0 <= i <= |s| {
      a[to + i] := if i < |s| then s[i] else NUL;
    }
  }

  /** Open a one-cell gap at `at` in the C string `s` and write `c` into it. */
  method Insert(a: array<char>, ghost s: string, at: nat, len: nat, c: char)
    requires at <= len == |s| && len + 1 < a.Length && a[len] == NUL
    requires forall i :: 0 <= i < len ==> a[i] == s[i]
    modifies a
    ensures forall i :: 0 <= i <= len ==> a[i] == (s[..at] + [c] + s[at..])[i]
    ensures a[len + 1] == NUL
  {
    Memmove(a, at + 1, at, len - at + 1);
    a[at] := c;
  }

  /** strcat of ".DZF" onto a C string that leaves just enough room. */
  method AppendSuffix(a: array<char>, ghost s: string, len: nat)
    requires len == |s| && a.Length == len + 5
    requires forall i :: 0 <= i < len ==> a[i] == s[i]
    modifies a
    ensures a[..] == s + ".DZF" + [NUL]
  {
    Strcpy(a, len, ".DZF");
  }

  lemma HiddenText(path: string, dotted: string)
    requires HasSlash(path)
    requires var at := LastIndex(path, '/') + 1; dotted == path[..at] + ['.'] + path[at..]
    ensures Hidden(path) == dotted + ".DZF"
  {
  }

  /**
   buildHiddenFile: copy the path into a buffer six longer, shift the base name right by one,
   put a dot in the gap, append ".DZF". The terminator lands on the last cell.
   */
  method BuildHiddenFile(path: string) returns (r: array?<char>)
    requires NUL !in path
    ensures r == null <==> !HasSlash(path)
    ensures r != null ==> fresh(r) && r.Length == |path| + 6 && r[..] == Hidden(path) + [NUL]
  {
    var slash := LastIndex(path, '/');
    if slash < 0 {
      return null;
    }
    var a := new char[|path| + 6];
    Strcpy(a, 0, path);
    Insert(a, path, slash + 1, |path|, '.');
    ghost var dotted := path[..slash + 1] + ['.'] + path[slash + 1..];
    var len := Strlen(a, dotted);
    AppendSuffix(a, dotted, len);
    HiddenText(path, dotted);
    r := a;
  }
}
