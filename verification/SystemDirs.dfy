/**
 The guard on the private directory ".dzs" (src/dz-common.c, match_sysdir): strtok walks a
 copy of the path, ending each token in place.
 */
module SystemDirs {
  import opened CStrings

  const PRIVATE_DIR := ".dzs"

  /** `name` stands at index `i` of the path as a whole slash-separated component. */
  predicate ComponentAt(path: string, i: nat, name: string) {
    && i + |name| <= |path|
    && path[i..i + |name|] == name
    && (i == 0 || path[i - 1] == '/')
    && (i + |name| == |path| || path[i + |name|] == '/')
  }

  /** Some component of the path is the private directory. */
  predicate MatchSysdir(path: string) {
    exists i: nat :: i <= |path| && ComponentAt(path, i, PRIVATE_DIR)
  }

  /** A whole component of the path, from index i on, is ".dzs". */
  predicate PrivateAt(path: string, i: nat) {
    && i + 4 <= |path| && path[i..i + 4] == ".dzs"
    && (i == 0 || path[i - 1] == '/') && (i + 4 == |path| || path[i + 4] == '/')
  }

  lemma SysdirIff(path: string)
    ensures MatchSysdir(path) <==> exists i: nat :: PrivateAt(path, i)
  {
    assert forall i: nat :: PrivateAt(path, i) <==> ComponentAt(path, i, PRIVATE_DIR);
  }

  /** What strtok keeps between calls: the part of the buffer not yet cut is still the path. */
  ghost predicate Uncut(buf: array<char>, path: string, from: nat)
    reads buf
  {
    && buf.Length == |path| + 1 && from <= |path| && buf[|path|] == NUL
    && (forall i :: from <= i < |path| ==> buf[i] == path[i])
  }

  /**
   strtok(buf, "/"): skip slashes, find the end of the token, put NUL over the slash there.
   The token is buf[start..end]; `next` is where the following call resumes.
   */
  method Strtok(buf: array<char>, ghost path: string, from: nat) returns (found: bool, start: nat, end: nat, next: nat)
    requires NUL !in path && Uncut(buf, path, from)
    modifies buf
    ensures Uncut(buf, path, next)
    ensures from <= start <= end <= next <= |path|
    ensures forall i :: from <= i < start ==> path[i] == '/'
    ensures !found ==> start == |path|
    ensures found ==> start < end && (forall i :: start <= i < end ==> path[i] != '/')
    ensures found ==> buf[start..end] == path[start..end]
    ensures found && next < |path| ==> path[end] == '/' && next == end + 1
    ensures found && next == |path| ==> end == |path| || (end + 1 == |path| && path[end] == '/')
  {
    start := from;
    while buf[start] == '/'
      invariant from <= start <= |path|
      invariant forall i :: from <= i < start ==> path[i] == '/'
      decreases |path| - start
    {
      start := start + 1;
    }
    end, next := start, start;
    found := buf[start] != NUL;
    if found {
      while buf[end] != NUL && buf[end] != '/'
        invariant start <= end <= |path|
        invariant forall i :: start <= i < end ==> path[i] != '/'
        invariant buf[start] != NUL && buf[start] != '/'
        decreases |path| - end
      {
        end := end + 1;
      }
      next := end;
      if buf[end] == '/' {
        buf[end] := NUL;
        next := end + 1;
      }
    }
  }

  /** match_sysdir: 1 exactly when a whole component of the path is ".dzs". */
  method CheckSysdir(path: string) returns (r: int)
    requires NUL !in path
    ensures r == 1 || r == 0
    ensures r == 1 <==> MatchSysdir(path)
    ensures r == 1 <==> exists i: nat :: PrivateAt(path, i)
  {
    SysdirIff(path);
    var buf := new char[|path| + 1](i => if 0 <= i < |path| then path[i] else NUL);
    var found, start, end, next := Strtok(buf, path, 0);
    ghost var from := 0;
    while found
      invariant Uncut(buf, path, next)
      invariant from <= start <= end <= next <= |path|
      invariant from == 0 || from == |path| || path[from - 1] == '/'
      invariant forall i :: from <= i < start ==> path[i] == '/'
      invariant !found ==> start == |path|
      invariant found ==> start < end && (forall i :: start <= i < end ==> path[i] != '/')
      invariant found ==> buf[start..end] == path[start..end]
      invariant found && next < |path| ==> path[end] == '/' && next == end + 1
      invariant found && next == |path| ==> end == |path| || (end + 1 == |path| && path[end] == '/')
      invariant forall i: nat :: i < from ==> !ComponentAt(path, i, PRIVATE_DIR)
      decreases |path| - next, found
    {
      if buf[start..end] == PRIVATE_DIR {
        assert ComponentAt(path, start, PRIVATE_DIR);
        return 1;
      }
      NoneBefore(path, from, start, end);
      from := next;
      found, start, end, next := Strtok(buf, path, next);
    }
    NoneAtEnd(path, from);
    return 0;
  }

  /** A token that is not the name rules out every start up to the next token. */
  lemma NoneBefore(path: string, from: nat, start: nat, end: nat)
    requires from <= start < end <= |path|
    requires forall i :: from <= i < start ==> path[i] == '/'
    requires forall i :: start <= i < end ==> path[i] != '/'
    requires end == |path| || path[end] == '/'
    requires path[start..end] != PRIVATE_DIR
    ensures forall i: nat :: from <= i <= end ==> !ComponentAt(path, i, PRIVATE_DIR)
  {
    forall i: nat | from <= i <= end
      ensures !ComponentAt(path, i, PRIVATE_DIR)
    {
      ComponentChars(path, i);
    }
  }

  /** A component ".dzs" spelled out cell by cell. */
  lemma ComponentChars(path: string, i: nat)
    ensures ComponentAt(path, i, PRIVATE_DIR) ==>
              && i + 4 <= |path|
              && path[i] == '.' && path[i + 1] == 'd' && path[i + 2] == 'z' && path[i + 3] == 's'
              && (i + 4 == |path| || path[i + 4] == '/')
  {
    if i + 4 <= |path| {
      var t := path[i..i + 4];
      assert t[0] == path[i] && t[1] == path[i + 1] && t[2] == path[i + 2] && t[3] == path[i + 3];
    }
  }

  lemma NoneAtEnd(path: string, from: nat)
    requires from <= |path| && forall i :: from <= i < |path| ==> path[i] == '/'
    ensures forall i: nat :: from <= i ==> !ComponentAt(path, i, PRIVATE_DIR)
  {
    forall i: nat | from <= i
      ensures !ComponentAt(path, i, PRIVATE_DIR)
    {
      ComponentChars(path, i);
    }
  }
}
