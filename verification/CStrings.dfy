/**
 The few C library string operations the program leans on, as functions on strings.
 A char buffer of the program is a Dafny string; `NUL` ends it in memory.
 */
module CStrings {

  datatype Option<+T> = None | Some(value: T)

  /** The contents of a char buffer, or of a file. */
  type Bytes = string

  const NUL: char := '\0'

  /** strrchr and rfind: the index of the last `c`, or -1. */
  function LastIndex(s: string, c: char): (r: int)
    ensures -1 <= r < |s|
    ensures r >= 0 ==> s[r] == c
    ensures forall i :: r < i < |s| ==> s[i] != c
  {
    if s == "" then -1
    else if s[|s| - 1] == c then |s| - 1
    else LastIndex(s[..|s| - 1], c)
  }

  /** The first index from `start` on that holds `c`, or the length. */
  function FirstIndex(s: string, c: char, start: nat): (r: nat)
    requires start <= |s|
    ensures start <= r <= |s|
    ensures r < |s| ==> s[r] == c
    ensures forall i :: start <= i < r ==> s[i] != c
    decreases |s| - start
  {
    if start == |s| || s[start] == c then start else FirstIndex(s, c, start + 1)
  }

  predicate EndsWith(s: string, suffix: string) {
    |suffix| <= |s| && s[|s| - |suffix|..] == suffix
  }

  /** `n` bytes from an index on. */
  function Slice(s: Bytes, from: nat, n: nat): (r: Bytes)
    requires from + n <= |s|
    ensures |r| == n
  {
    seq(n, i requires 0 <= i < n => s[from + i])
  }

  lemma SliceIs(s: Bytes, from: nat, n: nat)
    requires from + n <= |s|
    ensures Slice(s, from, n) == s[from..from + n]
  {
  }

  lemma SliceJoin(s: Bytes, from: nat, n: nat, m: nat)
    requires from + n + m <= |s|
    ensures Slice(s, from, n) + Slice(s, from + n, m) == Slice(s, from, n + m)
  {
  }

  function Min(a: int, b: int): int {
    if a <= b then a else b
  }

  /** Appending a text without `c` does not move the last `c`. */
  lemma {:induction false} LastIndexAppend(s: string, t: string, c: char)
    requires c !in t
    ensures LastIndex(s + t, c) == LastIndex(s, c)
  {
    if t == "" {
      assert s + t == s;
    } else {
      assert (s + t)[..|s + t| - 1] == s + t[..|t| - 1];
      assert (s + t)[|s + t| - 1] == t[|t| - 1];
      LastIndexAppend(s, t[..|t| - 1], c);
    }
  }
}
