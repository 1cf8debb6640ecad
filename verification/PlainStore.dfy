/**
 The plain store that users are to see (src/dzfile-api.c): what each of its calls returns, and
 what it leaves, in terms of names, descriptors and bytes.
 */
module PlainStore {
  import opened CStrings
  import opened Container
  import opened Conversion
  import opened Store
  import opened Refinement

  /** All inodes but this one hold what they held. */
  ghost predicate OnlyNode(a: Os, a': Os, n: nat) {
    forall m {:trigger a'.nodes[m]} {:trigger m in a'.nodes} :: m != n ==>
      (m in a'.nodes <==> m in a.nodes) && (m in a.nodes ==> a'.nodes[m] == a.nodes[m])
  }

  /** A read gives the bytes at its offset, as far as there are any. */
  lemma Reads(a: Os, fd: int, count: nat, offset: nat)
    ensures match FdData(a, fd)
            case None => Plainly(a, Read(fd, count, offset)) == (a, Failed)
            case Some(data) =>
              Plainly(a, Read(fd, count, offset)) ==
              (a, Got(if offset >= |data| then "" else data[offset..Min(offset + count, |data|)]))
  {
    if FdData(a, fd).Some? && offset < |FdData(a, fd).value| {
      SliceIs(FdData(a, fd).value, offset, Min(count, |FdData(a, fd).value| - offset));
    }
  }

  /** A write replaces what is there, and fills a gap with zeros. */
  lemma Writes(a: Os, fd: int, data: Bytes, offset: nat)
    requires FdData(a, fd).Some? && a.fds[fd].writable
    ensures var (a', reply) := Plainly(a, Write(fd, data, offset)); var old' := FdData(a, fd).value;
            && reply == Wrote(|data|) && FdData(a', fd).Some?
            && a'.names == a.names && a'.fds == a.fds && OnlyNode(a, a', a.fds[fd].ino)
            && var new' := FdData(a', fd).value;
               && (|data| == 0 ==> new' == old')
               && (|data| > 0 ==> |new'| == if offset + |data| > |old'| then offset + |data| else |old'|)
               && (forall i :: 0 <= i < |data| ==> new'[offset + i] == data[i])
               && (forall i :: 0 <= i < |new'| && !(offset <= i < offset + |data|) ==>
                     new'[i] == if i < |old'| then old'[i] else '\0')
  {
  }

  lemma WritesNot(a: Os, fd: int, data: Bytes, offset: nat)
    requires FdData(a, fd).None? || !a.fds[fd].writable
    ensures Plainly(a, Write(fd, data, offset)) == (a, Failed)
  {
  }

  /** Stat and fstat give the length. */
  lemma Sizes(a: Os, path: string, fd: int)
    ensures Plainly(a, Stat(path)) ==
            (a, if Content(a, path).Some? && Content(a, path).value.Raw? then Size(|Content(a, path).value.data|)
                else Failed)
    ensures Plainly(a, Fstat(fd)) == (a, if FdData(a, fd).Some? then Size(|FdData(a, fd).value|) else Failed)
  {
  }

  /** A truncate keeps what is in front of the length, and fills up with zeros. */
  lemma Truncates(a: Os, path: string, length: nat, statOk: bool, ok: bool)
    ensures var (a', reply) := Plainly(a, Truncate(path, length, statOk, ok)); var file := Content(a, path);
            if !ok || file.None? || !file.value.Raw? then a' == a && reply == Failed
            else
              && reply == Finished && a'.names == a.names && a'.fds == a.fds && OnlyNode(a, a', a.names[path])
              && Content(a', path).Some? && Content(a', path).value.Raw?
              && var old', new' := file.value.data, Content(a', path).value.data;
                 |new'| == length && forall i :: 0 <= i < length ==> new'[i] == if i < |old'| then old'[i] else '\0'
  {
  }

  /** An unlink takes the name away and nothing else: open descriptors go on. */
  lemma Unlinks(a: Os, path: string, statOk: bool, hiddenOk: bool, ok: bool)
    ensures var (a', reply) := Plainly(a, Unlink(path, statOk, hiddenOk, ok)); var file := Content(a, path);
            if !ok || file.None? || file.value.Dir? then a' == a && reply == Failed
            else a' == Os(a.names - {path}, a.nodes, a.fds, a.handles) && reply == Finished
  {
    if Content(a, path).Some? && !Content(a, path).value.Dir? {
      assert path in a.names && path !in (a.names - {path});
    }
  }

  /** An open of a file that is there. */
  lemma Opens(a: Os, path: string, flags: Flags, statOk: bool, pick: Pick)
    requires Content(a, path).Some? && Content(a, path).value.Raw? && pick.fd >= 0
    ensures var (a', reply) := Plainly(a, Open(path, flags, statOk, pick)); var n := a.names[path];
            && reply == Opened(pick.fd) && a'.names == a.names && a'.handles == a.handles
            && a'.fds == a.fds[pick.fd := OpenFile(n, flags.access != ReadOnly)]
            && a'.nodes == if flags.trunc then a.nodes[n := Raw("")] else a.nodes
  {
  }

  /** An open of a file that is not. */
  lemma Creates(a: Os, path: string, flags: Flags, statOk: bool, pick: Pick)
    requires Content(a, path).None? && pick.fd >= 0
    ensures var (a', reply) := Plainly(a, Open(path, flags, statOk, pick));
            if !flags.creat then a' == a && reply == Failed
            else
              && reply == Opened(pick.fd) && a'.handles == a.handles && a'.names == a.names[path := pick.ino]
              && a'.fds == a.fds[pick.fd := OpenFile(pick.ino, flags.access != ReadOnly)]
              && a'.nodes == a.nodes[pick.ino := Raw("")]
  {
  }

  lemma OpensNot(a: Os, path: string, flags: Flags, statOk: bool, pick: Pick)
    requires pick.fd < 0 || (Content(a, path) == Some(Dir) && flags.access != ReadOnly)
    ensures Plainly(a, Open(path, flags, statOk, pick)) == (a, Failed)
  {
  }

  /** A close takes the descriptor away and nothing else. */
  lemma Closes(a: Os, fd: int)
    ensures Plainly(a, Close(fd)) ==
            if fd in a.fds then (Os(a.names, a.nodes, a.fds - {fd}, a.handles), Finished) else (a, Failed)
  {
  }
}
