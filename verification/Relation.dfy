/**
 How the store with containers stands to a plain store with the same files: the relation, and
 that every system call of a user's call (src/dzfile-api.c) keeps it.
 */
module Relation {
  import opened CStrings
  import opened Names
  import opened Container
  import opened Conversion
  import opened BlockReader
  import opened RoundTrip
  import opened ClientReads
  import opened Store
  import SystemDirs

  /** A path the users of the store may name. */
  predicate UserPath(path: string) {
    Visible(path) && !SystemDirs.MatchSysdir(path)
  }

  // ----- the relation -----

  /**
   What connects the two stores: `boxed` leads from the inode of a placeholder to the inode of its
   container, `short` are the placeholders that stand empty, `leaving` the paths whose container is
   unlinked and whose placeholder is not yet.
   */
  datatype Links = Links(boxed: map<nat, nat>, short: set<nat>, leaving: set<string>)

  /** The user paths lead to the same inodes; a path has a container exactly when its inode is a boxed one. */
  ghost predicate SameNames(names: map<string, nat>, plain: map<string, nat>, boxed: map<nat, nat>,
          leaving: set<string>) {
    && (forall p {:trigger p in plain} {:trigger p in names} :: p in plain <==> UserPath(p) && p in names)
    && (forall p {:trigger plain[p]} :: p in plain ==> names[p] == plain[p])
    && (forall p, q {:trigger plain[p], plain[q]} :: p in plain && q in plain && plain[p] == plain[q] ==> p == q)
    && (forall p {:trigger Hidden(p)} :: UserPath(p) ==>
          && (Hidden(p) in names <==> p in plain && plain[p] in boxed && p !in leaving)
          && (Hidden(p) in names ==> names[Hidden(p)] == boxed[plain[p]]))
    && (forall p {:trigger p in leaving} :: p in leaving ==> p in plain && plain[p] in boxed)
  }

  /** An inode holds its file, or is a placeholder whose file is in the container. */
  ghost predicate SameData(k: Codec, nodes: map<nat, File>, plain: map<nat, File>, boxed: map<nat, nat>,
          short: set<nat>) {
    && (forall n {:trigger plain[n]} {:trigger n in plain} :: n in plain ==>
          && n in nodes && plain[n].Raw? && nodes[n].Raw?
          && if n in boxed then
               && boxed[n] in nodes && nodes[boxed[n]] == Boxed(Stored(k, plain[n].data))
               && |nodes[n].data| == if n in short then 0 else |plain[n].data|
             else nodes[n] == plain[n])
    && (forall n {:trigger n in boxed} :: n in boxed ==> n in plain)
    && (forall n {:trigger n in short} :: n in short ==> n in boxed)
  }

  /**
   A descriptor is in the map exactly when its inode is a placeholder; then its handle is on the
   container of that inode.
   */
  ghost predicate SameFds(fds: map<int, OpenFile>, h5fdmap: map<int, Dzfd>, handles: map<int, nat>, boxed: map<nat,
          nat>) {
    forall fd {:trigger fds[fd]} {:trigger fd in fds} :: fd in fds ==>
      && fd >= 0 && (fd in h5fdmap <==> fds[fd].ino in boxed)
      && (fd in h5fdmap ==>
            && !fds[fd].writable && h5fdmap[fd].h5fd in handles
            && handles[h5fdmap[fd].h5fd] == boxed[fds[fd].ino])
  }

  /** The descriptor map: each key is an open descriptor whose entry holds that number and a live handle of its own. */
  ghost predicate MapSound(h5fdmap: map<int, Dzfd>, handles: map<int, nat>, fds: map<int, OpenFile>) {
    && (forall fd {:trigger h5fdmap[fd]} {:trigger fd in h5fdmap} :: fd in h5fdmap ==>
          h5fdmap[fd].fd == fd && h5fdmap[fd].h5fd in handles && fd in fds)
    && (forall fd, other {:trigger h5fdmap[fd], h5fdmap[other]} ::
          fd in h5fdmap && other in h5fdmap && fd != other ==> h5fdmap[fd].h5fd != h5fdmap[other].h5fd)
  }

  /** Names and descriptors lead to inodes that are there. */
  ghost predicate Connected(a: Os) {
    && (forall p {:trigger a.names[p]} {:trigger p in a.names} :: p in a.names ==> a.names[p] in a.nodes)
    && (forall fd {:trigger a.fds[fd]} {:trigger fd in a.fds} :: fd in a.fds ==> a.fds[fd].ino in a.nodes)
  }

  /** Every name leads to an inode of its own. */
  ghost predicate Tidy(os: Os) {
    && (forall p {:trigger os.names[p]} {:trigger p in os.names} :: p in os.names ==> os.names[p] in os.nodes)
    && (forall p, q {:trigger os.names[p], os.names[q]} ::
          p in os.names && q in os.names && os.names[p] == os.names[q] ==> p == q)
  }

  ghost predicate NoBox(boxed: map<nat, nat>, m: nat) {
    forall n {:trigger boxed[n]} :: n in boxed ==> boxed[n] != m
  }

  /** What stands under a temporary name is no file of a user, and no container. */
  ghost predicate TempsApart(names: map<string, nat>, plain: map<nat, File>, boxed: map<nat, nat>) {
    forall p {:trigger Temp(p)} :: UserPath(p) && Temp(p) in names ==>
      names[Temp(p)] !in plain && NoBox(boxed, names[Temp(p)])
  }

  ghost predicate Rel(k: Codec, s: Api, a: Os, l: Links) {
    && SameNames(s.os.names, a.names, l.boxed, l.leaving) && SameData(k, s.os.nodes, a.nodes, l.boxed, l.short)
    && s.os.fds == a.fds && SameFds(a.fds, s.h5fdmap, s.os.handles, l.boxed)
    && MapSound(s.h5fdmap, s.os.handles, a.fds) && Connected(a)
    && Tidy(s.os) && TempsApart(s.os.names, a.nodes, l.boxed)
  }

  // ----- names -----

  /** All paths with a slash but the converter's own names, the directory entries and what is private. */
  lemma UserPathIff(path: string)
    ensures UserPath(path) <==>
            && HasSlash(path) && BaseName(path) !in [".", "..", ".DZF", ".DZF.tmp"]
            && (forall q :: HasSlash(q) ==> path != Hidden(q)) && (forall q :: HasSlash(q) ==> path != Temp(q))
            && (forall i: nat :: !SystemDirs.PrivateAt(path, i))
  {
    hide MatchHidden, SystemDirs.MatchSysdir, Hidden, Temp, SystemDirs.PrivateAt;
    SystemDirs.SysdirIff(path);
    if HasSlash(path) {
      CaughtIff(path);
    }
  }

  lemma UserNames(p: string)
    requires UserPath(p)
    ensures !UserPath(Hidden(p)) && !UserPath(Temp(p)) && !IllegalName(p) && HasSlash(p)
    ensures Hidden(p) != Temp(p)
  {
    HiddenFormsMatch(p);
    HiddenNeverTemp(p, p);
  }

  lemma HiddenDiffer(p: string, q: string)
    requires UserPath(p) && UserPath(q)
    ensures Hidden(p) == Hidden(q) ==> p == q
    ensures Temp(p) == Temp(q) ==> p == q
    ensures Hidden(p) != Temp(q)
  {
    HiddenNeverTemp(p, q);
    if Hidden(p) == Hidden(q) || Temp(p) == Temp(q) {
      HiddenInjective(p, q);
    }
  }

  /** What a user path leads to in both stores. */
  lemma AtPath(k: Codec, s: Api, a: Os, l: Links, path: string)
    requires Rel(k, s, a, l) && UserPath(path)
    ensures Content(a, path).None? <==> Content(s.os, path).None?
    ensures path in a.names <==> path in s.os.names
    ensures Content(a, path).Some? <==> path in a.names
    ensures path in a.names ==> a.names[path] in a.nodes && s.os.names[path] == a.names[path]
    ensures Content(a, path).Some? ==> Content(a, path).value.Raw? && Content(s.os, path).value.Raw?
    ensures Hidden(path) in s.os.names <==> path in a.names && a.names[path] in l.boxed && path !in l.leaving
    ensures path !in l.leaving && Hidden(path) !in s.os.names ==> Content(s.os, path) == Content(a, path)
    ensures Hidden(path) in s.os.names ==>
              && Content(s.os, Hidden(path)) == Some(Boxed(Stored(k, Content(a, path).value.data)))
              && s.os.names[Hidden(path)] == l.boxed[a.names[path]] && l.boxed[a.names[path]] != a.names[path]
    ensures Hidden(path) !in s.os.names ==> Content(s.os, Hidden(path)).None?
    ensures !SystemDirs.MatchSysdir(path) && !IllegalName(path) && HasSlash(path) && s.os.fds == a.fds
  {
    UserNames(path);
    hide SameFds, MapSound, Hidden, Stored, TempsApart;
  }

  /** What findhiddenFile says of a user path. */
  lemma Found(k: Codec, s: Api, a: Os, l: Links, path: string, statOk: bool)
    requires Rel(k, s, a, l) && UserPath(path)
    ensures FindHidden(s.os, path, statOk) == if !statOk then -1 else if Hidden(path) in s.os.names then 1 else 0
  {
    hide Rel, UserPath, Hidden, Stored;
    AtPath(k, s, a, l, path);
  }

  // ----- descriptors -----

  /** Closing a descriptor takes its entry out of the map and closes the handle of that entry. */
  lemma MapClosed(fds: map<int, OpenFile>, h5fdmap: map<int, Dzfd>, handles: map<int, nat>, boxed: map<nat, nat>,
          fd: int)
    requires SameFds(fds, h5fdmap, handles, boxed) && MapSound(h5fdmap, handles, fds)
    ensures SameFds(fds - {fd}, h5fdmap - {fd}, if fd in h5fdmap then handles - {h5fdmap[fd].h5fd} else handles, boxed)
    ensures MapSound(h5fdmap - {fd}, if fd in h5fdmap then handles - {h5fdmap[fd].h5fd} else handles, fds - {fd})
    ensures fd in h5fdmap ==> h5fdmap[fd].fd == fd && fd in fds
  {
  }

  lemma CloseKeeps(k: Codec, s: Api, a: Os, l: Links, fd: int)
    requires Rel(k, s, a, l)
    ensures var (s', rc) := DzClose(s, fd); var (a', rc') := OsClose(a, fd); rc == rc' && Rel(k, s', a', l)
  {
    hide SameNames, SameData, SameFds, MapSound, TempsApart;
    MapClosed(a.fds, s.h5fdmap, s.os.handles, l.boxed, fd);
    if fd !in s.h5fdmap {
      assert s.h5fdmap - {fd} == s.h5fdmap;
    }
    if fd !in a.fds {
      assert a.fds - {fd} == a.fds;
    }
  }

  lemma ReadTrue(k: Codec, s: Api, a: Os, l: Links, fd: int, count: nat, offset: nat)
    requires Sound(k) && Rel(k, s, a, l)
    ensures var r := DzPread(k, s, fd, count, offset);
            r.Data? ==> FdData(a, fd).Some? && r == PlainRead(FdData(a, fd).value, count, offset)
  {
    hide SameNames, Stored, Pread, TempsApart;
    if fd in s.h5fdmap {
      var file := a.nodes[a.fds[fd].ino].data;
      assert SourceOf(s, fd) == Some(InBox(Stored(k, file)));
      SuccessIsTrue(k, file, count, offset);
    }
  }

  lemma StatTrue(k: Codec, s: Api, a: Os, l: Links, path: string)
    requires Rel(k, s, a, l) && UserPath(path)
    ensures OsStat(s.os, path).Some? <==> OsStat(a, path).Some?
    ensures OsStat(a, path).Some? ==>
              path in a.names && OsStat(s.os, path) == if a.names[path] in l.short then Some(0) else OsStat(a, path)
  {
    hide UserPath, Hidden, Stored, TempsApart, SameFds, MapSound;
    AtPath(k, s, a, l, path);
  }

  lemma FstatTrue(k: Codec, s: Api, a: Os, l: Links, fd: int)
    requires Rel(k, s, a, l)
    ensures FdData(s.os, fd).Some? <==> FdData(a, fd).Some?
    ensures FdData(a, fd).Some? ==>
              |FdData(s.os, fd).value| == if a.fds[fd].ino in l.short then 0 else |FdData(a, fd).value|
  {
    hide SameNames, Stored, TempsApart, SameFds, MapSound;
  }

  /** Changing a plain inode in both stores. */
  lemma NodeKeeps(k: Codec, s: Api, a: Os, l: Links, n: nat, data: Bytes)
    requires Rel(k, s, a, l) && n in a.nodes && n !in l.boxed
    ensures var s' := s.(os := s.os.(nodes := s.os.nodes[n := Raw(data)]));
            Rel(k, s', a.(nodes := a.nodes[n := Raw(data)]), l)
  {
    hide SameNames, SameFds, MapSound, Stored, UserPath, Temp;
  }

  lemma WriteKeeps(k: Codec, s: Api, a: Os, l: Links, fd: int, data: Bytes, offset: nat)
    requires Rel(k, s, a, l)
    ensures var (os, n) := OsPwrite(s.os, fd, data, offset); var (a', n') := OsPwrite(a, fd, data, offset);
            n == n' && Rel(k, s.(os := os), a', l)
  {
    hide SameNames, MapSound, Stored, Pwrite, TempsApart;
    if FdData(a, fd).Some? && a.fds[fd].writable {
      NodeKeeps(k, s, a, l, a.fds[fd].ino, Pwrite(FdData(a, fd).value, data, offset));
    }
  }

  // ----- open -----

  lemma FdOpened(fds: map<int, OpenFile>, h5fdmap: map<int, Dzfd>, handles: map<int, nat>,
          boxed: map<nat, nat>, fd: int, f: OpenFile)
    requires SameFds(fds, h5fdmap, handles, boxed) && MapSound(h5fdmap, handles, fds)
    requires fd >= 0 && fd !in fds && f.ino !in boxed
    ensures SameFds(fds[fd := f], h5fdmap, handles, boxed) && MapSound(h5fdmap, handles, fds[fd := f])
  {
  }

  lemma NameMade(names: map<string, nat>, plain: map<string, nat>, boxed: map<nat, nat>, leaving: set<string>,
          path: string, ino: nat)
    requires SameNames(names, plain, boxed, leaving) && UserPath(path) && path !in plain && ino !in boxed
    requires forall p {:trigger plain[p]} :: p in plain ==> plain[p] != ino
    ensures SameNames(names[path := ino], plain[path := ino], boxed, leaving)
  {
    hide UserPath, Hidden;
    forall q | UserPath(q) ensures Hidden(q) != path {
      UserNames(q);
    }
  }

  lemma Unused(k: Codec, nodes: map<nat, File>, plain: map<nat, File>, boxed: map<nat, nat>, short: set<nat>, ino: nat)
    requires SameData(k, nodes, plain, boxed, short) && ino !in nodes
    ensures ino !in plain && ino !in boxed && NoBox(boxed, ino)
  {
    hide Stored;
  }

  lemma NodeMade(k: Codec, nodes: map<nat, File>, plain: map<nat, File>, boxed: map<nat, nat>, short: set<nat>,
          ino: nat)
    requires SameData(k, nodes, plain, boxed, short) && ino !in nodes
    ensures SameData(k, nodes[ino := Raw("")], plain[ino := Raw("")], boxed, short)
  {
    hide Stored;
  }

  lemma TempsStay(names: map<string, nat>, plain: map<nat, File>, boxed: map<nat, nat>, nodes: map<nat, File>,
          path: string, ino: nat)
    requires TempsApart(names, plain, boxed) && UserPath(path) && ino !in nodes
    requires forall p {:trigger names[p]} :: p in names ==> names[p] in nodes
    ensures TempsApart(names[path := ino], plain[ino := Raw("")], boxed)
  {
    hide UserPath, Temp, NoBox;
    forall p | UserPath(p) ensures Temp(p) != path {
      UserNames(p);
    }
  }

  /** A file without a container is opened, as the plain store opens it. */
  lemma OpenPlainKeeps(k: Codec, s: Api, a: Os, l: Links, path: string, flags: Flags, pick: Pick)
    requires Rel(k, s, a, l) && UserPath(path) && Hidden(path) !in s.os.names && path !in l.leaving
    requires pick.fd !in s.os.fds && pick.ino !in s.os.nodes
    ensures var (os, fd) := OsOpen(s.os, path, flags, pick); var (a', fd') := OsOpen(a, path, flags, pick);
            fd == fd' && Rel(k, s.(os := os), a', l)
  {
    if path in a.names {
      OpenOld(k, s, a, l, path, flags, pick);
    } else {
      OpenNew(k, s, a, l, path, flags, pick);
    }
  }

  lemma OpenOld(k: Codec, s: Api, a: Os, l: Links, path: string, flags: Flags, pick: Pick)
    requires Rel(k, s, a, l) && UserPath(path) && Hidden(path) !in s.os.names && path !in l.leaving
    requires pick.fd !in s.os.fds && path in a.names
    ensures var (os, fd) := OsOpen(s.os, path, flags, pick); var (a', fd') := OsOpen(a, path, flags, pick);
            fd == fd' && Rel(k, s.(os := os), a', l)
  {
    hide UserPath, Hidden, Stored, SameNames, SameFds, SameData, MapSound, TempsApart;
    AtPath(k, s, a, l, path);
    var n := a.names[path];
    if pick.fd >= 0 {
      FdOpened(a.fds, s.h5fdmap, s.os.handles, l.boxed, pick.fd, OpenFile(n, !flags.access.ReadOnly?));
      NodeKeeps(k, s, a, l, n, "");
    }
  }

  lemma OpenNew(k: Codec, s: Api, a: Os, l: Links, path: string, flags: Flags, pick: Pick)
    requires Rel(k, s, a, l) && UserPath(path) && pick.fd !in s.os.fds && pick.ino !in s.os.nodes
    requires path !in a.names
    ensures var (os, fd) := OsOpen(s.os, path, flags, pick); var (a', fd') := OsOpen(a, path, flags, pick);
            fd == fd' && Rel(k, s.(os := os), a', l)
  {
    hide UserPath, Hidden, Stored, SameNames, SameFds, SameData, MapSound, TempsApart;
    AtPath(k, s, a, l, path);
    Unused(k, s.os.nodes, a.nodes, l.boxed, l.short, pick.ino);
    if pick.fd >= 0 && flags.creat {
      NameMade(s.os.names, a.names, l.boxed, l.leaving, path, pick.ino);
      FdOpened(a.fds, s.h5fdmap, s.os.handles, l.boxed, pick.fd, OpenFile(pick.ino, !flags.access.ReadOnly?));
      NodeMade(k, s.os.nodes, a.nodes, l.boxed, l.short, pick.ino);
      TempsStay(s.os.names, a.nodes, l.boxed, s.os.nodes, path, pick.ino);
    }
  }

  /** A pending open holds a handle on the container of its path, and nobody else does. */
  ghost predicate Handled(s: Api, a: Os, l: Links, path: string, h5fd: int) {
    && path in a.names && a.names[path] in l.boxed && h5fd in s.os.handles
    && s.os.handles[h5fd] == l.boxed[a.names[path]]
    && forall fd {:trigger s.h5fdmap[fd]} :: fd in s.h5fdmap ==> s.h5fdmap[fd].h5fd != h5fd
  }

  /** The container of a converted file is opened. */
  lemma HandleKeeps(k: Codec, s: Api, a: Os, l: Links, path: string, h5fd: int)
    requires Rel(k, s, a, l) && UserPath(path) && Hidden(path) in s.os.names && h5fd !in s.os.handles
    ensures var (os, h) := H5Open(s.os, Hidden(path), h5fd);
            if h5fd <= 0 then h == 0 && os == s.os
            else
              && h == h5fd && os == s.os.(handles := s.os.handles[h5fd := s.os.names[Hidden(path)]])
              && Rel(k, s.(os := os), a, l) && Handled(s.(os := os), a, l, path, h)
  {
    hide UserPath, Hidden, Stored, SameNames, SameData, TempsApart;
    AtPath(k, s, a, l, path);
  }

  lemma MapOpened(fds: map<int, OpenFile>, h5fdmap: map<int, Dzfd>, handles: map<int, nat>,
          boxed: map<nat, nat>, fd: int, n: nat, h5fd: int)
    requires SameFds(fds, h5fdmap, handles, boxed) && MapSound(h5fdmap, handles, fds)
    requires fd !in fds && fd >= 0 && n in boxed && h5fd in handles && handles[h5fd] == boxed[n]
    requires forall other {:trigger h5fdmap[other]} :: other in h5fdmap ==> h5fdmap[other].h5fd != h5fd
    ensures SameFds(fds[fd := OpenFile(n, false)], h5fdmap[fd := Dzfd(fd, h5fd)], handles, boxed)
    ensures MapSound(h5fdmap[fd := Dzfd(fd, h5fd)], handles, fds[fd := OpenFile(n, false)])
  {
  }

  /** The placeholder of a converted file is opened and goes into the map with the handle; a refusal is no key. */
  lemma OpenHandleKeeps(k: Codec, s: Api, a: Os, l: Links, path: string, flags: Flags, h5fd: int, pick: Pick)
    requires Rel(k, s, a, l) && UserPath(path) && Hidden(path) in s.os.names && Handled(s, a, l, path, h5fd)
    requires pick.fd !in s.os.fds && flags.access.ReadOnly? && !flags.trunc
    ensures var (s', next) := Act(s, OpenHandle(path, flags, h5fd), pick, true);
            var (a', fd) := OsOpen(a, path, flags, pick);
            if pick.fd < 0 then next == Ret(Aborted) && s' == s && fd == -1
            else next == Ret(Opened(fd)) && Rel(k, s', a', l)
  {
    hide UserPath, Hidden, Stored, SameNames, SameFds, SameData, MapSound, TempsApart;
    AtPath(k, s, a, l, path);
    if pick.fd >= 0 {
      MapOpened(a.fds, s.h5fdmap, s.os.handles, l.boxed, pick.fd, a.names[path], h5fd);
    }
  }

  // ----- truncate -----

  lemma ResizeKeeps(k: Codec, s: Api, a: Os, l: Links, path: string, length: nat)
    requires Rel(k, s, a, l) && UserPath(path) && Hidden(path) !in s.os.names && path !in l.leaving
    ensures var (os, rc) := OsTruncate(s.os, path, length); var (a', rc') := OsTruncate(a, path, length);
            rc == rc' && Rel(k, s.(os := os), a', l)
  {
    hide SameNames, SameFds, MapSound, SameData, Stored, Resized, UserPath, Hidden, TempsApart;
    AtPath(k, s, a, l, path);
    if path in a.names {
      NodeKeeps(k, s, a, l, a.names[path], Resized(Content(a, path).value.data, length));
    }
  }

  // ----- unlink -----

  lemma HiddenGone(names: map<string, nat>, plain: map<string, nat>, boxed: map<nat, nat>, leaving: set<string>,
          path: string)
    requires SameNames(names, plain, boxed, leaving) && UserPath(path) && Hidden(path) in names
    ensures SameNames(names - {Hidden(path)}, plain, boxed, leaving + {path})
  {
    hide UserPath, Hidden;
    UserNames(path);
    forall q | UserPath(q) ensures (Hidden(q) == Hidden(path) ==> q == path) {
      HiddenDiffer(q, path);
    }
  }

  lemma NameGone(names: map<string, nat>, plain: map<string, nat>, boxed: map<nat, nat>, leaving: set<string>,
          path: string)
    requires SameNames(names, plain, boxed, leaving) && UserPath(path) && Hidden(path) !in names
    ensures SameNames(names - {path}, plain - {path}, boxed, leaving - {path})
  {
    hide UserPath, Hidden;
    forall q | UserPath(q) ensures Hidden(q) != path {
      UserNames(q);
    }
  }

  /** The container goes first. */
  lemma UnlinkBoxedKeeps(k: Codec, s: Api, a: Os, l: Links, path: string)
    requires Rel(k, s, a, l) && UserPath(path) && Hidden(path) in s.os.names
    ensures Rel(k, s.(os := OsUnlink(s.os, Hidden(path))), a, l.(leaving := l.leaving + {path}))
    ensures OsUnlink(s.os, Hidden(path)).names == s.os.names - {Hidden(path)}
  {
    hide UserPath, Hidden, Temp, Stored, SameNames, SameFds, SameData, MapSound;
    AtPath(k, s, a, l, path);
    HiddenGone(s.os.names, a.names, l.boxed, l.leaving, path);
  }

  /** Then the file, or its placeholder. */
  lemma UnlinkPlainKeeps(k: Codec, s: Api, a: Os, l: Links, path: string)
    requires Rel(k, s, a, l) && UserPath(path) && Hidden(path) !in s.os.names
    ensures OsUnlink(s.os, path) == s.os <==> OsUnlink(a, path) == a
    ensures Rel(k, s.(os := OsUnlink(s.os, path)), OsUnlink(a, path), l.(leaving := l.leaving - {path}))
  {
    hide UserPath, Hidden, Temp, Stored, SameNames, SameFds, SameData, MapSound;
    AtPath(k, s, a, l, path);
    NameGone(s.os.names, a.names, l.boxed, l.leaving, path);
    if path in s.os.names {
      assert path !in (s.os.names - {path}) && path !in (a.names - {path});
    } else {
      assert s.os.names - {path} == s.os.names && a.names - {path} == a.names;
    }
  }
}
