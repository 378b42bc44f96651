/** Result files under races: placeholders, links, exchanges and quarantines, one
    system call at a time, while anybody may act on the public paths in between. */
module OwnedFiles {

  datatype Option<T> = None | Some(value: T)

  /** Public names are the result paths everybody can reach. Private names are the
      staged files and quarantines a process makes under random names of its own. */
  datatype Name = Public(path: string) | Private(n: nat)

  type Directory = map<Name, nat>

  datatype Meta = Meta(size: nat, stamp: int, regular: bool)

  /** What a stat reports. */
  datatype Info = Info(inode: nat, size: nat, stamp: int, regular: bool)

  /** What a system call of ours did to the directory, did not manage to do, or saw there. */
  datatype Effect =
    | Created(path: Name, inode: nat)
    | Linked(path: Name, inode: nat)
    | MovedAside(path: Name, inode: nat)
    | Swapped(path: Name, gone: nat, come: nat)
    | Unlinked(inode: nat)
    | NotLinked(path: Name)
    | NotMoved(path: Name)
    | NotSwapped(path: Name)
    | NotUnlinked(path: Name)
    | Seen(path: Name, found: Option<Info>)

  ghost predicate Named(d: Directory, i: nat) {
    exists n :: n in d && d[n] == i
  }

  ghost predicate NamedPublicly(d: Directory, i: nat) {
    exists n :: n in d && n.Public? && d[n] == i
  }

  ghost predicate SamePrivate(d: Directory, e: Directory) {
    forall k: nat :: (Private(k) in d <==> Private(k) in e) && (Private(k) in d ==> d[Private(k)] == e[Private(k)])
  }

  predicate SameOwned(expected: Info, current: Info) {
    current.regular && expected.inode == current.inode && current.size == expected.size
  }

  predicate StableIdentity(expected: Info, observed: Info) {
    observed.regular && expected.inode == observed.inode && expected.size == observed.size && expected.stamp == observed.stamp
  }

  /** A regular file that differs from the expected one in its time at most. */
  predicate Owned(expected: Info, found: Option<Info>) {
    found.Some? && found.value == expected.(stamp := found.value.stamp, regular := true)
  }

  /** A regular file that does not differ from the expected one in anything. */
  predicate Stable(expected: Info, found: Option<Info>) {
    found == Some(expected.(regular := true))
  }

  function Look(d: Directory, meta: map<nat, Meta>, n: Name): Option<Info> {
    if n !in d then None else
      var m := if d[n] in meta then meta[d[n]] else Meta(0, 0, true);
      Some(Info(d[n], m.size, m.stamp, m.regular))
  }

  predicate Regular(found: Option<Info>) {
    found.Some? && found.value.regular
  }

  predicate Looked(effect: Effect, path: Name) {
    effect.Seen? && effect.path == path
  }

  /** The calls of one guarded removal, from first to last, and whether it reports success:
      what was moved aside is removed only once it was seen to be the expected file, and
      anything else is linked back. */
  predicate RemovalRun(done: seq<Effect>, path: Name, expected: Info, ok: bool) {
    && |done| >= 1 && Looked(done[0], path)
    && if !Owned(expected, done[0].found) then |done| == 1 && !ok
       else if |done| == 2 then done[1] == NotMoved(path) && !ok
       else
         && |done| >= 4 && done[1].MovedAside? && done[1].path == path && done[2].Seen?
         && (done[2].found.Some? ==> done[2].found.value.inode == done[1].inode)
         && if Owned(expected, done[2].found) then
              |done| == 4 && done[3] == if ok then Unlinked(expected.inode) else NotUnlinked(done[2].path)
            else !ok && PutBackRun(done[3..], path, done[2].path, done[1].inode)
  }

  predicate PutBackRun(done: seq<Effect>, path: Name, quarantined: Name, inode: nat) {
    || done == [NotLinked(path)]
    || done == [Linked(path, inode), Unlinked(inode)]
    || done == [Linked(path, inode), NotUnlinked(quarantined)]
  }

  /** The calls of one guarded replacement, from first to last, and what it reports: the
      displaced file is removed only once it was seen under the staged name to be the expected
      one and the staged one was seen at the path; otherwise the two are swapped back. */
  predicate ReplacementRun(done: seq<Effect>, path: Name, staged: Name, expected: Info, r: Option<Info>) {
    && |done| >= 1 && Looked(done[0], staged)
    && if !Regular(done[0].found) then |done| == 1 && r.None?
       else if |done| == 2 then done[1] == NotSwapped(path) && r.None?
       else
         && |done| == 5 && done[1].Swapped? && done[1].path == path && Looked(done[2], staged) && Looked(done[3], path)
         && if Stable(expected, done[2].found) && Stable(done[0].found.value, done[3].found) then
              if r.Some? then r == done[3].found && done[4] == Unlinked(expected.inode) else done[4] == NotUnlinked(staged)
            else r.None? && (done[4] == NotSwapped(path) || (done[4].Swapped? && done[4].path == path))
  }

  /** The calls of one publication by hard link, and the published file it reports. */
  predicate LinkRun(done: seq<Effect>, path: Name, staged: Name, before: Info, published: Option<Info>) {
    if |done| == 1 then done[0] == NotLinked(path) && published.None?
    else
      && |done| == 3 && done[0] == Linked(path, before.inode) && Looked(done[1], staged) && Looked(done[2], path)
      && published == if Stable(before, done[1].found) && Stable(before, done[2].found) then done[2].found else None
  }

  /** The same with the removal of the staged name, which is tried once the link is published. */
  predicate PublicationRun(done: seq<Effect>, path: Name, staged: Name, before: Info, published: Option<Info>, ok: bool) {
    if published.None? then LinkRun(done, path, staged, before, published) && !ok
    else
      && |done| == 4 && LinkRun(done[..3], path, staged, before, published)
      && done[3] == if ok then Unlinked(before.inode) else NotUnlinked(staged)
  }

  lemma RunEnds(log: seq<Effect>, done: seq<Effect>, last: seq<Effect>, path: Name, expected: Info, ok: bool)
    requires last == log + done && RemovalRun(done, path, expected, ok)
    ensures log <= last && RemovalRun(last[|log|..], path, expected, ok)
  {
    assert last[|log|..] == done;
  }

  lemma RunEndsWithPutBack(log: seq<Effect>, done: seq<Effect>, last: seq<Effect>, path: Name, expected: Info)
    requires log + done <= last && |done| == 3 && Looked(done[0], path) && Owned(expected, done[0].found)
    requires done[1].MovedAside? && done[1].path == path && done[2].Seen? && !Owned(expected, done[2].found)
    requires done[2].found.Some? ==> done[2].found.value.inode == done[1].inode
    requires PutBackRun(last[|log + done|..], path, done[2].path, done[1].inode)
    ensures log <= last && RemovalRun(last[|log|..], path, expected, false)
  {
    assert last[|log|..] == done + last[|log + done|..];
  }

  class FileSystem {
    var names: Directory
    var meta: map<nat, Meta>
    var nextInode: nat
    var nextPrivate: nat
    /** The inodes this process created or adopted, the ones it did not, and those of
        the latter whose last public name somebody else took away. */
    ghost var ours: set<nat>
    ghost var foreign: set<nat>
    ghost var discarded: set<nat>
    /** Everything our own calls have done, oldest first. */
    ghost var log: seq<Effect>
    /** Nobody has interfered and no system call has failed without a reason. */
    ghost var quiet: bool

    /** Every file of somebody else still has a name, unless somebody else threw it away. */
    ghost predicate Safe()
      reads this`names, this`foreign, this`discarded
    {
      forall i :: i in foreign ==> i in discarded || Named(names, i)
    }

    ghost predicate Valid()
      reads this`names, this`nextInode, this`nextPrivate, this`ours, this`foreign, this`discarded
    {
      && Safe()
      && (forall n :: n in names ==> names[n] < nextInode && (names[n] in ours || names[n] in foreign))
      && (forall k: nat :: Private(k) in names ==> k < nextPrivate)
      && (forall i :: i in ours || i in foreign ==> i < nextInode)
      && ours !! foreign
    }

    /** A directory as somebody else left it; inodes from `unused` on are not in use. */
    constructor (d: Directory, unused: nat)
      requires forall n :: n in d ==> n.Public? && d[n] < unused
      ensures Valid() && ours == {} && discarded == {} && names == d
    {
      names, meta, nextInode, nextPrivate := d, map[], unused, 0;
      ours, foreign, discarded, log, quiet := {}, set n | n in d :: d[n], {}, [], true;
    }

    /** What a stat of `n` reports now. */
    function At(n: Name): Option<Info>
      reads this`names, this`meta
    {
      Look(names, meta, n)
    }

    // ----------------------------------------------------------- everybody else

    ghost predicate Undisturbed(d: Directory)
      reads this`names, this`discarded
    {
      && SamePrivate(d, names)
      && (forall i :: NamedPublicly(d, i) ==> NamedPublicly(names, i) || i in discarded)
    }

    /** Anybody does anything to the public names: create, remove, rename, link, replace,
        with files of theirs or with ours, and writes into any file. */
    method Interfere()
      requires Valid()
      modifies this`names, this`meta, this`nextInode, this`foreign, this`discarded, this`quiet
      ensures Valid() && Undisturbed(old(names)) && nextInode >= old(nextInode) && old(foreign) <= foreign
      ensures quiet ==> old(quiet) && names == old(names) && meta == old(meta)
    {
      var theirs: Directory := *;
      var more: nat := *;
      if more < nextInode {
        return;
      }
      quiet := false;
      meta := *;
      var kept := map n | n in names && n.Private? :: names[n];
      var public := map n | n in theirs && n.Public? && 0 <= theirs[n] < more :: theirs[n];
      ghost var old' := names;
      names := public + kept;
      nextInode := more;
      foreign := foreign + (set n | n in public && public[n] !in ours :: public[n]);
      PrivateStay(old', public, kept);
      ghost var taken := set n | n in old' && n.Public? && !NamedPublicly(names, old'[n]) :: old'[n];
      discarded := (set i | i in discarded && !NamedPublicly(names, i)) + taken;
      StillSafe(old');
    }

    lemma PrivateStay(d: Directory, public: Directory, kept: Directory)
      requires forall n :: n in public ==> n.Public?
      requires kept == map n | n in d && n.Private? :: d[n]
      ensures SamePrivate(d, public + kept)
    {
    }

    twostate lemma StillSafe(d: Directory)
      requires d == old(names) && old(Valid())
      requires SamePrivate(d, names)
      requires forall i :: NamedPublicly(d, i) ==> NamedPublicly(names, i) || i in discarded
      requires forall i :: i in old(discarded) && i !in discarded ==> NamedPublicly(names, i)
      requires forall i :: i in foreign && i !in old(foreign) ==> NamedPublicly(names, i)
      ensures Safe()
    {
      forall i | i in foreign && i !in discarded
        ensures Named(names, i)
      {
        if !NamedPublicly(names, i) {
          assert Named(d, i);
          var n :| n in d && d[n] == i;
          assert n.Private?;
          assert Private(n.n) in names && names[Private(n.n)] == i;
        } else {
          var n :| n in names && n.Public? && names[n] == i;
        }
      }
    }

    /** A file left by an earlier process becomes ours once its content has proved to be
        the checkpoint that process sealed. */
    ghost method Adopt(i: nat)
      requires Valid() && i in foreign
      modifies this`ours, this`foreign
      ensures Valid() && ours == old(ours) + {i} && foreign == old(foreign) - {i}
    {
      ours, foreign := ours + {i}, foreign - {i};
    }

    // ------------------------------------------------------------- system calls

    /** A call that could have worked fails all the same. */
    method Fault() returns (fails: bool)
      modifies this`quiet
      ensures quiet == (old(quiet) && !fails)
    {
      fails := *;
      if fails {
        quiet := false;
      }
    }

    method Lstat(n: Name) returns (r: Option<Info>)
      modifies this`quiet, this`log
      ensures r.Some? ==> r == At(n) && n in names && r.value.inode == names[n]
      ensures log == old(log) + [Seen(n, r)]
      ensures quiet ==> old(quiet) && r == At(n)
    {
      var fails := Fault();
      r := if fails then None else At(n);
      log := log + [Seen(n, r)];
    }

    /** A private name nobody uses yet. */
    method TempName() returns (n: Name)
      requires Valid()
      modifies this`nextPrivate
      ensures Valid() && n.Private? && n !in names && n.n < nextPrivate
    {
      n := Private(nextPrivate);
      nextPrivate := nextPrivate + 1;
    }

    /** O_CREAT with O_EXCL. */
    method CreateExclusive(n: Name) returns (ok: bool, info: Info)
      requires Valid() && (n.Private? ==> n.n < nextPrivate)
      modifies this`names, this`meta, this`nextInode, this`ours, this`log, this`quiet
      ensures Valid() && (ok ==> n !in old(names) && info.inode in ours && names == old(names)[n := info.inode])
      ensures ok ==> At(n) == Some(info) && info.regular && info.inode == old(nextInode)
      ensures !ok ==> names == old(names) && meta == old(meta)
      ensures forall m :: m in old(names) ==> At(m) == old(At(m))
      ensures log == if ok then old(log) + [Created(n, info.inode)] else old(log)
      ensures old(ours) <= ours
      ensures quiet ==> old(quiet) && (ok <==> n !in old(names))
    {
      var stamp: int := *;
      info := Info(nextInode, 0, stamp, true);
      if n in names {
        return false, info;
      }
      var fails := Fault();
      if fails {
        return false, info;
      }
      ghost var before := names;
      names := names[n := nextInode];
      meta := meta[nextInode := Meta(0, stamp, true)];
      ours := ours + {nextInode};
      log := log + [Created(n, nextInode)];
      nextInode := nextInode + 1;
      ok := true;
      assert forall m :: m in before ==> m in names && names[m] == before[m];
      KeptNames(before);
    }

    /** Writing content into a file of ours. */
    method Write(n: Name) returns (ok: bool)
      requires Valid() && n in names && names[n] in ours
      modifies this`meta, this`quiet
      ensures Valid() && (ok ==> At(n).value.regular)
      ensures forall m :: m in names && names[m] != names[n] ==> At(m) == old(At(m))
      ensures quiet ==> old(quiet) && ok
    {
      var size: nat, stamp: int := *, *;
      meta := meta[names[n] := Meta(size, stamp, true)];
      var fails := Fault();
      ok := !fails;
    }

    lemma KeptNames(d: Directory)
      requires forall n :: n in d ==> n in names && names[n] == d[n]
      requires forall i :: i in foreign ==> i in discarded || Named(d, i)
      ensures Safe()
    {
      forall i | i in foreign && i !in discarded
        ensures Named(names, i)
      {
        var n :| n in d && d[n] == i;
        assert n in names && names[n] == i;
      }
    }

    /** link(2): never replaces anything. */
    method Link(src: Name, dst: Name) returns (ok: bool)
      requires Valid() && (dst.Private? ==> dst.n < nextPrivate)
      modifies this`names, this`log, this`quiet
      ensures Valid()
      ensures quiet ==> old(quiet) && (ok <==> src in old(names) && dst !in old(names))
      ensures ok ==> src in old(names) && dst !in old(names) && names == old(names)[dst := old(names)[src]]
      ensures !ok ==> names == old(names)
      ensures log == old(log) + [if ok then Linked(dst, old(names)[src]) else NotLinked(dst)]
    {
      var fails := Fault();
      if fails || src !in names || dst in names {
        log := log + [NotLinked(dst)];
        return false;
      }
      ghost var before := names;
      log := log + [Linked(dst, names[src])];
      names := names[dst := names[src]];
      KeptNames(before);
      ok := true;
    }

    /** rename(2) to a name that is not in use: the file keeps one name, another one. */
    method MoveAside(src: Name, dst: Name) returns (ok: bool)
      requires Valid() && dst !in names && dst.Private? && dst.n < nextPrivate
      modifies this`names, this`log, this`quiet
      ensures Valid()
      ensures quiet ==> old(quiet) && (ok <==> src in old(names))
      ensures ok ==> src in old(names) && names == (old(names) - {src})[dst := old(names)[src]]
      ensures !ok ==> names == old(names)
      ensures log == old(log) + [if ok then MovedAside(src, old(names)[src]) else NotMoved(src)]
    {
      var fails := Fault();
      if fails || src !in names {
        log := log + [NotMoved(src)];
        return false;
      }
      ghost var before := names;
      log := log + [MovedAside(src, names[src])];
      names := (names - {src})[dst := names[src]];
      forall i | i in foreign && i !in discarded
        ensures Named(names, i)
      {
        var n :| n in before && before[n] == i;
        assert if n == src then names[dst] == i else n in names && names[n] == i;
      }
      ok := true;
    }

    /** renameat2(2) with RENAME_EXCHANGE: two names swap their files. */
    method Exchange(a: Name, b: Name) returns (ok: bool)
      requires Valid() && a != b
      modifies this`names, this`log, this`quiet
      ensures Valid()
      ensures quiet ==> old(quiet) && (ok <==> a in old(names) && b in old(names))
      ensures ok ==> a in old(names) && b in old(names) && names == old(names)[a := old(names)[b]][b := old(names)[a]]
      ensures !ok ==> names == old(names)
      ensures log == old(log) + [if ok then Swapped(b, old(names)[b], old(names)[a]) else NotSwapped(b)]
    {
      var fails := Fault();
      if fails || a !in names || b !in names {
        log := log + [NotSwapped(b)];
        return false;
      }
      ghost var before := names;
      log := log + [Swapped(b, names[b], names[a])];
      names := names[a := names[b]][b := names[a]];
      forall i | i in foreign && i !in discarded
        ensures Named(names, i)
      {
        var n :| n in before && before[n] == i;
        assert if n == a then names[b] == i else if n == b then names[a] == i else n in names && names[n] == i;
      }
      ok := true;
    }

    /** What makes it right to remove name `n`: the file is ours, somebody else threw it
        away, or it has another name. */
    ghost predicate MayUnlink(n: Name)
      reads this`names, this`ours, this`discarded
    {
      n in names ==> names[n] in ours || names[n] in discarded || Named(names - {n}, names[n])
    }

    method Unlink(n: Name) returns (ok: bool)
      requires Valid() && MayUnlink(n)
      modifies this`names, this`log, this`quiet
      ensures Valid()
      ensures quiet ==> old(quiet) && (ok <==> n in old(names))
      ensures ok ==> n in old(names) && names == old(names) - {n}
      ensures !ok ==> names == old(names)
      ensures log == old(log) + [if ok then Unlinked(old(names)[n]) else NotUnlinked(n)]
    {
      var fails := Fault();
      if fails || n !in names {
        log := log + [NotUnlinked(n)];
        return false;
      }
      ghost var before := names;
      log := log + [Unlinked(names[n])];
      names := names - {n};
      forall i | i in foreign && i !in discarded
        ensures Named(names, i)
      {
        var m :| m in before && before[m] == i;
        if m != n {
          assert m in names && names[m] == i;
        }
      }
      ok := true;
    }

    // ------------------------------------------------------ the owned-file steps

    /** A file of ours lies under private name `n`. */
    ghost predicate Staged(n: Name, inode: nat)
      reads this`names, this`ours
    {
      n.Private? && n in names && names[n] == inode && inode in ours
    }

    /** Move whatever is at the path aside, look at what was moved, and remove it only if it
        is the expected file; anything else is linked back or left under its private name. */
    method RemoveOwned(path: Name, expected: Info) returns (ok: bool)
      requires Valid() && expected.inode in ours
      modifies this`names, this`meta, this`nextInode, this`nextPrivate, this`foreign, this`discarded, this`log, this`quiet
      ensures Valid() && (forall k: nat :: Private(k) in old(names) && Private(k) != path ==>
                            Private(k) in names && names[Private(k)] == old(names)[Private(k)])
      ensures old(log) <= log && RemovalRun(log[|old(log)|..], path, expected, ok)
      ensures quiet ==>
        && old(quiet) && meta == old(meta) && (ok <==> Owned(expected, old(At(path))))
        && names == if ok then old(names) - {path} else old(names)
    {
      hide Safe, NamedPublicly, Named, At, Look, Undisturbed, PutBackRun, MayUnlink;
      ghost var start := log;
      var current := Lstat(path);
      if current.None? || !SameOwned(expected, current.value) {
        RunEnds(start, [Seen(path, current)], log, path, expected, false);
        return false;
      }
      var moved, quarantined, found := TakeAside(path);
      if !moved {
        RunEnds(start, [Seen(path, current), NotMoved(path)], log, path, expected, false);
        return false;
      }
      ghost var done := [Seen(path, current), MovedAside(path, names[quarantined]), Seen(quarantined, found)];
      assert log == start + done;
      ok := SettleRemoval(path, quarantined, expected, found);
      if Owned(expected, found) {
        RunEnds(start, done + [if ok then Unlinked(expected.inode) else NotUnlinked(quarantined)], log, path, expected, ok);
      } else {
        RunEndsWithPutBack(start, done, log, path, expected);
      }
    }

    /** Remove what was moved aside if the look was right, or else put it back. */
    method SettleRemoval(path: Name, quarantined: Name, expected: Info, found: Option<Info>) returns (ok: bool)
      requires Valid() && quarantined.Private? && quarantined in names && (path.Private? ==> path.n < nextPrivate)
      requires expected.inode in ours && (found.Some? ==> found.value.inode == names[quarantined])
      modifies this`names, this`meta, this`nextInode, this`foreign, this`discarded, this`log, this`quiet
      ensures Valid() && old(log) <= log
      ensures forall k: nat :: Private(k) in old(names) && Private(k) != path && Private(k) != quarantined ==>
        Private(k) in names && names[Private(k)] == old(names)[Private(k)]
      ensures if Owned(expected, found)
        then log == old(log) + [if ok then Unlinked(expected.inode) else NotUnlinked(quarantined)]
        else !ok && PutBackRun(log[|old(log)|..], path, quarantined, old(names)[quarantined])
      ensures quiet ==> old(quiet) && (Owned(expected, found) ==> ok && meta == old(meta) && names == old(names) - {quarantined})
    {
      hide Safe, NamedPublicly, Named, Undisturbed, PutBackRun;
      if found.None? || !SameOwned(expected, found.value) {
        PutBack(quarantined, path);
        return false;
      }
      ok := DropStage(quarantined);
    }

    /** Rename whatever is at the path to a private name of ours and look at it there. */
    method TakeAside(path: Name) returns (moved: bool, quarantined: Name, found: Option<Info>)
      requires Valid()
      modifies this`names, this`meta, this`nextInode, this`nextPrivate, this`foreign, this`discarded, this`log, this`quiet
      ensures Valid() && quarantined.Private? && quarantined.n < nextPrivate && quarantined !in old(names)
      ensures moved ==> quarantined in names && quarantined != path && (path.Private? ==> path.n < nextPrivate)
      ensures forall k: nat :: Private(k) in old(names) && Private(k) != path ==>
        Private(k) in names && names[Private(k)] == old(names)[Private(k)]
      ensures log == old(log) + if moved then [MovedAside(path, names[quarantined]), Seen(quarantined, found)] else [NotMoved(path)]
      ensures moved && found.Some? ==> found.value.inode == names[quarantined]
      ensures quiet ==>
        && old(quiet) && meta == old(meta) && (moved <==> path in old(names)) && (moved ==> found == old(At(path)))
        && names == if moved then (old(names) - {path})[quarantined := old(names)[path]] else old(names)
    {
      hide Safe, NamedPublicly, Named;
      found := None;
      Interfere();
      quarantined := TempName();
      Interfere();
      moved := MoveAside(path, quarantined);
      if moved {
        Interfere();
        found := Lstat(quarantined);
      }
    }

    method PutBack(quarantined: Name, path: Name)
      requires Valid() && quarantined.Private? && quarantined in names && (path.Private? ==> path.n < nextPrivate)
      modifies this`names, this`meta, this`nextInode, this`foreign, this`discarded, this`log, this`quiet
      ensures old(log) <= log && PutBackRun(log[|old(log)|..], path, quarantined, old(names)[quarantined])
      ensures Valid() && (quiet ==> old(quiet))
      ensures forall k: nat :: Private(k) in old(names) && Private(k) != path && Private(k) != quarantined ==>
        Private(k) in names && names[Private(k)] == old(names)[Private(k)]
    {
      hide Safe;
      Interfere();
      var restored := Link(quarantined, path);
      if restored {
        ghost var linked := names;
        assert path.Public? ==> NamedPublicly(linked, linked[path]);
        Interfere();
        assert path.Private? ==> path in names - {quarantined} && names[path] == names[quarantined];
        AnotherName(linked, path, quarantined);
        var removed := Unlink(quarantined);
      }
    }

    lemma AnotherName(linked: Directory, path: Name, quarantined: Name)
      requires quarantined.Private? && path != quarantined && quarantined in names && path in linked
      requires names[quarantined] == linked[path]
      requires path.Private? ==> path in names && names[path] == linked[path]
      requires path.Public? ==> NamedPublicly(names, linked[path]) || linked[path] in discarded
      ensures MayUnlink(quarantined)
    {
      var i := linked[path];
      if path.Private? {
        assert path in names - {quarantined};
      } else if i !in discarded {
        var n :| n in names && n.Public? && names[n] == i;
        assert n in names - {quarantined};
      }
    }

    /** A new private file of ours: created, closed, removed and written again. */
    method Stage() returns (ok: bool, staged: Name, info: Info)
      requires Valid()
      modifies this
      ensures Valid() && old(ours) <= ours && SamePrivateExcept(old(names), staged) && old(log) <= log
      ensures ok ==> Staged(staged, info.inode) && staged !in old(names)
      ensures quiet ==>
        && old(quiet) && ok && names == old(names)[staged := info.inode] && At(staged).value.regular
        && forall n :: n in old(names) ==> At(n) == old(At(n))
    {
      hide Safe, NamedPublicly, Named, Undisturbed;
      ok, staged := FreeName();
      info := Info(0, 0, 0, true);
      if ok {
        ok, info := Fill(staged);
      }
    }

    /** A private name found by making a file under it and removing that again. */
    method FreeName() returns (ok: bool, name: Name)
      requires Valid()
      modifies this
      ensures Valid() && old(ours) <= ours && SamePrivateExcept(old(names), name) && old(log) <= log
      ensures name.Private? && name.n < nextPrivate && name !in old(names)
      ensures quiet ==> old(quiet) && ok && names == old(names) && forall n :: n in old(names) ==> At(n) == old(At(n))
    {
      hide Safe, NamedPublicly, Named;
      name := TempName();
      Interfere();
      var info: Info;
      ok, info := CreateExclusive(name);
      if ok {
        ok := DropStage(name);
      }
    }

    method Fill(name: Name) returns (ok: bool, info: Info)
      requires Valid() && name.Private? && name.n < nextPrivate
      modifies this
      ensures Valid() && old(ours) <= ours && SamePrivateExcept(old(names), name) && old(log) <= log
      ensures ok ==> Staged(name, info.inode)
      ensures quiet ==>
        && old(quiet) && (ok <==> name !in old(names))
        && (ok ==> names == old(names)[name := info.inode] && At(name).value.regular)
        && forall n :: n in old(names) ==> At(n) == old(At(n))
    {
      hide Safe, NamedPublicly, Named;
      Interfere();
      ok, info := CreateExclusive(name);
      if !ok {
        return;
      }
      ok := Write(name);
      if !ok {
        var removed := Unlink(name);
      }
    }

    ghost predicate SamePrivateExcept(d: Directory, n: Name)
      reads this`names
    {
      forall k: nat :: Private(k) in d && Private(k) != n ==> Private(k) in names && names[Private(k)] == d[Private(k)]
    }

    method RemoveStageIfOwned(staged: Name, expected: Info)
      requires Valid() && expected.inode in ours
      modifies this`names, this`meta, this`nextInode, this`nextPrivate, this`foreign, this`discarded, this`log, this`quiet
      ensures Valid() && SamePrivateExcept(old(names), staged) && old(log) <= log
      ensures quiet ==>
        && old(quiet) && meta == old(meta)
        && names == if Stable(expected, old(At(staged))) then old(names) - {staged} else old(names)
    {
      hide Safe, NamedPublicly, Named;
      var current := Lstat(staged);
      if current.None? || !StableIdentity(expected, current.value) {
        return;
      }
      Interfere();
      var removed := RemoveOwned(staged, expected);
    }

    /** Swap the staged file with whatever is at the path, look at both, and drop what was
        displaced only if it is the expected file and ours is still at the path; otherwise
        swap back. */
    method ReplaceOwned(path: Name, staged: Name, expected: Info) returns (r: Option<Info>)
      requires Valid() && path.Public? && staged.Private? && expected.inode in ours
      requires staged in names ==> names[staged] in ours
      modifies this`names, this`meta, this`nextInode, this`foreign, this`discarded, this`log, this`quiet
      ensures Valid() && SamePrivateExcept(old(names), staged) && old(log) <= log
      ensures ReplacementRun(log[|old(log)|..], path, staged, expected, r)
      ensures r.Some? ==>
        && staged in old(names) && r.value.inode == old(names)[staged]
        && log[|old(log)|..][1] == Swapped(path, expected.inode, r.value.inode)
      ensures quiet ==>
        && old(quiet) && meta == old(meta)
        && (r.Some? <==> Stable(expected, old(At(path))) && old(At(staged)).Some? && old(At(staged)).value.regular)
        && names == if r.Some? then (old(names) - {staged})[path := old(names)[staged]] else old(names)
    {
      hide Safe, NamedPublicly, Named;
      ghost var start := log;
      var stagedBefore := Lstat(staged);
      assert log == start + [Seen(staged, stagedBefore)];
      if stagedBefore.None? || !stagedBefore.value.regular {
        return None;
      }
      var swapped, displaced, published := SwapIn(path, staged);
      if !swapped {
        assert log == start + [Seen(staged, stagedBefore), NotSwapped(path)];
        return None;
      }
      ghost var looks := [Seen(staged, stagedBefore), Swapped(path, names[staged], old(names)[staged]),
                          Seen(staged, displaced), Seen(path, published)];
      assert log == start + looks;
      r := Settle(path, staged, expected, stagedBefore.value, displaced, published);
      assert log[|start|..] == looks + [log[|start| + 4]];
    }

    /** Drop the displaced file if both looks were right, or else swap back. */
    method Settle(path: Name, staged: Name, expected: Info, before: Info, displaced: Option<Info>, published: Option<Info>)
      returns (r: Option<Info>)
      requires Valid() && path.Public? && staged.Private? && expected.inode in ours
      requires displaced.Some? ==> staged in names && displaced.value.inode == names[staged]
      modifies this`names, this`meta, this`nextInode, this`foreign, this`discarded, this`log, this`quiet
      ensures Valid() && SamePrivateExcept(old(names), staged) && old(log) <= log && |log| == |old(log)| + 1
      ensures var last := log[|old(log)|];
        if Stable(expected, displaced) && Stable(before, published) then
          if r.Some? then r == published && last == Unlinked(expected.inode) else last == NotUnlinked(staged)
        else r.None? && (last == NotSwapped(path) || (last.Swapped? && last.path == path))
      ensures quiet ==> old(quiet) && meta == old(meta)
      ensures quiet ==>
        if Stable(expected, displaced) && Stable(before, published) then r.Some? && names == old(names) - {staged}
        else path in old(names) && staged in old(names) ==> names == old(names)[path := old(names)[staged]][staged := old(names)[path]]
    {
      hide Safe, NamedPublicly, Named, Undisturbed;
      if displaced.None? || published.None? || !StableIdentity(expected, displaced.value)
         || !StableIdentity(before, published.value) {
        SwapBack(path, staged);
        return None;
      }
      var removed := DropStage(staged);
      r := if removed then published else None;
    }

    /** Swap the two files and look at both names. */
    method SwapIn(path: Name, staged: Name) returns (swapped: bool, displaced: Option<Info>, published: Option<Info>)
      requires Valid() && path.Public? && staged.Private? && (staged in names ==> names[staged] in ours)
      modifies this`names, this`meta, this`nextInode, this`foreign, this`discarded, this`log, this`quiet
      ensures Valid() && SamePrivateExcept(old(names), staged)
      ensures swapped ==> staged in old(names) && staged in names
      ensures log == old(log) + if swapped
        then [Swapped(path, names[staged], old(names)[staged]), Seen(staged, displaced), Seen(path, published)]
        else [NotSwapped(path)]
      ensures swapped && displaced.Some? ==> displaced.value.inode == names[staged]
      ensures quiet ==>
        && old(quiet) && meta == old(meta) && (swapped <==> staged in old(names) && path in old(names))
        && (swapped ==> names == old(names)[staged := old(names)[path]][path := old(names)[staged]])
        && (swapped ==> displaced == At(staged) == old(At(path)) && published == At(path) == old(At(staged)))
        && (!swapped ==> names == old(names))
    {
      hide Safe, NamedPublicly, Named;
      displaced, published := None, None;
      Interfere();
      swapped := Exchange(staged, path);
      if !swapped {
        return;
      }
      displaced, published := LookAtBoth(staged, path);
    }

    /** Two looks, with others acting before each of them. */
    method LookAtBoth(staged: Name, path: Name) returns (first: Option<Info>, second: Option<Info>)
      requires Valid() && path.Public? && staged.Private?
      modifies this`names, this`meta, this`nextInode, this`foreign, this`discarded, this`log, this`quiet
      ensures Valid() && SamePrivate(old(names), names) && log == old(log) + [Seen(staged, first), Seen(path, second)]
      ensures first.Some? ==> staged in names && first.value.inode == names[staged]
      ensures quiet ==> old(quiet) && meta == old(meta) && names == old(names) && first == At(staged) && second == At(path)
    {
      hide Safe, NamedPublicly, Named;
      Interfere();
      first := Lstat(staged);
      Interfere();
      second := Lstat(path);
    }

    method SwapBack(path: Name, staged: Name)
      requires Valid() && path.Public? && staged.Private?
      modifies this`names, this`meta, this`nextInode, this`foreign, this`discarded, this`log, this`quiet
      ensures Valid() && SamePrivateExcept(old(names), staged) && old(log) <= log && |log| == |old(log)| + 1
      ensures log[|old(log)|] == NotSwapped(path) || (log[|old(log)|].Swapped? && log[|old(log)|].path == path)
      ensures quiet ==> old(quiet) && meta == old(meta)
      ensures quiet && path in old(names) && staged in old(names) ==>
        names == old(names)[path := old(names)[staged]][staged := old(names)[path]]
    {
      hide Safe, NamedPublicly, Named;
      Interfere();
      var back := Exchange(staged, path);
      Interfere();
    }

    /** Link the staged file to a path nobody holds and look at both. */
    method LinkIn(path: Name, staged: Name, stagedBefore: Info) returns (published: Option<Info>)
      requires Valid() && path.Public? && Staged(staged, stagedBefore.inode)
      modifies this`names, this`meta, this`nextInode, this`foreign, this`discarded, this`log, this`quiet
      ensures Valid() && SamePrivateExcept(old(names), staged) && Staged(staged, stagedBefore.inode)
      ensures published.Some? ==> published.value.inode == stagedBefore.inode
      ensures old(log) <= log && LinkRun(log[|old(log)|..], path, staged, stagedBefore, published)
      ensures quiet ==>
        && old(quiet) && meta == old(meta)
        && (Stable(stagedBefore, old(At(staged))) ==> (published.Some? <==> path !in old(names)))
        && (published.Some? ==> names == old(names)[path := stagedBefore.inode] && published == At(path))
    {
      hide Safe, NamedPublicly, Named, MayUnlink;
      Interfere();
      var linked := Link(staged, path);
      if !linked {
        return None;
      }
      var stagedAfter: Option<Info>;
      stagedAfter, published := LookAtBoth(staged, path);
      assert log == old(log) + [Linked(path, stagedBefore.inode), Seen(staged, stagedAfter), Seen(path, published)];
      if stagedAfter.None? || published.None? || !StableIdentity(stagedBefore, stagedAfter.value)
         || !StableIdentity(stagedBefore, published.value) {
        published := None;
      }
    }

    /** Link the staged file in and take its private name away. */
    method PublishLink(path: Name, staged: Name, stagedBefore: Info) returns (published: Option<Info>, ok: bool)
      requires Valid() && path.Public? && Staged(staged, stagedBefore.inode)
      modifies this`names, this`meta, this`nextInode, this`foreign, this`discarded, this`log, this`quiet
      ensures Valid() && SamePrivateExcept(old(names), staged) && old(log) <= log
      ensures published.Some? ==> published.value.inode == stagedBefore.inode
      ensures PublicationRun(log[|old(log)|..], path, staged, stagedBefore, published, ok) && (ok ==> published.Some?)
      ensures quiet ==>
        && old(quiet) && meta == old(meta)
        && (Stable(stagedBefore, old(At(staged))) ==> (ok <==> path !in old(names)))
        && (ok ==> names == (old(names) - {staged})[path := stagedBefore.inode] && published == At(path))
    {
      hide Safe, NamedPublicly, Named, Stable;
      published := LinkIn(path, staged, stagedBefore);
      ok := false;
      if published.Some? {
        ok := DropStage(staged);
      }
    }

    method DropStage(staged: Name) returns (ok: bool)
      requires Valid() && staged.Private? && (staged in names ==> names[staged] in ours)
      modifies this`names, this`meta, this`nextInode, this`foreign, this`discarded, this`log, this`quiet
      ensures Valid() && SamePrivateExcept(old(names), staged)
      ensures ok ==> staged in old(names)
      ensures log == old(log) + [if ok then Unlinked(old(names)[staged]) else NotUnlinked(staged)]
      ensures quiet ==> old(quiet) && meta == old(meta) && (ok <==> staged in old(names)) && names == old(names) - {staged}
    {
      hide Safe, NamedPublicly, Named;
      Interfere();
      ok := Unlink(staged);
      Interfere();
    }
  }

  /** What a process holds about one result path. */
  datatype Target = Target(info: Info, published: Option<Info>, preexisting: bool, consumed: bool)

  type Targets = map<string, Target>

  predicate Placeholder(targets: Targets, n: Name) {
    n.Public? && n.path in targets && !targets[n.path].consumed
  }

  /** The calls of one publication at a claimed path, from first to last: the placeholder goes,
      the staged file is linked in, and what the claim records of that. */
  predicate ClaimRun(done: seq<Effect>, path: Name, staged: Name, was: Target, now: Target, ok: bool) {
    && |done| >= 1 && Looked(done[0], staged)
    && if !Regular(done[0].found) then |done| == 1 && !ok && now == was
       else if !now.consumed then RemovalRun(done[1..], path, was.info, false) && !ok && now == was
       else
         && |done| >= 6 && RemovalRun(done[1..5], path, was.info, true)
         && now == was.(consumed := true, published := now.published)
         && PublicationRun(done[5..], path, staged, done[0].found.value, now.published, ok)
  }

  lemma ClaimUnread(start: seq<Effect>, found: Option<Info>, path: Name, staged: Name, was: Target)
    requires !Regular(found)
    ensures ClaimRun((start + [Seen(staged, found)])[|start|..], path, staged, was, was, false)
  {
  }

  lemma ClaimRefused(start: seq<Effect>, found: Option<Info>, last: seq<Effect>, path: Name, staged: Name, was: Target)
    requires start + [Seen(staged, found)] <= last && Regular(found) && !was.consumed
    requires RemovalRun(last[|start + [Seen(staged, found)]|..], path, was.info, false)
    ensures start <= last && ClaimRun(last[|start|..], path, staged, was, was, false)
  {
    hide RemovalRun;
    assert last[|start|..][1..] == last[|start + [Seen(staged, found)]|..];
  }

  lemma ClaimEnds(start: seq<Effect>, found: Option<Info>, gone: seq<Effect>, last: seq<Effect>, path: Name, staged: Name,
                  was: Target, now: Target, ok: bool)
    requires start + [Seen(staged, found)] <= gone <= last && Regular(found)
    requires RemovalRun(gone[|start + [Seen(staged, found)]|..], path, was.info, true)
    requires now == was.(consumed := true, published := now.published)
    requires PublicationRun(last[|gone|..], path, staged, found.value, now.published, ok)
    ensures start <= last && ClaimRun(last[|start|..], path, staged, was, now, ok)
  {
    FourCalls(gone[|start + [Seen(staged, found)]|..], path, was.info);
    SomeCall(last[|gone|..], path, staged, found.value, now.published, ok);
    hide RemovalRun, PublicationRun;
    var done := last[|start|..];
    assert done[1..5] == gone[|start + [Seen(staged, found)]|..];
    assert done[5..] == last[|gone|..];
  }

  lemma FourCalls(done: seq<Effect>, path: Name, expected: Info)
    requires RemovalRun(done, path, expected, true)
    ensures |done| == 4
  {
  }

  lemma SomeCall(done: seq<Effect>, path: Name, staged: Name, before: Info, published: Option<Info>, ok: bool)
    requires PublicationRun(done, path, staged, before, published, ok)
    ensures |done| >= 1
  {
  }

  /** The calls that pin a regular file: it is looked at, opened, and looked at once more. */
  predicate PinRun(done: seq<Effect>, path: Name, info: Info) {
    && |done| == 2 && Looked(done[0], path) && Regular(done[0].found)
    && done[1] == Seen(path, Some(info)) && info.regular && info.inode == done[0].found.value.inode
  }

  /** The calls of one reuse, from first to last: only a file seen unchanged twice is reused,
      and nothing but the staged name goes. */
  predicate ReuseRun(done: seq<Effect>, path: Name, staged: Name, names: Directory, expected: Info, ok: bool) {
    && |done| >= 1 && Looked(done[0], path)
    && if !Stable(expected, done[0].found) then |done| == 1 && !ok
       else if |done| == 2 then Looked(done[1], path) && !ok
       else
         && |done| == 3 && Looked(done[1], path) && Stable(expected, done[1].found)
         && (done[2] == NotUnlinked(staged) || (ok && staged in names && done[2] == Unlinked(names[staged])))
  }

  /** Two looks that saw the same regular file at the path, with the same inode as `info`. */
  predicate SeenTwice(done: seq<Effect>, path: Name, info: Info) {
    && |done| == 2 && Looked(done[0], path) && done[1] == done[0]
    && Regular(done[0].found) && done[0].found.value.inode == info.inode
  }

  /** Since `d` the directory has gained exactly the unused placeholders. */
  ghost predicate OnlyPlaceholders(d: Directory, names: Directory, meta: map<nat, Meta>, targets: Targets) {
    && (forall n :: n in d ==> n in names && names[n] == d[n])
    && (forall n :: n in names ==> n in d || Placeholder(targets, n))
    && (forall p :: p in targets && !targets[p].consumed ==>
          Public(p) !in d && Look(names, meta, Public(p)) == Some(targets[p].info) && targets[p].info.regular)
  }

  /** What reserving a path did: a new placeholder or nothing to the directory. */
  ghost predicate Claimed(d: Directory, names: Directory, meta: map<nat, Meta>, path: string, t: Target) {
    if t.consumed then names == d
    else Public(path) !in d && names == d[Public(path) := t.info.inode] && Look(names, meta, Public(path)) == Some(t.info)
         && t.info.regular
  }

  predicate Unused(names: Directory, meta: map<nat, Meta>, targets: Targets, path: string) {
    path in targets && !targets[path].consumed && Owned(targets[path].info, Look(names, meta, Public(path)))
  }

  function UnusedNames(names: Directory, meta: map<nat, Meta>, targets: Targets): set<Name> {
    set p | p in targets && Unused(names, meta, targets, p) :: Public(p)
  }

  /** The targets and the directory once the published files at these paths are taken back. */
  ghost predicate TakenAway(was: Targets, d: Directory, gone: set<string>, targets: Targets, names: Directory) {
    && names == d - (set p | p in gone :: Public(p))
    && targets.Keys == was.Keys
    && forall p :: p in was ==> targets[p] == if p in gone then was[p].(published := None, consumed := true) else was[p]
  }

  lemma NoneTaken(was: Targets, d: Directory)
    ensures TakenAway(was, d, {}, was, d)
  {
  }

  lemma OneTaken(was: Targets, d: Directory, gone: set<string>, targets: Targets, names: Directory, path: string)
    requires TakenAway(was, d, gone, targets, names) && path in targets && path !in gone
    ensures TakenAway(was, d, gone + {path}, targets[path := targets[path].(published := None, consumed := true)], names - {Public(path)})
  {
  }

  lemma TakenBefore(was: Targets, d: Directory, gone: set<string>, targets: Targets, names: Directory, path: string)
    requires TakenAway(was, d, gone, targets, names) && path in was
    ensures path in targets && targets[path] == if path in gone then was[path].(published := None, consumed := true) else was[path]
    ensures path !in gone ==> (Public(path) in names <==> Public(path) in d) && (Public(path) in d ==> names[Public(path)] == d[Public(path)])
  {
  }

  lemma NothingYet(d: Directory, meta: map<nat, Meta>)
    ensures OnlyPlaceholders(d, d, meta, map[])
  {
  }

  lemma OldNamesStay(d: Directory, names: Directory, meta: map<nat, Meta>, targets: Targets)
    requires OnlyPlaceholders(d, names, meta, targets)
    ensures forall n :: n in d ==> n in names
  {
  }

  lemma NotYetTaken(d: Directory, names: Directory, meta: map<nat, Meta>, targets: Targets, path: string)
    requires OnlyPlaceholders(d, names, meta, targets) && path !in targets
    ensures Public(path) in names <==> Public(path) in d
  {
  }

  /** Taking the unused placeholders back leaves the directory as it was. */
  lemma TakenBack(d: Directory, names: Directory, meta: map<nat, Meta>, targets: Targets)
    requires OnlyPlaceholders(d, names, meta, targets)
    ensures names - UnusedNames(names, meta, targets) == d
  {
    var gone := UnusedNames(names, meta, targets);
    forall n | n in names && n !in d
      ensures n in gone
    {
      assert Placeholder(targets, n) && Unused(names, meta, targets, n.path);
    }
  }

  lemma OneMore(d: Directory, before: Directory, meta0: map<nat, Meta>, targets: Targets, names: Directory, meta: map<nat, Meta>, path: string, t: Target)
    requires OnlyPlaceholders(d, before, meta0, targets) && path !in targets && Claimed(before, names, meta, path, t)
    requires forall n :: n in before ==> Look(names, meta, n) == Look(before, meta0, n)
    ensures OnlyPlaceholders(d, names, meta, targets[path := t])
  {
    hide Look;
    var targets' := targets[path := t];
    forall n | n in names
      ensures n in d || Placeholder(targets', n)
    {
      assert n in before && n !in d ==> Placeholder(targets, n);
    }
    forall p | p in targets' && !targets'[p].consumed
      ensures Public(p) !in d && Look(names, meta, Public(p)) == Some(targets'[p].info) && targets'[p].info.regular
    {
      if p != path {
        InUse(before, meta0, Public(p));
      }
    }
  }

  lemma InUse(d: Directory, meta: map<nat, Meta>, n: Name)
    ensures Look(d, meta, n).Some? ==> n in d
  {
  }

  class Reservations {
    const fs: FileSystem
    var targets: map<string, Target>

    /** Whatever may be removed later is ours; a file found at reservation is never that. */
    ghost predicate Valid()
      reads this, fs
    {
      && fs.Valid()
      && forall p :: p in targets ==> TargetOk(targets[p])
    }

    ghost predicate TargetOk(t: Target)
      reads fs`ours
    {
      && (!t.preexisting ==> t.info.inode in fs.ours)
      && (t.preexisting ==> t.consumed && t.published.None?)
      && (t.published.Some? ==> t.consumed && t.published.value.inode in fs.ours)
    }

    constructor (fs: FileSystem)
      requires fs.Valid()
      ensures Valid() && this.fs == fs && targets == map[]
    {
      this.fs := fs;
      targets := map[];
    }

    /** The path is free, or holds a regular file and may do so. */
    predicate Claimable(path: string, allowExisting: bool)
      reads fs`names, fs`meta
    {
      var found := fs.At(Public(path));
      found.None? || (allowExisting && found.value.regular)
    }

    /** Claim a path that does not exist, or pin one that does if that is allowed. */
    method Reserve(path: string, allowExisting: bool) returns (ok: bool)
      requires Valid()
      modifies this, fs
      ensures Valid() && (ok ==> path !in old(targets) && path in targets && !(!allowExisting && targets[path].preexisting))
      ensures targets == if ok then old(targets)[path := targets[path]] else old(targets)
      ensures ok ==> if targets[path].preexisting
        then old(fs.log) <= fs.log && PinRun(fs.log[|old(fs.log)|..], Public(path), targets[path].info)
        else fs.log == old(fs.log) + [Created(Public(path), targets[path].info.inode)] && !targets[path].consumed
      ensures fs.quiet ==> old(fs.quiet) && (ok <==> path !in old(targets) && old(Claimable(path, allowExisting)))
      ensures fs.quiet && ok ==> Claimed(old(fs.names), fs.names, fs.meta, path, targets[path])
      ensures fs.quiet && !ok ==> fs.names == old(fs.names) && fs.meta == old(fs.meta)
      ensures fs.quiet ==> forall n :: n in old(fs.names) ==> fs.At(n) == old(fs.At(n))
    {
      hide FileSystem.Safe, NamedPublicly, StableIdentity;
      if path in targets {
        return false;
      }
      var created, info := fs.CreateExclusive(Public(path));
      if created {
        ok := Claim(path, info);
      } else if allowExisting {
        ok := Pin(path);
      } else {
        ok := false;
      }
    }

    /** A placeholder whose stat fails is left behind: it cannot be proved to be ours any more. */
    method Claim(path: string, info: Info) returns (ok: bool)
      requires Valid() && path !in targets && info.inode in fs.ours
      modifies this, fs
      ensures Valid() && targets == if ok then old(targets)[path := Target(info, None, false, false)] else old(targets)
      ensures fs.log == old(fs.log)
      ensures fs.quiet ==> old(fs.quiet) && ok && fs.names == old(fs.names) && fs.meta == old(fs.meta)
    {
      hide FileSystem.Safe, NamedPublicly, StableIdentity;
      var fails := fs.Fault();
      if !fails {
        targets := targets[path := Target(info, None, false, false)];
      }
      fs.Interfere();
      ok := !fails;
    }

    method Pin(path: string) returns (ok: bool)
      requires Valid() && path !in targets
      modifies this, fs
      ensures Valid() && (ok ==> path in targets && targets[path].preexisting && targets[path].consumed)
      ensures old(fs.log) <= fs.log && (ok ==> PinRun(fs.log[|old(fs.log)|..], Public(path), targets[path].info))
      ensures targets == if ok then old(targets)[path := targets[path]] else old(targets)
      ensures fs.quiet ==>
        && old(fs.quiet) && fs.names == old(fs.names) && fs.meta == old(fs.meta)
        && (ok <==> old(fs.At(Public(path))).Some? && old(fs.At(Public(path))).value.regular)
    {
      hide FileSystem.Safe, NamedPublicly, StableIdentity;
      fs.Interfere();
      var found := fs.Lstat(Public(path));
      if found.None? || !found.value.regular {
        return false;
      }
      fs.Interfere();
      var handle := fs.Lstat(Public(path));
      if handle.None? || !handle.value.regular || handle.value.inode != found.value.inode {
        return false;
      }
      targets := targets[path := Target(handle.value, None, true, true)];
      fs.Interfere();
      ok := true;
    }

    lemma NoneDistinct()
      ensures Distinct([])
    {
    }

    predicate Distinct(paths: seq<string>) {
      forall i, j :: 0 <= i < j < |paths| ==> paths[i] != paths[j]
    }

    function Elements(paths: seq<string>): set<string> {
      set p | p in paths
    }

    lemma DistinctSnoc(paths: seq<string>, i: nat)
      requires i < |paths|
      ensures Distinct(paths[..i + 1]) <==> Distinct(paths[..i]) && paths[i] !in paths[..i]
      ensures Distinct(paths) ==> Distinct(paths[..i + 1])
      ensures Elements(paths[..i + 1]) == Elements(paths[..i]) + {paths[i]}
    {
      var shorter, longer := paths[..i], paths[..i + 1];
      assert longer == shorter + [paths[i]];
      if Distinct(longer) {
        forall j | 0 <= j < i
          ensures shorter[j] != paths[i]
        {
          assert longer[j] != longer[i];
        }
        forall j, k | 0 <= j < k < i
          ensures shorter[j] != shorter[k]
        {
          assert longer[j] != longer[k];
        }
      }
    }

    method ReserveNext(paths: seq<string>, i: nat, allowExisting: bool, ghost d: Directory) returns (ok: bool)
      requires Valid() && i < |paths| && targets.Keys == Elements(paths[..i])
      requires fs.quiet ==> OnlyPlaceholders(d, fs.names, fs.meta, targets)
      modifies this, fs
      ensures Valid() && (ok ==> targets.Keys == Elements(paths[..i + 1]) && paths[i] !in paths[..i])
      ensures fs.quiet ==> old(fs.quiet) && (if ok then OnlyPlaceholders(d, fs.names, fs.meta, targets) else fs.names == d)
      ensures fs.quiet && ok ==> forall n :: n in d ==> fs.At(n) == old(fs.At(n))
      ensures fs.quiet ==> (ok <==> paths[i] !in paths[..i] && old(Claimable(paths[i], allowExisting)))
    {
      hide Valid, OnlyPlaceholders, Claimed, Unused, Claimable, Look;
      assert paths[..i + 1] == paths[..i] + [paths[i]];
      ghost var before, meta, claims := fs.names, fs.meta, targets;
      if fs.quiet {
        OldNamesStay(d, fs.names, fs.meta, targets);
      }
      ok := Reserve(paths[i], allowExisting);
      if fs.quiet {
        if ok {
          OneMore(d, before, meta, claims, fs.names, fs.meta, paths[i], targets[paths[i]]);
        } else {
          TakenBack(d, fs.names, fs.meta, targets);
        }
      }
      if !ok {
        Close();
      }
    }

    /** Claim all result paths or none: a refused reservation takes its placeholders back. */
    method ReserveAll(paths: seq<string>, allowExisting: bool) returns (ok: bool)
      requires Valid() && targets == map[]
      modifies this, fs
      ensures Valid() && (ok ==> targets.Keys == Elements(paths) && Distinct(paths))
      ensures fs.quiet ==> old(fs.quiet) && (ok ==> OnlyPlaceholders(old(fs.names), fs.names, fs.meta, targets)) && (!ok ==> fs.names == old(fs.names))
      ensures fs.quiet ==> (ok <==> Distinct(paths) && forall p :: p in paths ==> old(Claimable(p, allowExisting)))
    {
      hide Valid, OnlyPlaceholders, Claimed, Unused, Distinct, UnusedNames;
      ghost var d := fs.names;
      NothingYet(d, fs.meta);
      assert paths[..0] == [];
      NoneDistinct();
      for i := 0 to |paths|
        invariant Valid() && targets.Keys == Elements(paths[..i]) && Distinct(paths[..i])
        invariant fs.quiet ==> old(fs.quiet) && OnlyPlaceholders(d, fs.names, fs.meta, targets)
        invariant fs.quiet ==> forall n :: n in d ==> fs.At(n) == old(fs.At(n))
        invariant fs.quiet ==> forall p :: p in paths[..i] ==> old(Claimable(p, allowExisting))
      {
        DistinctSnoc(paths, i);
        if fs.quiet && paths[i] !in targets {
          NotYetTaken(d, fs.names, fs.meta, targets, paths[i]);
        }
        ghost var claimable := Claimable(paths[i], allowExisting);
        assert fs.quiet && paths[i] !in targets ==> claimable == old(Claimable(paths[i], allowExisting));
        ok := ReserveNext(paths, i, allowExisting, d);
        if !ok {
          return;
        }
        assert paths[..i + 1] == paths[..i] + [paths[i]];
      }
      assert paths[..|paths|] == paths;
      ok := true;
    }
    /** Retire the placeholder, then link the staged file in: nothing else is moved or
        removed, and nothing is overwritten. */
    method PublishStaged(path: string, staged: Name) returns (ok: bool)
      requires Valid() && staged.Private? && (staged in fs.names ==> fs.names[staged] in fs.ours)
      modifies this, fs
      ensures Valid() && fs.SamePrivateExcept(old(fs.names), staged) && old(fs.log) <= fs.log
      ensures if path !in old(targets) || old(targets)[path].consumed || old(targets)[path].preexisting
        then !ok && targets == old(targets) && fs.log == old(fs.log)
        else
          && path in targets && targets == old(targets)[path := targets[path]]
          && ClaimRun(fs.log[|old(fs.log)|..], Public(path), staged, old(targets)[path], targets[path], ok)
      ensures ok ==>
        && targets[path].published.Some? && staged in old(fs.names)
        && targets[path].published.value.inode == old(fs.names)[staged]
      ensures fs.quiet ==> old(fs.quiet) && fs.meta == old(fs.meta) && (ok <==> old(Publishable(path, staged)))
      ensures fs.quiet && ok ==> fs.names == (old(fs.names) - {staged})[Public(path) := old(fs.names)[staged]]
    {
      hide FileSystem.Safe, NamedPublicly, FileSystem.Undisturbed, RemovalRun, PublicationRun, ClaimRun;
      if path !in targets || targets[path].consumed || targets[path].preexisting {
        return false;
      }
      ghost var start := fs.log;
      var stagedBefore := fs.Lstat(staged);
      if stagedBefore.None? || !stagedBefore.value.regular {
        ClaimUnread(start, stagedBefore, Public(path), staged, targets[path]);
        return false;
      }
      var retired := fs.RemoveOwned(Public(path), targets[path].info);
      ghost var gone := fs.log;
      if !retired {
        ClaimRefused(start, stagedBefore, gone, Public(path), staged, targets[path]);
        return false;
      }
      ghost var was := targets[path];
      targets := targets[path := targets[path].(consumed := true)];
      var published: Option<Info>;
      published, ok := fs.PublishLink(Public(path), staged, stagedBefore.value);
      if published.Some? {
        targets := targets[path := targets[path].(published := published)];
      }
      ClaimEnds(start, stagedBefore, gone, fs.log, Public(path), staged, was, targets[path], ok);
    }

    /** An unused claim whose placeholder is still in place, and a regular staged file. */
    predicate Publishable(path: string, staged: Name)
      reads this, fs
    {
      && path in targets && !targets[path].consumed && !targets[path].preexisting
      && Owned(targets[path].info, fs.At(Public(path))) && fs.At(staged).Some? && fs.At(staged).value.regular
    }

    /** A pinned file is only ever read: either it equals the regenerated one, or publishing fails. */
    method PublishOrReuse(path: string, staged: Name) returns (ok: bool)
      requires Valid() && staged.Private? && (staged in fs.names ==> fs.names[staged] in fs.ours)
      modifies this, fs
      ensures Valid() && fs.SamePrivateExcept(old(fs.names), staged)
      ensures path in old(targets) && old(targets)[path].preexisting ==>
        && targets == old(targets) && old(fs.log) <= fs.log
        && ReuseRun(fs.log[|old(fs.log)|..], Public(path), staged, old(fs.names), targets[path].info, ok)
      ensures ok ==> path in targets
      ensures fs.quiet && path in old(targets) ==>
        (ok <==> if old(targets)[path].preexisting then Stable(old(targets)[path].info, old(fs.At(Public(path))))
                 else old(Publishable(path, staged)))
      ensures fs.quiet && ok && staged in old(fs.names) ==>
        fs.names == if path in old(targets) && old(targets)[path].preexisting then old(fs.names) - {staged}
                    else (old(fs.names) - {staged})[Public(path) := old(fs.names)[staged]]
    {
      hide FileSystem.Safe, NamedPublicly, FileSystem.Undisturbed;
      if path !in targets {
        return false;
      }
      if !targets[path].preexisting {
        ok := PublishStaged(path, staged);
      } else {
        ok := Reuse(path, staged);
      }
    }

    /** `fails` stands for content that cannot be read or differs from the regenerated one. */
    method Reuse(path: string, staged: Name) returns (ok: bool)
      requires Valid() && staged.Private? && (staged in fs.names ==> fs.names[staged] in fs.ours)
      requires path in targets && targets[path].preexisting
      modifies fs
      ensures Valid() && fs.SamePrivateExcept(old(fs.names), staged)
      ensures old(fs.log) <= fs.log && ReuseRun(fs.log[|old(fs.log)|..], Public(path), staged, old(fs.names), targets[path].info, ok)
      ensures fs.quiet ==>
        && old(fs.quiet) && (ok <==> Stable(targets[path].info, old(fs.At(Public(path)))))
        && fs.names == if ok then old(fs.names) - {staged} else old(fs.names)
    {
      hide FileSystem.Safe, NamedPublicly, Named, Stable;
      ghost var start := fs.log;
      var first, second := LookTwice(path);
      if !Stable(targets[path].info, first) || !Stable(targets[path].info, second) {
        return false;
      }
      assert fs.log == start + [Seen(Public(path), first), Seen(Public(path), second)];
      var fails := fs.Fault();
      if fails {
        return false;
      }
      var removed := fs.DropStage(staged);
      ok := removed || staged !in fs.names;
      assert fs.log == start + [Seen(Public(path), first), Seen(Public(path), second),
                                if removed then Unlinked(old(fs.names)[staged]) else NotUnlinked(staged)];
    }

    /** The second look is only taken at what the first one saw unchanged. */
    method LookTwice(path: string) returns (first: Option<Info>, second: Option<Info>)
      requires Valid() && path in targets
      modifies fs`names, fs`meta, fs`nextInode, fs`foreign, fs`discarded, fs`quiet, fs`log
      ensures Valid() && SamePrivate(old(fs.names), fs.names)
      ensures fs.log == old(fs.log) + if Stable(targets[path].info, first)
        then [Seen(Public(path), first), Seen(Public(path), second)] else [Seen(Public(path), first)]
      ensures fs.quiet ==>
        && old(fs.quiet) && fs.names == old(fs.names) && fs.meta == old(fs.meta)
        && first == old(fs.At(Public(path))) && (Stable(targets[path].info, first) ==> second == first)
    {
      hide FileSystem.Safe, NamedPublicly, Named, Stable;
      second := None;
      first := fs.Lstat(Public(path));
      if Stable(targets[path].info, first) {
        fs.Interfere();
        second := fs.Lstat(Public(path));
      }
    }

    method RemovePublished(path: string) returns (ok: bool)
      requires Valid()
      modifies this, fs
      ensures Valid() && fs.SamePrivateExcept(old(fs.names), Public(path))
      ensures ok ==> path in old(targets) && !old(targets)[path].preexisting
      ensures targets == if ok then old(targets)[path := old(targets)[path].(published := None, consumed := true)] else old(targets)
      ensures if path !in old(targets) || old(targets)[path].published.None? then !ok && fs.log == old(fs.log)
        else
          && old(fs.log) <= fs.log
          && RemovalRun(fs.log[|old(fs.log)|..], Public(path), old(targets)[path].published.value, ok)
      ensures fs.quiet ==>
        && old(fs.quiet) && fs.meta == old(fs.meta)
        && (ok <==> path in old(targets) && old(targets)[path].published.Some?
                    && Owned(old(targets)[path].published.value, old(fs.At(Public(path)))))
        && fs.names == if ok then old(fs.names) - {Public(path)} else old(fs.names)
    {
      hide FileSystem.Safe, NamedPublicly, StableIdentity;
      if path !in targets || targets[path].published.None? {
        return false;
      }
      ok := fs.RemoveOwned(Public(path), targets[path].published.value);
      if ok {
        targets := targets[path := targets[path].(published := None, consumed := true)];
      }
    }

    /** A file this process published and that is still at its path. */
    predicate Removable(path: string)
      reads this, fs`names, fs`meta
    {
      path in targets && targets[path].published.Some? && Owned(targets[path].published.value, fs.At(Public(path)))
    }

    /** Every published file at one of the paths goes, whatever happens to the others. */
    method RollBack(paths: seq<string>) returns (ok: bool)
      requires Valid()
      modifies this, fs
      ensures Valid() && targets.Keys == old(targets).Keys
      ensures ok ==> forall p :: p in paths && p in targets ==> targets[p].published.None?
      ensures fs.quiet ==> old(fs.quiet) && TakenAway(old(targets), old(fs.names), (set p | p in paths && old(Removable(p))), targets, fs.names)
      ensures fs.quiet ==>
        (ok <==> forall p :: p in paths && p in old(targets) && old(targets)[p].published.Some? ==> old(Removable(p)))
    {
      hide FileSystem.Safe, NamedPublicly, StableIdentity, SameOwned, RemovalRun, TakenAway;
      NoneTaken(targets, fs.names);
      ok := true;
      ghost var gone: set<string> := {};
      for i := 0 to |paths|
        invariant Valid() && targets.Keys == old(targets).Keys
        invariant ok ==> forall k :: 0 <= k < i ==> paths[k] in targets ==> targets[paths[k]].published.None?
        invariant fs.quiet ==> old(fs.quiet) && fs.meta == old(fs.meta) && TakenAway(old(targets), old(fs.names), gone, targets, fs.names)
        invariant gone == set p | p in paths[..i] && old(Removable(p))
        invariant fs.quiet ==>
          (ok <==> forall p :: p in paths[..i] && p in old(targets) && old(targets)[p].published.Some? ==> old(Removable(p)))
      {
        var p := paths[i];
        assert paths[..i + 1] == paths[..i] + [p];
        ghost var was, names := targets, fs.names;
        if fs.quiet && p in targets {
          TakenBefore(old(targets), old(fs.names), gone, targets, fs.names, p);
        }
        if p in targets && !targets[p].preexisting && targets[p].published.Some? {
          var removed := RemovePublished(p);
          ok := ok && removed;
          if fs.quiet && removed {
            OneTaken(old(targets), old(fs.names), gone, was, names, p);
          }
        }
        if old(Removable(p)) && p !in gone {
          gone := gone + {p};
        }
      }
      assert paths[..|paths|] == paths;
    }

    /** Placeholders that were not used are taken back, if they are still ours. */
    method Close()
      requires Valid()
      modifies this, fs
      ensures Valid() && targets == old(targets)
      ensures fs.quiet ==> old(fs.quiet) && fs.meta == old(fs.meta)
      ensures fs.quiet ==> fs.names == old(fs.names - UnusedNames(fs.names, fs.meta, targets))
    {
      hide FileSystem.Safe, NamedPublicly, StableIdentity, FileSystem.Undisturbed, SameOwned, TargetOk;
      var rest := targets.Keys;
      ghost var gone: set<string> := {};
      while rest != {}
        invariant Valid() && rest <= targets.Keys && targets == old(targets)
        invariant gone !! rest
        invariant fs.quiet ==> old(fs.quiet) && fs.meta == old(fs.meta)
        invariant fs.quiet ==> gone == set p | p in targets.Keys - rest && old(Unused(fs.names, fs.meta, targets, p))
        invariant fs.quiet ==> fs.names == old(fs.names) - set p | p in gone :: Public(p)
        decreases rest
      {
        var path :| path in rest;
        rest := rest - {path};
        assert fs.quiet ==> fs.At(Public(path)) == old(fs.At(Public(path)));
        var removed := TakeBack(path);
        gone := if removed then gone + {path} else gone;
      }
    }

    method TakeBack(path: string) returns (removed: bool)
      requires Valid() && path in targets
      modifies fs
      ensures Valid()
      ensures fs.quiet ==>
        && old(fs.quiet) && fs.meta == old(fs.meta) && (removed <==> old(Unused(fs.names, fs.meta, targets, path)))
        && fs.names == if removed then old(fs.names) - {Public(path)} else old(fs.names)
    {
      hide FileSystem.Safe, NamedPublicly, StableIdentity;
      fs.Interfere();
      removed := false;
      if !targets[path].consumed {
        var current := fs.Lstat(Public(path));
        if current.Some? && current.value.regular && current.value.inode == targets[path].info.inode {
          fs.Interfere();
          removed := fs.RemoveOwned(Public(path), targets[path].info);
        }
      }
    }
  }

  /** Since position `n` of the log the file `was` at the path was replaced by `now`. */
  ghost predicate ReplacedSince(log: seq<Effect>, n: nat, path: Name, was: Info, now: Info) {
    exists k: nat, staged :: n <= k && ReplacedAt(log, k, path, staged, was, now)
  }

  predicate ReplacedAt(log: seq<Effect>, k: nat, path: Name, staged: Name, was: Info, now: Info) {
    k + 5 <= |log| && ReplacementRun(log[k..k + 5], path, staged, was, Some(now))
  }

  lemma LaterReplaced(log: seq<Effect>, later: seq<Effect>, last: seq<Effect>, path: Name, staged: Name, was: Info, now: Info)
    requires log <= later <= last && ReplacementRun(later[|log|..], path, staged, was, Some(now))
    ensures ReplacedSince(last, |log|, path, was, now)
  {
    assert last[|log|..|log| + 5] == later[|log|..];
    assert ReplacedAt(last, |log|, path, staged, was, now);
  }

  class ResumeSession {
    const fs: FileSystem
    const path: string
    const lockPath: string
    var lock: Option<Info>
    var partial: Option<Info>

    ghost predicate Valid()
      reads this, fs
    {
      && fs.Valid()
      && (lock.Some? ==> lock.value.inode in fs.ours)
      && (partial.Some? ==> partial.value.inode in fs.ours)
    }

    constructor (fs: FileSystem, path: string, lockPath: string)
      requires fs.Valid()
      ensures Valid() && this.fs == fs && this.path == path && this.lockPath == lockPath && lock.None? && partial.None?
    {
      this.fs, this.path, this.lockPath := fs, path, lockPath;
      lock, partial := None, None;
    }

    /** Whether the content now under the path is a sealed checkpoint of this campaign; one
        that is not counts as a disturbance. */
    method Sealed() returns (sealed: bool)
      modifies fs`quiet
      ensures fs.quiet ==> old(fs.quiet) && sealed
    {
      var spoiled := fs.Fault();
      sealed := !spoiled;
    }

    /** Take the lock, look at the partial twice around loading it, and adopt it only if it
        stayed the same file and its content passes the integrity check. */
    method Open() returns (ok: bool)
      requires Valid() && lock.None? && partial.None? && path != lockPath
      modifies this, fs
      ensures Valid() && (ok ==> lock.Some? && Regular(partial))
      ensures ok ==>
        fs.log == old(fs.log) + [Created(Public(lockPath), lock.value.inode), Seen(Public(path), partial), Seen(Public(path), partial)]
      ensures fs.quiet ==>
        && old(fs.quiet)
        && (ok <==> Public(lockPath) !in old(fs.names) && old(fs.At(Public(path))).Some? && old(fs.At(Public(path))).value.regular)
        && (ok ==> partial == fs.At(Public(path)) == old(fs.At(Public(path))) && lock == fs.At(Public(lockPath)))
        && fs.names == if ok then old(fs.names)[Public(lockPath) := lock.value.inode] else old(fs.names)
    {
      hide FileSystem.Safe, NamedPublicly;
      var locked, info := fs.CreateExclusive(Public(lockPath));
      if !locked {
        return false;
      }
      lock := Some(info);
      partial := Inspect();
      ok := partial.Some?;
      if !ok {
        Close();
      }
    }

    /** The partial, if it is the same regular file before and after it was loaded. */
    method Inspect() returns (found: Option<Info>)
      requires Valid()
      modifies fs
      ensures fs.Valid() && fs.ours >= old(fs.ours) && (found.Some? ==> found.value.inode in fs.ours && found.value.regular)
      ensures found.Some? ==> fs.log == old(fs.log) + [Seen(Public(path), found), Seen(Public(path), found)]
      ensures fs.quiet ==>
        && old(fs.quiet) && fs.names == old(fs.names) && fs.meta == old(fs.meta)
        && found == if fs.At(Public(path)).Some? && fs.At(Public(path)).value.regular then fs.At(Public(path)) else None
    {
      hide FileSystem.Safe, NamedPublicly;
      fs.Interfere();
      var before := fs.Lstat(Public(path));
      fs.Interfere();
      var after := fs.Lstat(Public(path));
      var sealed := Sealed();
      if before.None? || !before.value.regular || after.None? || after.value != before.value || !sealed {
        return None;
      }
      if after.value.inode in fs.foreign {
        fs.Adopt(after.value.inode);
      }
      found := after;
      fs.Interfere();
    }

    method VerifyCurrent() returns (ok: bool)
      requires Valid()
      modifies fs
      ensures Valid() && old(fs.log) <= fs.log
      ensures ok ==> partial.Some? && SeenTwice(fs.log[|old(fs.log)|..], Public(path), partial.value)
      ensures fs.quiet ==>
        && old(fs.quiet) && fs.names == old(fs.names) && fs.meta == old(fs.meta)
        && (ok <==> partial.Some? && fs.At(Public(path)).Some? && fs.At(Public(path)).value.regular
                    && fs.At(Public(path)).value.inode == partial.value.inode)
    {
      hide FileSystem.Safe, NamedPublicly;
      if partial.None? {
        return false;
      }
      var current := fs.Lstat(Public(path));
      if current.None? || !current.value.regular || current.value.inode != partial.value.inode {
        return false;
      }
      fs.Interfere();
      var after := fs.Lstat(Public(path));
      var sealed := Sealed();
      ok := after.Some? && after.value == current.value && sealed;
      fs.Interfere();
    }

    /** A new checkpoint takes the place of the last one, or the last one stays. */
    method Save() returns (ok: bool)
      requires Valid()
      modifies this`partial, fs
      ensures Valid() && (!ok ==> partial == old(partial))
      ensures ok ==> partial.Some? && old(partial).Some? && old(fs.log) <= fs.log
      ensures ok ==>
        && |fs.log| >= |old(fs.log)| + 2 && SeenTwice(fs.log[|old(fs.log)|..|old(fs.log)| + 2], Public(path), old(partial).value)
        && ReplacedSince(fs.log, |old(fs.log)| + 2, Public(path), old(partial).value, partial.value)
      ensures fs.quiet ==>
        && old(fs.quiet) && (ok <==> old(partial).Some? && Stable(old(partial).value, old(fs.At(Public(path)))))
        && fs.names == if ok then old(fs.names)[Public(path) := partial.value.inode] else old(fs.names)
    {
      hide FileSystem.Safe, NamedPublicly;
      var current := VerifyCurrent();
      if !current {
        return false;
      }
      var staged, stage, info := fs.Stage();
      if !staged {
        return false;
      }
      ok := Replace(stage, info.inode);
    }

    method Replace(stage: Name, ghost inode: nat) returns (ok: bool)
      requires Valid() && fs.Staged(stage, inode) && partial.Some?
      modifies this`partial, fs
      ensures Valid() && (!ok ==> partial == old(partial))
      ensures ok ==> partial.Some? && old(fs.log) <= fs.log
      ensures old(fs.log) <= fs.log
      ensures ok ==> ReplacedSince(fs.log, |old(fs.log)|, Public(path), old(partial).value, partial.value)
      ensures fs.quiet ==>
        && old(fs.quiet)
        && (old(fs.At(stage)).value.regular ==>
              && (ok <==> Stable(old(partial).value, old(fs.At(Public(path)))))
              && fs.names == if ok then (old(fs.names) - {stage})[Public(path) := partial.value.inode] else old(fs.names) - {stage})
    {
      hide FileSystem.Safe, NamedPublicly;
      var stagedInfo := fs.Lstat(stage);
      if stagedInfo.None? {
        return false;
      }
      fs.Interfere();
      ghost var before := fs.log;
      var replaced := fs.ReplaceOwned(Public(path), stage, partial.value);
      if replaced.Some? {
        partial := replaced;
      }
      ghost var done := fs.log;
      fs.RemoveStageIfOwned(stage, stagedInfo.value);
      if replaced.Some? {
        LaterReplaced(before, done, fs.log, Public(path), stage, old(partial).value, replaced.value);
      }
      ok := replaced.Some?;
    }

    method RemoveAfterSuccess() returns (ok: bool)
      requires Valid()
      modifies this`partial, fs
      ensures Valid() && partial == if ok then None else old(partial)
      ensures ok ==> old(partial).Some?
      ensures ok ==>
        && |fs.log| >= |old(fs.log)| + 2 && SeenTwice(fs.log[|old(fs.log)|..|old(fs.log)| + 2], Public(path), old(partial).value)
        && RemovalRun(fs.log[|old(fs.log)| + 2..], Public(path), old(partial).value, true)
      ensures fs.quiet ==>
        && old(fs.quiet) && (ok <==> old(partial).Some? && Owned(old(partial).value, old(fs.At(Public(path)))))
        && fs.names == if ok then old(fs.names) - {Public(path)} else old(fs.names)
    {
      hide FileSystem.Safe, NamedPublicly;
      var current := VerifyCurrent();
      if !current {
        return false;
      }
      ok := fs.RemoveOwned(Public(path), partial.value);
      if ok {
        partial := None;
      }
    }

    method Close()
      requires Valid()
      modifies this`lock, fs
      ensures Valid()
      ensures fs.quiet ==> old(fs.quiet) && fs.meta == old(fs.meta)
      ensures fs.quiet && old(lock).Some? && Owned(old(lock).value, old(fs.At(Public(lockPath)))) ==>
        lock.None? && fs.names == old(fs.names) - {Public(lockPath)}
      ensures fs.quiet && old(lock).None? ==> fs.names == old(fs.names)
    {
      hide FileSystem.Safe, NamedPublicly;
      if lock.Some? {
        var removed := fs.RemoveOwned(Public(lockPath), lock.value);
        if removed {
          lock := None;
        }
      }
    }
  }
}
