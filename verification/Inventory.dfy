/** The owned tree: a source is mirrored into a directory that people edit too, and a
    manifest of digests decides what may be overwritten or removed. A digest is the
    content it is taken of. */
module Inventory {
  import opened Text
  import Patches

  datatype Option<T> = None | Some(value: T)

  /** A regular file, or anything else that is not a directory. */
  datatype Node = Regular(content: string) | Special

  /** Files and links by clean relative path; directories are implied. */
  type Tree = map<string, Node>

  type Manifest = map<string, string>

  /** The files of the source that are shipped and not excluded, in the order of the walk. */
  datatype SourceFile = SourceFile(path: string, content: string)

  const CONFIG := "opencode.json"

  function Slashed(name: string): (r: string)
    ensures |r| == |name| && '\\' !in r
  {
    if name == "" then "" else [if name[0] == '\\' then '/' else name[0]] + Slashed(name[1..])
  }

  /** Every step of a relative path is a plain name. */
  predicate PlainSteps(name: string) {
    forall part :: part in Split(name, '/') ==> part != "" && part != "." && part != ".."
  }

  function Relative(name: string): Option<string> {
    if PlainSteps(Slashed(name)) then Some(Slashed(name)) else None
  }

  lemma {:induction false} SlashedOnce(name: string)
    ensures '\\' !in name ==> Slashed(name) == name
    ensures Slashed(Slashed(name)) == Slashed(name)
  {
    if name != "" {
      SlashedOnce(name[1..]);
      var r := Slashed(name);
      assert r[1..] == Slashed(name[1..]);
      assert '\\' !in name ==> name[0] != '\\' && '\\' !in name[1..];
      assert name == [name[0]] + name[1..];
    }
  }

  lemma CleanIsStable(name: string)
    requires Relative(name).Some?
    ensures Relative(Relative(name).value) == Relative(name)
  {
    SlashedOnce(name);
  }

  lemma {:induction false} SlashedAt(name: string, i: nat)
    requires i < |name|
    ensures Slashed(name)[i] == if name[i] == '\\' then '/' else name[i]
  {
    if i > 0 {
      SlashedAt(name[1..], i - 1);
    }
  }

  /** Each part adds at most one name, and only a plain one adds it for good. */
  lemma {:induction false} NamesOfParts(c: Patches.CleanPath, parts: seq<string>)
    ensures |Patches.CleanParts(c, parts).names| <= |c.names| + |parts|
    ensures |Patches.CleanParts(c, parts).names| == |c.names| + |parts| ==> forall p :: p in parts ==> Patches.Plain(p)
    decreases |parts|
  {
    if parts != [] {
      NamesOfParts(Patches.CleanStep(c, parts[0]), parts[1..]);
      assert parts == [parts[0]] + parts[1..];
    }
  }

  /** A name is accepted exactly if, with slashes for backslashes, lexical cleaning leaves it as
      it is and it is not rooted. */
  lemma RelativeIsClean(name: string)
    ensures Relative(name).Some? <==>
      Patches.Clean(Slashed(name)) == Patches.CleanPath(false, 0, Split(Slashed(name), '/'))
    ensures Relative(name).Some? ==>
      && |Relative(name).value| == |name|
      && forall i :: 0 <= i < |name| ==> Relative(name).value[i] == if name[i] == '\\' then '/' else name[i]
  {
    var s := Slashed(name);
    var parts := Split(s, '/');
    JoinedSplit(s, '/');
    Patches.CleanOfParts(parts);
    var start := Patches.CleanPath(|parts| > 1 && parts[0] == "", 0, []);
    NamesOfParts(start, parts);
    if PlainSteps(s) {
      assert parts[0] in parts;
      Patches.CleanStays(start, 0, parts);
      assert Patches.Dots(0) + parts == parts && start.names + parts == parts;
    }
    forall i | 0 <= i < |name|
      ensures s[i] == if name[i] == '\\' then '/' else name[i]
    {
      SlashedAt(name, i);
    }
  }

  lemma ConfigIsPlain()
    ensures Relative(CONFIG).Some? ==> Relative(CONFIG) == Some(CONFIG)
  {
    SlashedOnce(CONFIG);
  }

  // -------------------------------------------------------------------- one file

  predicate Under(p: string, q: string) {
    |p| < |q| && q[..|p|] == p && q[|p|] == '/'
  }

  /** Path `q` goes on from path `p`, step by step. */
  predicate Inside(q: string, p: string) {
    |Split(p, '/')| < |Split(q, '/')| && Split(q, '/')[..|Split(p, '/')|] == Split(p, '/')
  }

  lemma UnderIsInside(p: string, q: string)
    ensures Under(p, q) <==> Inside(q, p)
  {
    if Under(p, q) {
      GoesOn(p, q);
    } else if Inside(q, p) {
      StepsGoOn(p, q);
    }
  }

  lemma GoesOn(p: string, q: string)
    requires Under(p, q)
    ensures Inside(q, p)
  {
    hide Split;
    var rest := q[|p| + 1..];
    assert q == p + ['/'] + rest;
    SplitTogether(p, rest, '/');
    var x, y := Split(p, '/'), Split(rest, '/');
    assert (x + y)[..|x|] == x;
  }

  lemma StepsGoOn(p: string, q: string)
    requires Inside(q, p)
    ensures Under(p, q)
  {
    var x, y := Split(p, '/'), Split(q, '/');
    JoinedSplit(p, '/');
    JoinedSplit(q, '/');
    hide Split, Joined;
    assert y == x + y[|x|..];
    JoinedTogether(x, y[|x|..], '/');
    var rest := Joined(y[|x|..], '/');
    assert q == p + ['/'] + rest;
    assert q[..|p|] == p && q[|p|] == '/';
  }

  lemma {:induction false} JoinedTogether(a: seq<string>, b: seq<string>, sep: char)
    requires a != [] && b != []
    ensures Joined(a + b, sep) == Joined(a, sep) + [sep] + Joined(b, sep)
  {
    assert (a + b)[1..] == a[1..] + b;
    if |a| == 1 {
      JoinedCons(a[0], b, sep);
      assert a + b == [a[0]] + b;
    } else {
      JoinedTogether(a[1..], b, sep);
      JoinedCons(a[0], a[1..] + b, sep);
      assert a + b == [a[0]] + (a[1..] + b);
      JoinedCons(a[0], a[1..], sep);
      assert a == [a[0]] + a[1..];
    }
  }

  lemma SplitTogether(p: string, q: string, sep: char)
    ensures Split(p + [sep] + q, sep) == Split(p, sep) + Split(q, sep)
  {
    var a, b := Split(p, sep), Split(q, sep);
    JoinedSplit(p, sep);
    JoinedSplit(q, sep);
    JoinedTogether(a, b, sep);
    SplitJoined(a + b, sep);
  }

  /** Something that is no directory is on the way to `p`, or `p` is a directory. */
  predicate Blocked(t: Tree, p: string) {
    exists q :: q in t && (Under(q, p) || Under(p, q))
  }

  /** Only a missing file, the configuration, or a file that still has the digest on record
      is written. */
  predicate MayWrite(was: Manifest, t: Tree, p: string) {
    p !in t || p == CONFIG || (p in was && t[p] == Regular(was[p]))
  }

  datatype Progress = Progress(tree: Tree, next: Manifest)

  function InstallOne(was: Manifest, s: Progress, f: SourceFile): Option<Progress> {
    var clean := Relative(f.path);
    if clean.None? then None else
      var p := clean.value;
      if Blocked(s.tree, p) || (p in s.tree && s.tree[p].Special?) then None
      else if MayWrite(was, s.tree, p) then Some(Progress(s.tree[p := Regular(f.content)], s.next[p := f.content]))
      else if p in was then Some(Progress(s.tree, s.next[p := was[p]]))
      else Some(s)
  }

  function InstallAll(was: Manifest, t: Tree, files: seq<SourceFile>): Option<Progress> {
    if files == [] then Some(Progress(t, map[])) else
      var before := InstallAll(was, t, files[..|files| - 1]);
      if before.None? then None else InstallOne(was, before.value, files[|files| - 1])
  }

  /** A key that is not carried over takes its file with it if the file is unchanged. */
  predicate Retires(was: Manifest, next: Manifest, t: Tree, key: string, p: string) {
    key in was && key !in next && Relative(key) == Some(p) && p in t && t[p] == Regular(was[key])
  }

  ghost predicate Retired(was: Manifest, next: Manifest, t: Tree, p: string) {
    exists key :: Retires(was, next, t, key, p)
  }

  ghost function AfterRetiring(was: Manifest, next: Manifest, t: Tree): Tree {
    map p | p in t && !Retired(was, next, t, p) :: t[p]
  }

  /** A whole install that meets no I/O error. */
  ghost function Outcome(was: Manifest, t: Tree, files: seq<SourceFile>): Option<Progress> {
    var r := InstallAll(was, t, files);
    if r.None? then None else Some(Progress(AfterRetiring(was, r.value.next, r.value.tree), r.value.next))
  }

  lemma {:induction false} WalkStops(was: Manifest, t: Tree, files: seq<SourceFile>, k: nat)
    requires k <= |files| && InstallAll(was, t, files[..k]).None?
    ensures InstallAll(was, t, files).None?
    decreases |files|
  {
    hide InstallOne;
    if k < |files| {
      var shorter := files[..|files| - 1];
      assert shorter[..k] == files[..k];
      WalkStops(was, t, shorter, k);
    } else {
      assert files[..k] == files;
    }
  }

  /** `t` lies between `low` and `high`. */
  predicate Between(low: Tree, t: Tree, high: Tree) {
    && (forall p :: p in low ==> p in t && t[p] == low[p])
    && (forall p :: p in t ==> p in high && high[p] == t[p])
  }

  /** An install stopped after `k` files, or while it was taking retired files away. */
  ghost predicate Stopped(was: Manifest, t: Tree, files: seq<SourceFile>, k: nat, left: Tree) {
    && k <= |files| && InstallAll(was, t, files[..k]).Some?
    && var walk := InstallAll(was, t, files[..k]).value;
    && Between(if k == |files| then AfterRetiring(was, walk.next, walk.tree) else walk.tree, left, walk.tree)
  }

  /** All keys but `rest` have been looked at: what is gone was retired by one of them, and what
      one of them retires is gone or could not be read. */
  ghost predicate RetiredSoFar(was: Manifest, next: Manifest, start: Tree, rest: set<string>, tree: Tree, unread: set<string>) {
    && rest <= was.Keys
    && (forall p :: p in start && p !in tree ==> exists key :: key !in rest && Retires(was, next, start, key, p))
    && (forall p, key :: p in tree && p !in unread && key !in rest ==> !Retires(was, next, start, key, p))
    && (forall p :: p in tree ==> p in start && tree[p] == start[p])
  }

  lemma NoKeyYet(was: Manifest, next: Manifest, tree: Tree)
    ensures RetiredSoFar(was, next, tree, was.Keys, tree, {})
  {
    hide Relative;
  }

  lemma OneKeyMore(was: Manifest, next: Manifest, start: Tree, rest: set<string>, before: Tree, seen: set<string>,
                   tree: Tree, unread: set<string>, key: string, ok: bool)
    requires RetiredSoFar(was, next, start, rest, before, seen) && key in rest && seen <= unread && (!ok ==> tree == before)
    requires forall p :: p in before && p !in tree ==> Retires(was, next, before, key, p)
    requires forall p :: p in tree ==>
      p in before && tree[p] == before[p] && (ok && p !in unread ==> !Retires(was, next, before, key, p))
    ensures RetiredSoFar(was, next, start, if ok then rest - {key} else rest, tree, unread)
  {
    hide Relative;
  }

  lemma AllBetween(was: Manifest, next: Manifest, start: Tree, rest: set<string>, tree: Tree, unread: set<string>)
    requires RetiredSoFar(was, next, start, rest, tree, unread)
    ensures Between(AfterRetiring(was, next, start), tree, start)
    ensures rest == {} ==> forall p :: p in tree && Retired(was, next, start, p) ==> p in unread
    ensures rest == {} && unread == {} ==> tree == AfterRetiring(was, next, start)
  {
    hide Relative, Retires;
  }

  // ------------------------------------------------------------------ the target

  type Written = set<(string, string)>

  class InstallTarget {
    var tree: Tree
    var manifest: Manifest
    /** What the installer has written where, and what it has overwritten or removed. */
    ghost var written: Written
    ghost var lost: Written
    /** No read or write has failed so far; and one has failed that an install reports. */
    ghost var calm: bool
    ghost var failed: bool
    /** The retired files that could not be read the last time. */
    ghost var unread: set<string>

    /** Whatever the installer took away it had put there, and the manifest only names
        what it had put there; the configuration file is the exception. */
    ghost predicate Valid()
      reads this`manifest, this`written, this`lost
    {
      && (forall e :: e in lost && e.0 != CONFIG ==> e in written)
      && (forall e :: e in written ==> Relative(e.0) == Some(e.0))
      && (forall p :: p in manifest && p != CONFIG ==> (p, manifest[p]) in written)
    }

    constructor (tree: Tree)
      ensures Valid() && this.tree == tree && manifest == map[] && lost == {}
    {
      this.tree, manifest, written, lost, calm, failed, unread := tree, map[], {}, {}, true, false, {};
    }

    method Fault() returns (fails: bool)
      modifies this`calm
      ensures calm == (old(calm) && !fails)
    {
      fails := *;
      if fails {
        calm := false;
      }
    }

    /** Anybody edits any file. The manifest may be lost in part or whole, or put back to
        entries it once had. */
    method UserEdits(edited: Tree, restored: Manifest)
      requires Valid() && forall p :: p in restored && p != CONFIG ==> (p, restored[p]) in written
      modifies this`tree, this`manifest
      ensures Valid() && tree == edited && manifest == restored
    {
      tree, manifest := edited, restored;
    }

    method Put(p: string, content: string)
      requires Valid() && (p in tree && p != CONFIG && tree[p].Regular? ==> (p, tree[p].content) in written)
      requires Relative(p) == Some(p)
      modifies this`tree, this`written, this`lost
      ensures Valid() && tree == old(tree)[p := Regular(content)] && (p, content) in written
      ensures old(written) <= written && old(lost) <= lost
    {
      hide Relative;
      if p in tree && tree[p].Regular? {
        lost := lost + {(p, tree[p].content)};
      }
      tree := tree[p := Regular(content)];
      written := written + {(p, content)};
    }

    method Remove(p: string)
      requires Valid() && p in tree && (tree[p].Regular? && p != CONFIG ==> (p, tree[p].content) in written)
      modifies this`tree, this`lost
      ensures Valid() && tree == old(tree) - {p} && old(lost) <= lost
    {
      hide Relative;
      if tree[p].Regular? {
        lost := lost + {(p, tree[p].content)};
      }
      tree := tree - {p};
    }

    method InstallFile(f: SourceFile, next0: Manifest) returns (ok: bool, next: Manifest)
      requires Valid()
      requires forall p :: p in next0 && p != CONFIG ==> (p, next0[p]) in written
      modifies this`tree, this`written, this`lost, this`calm, this`failed
      ensures Valid() && old(written) <= written && old(lost) <= lost
      ensures old(failed) ==> failed
      ensures !ok ==> failed || InstallOne(manifest, Progress(old(tree), next0), f).None?
      ensures calm ==> old(calm) && failed == old(failed) && (ok <==> InstallOne(manifest, Progress(old(tree), next0), f).Some?)
      ensures forall p :: p in next && p != CONFIG ==> (p, next[p]) in written
      ensures ok ==> InstallOne(manifest, Progress(old(tree), next0), f) == Some(Progress(tree, next))
      ensures !ok ==> tree == old(tree)
    {
      hide Relative, Blocked;
      next := next0;
      var clean := Relative(f.path);
      if clean.None? {
        return false, next;
      }
      var p := clean.value;
      if Blocked(tree, p) {
        return false, next;
      }
      var write := true;
      if p in tree {
        if tree[p].Special? {
          return false, next;
        }
        if p != CONFIG {
          if p !in manifest || tree[p].content != manifest[p] {
            write := false;
          }
        }
      }
      if write {
        var fails := Fault();
        if fails {
          failed := true;
          return false, next;
        }
        CleanIsStable(f.path);
        Put(p, f.content);
        next := next[p := f.content];
      } else if p in manifest {
        next := next[p := manifest[p]];
      }
      ok := true;
    }

    /** Retired files are removed in whatever order the old manifest is walked; one that
        cannot be read is left alone. */
    method Retire(next: Manifest) returns (ok: bool)
      requires Valid()
      modifies this`tree, this`lost, this`calm, this`failed, this`unread
      ensures (old(failed) ==> failed) && (!ok ==> failed) && (calm ==> failed == old(failed))
      ensures Valid() && old(lost) <= lost && Between(AfterRetiring(manifest, next, old(tree)), tree, old(tree))
      ensures calm ==> old(calm) && ok && tree == AfterRetiring(manifest, next, old(tree))
      ensures ok ==> forall p :: p in tree && Retired(manifest, next, old(tree), p) ==> p in unread
    {
      hide Relative, RetiredSoFar, AfterRetiring, Between, Retired, Retires;
      NoKeyYet(manifest, next, tree);
      var rest := manifest.Keys;
      ghost var start := tree;
      unread := {};
      while rest != {}
        invariant Valid() && old(lost) <= lost && rest <= manifest.Keys
        invariant (calm ==> old(calm) && failed == old(failed)) && (old(failed) ==> failed)
        invariant RetiredSoFar(manifest, next, start, rest, tree, unread)
        invariant calm ==> unread == {}
        decreases rest
      {
        var key :| key in rest;
        ghost var before, seen := tree, unread;
        ok := RetireKey(next, key);
        OneKeyMore(manifest, next, start, rest, before, seen, tree, unread, key, ok);
        if !ok {
          AllBetween(manifest, next, start, rest, tree, unread);
          return;
        }
        rest := rest - {key};
      }
      AllBetween(manifest, next, start, rest, tree, unread);
      ok := true;
    }

    method RetireKey(next: Manifest, key: string) returns (ok: bool)
      requires Valid() && key in manifest
      modifies this`tree, this`lost, this`calm, this`failed, this`unread
      ensures Valid() && old(lost) <= lost && (calm ==> old(calm) && ok) && (!ok ==> tree == old(tree) && failed)
      ensures (old(failed) ==> failed) && (calm ==> failed == old(failed))
      ensures forall p :: p in old(tree) && p !in tree ==> Retires(manifest, next, old(tree), key, p)
      ensures forall p :: p in tree ==>
        p in old(tree) && tree[p] == old(tree)[p] && (ok && p !in unread ==> !Retires(manifest, next, old(tree), key, p))
      ensures old(unread) <= unread && (calm ==> unread == old(unread))
    {
      hide Relative;
      var clean := Relative(key);
      if key !in next && clean.Some? && clean.value in tree && tree[clean.value] == Regular(manifest[key]) {
        var unreadable := Fault();
        if unreadable {
          unread := unread + {clean.value};
          return true;
        }
        var stuck := Fault();
        if stuck {
          failed := true;
          return false;
        }
        ConfigIsPlain();
        Remove(clean.value);
      }
      ok := true;
    }

    /** One install: it may stop anywhere, and then the manifest stays as it was. It goes through
        unless something is in the way of a file or a write or removal fails; a retired file that
        cannot be read does not stop it. */
    method Install(files: seq<SourceFile>) returns (ok: bool)
      requires Valid()
      modifies this
      ensures Valid() && old(written) <= written && old(lost) <= lost
      ensures !ok ==> manifest == old(manifest) && exists k :: Stopped(old(manifest), old(tree), files, k, tree)
      ensures ok ==>
        var walk, out := InstallAll(old(manifest), old(tree), files), Outcome(old(manifest), old(tree), files);
        walk.Some? && manifest == out.value.next && Between(out.value.tree, tree, walk.value.tree)
      ensures (old(failed) ==> failed) && (!failed ==> (ok <==> Outcome(old(manifest), old(tree), files).Some?))
      ensures calm ==> failed == old(failed)
      ensures ok ==> var walk := InstallAll(old(manifest), old(tree), files).value;
        forall p :: p in tree && Retired(old(manifest), walk.next, walk.tree, p) ==> p in unread
      ensures calm && ok ==> Outcome(old(manifest), old(tree), files) == Some(Progress(tree, manifest))
      ensures calm ==> old(calm) && (ok <==> Outcome(old(manifest), old(tree), files).Some?)
    {
      hide Relative, InstallOne, AfterRetiring;
      var next: Manifest := map[];
      for i := 0 to |files|
        invariant Valid() && old(written) <= written && old(lost) <= lost && manifest == old(manifest)
        invariant (calm ==> old(calm) && failed == old(failed)) && (old(failed) ==> failed)
        invariant forall p :: p in next && p != CONFIG ==> (p, next[p]) in written
        invariant InstallAll(manifest, old(tree), files[..i]) == Some(Progress(tree, next))
      {
        assert files[..i + 1][..i] == files[..i];
        ok, next := InstallFile(files[i], next);
        if !ok {
          if calm || !failed {
            WalkStops(manifest, old(tree), files, i + 1);
          }
          assert Stopped(manifest, old(tree), files, i, tree);
          return;
        }
      }
      assert files[..|files|] == files;
      ok := Retire(next);
      ghost var all: nat := |files|;
      ghost var left := tree;
      assert Stopped(old(manifest), old(tree), files, all, left);
      if !ok {
        assert tree == left;
        return;
      }
      var fails := Fault();
      if fails {
        failed := true;
        assert tree == left;
        return false;
      }
      manifest := next;
    }

    /** After the configuration was merged in place its new digest is recorded. */
    method RefreshConfig() returns (ok: bool)
      requires Valid()
      modifies this`manifest, this`calm
      ensures Valid() && (!ok ==> manifest == old(manifest))
      ensures calm ==> old(calm) && (ok <==> CONFIG in tree && tree[CONFIG].Regular?)
      ensures ok ==> CONFIG in tree && tree[CONFIG].Regular? && manifest == old(manifest)[CONFIG := tree[CONFIG].content]
    {
      if CONFIG !in tree || !tree[CONFIG].Regular? {
        return false;
      }
      var fails := Fault();
      if fails {
        return false;
      }
      manifest := manifest[CONFIG := tree[CONFIG].content];
      ok := true;
    }
  }

  // ---------------------------------------------------------------- convergence

  /** No file lies under another one. */
  ghost predicate WellFormed(t: Tree) {
    forall p, q :: p in t && q in t ==> !Under(p, q)
  }

  /** The source names are distinct and stay so once they are cleaned. */
  predicate Unaliased(files: seq<SourceFile>) {
    forall i, j :: 0 <= i < j < |files| ==> Relative(files[i].path) != Relative(files[j].path)
  }

  predicate Ships(files: seq<SourceFile>, p: string) {
    exists i :: 0 <= i < |files| && Relative(files[i].path) == Some(p)
  }

  function ContentFor(was: Manifest, t: Tree, f: SourceFile, p: string): Node {
    if MayWrite(was, t, p) then Regular(f.content) else if p in t then t[p] else Special
  }

  /** What a walk leaves at one shipped path, whatever else it installs. */
  ghost predicate InstalledAt(was: Manifest, t: Tree, r: Progress, f: SourceFile) {
    Relative(f.path).Some? &&
    var p := Relative(f.path).value;
    && p in r.tree && r.tree[p] == ContentFor(was, t, f, p) && r.tree[p].Regular? && (p in t ==> t[p].Regular?)
    && (p in r.next <==> MayWrite(was, t, p) || p in was)
    && (p in r.next ==> r.next[p] == if MayWrite(was, t, p) then f.content else was[p])
  }

  ghost predicate WalkOk(was: Manifest, t: Tree, files: seq<SourceFile>, r: Progress) {
    && (forall i :: 0 <= i < |files| ==> InstalledAt(was, t, r, files[i]))
    && (forall p :: !Ships(files, p) ==> p !in r.next && (p in r.tree <==> p in t) && (p in t ==> r.tree[p] == t[p]))
  }

  lemma WalkNothing(was: Manifest, t: Tree)
    ensures WalkOk(was, t, [], Progress(t, map[]))
  {
  }

  lemma UnaliasedPrefix(files: seq<SourceFile>, n: nat)
    requires Unaliased(files) && n <= |files|
    ensures Unaliased(files[..n])
  {
    hide Relative;
  }

  lemma {:induction false} WalkPointwise(was: Manifest, t: Tree, files: seq<SourceFile>)
    requires Unaliased(files) && InstallAll(was, t, files).Some?
    ensures WalkOk(was, t, files, InstallAll(was, t, files).value)
  {
    hide WalkOk, InstallOne, Relative, Unaliased;
    if files == [] {
      WalkNothing(was, t);
    } else {
      var n := |files| - 1;
      var rest := files[..n];
      UnaliasedPrefix(files, n);
      WalkPointwise(was, t, rest);
      assert rest + [files[n]] == files;
      WalkStep(was, t, rest, InstallAll(was, t, rest).value, files[n]);
    }
  }

  /** One install seen at one shipped path: what is missing, the configuration, and what still has
      the digest on record gets the shipped content, and everything else stays as it was, in the
      tree and in the manifest. */
  lemma InstallDecides(was: Manifest, t: Tree, files: seq<SourceFile>, i: nat)
    requires Unaliased(files) && InstallAll(was, t, files).Some? && i < |files|
    ensures Relative(files[i].path).Some?
    ensures var r, p := InstallAll(was, t, files).value, Relative(files[i].path).value;
      if p !in t || p == "opencode.json" || (p in was && t[p] == Regular(was[p])) then
        p in r.tree && r.tree[p] == Regular(files[i].content) && p in r.next && r.next[p] == files[i].content
      else
        p in r.tree && r.tree[p] == t[p] && (p in r.next <==> p in was) && (p in was ==> r.next[p] == was[p])
  {
    WalkPointwise(was, t, files);
    assert InstalledAt(was, t, InstallAll(was, t, files).value, files[i]);
    hide InstallAll, Relative, WalkOk;
  }

  /** Nothing is in the way of file `i`: its name is accepted, no link or device lies there, and
      neither what was there before nor an earlier file is inside it or it inside that. */
  ghost predicate Clear(t: Tree, files: seq<SourceFile>, i: nat)
    requires i < |files|
  {
    Relative(files[i].path).Some? &&
    var p := Relative(files[i].path).value;
    && (p in t ==> t[p].Regular?)
    && (forall q :: q in t || Ships(files[..i], q) ==> !Inside(q, p) && !Inside(p, q))
  }

  /** An install goes through exactly if nothing is in the way of any file. */
  lemma {:induction false} InstallGoes(was: Manifest, t: Tree, files: seq<SourceFile>)
    requires Unaliased(files)
    ensures InstallAll(was, t, files).Some? <==> forall i :: 0 <= i < |files| ==> Clear(t, files, i)
  {
    hide Relative, Under, Inside, Unaliased;
    if files != [] {
      var n := |files| - 1;
      var rest := files[..n];
      UnaliasedPrefix(files, n);
      InstallGoes(was, t, rest);
      forall i | 0 <= i < n
        ensures Clear(t, rest, i) <==> Clear(t, files, i)
      {
        assert rest[..i] == files[..i];
      }
      if InstallAll(was, t, rest).Some? {
        OneGoes(was, t, files);
      }
    }
  }

  lemma OneGoes(was: Manifest, t: Tree, files: seq<SourceFile>)
    requires files != [] && Unaliased(files) && InstallAll(was, t, files[..|files| - 1]).Some?
    ensures InstallOne(was, InstallAll(was, t, files[..|files| - 1]).value, files[|files| - 1]).Some? <==> Clear(t, files, |files| - 1)
  {
    var n := |files| - 1;
    var rest, s := files[..n], InstallAll(was, t, files[..n]).value;
    UnaliasedPrefix(files, n);
    WalkPointwise(was, t, rest);
    forall q
      ensures q in s.tree <==> q in t || Ships(rest, q)
    {
      InTreeAfter(was, t, rest, s, q);
    }
    if Relative(files[n].path).Some? {
      NotShippedYet(files, n);
      StillThere(was, t, rest, s, Relative(files[n].path).value);
    }
    hide *;
    OneIsClear(was, t, files, s);
  }

  lemma StillThere(was: Manifest, t: Tree, files: seq<SourceFile>, r: Progress, p: string)
    requires WalkOk(was, t, files, r) && !Ships(files, p)
    ensures (p in r.tree <==> p in t) && (p in t ==> r.tree[p] == t[p])
  {
    hide InstalledAt, Relative, Ships;
  }

  lemma OneIsClear(was: Manifest, t: Tree, files: seq<SourceFile>, s: Progress)
    requires files != [] && forall q :: q in s.tree <==> q in t || Ships(files[..|files| - 1], q)
    requires Relative(files[|files| - 1].path).Some? ==>
      var p := Relative(files[|files| - 1].path).value; (p in s.tree <==> p in t) && (p in t ==> s.tree[p] == t[p])
    ensures InstallOne(was, s, files[|files| - 1]).Some? <==> Clear(t, files, |files| - 1)
  {
    hide Relative, Under, Inside, Ships, MayWrite;
    if Relative(files[|files| - 1].path).Some? {
      var p := Relative(files[|files| - 1].path).value;
      forall q
        ensures Under(q, p) <==> Inside(p, q)
        ensures Under(p, q) <==> Inside(q, p)
      {
        UnderIsInside(q, p);
        UnderIsInside(p, q);
      }
    }
  }

  lemma InTreeAfter(was: Manifest, t: Tree, files: seq<SourceFile>, r: Progress, q: string)
    requires WalkOk(was, t, files, r)
    ensures q in r.tree <==> q in t || Ships(files, q)
  {
    hide ContentFor, Relative;
    if Ships(files, q) {
      var i :| 0 <= i < |files| && Relative(files[i].path) == Some(q);
      assert InstalledAt(was, t, r, files[i]);
    }
  }

  lemma ShipsSnoc(rest: seq<SourceFile>, f: SourceFile, p: string)
    ensures Ships(rest + [f], p) <==> Ships(rest, p) || Relative(f.path) == Some(p)
  {
    hide Relative;
    var files := rest + [f];
    assert files[|rest|] == f;
    assert forall i :: 0 <= i < |rest| ==> files[i] == rest[i];
  }

  ghost predicate SameAt(s: Progress, r: Progress, q: string) {
    && (q in s.tree <==> q in r.tree) && (q in s.tree ==> s.tree[q] == r.tree[q])
    && (q in s.next <==> q in r.next) && (q in s.next ==> s.next[q] == r.next[q])
  }

  lemma OneFrame(was: Manifest, s: Progress, f: SourceFile)
    requires InstallOne(was, s, f).Some?
    ensures Relative(f.path).Some? && forall q :: Some(q) != Relative(f.path) ==> SameAt(s, InstallOne(was, s, f).value, q)
  {
    hide Relative, Blocked, MayWrite;
  }

  lemma OneInstalls(was: Manifest, t: Tree, s: Progress, f: SourceFile)
    requires InstallOne(was, s, f).Some? && Relative(f.path).Some?
    requires var p := Relative(f.path).value;
      p !in s.next && (p in s.tree <==> p in t) && (p in t ==> s.tree[p] == t[p])
    ensures InstalledAt(was, t, InstallOne(was, s, f).value, f)
  {
    hide Relative, Blocked;
  }

  lemma StillInstalled(was: Manifest, t: Tree, s: Progress, r: Progress, f: SourceFile)
    requires InstalledAt(was, t, s, f) && SameAt(s, r, Relative(f.path).value)
    ensures InstalledAt(was, t, r, f)
  {
    hide Relative, MayWrite, ContentFor;
  }

  lemma NotYetShipped(rest: seq<SourceFile>, f: SourceFile)
    requires Unaliased(rest + [f]) && Relative(f.path).Some?
    ensures !Ships(rest, Relative(f.path).value)
    ensures forall i :: 0 <= i < |rest| ==> Relative(rest[i].path) != Relative(f.path)
  {
    hide Relative;
    var files := rest + [f];
    assert files[|rest|] == f;
    assert forall i :: 0 <= i < |rest| ==> files[i] == rest[i];
  }

  lemma StepKeepsFiles(was: Manifest, t: Tree, rest: seq<SourceFile>, s: Progress, r: Progress, f: SourceFile)
    requires WalkOk(was, t, rest, s) && InstalledAt(was, t, r, f)
    requires forall q :: Some(q) != Relative(f.path) ==> SameAt(s, r, q)
    requires forall i :: 0 <= i < |rest| ==> Relative(rest[i].path) != Relative(f.path)
    ensures forall i :: 0 <= i < |rest + [f]| ==> InstalledAt(was, t, r, (rest + [f])[i])
  {
    forall i | 0 <= i < |rest|
      ensures InstalledAt(was, t, r, rest[i])
    {
      assert InstalledAt(was, t, s, rest[i]);
      hide Relative, ContentFor, MayWrite, SameAt;
      assert Relative(rest[i].path).Some?;
      assert SameAt(s, r, Relative(rest[i].path).value);
      StillInstalled(was, t, s, r, rest[i]);
    }
  }

  lemma StepKeepsRest(was: Manifest, t: Tree, rest: seq<SourceFile>, s: Progress, r: Progress, f: SourceFile)
    requires WalkOk(was, t, rest, s)
    requires forall q :: Some(q) != Relative(f.path) ==> SameAt(s, r, q)
    ensures forall q :: !Ships(rest + [f], q) ==> q !in r.next && (q in r.tree <==> q in t) && (q in t ==> r.tree[q] == t[q])
  {
    hide Relative, InstalledAt;
    forall q | !Ships(rest + [f], q)
      ensures q !in r.next && (q in r.tree <==> q in t) && (q in t ==> r.tree[q] == t[q])
    {
      ShipsSnoc(rest, f, q);
      assert SameAt(s, r, q);
    }
  }

  lemma WalkStep(was: Manifest, t: Tree, rest: seq<SourceFile>, s: Progress, f: SourceFile)
    requires Unaliased(rest + [f]) && WalkOk(was, t, rest, s) && InstallOne(was, s, f).Some?
    ensures WalkOk(was, t, rest + [f], InstallOne(was, s, f).value)
  {
    hide Relative, InstalledAt, SameAt, InstallOne, Ships;
    OneFrame(was, s, f);
    NotYetShipped(rest, f);
    OneInstalls(was, t, s, f);
    StepKeepsFiles(was, t, rest, s, InstallOne(was, s, f).value, f);
    StepKeepsRest(was, t, rest, s, InstallOne(was, s, f).value, f);
  }

  /** Before the install: some key of the manifest cleans to a shipped path without being that
      path, and its digest is that of what the install leaves there, which is the shipped
      content where it may write and else the content there now. */
  ghost predicate AliasOnRecord(was: Manifest, t: Tree, files: seq<SourceFile>) {
    exists key, i :: AliasAt(was, t, files, key, i)
  }

  predicate AliasAt(was: Manifest, t: Tree, files: seq<SourceFile>, key: string, i: nat) {
    && i < |files| && key in was && Relative(key).Some? && Relative(key) != Some(key)
    && Relative(files[i].path) == Relative(key)
    && ContentFor(was, t, files[i], Relative(key).value) == Regular(was[key])
  }

  /** That is what makes the install take away a file it has just left in place. */
  lemma AliasDecides(was: Manifest, t: Tree, files: seq<SourceFile>)
    requires Unaliased(files) && InstallAll(was, t, files).Some?
    ensures AliasOnRecord(was, t, files) <==> AliasHits(was, InstallAll(was, t, files).value, files)
  {
    WalkPointwise(was, t, files);
    var walk := InstallAll(was, t, files).value;
    hide InstallAll, Relative, WalkOk, Unaliased, MayWrite;
    if AliasHits(was, walk, files) {
      var p :| Ships(files, p) && Retired(was, walk.next, walk.tree, p);
      var key :| Retires(was, walk.next, walk.tree, key, p);
      KeysShip(was, t, files, walk, key);
      var i :| 0 <= i < |files| && Relative(files[i].path) == Some(p);
      FileInstalled(was, t, files, walk, i);
      assert AliasAt(was, t, files, key, i);
    }
    if key, i :| AliasAt(was, t, files, key, i) {
      var p := Relative(key).value;
      FileInstalled(was, t, files, walk, i);
      UncleanDoesNotShip(files, key);
      KeysShip(was, t, files, walk, key);
      assert Ships(files, p) && Retires(was, walk.next, walk.tree, key, p);
    }
  }

  lemma FileInstalled(was: Manifest, t: Tree, files: seq<SourceFile>, r: Progress, i: nat)
    requires WalkOk(was, t, files, r) && i < |files|
    ensures InstalledAt(was, t, r, files[i])
  {
    hide InstalledAt;
  }

  lemma UncleanDoesNotShip(files: seq<SourceFile>, key: string)
    ensures Relative(key) != Some(key) ==> !Ships(files, key)
  {
    hide Relative;
    forall i | 0 <= i < |files| && Relative(files[i].path) == Some(key)
      ensures Relative(key) == Some(key)
    {
      CleanIsStable(files[i].path);
    }
  }

  /** The same seen from the result of the walk. */
  ghost predicate AliasHits(was: Manifest, r: Progress, files: seq<SourceFile>) {
    exists p :: Ships(files, p) && Retired(was, r.next, r.tree, p)
  }

  lemma {:induction false} AgainSame(was: Manifest, r: Progress, files: seq<SourceFile>, k: nat)
    requires k <= |files| && Unaliased(files) && WellFormed(r.tree)
    requires forall i :: 0 <= i < |files| ==> Settled(r, files[i])
    ensures InstallAll(r.next, r.tree, files[..k]).Some?
    ensures var a := InstallAll(r.next, r.tree, files[..k]).value;
      a.tree == r.tree && forall p :: (p in a.next <==> p in r.next && Ships(files[..k], p)) && (p in a.next ==> a.next[p] == r.next[p])
  {
    if k > 0 {
      AgainSame(was, r, files, k - 1);
      assert files[..k][..k - 1] == files[..k - 1];
      assert files[..k] == files[..k - 1] + [files[k - 1]];
      var a := InstallAll(r.next, r.tree, files[..k - 1]).value;
      AgainOne(r, a, files[k - 1]);
      hide Relative, Settled, WellFormed;
      forall p
        ensures Ships(files[..k], p) <==> Ships(files[..k - 1], p) || Relative(files[k - 1].path) == Some(p)
      {
        ShipsSnoc(files[..k - 1], files[k - 1], p);
      }
    }
  }

  /** Installing the file again over the result changes nothing. */
  ghost predicate Settled(r: Progress, f: SourceFile) {
    Relative(f.path).Some? &&
    var p := Relative(f.path).value;
    && p in r.tree && r.tree[p].Regular?
    && (MayWrite(r.next, r.tree, p) ==> r.tree[p] == Regular(f.content) && p in r.next && r.next[p] == f.content)
  }

  lemma AgainOne(r: Progress, a: Progress, f: SourceFile)
    requires Settled(r, f) && WellFormed(r.tree) && a.tree == r.tree
    ensures var p := Relative(f.path).value;
      InstallOne(r.next, a, f) == Some(Progress(r.tree, if p in r.next then a.next[p := r.next[p]] else a.next))
  {
    hide Relative, Under;
    var p := Relative(f.path).value;
    assert !Blocked(r.tree, p);
    if MayWrite(r.next, r.tree, p) {
      assert r.tree[p := Regular(f.content)] == r.tree;
    }
  }

  lemma {:induction false} WalkWellFormed(was: Manifest, t: Tree, files: seq<SourceFile>)
    requires WellFormed(t) && InstallAll(was, t, files).Some?
    ensures WellFormed(InstallAll(was, t, files).value.tree)
  {
    hide Relative, Under, MayWrite;
    if files != [] {
      WalkWellFormed(was, t, files[..|files| - 1]);
      var s := InstallAll(was, t, files[..|files| - 1]).value;
      assert WellFormed(s.tree);
      NotUnderItself(Relative(files[|files| - 1].path).value);
    }
  }

  lemma NotUnderItself(p: string)
    ensures !Under(p, p)
  {
  }

  lemma InstalledSettles(was: Manifest, t: Tree, r: Progress, tree: Tree, f: SourceFile)
    requires InstalledAt(was, t, r, f)
    requires var p := Relative(f.path).value; p in tree && tree[p] == r.tree[p]
    ensures Settled(Progress(tree, r.next), f)
  {
    hide Relative;
  }

  /** Whatever the manifest held, nothing that ships is left out of the next one for having
      been in the old one. */
  lemma KeysShip(was: Manifest, t: Tree, files: seq<SourceFile>, r: Progress, p: string)
    requires WalkOk(was, t, files, r)
    ensures p in r.next ==> Ships(files, p)
    ensures Ships(files, p) && p in was ==> p in r.next
    ensures Ships(files, p) ==> p in r.tree
    ensures Ships(files, p) && p !in t ==> p in r.next
  {
    hide Relative, ContentFor;
    if Ships(files, p) {
      var i :| 0 <= i < |files| && Relative(files[i].path) == Some(p);
      assert InstalledAt(was, t, r, files[i]);
    }
  }

  /** A second walk has nothing to retire. */
  lemma SecondRetiresNothing(was: Manifest, t: Tree, t1: Tree, files: seq<SourceFile>, r: Progress, r2: Progress)
    requires WalkOk(was, t, files, r) && WalkOk(r.next, t1, files, r2)
    ensures AfterRetiring(r.next, r2.next, r2.tree) == r2.tree
  {
    hide WalkOk, Relative, Ships;
    forall p
      ensures !Retired(r.next, r2.next, r2.tree, p)
    {
      if Retired(r.next, r2.next, r2.tree, p) {
        var key :| Retires(r.next, r2.next, r2.tree, key, p);
        KeysShip(was, t, files, r, key);
        KeysShip(r.next, t1, files, r2, key);
      }
    }
  }

  lemma AllSettle(was: Manifest, t: Tree, files: seq<SourceFile>)
    requires WellFormed(t) && Unaliased(files) && InstallAll(was, t, files).Some?
    requires !AliasHits(was, InstallAll(was, t, files).value, files)
    ensures var r := Outcome(was, t, files).value;
      WellFormed(r.tree) && forall i :: 0 <= i < |files| ==> Settled(r, files[i])
  {
    var walk, r := InstallAll(was, t, files).value, Outcome(was, t, files).value;
    WalkPointwise(was, t, files);
    WalkWellFormed(was, t, files);
    hide Relative, InstallAll, MayWrite, ContentFor, Under, Settled;
    assert WellFormed(r.tree);
    hide WellFormed;
    forall i | 0 <= i < |files|
      ensures Settled(r, files[i])
    {
      assert InstalledAt(was, t, walk, files[i]);
      var p := Relative(files[i].path).value;
      assert Ships(files, p);
      assert !Retired(was, walk.next, walk.tree, p);
      InstalledSettles(was, t, walk, r.tree, files[i]);
    }
  }

  /** Walking the source again over the result changes nothing. */
  lemma SecondWalk(was: Manifest, t: Tree, files: seq<SourceFile>, r: Progress)
    requires Unaliased(files) && WellFormed(r.tree) && forall i :: 0 <= i < |files| ==> Settled(r, files[i])
    requires forall p :: p in r.next ==> Ships(files, p)
    ensures InstallAll(r.next, r.tree, files) == Some(r)
  {
    hide *;
    AgainSame(was, r, files, |files|);
    assert files[..|files|] == files;
    SameManifest(InstallAll(r.next, r.tree, files).value.next, r.next);
  }

  lemma SameManifest(a: Manifest, b: Manifest)
    requires forall p :: (p in a <==> p in b) && (p in a ==> a[p] == b[p])
    ensures a == b
  {
  }

  lemma NoHitConverges(was: Manifest, t: Tree, files: seq<SourceFile>)
    requires WellFormed(t) && Unaliased(files) && InstallAll(was, t, files).Some?
    requires !AliasHits(was, InstallAll(was, t, files).value, files)
    ensures Outcome(Outcome(was, t, files).value.next, Outcome(was, t, files).value.tree, files) == Outcome(was, t, files)
  {
    var walk, r := InstallAll(was, t, files).value, Outcome(was, t, files).value;
    WalkPointwise(was, t, files);
    AllSettle(was, t, files);
    hide Relative, InstallAll, Settled, Retired, AliasHits, WellFormed, Unaliased, WalkOk, AfterRetiring, Ships;
    forall p | p in r.next
      ensures Ships(files, p)
    {
      KeysShip(was, t, files, walk, p);
    }
    SecondWalk(was, t, files, r);
    WalkPointwise(r.next, r.tree, files);
    SecondRetiresNothing(was, t, r.tree, files, walk, r);
  }

  lemma HitDiverges(was: Manifest, t: Tree, files: seq<SourceFile>)
    requires Unaliased(files) && InstallAll(was, t, files).Some?
    requires AliasHits(was, InstallAll(was, t, files).value, files)
    ensures Outcome(Outcome(was, t, files).value.next, Outcome(was, t, files).value.tree, files) != Outcome(was, t, files)
  {
    var walk, r := InstallAll(was, t, files).value, Outcome(was, t, files).value;
    WalkPointwise(was, t, files);
    hide InstallAll, Relative, WalkOk;
    var p :| Ships(files, p) && Retired(was, walk.next, walk.tree, p);
    assert p !in r.tree;
    hide Ships, Retired;
    var again := InstallAll(r.next, r.tree, files);
    if again.Some? {
      WalkPointwise(r.next, r.tree, files);
      SecondRetiresNothing(was, t, r.tree, files, walk, again.value);
      KeysShip(r.next, r.tree, files, again.value, p);
      assert p in Outcome(r.next, r.tree, files).value.tree;
    }
  }

  /** Installing twice is installing once exactly when no key of the manifest is another
      spelling of a shipped path with the digest of what the install leaves there; in
      particular when every key is a clean path or none. */
  lemma InstallConverges(was: Manifest, t: Tree, files: seq<SourceFile>)
    requires WellFormed(t) && Unaliased(files) && Outcome(was, t, files).Some?
    ensures Outcome(Outcome(was, t, files).value.next, Outcome(was, t, files).value.tree, files) == Outcome(was, t, files)
            <==> !AliasOnRecord(was, t, files)
    ensures (forall key :: key in was ==> Relative(key) == None || Relative(key) == Some(key)) ==> !AliasOnRecord(was, t, files)
  {
    AliasDecides(was, t, files);
    hide InstallAll, Relative, WellFormed, Unaliased, Ships, AliasHits, ContentFor;
    if AliasOnRecord(was, t, files) {
      HitDiverges(was, t, files);
      var key, i :| AliasAt(was, t, files, key, i);
    } else {
      NoHitConverges(was, t, files);
    }
  }

  // ---------------------------------------------------- after an install that stopped

  /** What was written before the stop is the configuration or has the digest on record. */
  ghost predicate Repairable(was: Manifest, t: Tree, files: seq<SourceFile>, k: nat)
    requires k <= |files|
  {
    forall i :: 0 <= i < k && Relative(files[i].path).Some? ==> WrittenOnRecord(was, t, files[i], Relative(files[i].path).value)
  }

  predicate WrittenOnRecord(was: Manifest, t: Tree, f: SourceFile, p: string) {
    MayWrite(was, t, p) ==> p == CONFIG || (p in was && was[p] == f.content)
  }

  /** What lies at a path after the stop. */
  ghost predicate LeftAt(was: Manifest, t: Tree, files: seq<SourceFile>, k: nat, left: Tree, p: string)
    requires k <= |files|
  {
    && (forall i :: 0 <= i < k && Relative(files[i].path) == Some(p) ==> p in left && left[p] == ContentFor(was, t, files[i], p))
    && (!Ships(files[..k], p) && Ships(files, p) ==> (p in left <==> p in t) && (p in left ==> left[p] == t[p]))
    && (!Ships(files, p) ==> (p in left ==> p in t && left[p] == t[p]))
  }

  lemma ShipsPrefix(files: seq<SourceFile>, k: nat, p: string)
    requires k <= |files|
    ensures Ships(files[..k], p) ==> Ships(files, p)
  {
    hide Relative;
    if Ships(files[..k], p) {
      var i :| 0 <= i < k && Relative(files[..k][i].path) == Some(p);
      assert files[i] == files[..k][i];
    }
  }

  /** What is left lies in the tree of the walk up to the stop; only retired files are missing,
      and only after the whole walk. */
  ghost predicate LeftOver(was: Manifest, all: Progress, walk: Progress, whole: bool, left: Tree) {
    && (forall p :: p in left ==> p in walk.tree && walk.tree[p] == left[p])
    && (forall p :: p in walk.tree && p !in left ==> whole && walk == all && Retired(was, all.next, all.tree, p))
  }

  lemma StoppedLeaves(was: Manifest, t: Tree, files: seq<SourceFile>, k: nat, left: Tree)
    requires InstallAll(was, t, files).Some? && Stopped(was, t, files, k, left)
    ensures LeftOver(was, InstallAll(was, t, files).value, InstallAll(was, t, files[..k]).value, k == |files|, left)
  {
    assert files[..|files|] == files;
    hide InstallAll, Retired;
  }

  /** A shipped file is not taken away, when no key of the manifest is another spelling of it. */
  lemma LeftOfWalk(was: Manifest, t: Tree, files: seq<SourceFile>, k: nat, left: Tree, p: string)
    requires Unaliased(files) && InstallAll(was, t, files).Some? && Stopped(was, t, files, k, left)
    requires !AliasHits(was, InstallAll(was, t, files).value, files)
    ensures LeftAt(was, t, files, k, left, p)
    ensures p in t && p !in left ==>
      !Ships(files, p) && Retired(was, InstallAll(was, t, files).value.next, InstallAll(was, t, files).value.tree, p)
  {
    var walk, all := InstallAll(was, t, files[..k]).value, InstallAll(was, t, files).value;
    UnaliasedPrefix(files, k);
    WalkPointwise(was, t, files[..k]);
    StoppedLeaves(was, t, files, k, left);
    ShipsPrefix(files, k, p);
    hide *;
    LeftAtPath(was, t, files, k, left, walk, all, p);
  }

  lemma LeftAtPath(was: Manifest, t: Tree, files: seq<SourceFile>, k: nat, left: Tree, walk: Progress, all: Progress, p: string)
    requires k <= |files| && WalkOk(was, t, files[..k], walk) && LeftOver(was, all, walk, k == |files|, left)
    requires !AliasHits(was, all, files) && (Ships(files[..k], p) ==> Ships(files, p))
    ensures LeftAt(was, t, files, k, left, p)
    ensures p in t && p !in left ==> !Ships(files, p) && Retired(was, all.next, all.tree, p)
  {
    hide Relative, InstalledAt, ContentFor, Ships, Retired;
    assert Ships(files, p) ==> !Retired(was, all.next, all.tree, p);
    forall i | 0 <= i < k && Relative(files[i].path) == Some(p)
      ensures p in left && left[p] == ContentFor(was, t, files[i], p)
    {
      assert files[..k][i] == files[i];
      ShipsAt(files, i, p);
      FileInstalled(was, t, files[..k], walk, i);
      InstalledSays(was, t, walk, files[i], p);
    }
    if Ships(files[..k], p) && p !in left {
      KeysShip(was, t, files[..k], walk, p);
      assert false;
    }
  }

  lemma ShipsAt(files: seq<SourceFile>, i: nat, p: string)
    requires i < |files| && Relative(files[i].path) == Some(p)
    ensures Ships(files, p)
  {
    hide Relative;
  }

  lemma InstalledSays(was: Manifest, t: Tree, r: Progress, f: SourceFile, p: string)
    requires InstalledAt(was, t, r, f) && Relative(f.path) == Some(p)
    ensures p in r.tree && r.tree[p] == ContentFor(was, t, f, p) && r.tree[p].Regular? && (p in t ==> t[p].Regular?)
    ensures p in r.next <==> MayWrite(was, t, p) || p in was
    ensures p in r.next ==> r.next[p] == if MayWrite(was, t, p) then f.content else was[p]
  {
    hide Relative, MayWrite, ContentFor;
  }

  /** Starting again over what is left, a file is written or preserved with the same content. */
  lemma AgainAt(was: Manifest, t: Tree, left: Tree, f: SourceFile, p: string, done: bool)
    requires done ==> p in left && left[p] == ContentFor(was, t, f, p)
    requires !done ==> (p in left <==> p in t) && (p in left ==> left[p] == t[p])
    ensures ContentFor(was, left, f, p) == ContentFor(was, t, f, p)
    ensures p !in was && p != CONFIG && done && MayWrite(was, t, p) ==> !MayWrite(was, left, p)
    ensures p in was ==>
      ((if MayWrite(was, left, p) then f.content else was[p]) == (if MayWrite(was, t, p) then f.content else was[p])
       <==> (done ==> WrittenOnRecord(was, t, f, p)))
    ensures p !in was ==> ((MayWrite(was, left, p) <==> MayWrite(was, t, p)) <==> (done ==> WrittenOnRecord(was, t, f, p)))
  {
  }

  /** Everything that a second walk finds on its way lies where the first one leaves a file. */
  lemma {:induction false} AgainGoes(was: Manifest, t: Tree, files: seq<SourceFile>, k: nat, left: Tree, n: nat)
    requires WellFormed(t) && Unaliased(files) && InstallAll(was, t, files).Some? && Stopped(was, t, files, k, left)
    requires !AliasHits(was, InstallAll(was, t, files).value, files) && n <= |files|
    ensures InstallAll(was, left, files[..n]).Some?
  {
    if n > 0 {
      AgainGoes(was, t, files, k, left, n - 1);
      assert files[..n][..n - 1] == files[..n - 1];
      AgainFinds(was, t, files, k, left, n - 1);
    }
  }

  lemma AgainFinds(was: Manifest, t: Tree, files: seq<SourceFile>, k: nat, left: Tree, n: nat)
    requires WellFormed(t) && Unaliased(files) && InstallAll(was, t, files).Some? && Stopped(was, t, files, k, left)
    requires !AliasHits(was, InstallAll(was, t, files).value, files) && n < |files| && InstallAll(was, left, files[..n]).Some?
    ensures InstallOne(was, InstallAll(was, left, files[..n]).value, files[n]).Some?
  {
    var all, s := InstallAll(was, t, files).value, InstallAll(was, left, files[..n]).value;
    WalkPointwise(was, t, files);
    WalkWellFormed(was, t, files);
    UnaliasedPrefix(files, n);
    WalkPointwise(was, left, files[..n]);
    FileInstalled(was, t, files, all, n);
    assert Relative(files[n].path).Some?;
    var p := Relative(files[n].path).value;
    assert p in all.tree;
    LeftOfWalk(was, t, files, k, left, p);
    NotShippedYet(files, n);
    FoundRegular(was, t, files, k, left, all, n, p);
    forall q | q in s.tree
      ensures q in all.tree
    {
      LeftOfWalk(was, t, files, k, left, q);
      ShipsPrefix(files, n, q);
      KeysShip(was, t, files, all, q);
      hide *;
      NothingMissed(was, t, files, k, left, all, q);
      FromShippedOrLeft(was, left, files[..n], s, q);
    }
    hide *;
    assert s.tree.Keys <= all.tree.Keys;
    FromShippedOrLeft(was, left, files[..n], s, p);
    GoesThere(was, s, files[n], p, all.tree);
  }

  lemma FromShippedOrLeft(was: Manifest, left: Tree, files: seq<SourceFile>, s: Progress, q: string)
    requires WalkOk(was, left, files, s)
    ensures q in s.tree && !Ships(files, q) ==> q in left && s.tree[q] == left[q]
  {
    hide InstalledAt, Ships;
  }

  lemma GoesThere(was: Manifest, s: Progress, f: SourceFile, p: string, all: Tree)
    requires Relative(f.path) == Some(p) && WellFormed(all) && s.tree.Keys <= all.Keys && p in all
    requires p in s.tree ==> s.tree[p].Regular?
    ensures InstallOne(was, s, f).Some?
  {
    hide Relative, Under, MayWrite;
  }

  lemma NothingMissed(was: Manifest, t: Tree, files: seq<SourceFile>, k: nat, left: Tree, all: Progress, q: string)
    requires k <= |files| && LeftAt(was, t, files, k, left, q) && WalkOk(was, t, files, all)
    ensures !Ships(files, q) && q in left ==> q in all.tree
  {
    hide Relative, InstalledAt, Ships, ContentFor;
  }

  lemma FoundRegular(was: Manifest, t: Tree, files: seq<SourceFile>, k: nat, left: Tree, all: Progress, n: nat, p: string)
    requires k <= |files| && n < |files| && LeftAt(was, t, files, k, left, p) && Relative(files[n].path) == Some(p)
    requires InstalledAt(was, t, all, files[n]) && Unaliased(files)
    ensures p in left ==> left[p].Regular?
  {
    hide Relative, MayWrite;
    if n >= k {
      forall i | 0 <= i < k
        ensures Relative(files[..k][i].path) != Some(p)
      {
        assert files[..k][i] == files[i];
      }
      assert !Ships(files[..k], p);
      ShipsAt(files, n, p);
    }
  }

  lemma NotShippedYet(files: seq<SourceFile>, n: nat)
    requires Unaliased(files) && n < |files| && Relative(files[n].path).Some?
    ensures !Ships(files[..n], Relative(files[n].path).value)
  {
    hide Relative;
    forall i | 0 <= i < n
      ensures Relative(files[..n][i].path) != Relative(files[n].path)
    {
      assert files[..n][i] == files[i];
    }
  }

  lemma NextAgrees(was: Manifest, t: Tree, files: seq<SourceFile>, k: nat, left: Tree, all: Progress, again: Progress, n: nat)
    requires Unaliased(files) && k <= |files| && n < |files|
    requires WalkOk(was, t, files, all) && WalkOk(was, left, files, again)
    requires Relative(files[n].path).Some? && LeftAt(was, t, files, k, left, Relative(files[n].path).value)
    ensures var p := Relative(files[n].path).value;
      && p in again.tree && p in all.tree && again.tree[p] == all.tree[p]
      && ((p in again.next <==> p in all.next) && (p in all.next ==> again.next[p] == all.next[p])
          <==> (n < k ==> WrittenOnRecord(was, t, files[n], p)))
  {
    var p := Relative(files[n].path).value;
    FileInstalled(was, t, files, all, n);
    FileInstalled(was, left, files, again, n);
    InstalledSays(was, t, all, files[n], p);
    InstalledSays(was, left, again, files[n], p);
    if n >= k {
      NotBefore(files, k, n, p);
      ShipsAt(files, n, p);
    }
    AgainAt(was, t, left, files[n], p, n < k);
    hide Relative, MayWrite, ContentFor, Ships, WrittenOnRecord, Unaliased, WalkOk, InstalledAt;
  }

  lemma NotBefore(files: seq<SourceFile>, k: nat, n: nat, p: string)
    requires Unaliased(files) && k <= n < |files| && Relative(files[n].path) == Some(p)
    ensures !Ships(files[..k], p)
  {
    hide Relative;
    forall i | 0 <= i < k
      ensures Relative(files[..k][i].path) != Some(p)
    {
      assert files[..k][i] == files[i];
    }
  }

  /** An install that stopped, started again: it ends with the files of one that did not stop,
      and with its manifest too exactly if all that was written before the stop had the digest
      on record already. What had not is preserved as modified from then on. */
  lemma StoppedInstall(was: Manifest, t: Tree, files: seq<SourceFile>, k: nat, left: Tree)
    requires WellFormed(t) && Unaliased(files) && InstallAll(was, t, files).Some? && !AliasOnRecord(was, t, files)
    requires Stopped(was, t, files, k, left)
    ensures Outcome(was, left, files).Some? && Outcome(was, left, files).value.tree == Outcome(was, t, files).value.tree
    ensures Outcome(was, left, files) == Outcome(was, t, files) <==> Repairable(was, t, files, k)
  {
    AliasDecides(was, t, files);
    AgainGoes(was, t, files, k, left, |files|);
    assert files[..|files|] == files;
    var all, again := InstallAll(was, t, files).value, InstallAll(was, left, files).value;
    WalkPointwise(was, t, files);
    WalkPointwise(was, left, files);
    LeftEverywhere(was, t, files, k, left);
    hide *;
    SameNext(was, t, files, k, left, all, again);
    SameEnd(was, t, files, k, left, all, again);
    hide *;
    OutcomeIs(was, t, files);
    OutcomeIs(was, left, files);
  }

  lemma LeftEverywhere(was: Manifest, t: Tree, files: seq<SourceFile>, k: nat, left: Tree)
    requires Unaliased(files) && InstallAll(was, t, files).Some? && Stopped(was, t, files, k, left)
    requires !AliasHits(was, InstallAll(was, t, files).value, files)
    ensures var all := InstallAll(was, t, files).value;
      forall p :: LeftAt(was, t, files, k, left, p)
        && (p in t && p !in left ==> !Ships(files, p) && Retired(was, all.next, all.tree, p))
  {
    var all := InstallAll(was, t, files).value;
    forall p
      ensures LeftAt(was, t, files, k, left, p)
        && (p in t && p !in left ==> !Ships(files, p) && Retired(was, all.next, all.tree, p))
    {
      LeftOfWalk(was, t, files, k, left, p);
    }
    hide *;
  }

  lemma OutcomeIs(was: Manifest, t: Tree, files: seq<SourceFile>)
    requires InstallAll(was, t, files).Some?
    ensures var r := InstallAll(was, t, files).value;
      Outcome(was, t, files) == Some(Progress(AfterRetiring(was, r.next, r.tree), r.next))
  {
    hide InstallAll, AfterRetiring;
  }

  lemma SameNext(was: Manifest, t: Tree, files: seq<SourceFile>, k: nat, left: Tree, all: Progress, again: Progress)
    requires Unaliased(files) && k <= |files| && WalkOk(was, t, files, all) && WalkOk(was, left, files, again)
    requires forall p :: LeftAt(was, t, files, k, left, p)
    ensures again.next == all.next <==> Repairable(was, t, files, k)
  {
    forall n | 0 <= n < |files|
      ensures Relative(files[n].path).Some?
    {
      FileInstalled(was, t, files, all, n);
    }
    forall n | 0 <= n < |files|
      ensures var p := Relative(files[n].path).value;
        (p in again.next <==> p in all.next) && (p in all.next ==> again.next[p] == all.next[p])
        <==> (n < k ==> WrittenOnRecord(was, t, files[n], p))
    {
      NextAgrees(was, t, files, k, left, all, again, n);
    }
    hide WrittenOnRecord, LeftAt, Unaliased, InstalledAt, ContentFor, Relative;
    assert Repairable(was, t, files, k) ==> again.next == all.next by {
      if Repairable(was, t, files, k) {
        forall p
          ensures (p in again.next <==> p in all.next) && (p in all.next ==> again.next[p] == all.next[p])
        {
          if Ships(files, p) {
            var n :| 0 <= n < |files| && Relative(files[n].path) == Some(p);
            assert n < k ==> WrittenOnRecord(was, t, files[n], p);
          }
        }
        SameManifest(again.next, all.next);
      }
    }
    hide WalkOk, Ships;
    if again.next == all.next {
      forall i | 0 <= i < k
        ensures WrittenOnRecord(was, t, files[i], Relative(files[i].path).value)
      {
        var p := Relative(files[i].path).value;
        assert (p in again.next <==> p in all.next) && (p in all.next ==> again.next[p] == all.next[p]);
      }
    }
  }

  /** After retiring the trees are the same. */
  lemma SameEnd(was: Manifest, t: Tree, files: seq<SourceFile>, k: nat, left: Tree, all: Progress, again: Progress)
    requires Unaliased(files) && k <= |files| && WalkOk(was, t, files, all) && WalkOk(was, left, files, again)
    requires forall p :: LeftAt(was, t, files, k, left, p)
    requires forall p :: p in t && p !in left ==> !Ships(files, p) && Retired(was, all.next, all.tree, p)
    ensures AfterRetiring(was, again.next, again.tree) == AfterRetiring(was, all.next, all.tree)
  {
    var x, y := AfterRetiring(was, again.next, again.tree), AfterRetiring(was, all.next, all.tree);
    forall p
      ensures (p in x <==> p in y) && (p in x ==> x[p] == y[p])
    {
      SameEndAt(was, t, files, k, left, all, again, p);
    }
    hide *;
    SameTree(x, y);
  }

  lemma SameTree(a: Tree, b: Tree)
    requires forall p :: (p in a <==> p in b) && (p in a ==> a[p] == b[p])
    ensures a == b
  {
  }

  lemma SameEndAt(was: Manifest, t: Tree, files: seq<SourceFile>, k: nat, left: Tree, all: Progress, again: Progress, p: string)
    requires Unaliased(files) && k <= |files| && WalkOk(was, t, files, all) && WalkOk(was, left, files, again)
    requires LeftAt(was, t, files, k, left, p)
    requires p in t && p !in left ==> !Ships(files, p) && Retired(was, all.next, all.tree, p)
    ensures var x, y := AfterRetiring(was, again.next, again.tree), AfterRetiring(was, all.next, all.tree);
      (p in x <==> p in y) && (p in x ==> x[p] == y[p])
  {
    if Ships(files, p) {
      var n :| 0 <= n < |files| && Relative(files[n].path) == Some(p);
      NextAgrees(was, t, files, k, left, all, again, n);
    }
    hide Relative, InstalledAt, ContentFor, Ships, Unaliased;
    assert p in again.tree ==> p in all.tree && all.tree[p] == again.tree[p];
    assert p in all.tree && p !in again.tree ==> Retired(was, all.next, all.tree, p);
    if p in again.tree {
      SameRetired(was, t, files, left, all, again, p);
    }
    hide Retired;
  }

  lemma SameRetired(was: Manifest, t: Tree, files: seq<SourceFile>, left: Tree, all: Progress, again: Progress, p: string)
    requires WalkOk(was, t, files, all) && WalkOk(was, left, files, again)
    requires p in again.tree && p in all.tree && all.tree[p] == again.tree[p]
    ensures Retired(was, again.next, again.tree, p) <==> Retired(was, all.next, all.tree, p)
  {
    hide Relative, WalkOk, Ships;
    if key :| Retires(was, again.next, again.tree, key, p) {
      KeysShip(was, t, files, all, key);
      KeysShip(was, left, files, again, key);
      assert Retires(was, all.next, all.tree, key, p);
    }
    if key :| Retires(was, all.next, all.tree, key, p) {
      KeysShip(was, t, files, all, key);
      KeysShip(was, left, files, again, key);
      assert Retires(was, again.next, again.tree, key, p);
    }
  }

  lemma TwoSteps(x: string, y: string)
    requires x != "" && y != "" && x != "." && y != "." && x != ".." && y != ".." && '/' !in x && '/' !in y
    ensures PlainSteps(x + "/" + y)
  {
    var s := x + "/" + y;
    assert s[|x|] == '/' && s[..|x|] == x;
    IndexOfIs(s, '/', |x|);
    assert s[..|x|] == x && s[|x| + 1..] == y;
    assert IndexOf(y, '/') == |y|;
    assert Split(y, '/') == [y];
  }

  /** A manifest whose key spells a shipped path with a backslash: the first install removes
      the file it has just left in place, the second one writes it again. */
  lemma BackslashKeyDiverges()
    ensures exists was: Manifest, t: Tree, files: seq<SourceFile> ::
      && WellFormed(t) && Unaliased(files) && InstallAll(was, t, files).Some?
      && Outcome(Outcome(was, t, files).value.next, Outcome(was, t, files).value.tree, files) != Outcome(was, t, files)
  {
    var key, path := ['a', '\\', 'b'], ['a', '/', 'b'];
    assert key[1..] == ['\\', 'b'] && key[1..][1..] == ['b'] && ['b'][1..] == "";
    assert Slashed(key) == path by {
      assert Slashed(['b']) == ['b'];
      assert Slashed(['\\', 'b']) == ['/', 'b'];
    }
    SlashedOnce(path);
    assert path == ['a'] + "/" + ['b'];
    TwoSteps(['a'], ['b']);
    assert Relative(key) == Some(path) && Relative(path) == Some(path);
    assert key[1] != path[1];
    assert |path| == 3 && |CONFIG| == 13;
    hide Relative, Slashed, PlainSteps;
    OneFileDiverges(key, path);
  }

  lemma OneFileDiverges(key: string, path: string)
    requires Relative(key) == Some(path) && Relative(path) == Some(path) && key != path && path != CONFIG
    ensures exists was: Manifest, t: Tree, files: seq<SourceFile> ::
      && WellFormed(t) && Unaliased(files) && InstallAll(was, t, files).Some?
      && Outcome(Outcome(was, t, files).value.next, Outcome(was, t, files).value.tree, files) != Outcome(was, t, files)
  {
    hide Relative;
    NotUnderItself(path);
    hide Under;
    var was: Manifest, t: Tree, file := map[key := ""], map[path := Regular("")], SourceFile(path, "");
    var files := [file];
    assert files[..0] == [];
    assert InstallAll(was, t, files[..0]) == Some(Progress(t, map[]));
    assert !Blocked(t, path) && !MayWrite(was, t, path);
    assert InstallAll(was, t, files) == Some(Progress(t, map[]));
    assert Ships(files, path);
    assert Retires(was, map[], t, key, path);
    assert AliasHits(was, Progress(t, map[]), files);
    HitDiverges(was, t, files);
  }

  /** An update that stops after its file was written and before the manifest was: the next
      install takes the new file for modified. */
  lemma StoppedUpdateSticks()
    ensures exists was: Manifest, t: Tree, files: seq<SourceFile>, k: nat, left: Tree ::
      && WellFormed(t) && Unaliased(files) && InstallAll(was, t, files).Some? && Stopped(was, t, files, k, left)
      && Outcome(was, left, files) != Outcome(was, t, files)
  {
    var path := ['a'];
    SlashedOnce(path);
    assert IndexOf(path, '/') == 1 && path[..1] == path;
    assert Split(path, '/') == [path];
    assert Relative(path) == Some(path) && |path| == 1 && |CONFIG| == 13;
    hide Relative, Slashed, PlainSteps;
    NotUnderItself(path);
    OneFileSticks(path);
  }

  lemma OneFileSticks(path: string)
    requires Relative(path) == Some(path) && path != CONFIG && !Under(path, path)
    ensures exists was: Manifest, t: Tree, files: seq<SourceFile>, k: nat, left: Tree ::
      && WellFormed(t) && Unaliased(files) && InstallAll(was, t, files).Some? && Stopped(was, t, files, k, left)
      && Outcome(was, left, files) != Outcome(was, t, files)
  {
    hide Relative, Under;
    var was: Manifest, t: Tree, file := map[path := ['1']], map[path := Regular(['1'])], SourceFile(path, ['2']);
    var files, left: Tree := [file], map[path := Regular(['2'])];
    assert files[..0] == [] && files[..1] == files;
    assert InstallAll(was, t, []) == Some(Progress(t, map[])) && InstallAll(was, left, []) == Some(Progress(left, map[]));
    assert !Blocked(t, path) && MayWrite(was, t, path) && !Blocked(left, path) && !MayWrite(was, left, path);
    assert t[path := Regular(['2'])] == left;
    assert InstallAll(was, t, files) == Some(Progress(left, map[path := ['2']]));
    assert InstallAll(was, left, files) == Some(Progress(left, map[path := ['1']]));
    assert Stopped(was, t, files, 1, left) by {
      assert Between(AfterRetiring(was, map[path := ['2']], left), left, left);
    }
    OutcomeIs(was, t, files);
    OutcomeIs(was, left, files);
    hide InstallAll, AfterRetiring, Stopped;
    var a: Manifest, b: Manifest := map[path := ['1']], map[path := ['2']];
    assert a[path] != b[path];
  }
}
