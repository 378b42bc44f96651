/** The installer's safety net: capture the target trees, let an install do anything to
    them, and if it fails put back what was captured and take away what is new. */
module Snapshot {
  import opened Text

  datatype Option<T> = None | Some(value: T)

  type Path = seq<string>

  datatype Kind = Directory | RegularFile | SymbolicLink | Special

  /** Permission bits: the owner's, which decide here, and the others. */
  datatype Mode = Mode(read: bool, write: bool, search: bool, others: nat)

  const PRIVATE := Mode(true, true, true, 0)

  /** A file system node: its inode, permission bits, link count and content (or target). */
  datatype Node = Node(kind: Kind, inode: nat, mode: Mode, links: nat, content: string)

  type Tree = map<Path, Node>

  function Parent(p: Path): Path
    requires p != []
  {
    p[..|p| - 1]
  }

  predicate PlainName(name: string) {
    name != "" && name != "." && name != ".."
  }

  /** Everything has a directory above it and an ordinary name. */
  ghost predicate WellFormed(t: Tree) {
    && [] in t && t[[]].kind == Directory
    && forall p :: p in t && p != [] ==> Parent(p) in t && t[Parent(p)].kind == Directory && PlainName(p[|p| - 1])
  }

  predicate Within(p: Path, root: Path) {
    |root| <= |p| && p[..|root|] == root
  }

  predicate Below(p: Path, root: Path) {
    |root| < |p| && p[..|root|] == root
  }

  lemma {:induction false} AncestorsExist(t: Tree, p: Path, k: nat)
    requires WellFormed(t) && p in t && k < |p|
    ensures p[..k] in t && t[p[..k]].kind == Directory
    decreases |p| - k
  {
    if k + 1 < |p| {
      AncestorsExist(t, p, k + 1);
      assert Parent(p[..k + 1]) == p[..k];
    } else {
      assert p[..k] == Parent(p);
    }
  }

  // ------------------------------------------------------------------- capture

  /** One captured path; `before` is None for a root that did not exist. */
  datatype Entry = Entry(path: Path, before: Option<Node>)

  const CODE_CACHE: Path := ["EBWebView", "Default", "Code Cache"]

  predicate Skipped(p: Path, root: Path, opencode: Path)
    requires Within(p, root)
  {
    root == opencode && Within(p[|root|..], CODE_CACHE)
  }

  predicate InScope(p: Path, roots: seq<Path>, opencode: Path) {
    exists i :: 0 <= i < |roots| && Within(p, roots[i]) && !Skipped(p, roots[i], opencode)
  }

  /** No root lies inside another one, none is the top, and their own names hold no backslash. */
  predicate RootsOk(roots: seq<Path>) {
    && (forall i :: 0 <= i < |roots| ==> roots[i] != [] && '\\' !in roots[i][|roots[i]| - 1])
    && (forall i, j :: 0 <= i < |roots| && 0 <= j < |roots| && i != j ==> !Within(roots[i], roots[j]))
  }

  /** The entries are the nodes in scope, once each, and the roots that are missing. */
  ghost predicate Captures(t: Tree, roots: seq<Path>, opencode: Path, entries: seq<Entry>) {
    && (forall e :: e in entries ==>
          if e.before.Some? then e.path in t && t[e.path] == e.before.value && InScope(e.path, roots, opencode)
          else e.path in roots && e.path !in t)
    && (forall p :: p in t && InScope(p, roots, opencode) ==> Entry(p, Some(t[p])) in entries)
    && (forall i :: 0 <= i < |roots| && roots[i] !in t ==> Entry(roots[i], None) in entries)
    && (forall i, j :: 0 <= i < j < |entries| ==> entries[i].path != entries[j].path)
  }

  lemma SkippedBelow(p: Path, q: Path, root: Path, opencode: Path)
    requires Within(p, root) && Within(q, p)
    ensures Within(q, root) && (Skipped(p, root, opencode) ==> Skipped(q, root, opencode))
  {
    assert q[..|root|] == p[..|root|];
    if Skipped(p, root, opencode) {
      var n := |CODE_CACHE|;
      assert q[|root|..][..n] == q[|root|..|root| + n] == p[|root|..|root| + n] == p[|root|..][..n];
    }
  }

  lemma BothAbove(p: Path, a: Path, b: Path)
    requires Within(p, a) && Within(p, b) && |a| <= |b|
    ensures Within(b, a)
  {
    assert b[..|a|] == p[..|b|][..|a|] == p[..|a|];
  }

  lemma OneRoot(roots: seq<Path>, p: Path, i: nat, j: nat)
    requires RootsOk(roots) && i < |roots| && j < |roots| && Within(p, roots[i]) && Within(p, roots[j])
    ensures i == j
  {
    if |roots[i]| <= |roots[j]| {
      BothAbove(p, roots[i], roots[j]);
    } else {
      BothAbove(p, roots[j], roots[i]);
    }
  }

  /** What lies at or below a root is captured, except the code cache of the configuration. */
  lemma ScopeSays(roots: seq<Path>, opencode: Path, i: nat, rest: Path)
    requires RootsOk(roots) && i < |roots|
    ensures InScope(roots[i] + rest, roots, opencode) <==>
      !(roots[i] == opencode && |rest| >= 3 && rest[0] == "EBWebView" && rest[1] == "Default" && rest[2] == "Code Cache")
  {
    var p := roots[i] + rest;
    assert p[..|roots[i]|] == roots[i] && p[|roots[i]|..] == rest;
    if |rest| >= 3 {
      assert rest[..3] == [rest[0], rest[1], rest[2]];
    }
    if InScope(p, roots, opencode) {
      var j :| 0 <= j < |roots| && Within(p, roots[j]) && !Skipped(p, roots[j], opencode);
      OneRoot(roots, p, i, j);
    }
  }

  lemma EntryAbove(t: Tree, roots: seq<Path>, opencode: Path, entries: seq<Entry>, e: Entry, root: Path, k: nat)
    requires WellFormed(t) && RootsOk(roots) && Captures(t, roots, opencode, entries)
    requires e in entries && e.before.Some? && root in roots && Within(e.path, root) && |root| <= k < |e.path|
    ensures e.path[..k] in t && t[e.path[..k]].kind == Directory && Entry(e.path[..k], Some(t[e.path[..k]])) in entries
  {
    AncestorsExist(t, e.path, k);
    assert InScope(e.path, roots, opencode);
    hide WellFormed, InScope, RootsOk;
    ScopeAbove(roots, opencode, e.path, root, k);
  }

  lemma ScopeAbove(roots: seq<Path>, opencode: Path, q: Path, root: Path, k: nat)
    requires RootsOk(roots) && InScope(q, roots, opencode) && root in roots && Within(q, root) && |root| <= k < |q|
    ensures InScope(q[..k], roots, opencode)
  {
    var i :| 0 <= i < |roots| && Within(q, roots[i]) && !Skipped(q, roots[i], opencode);
    var j :| 0 <= j < |roots| && roots[j] == root;
    OneRoot(roots, q, i, j);
    assert q[..k][..|root|] == q[..|root|];
    SkippedBelow(q[..k], q, root, opencode);
    hide Skipped, RootsOk;
  }

  // ------------------------------------------------------------- what was promised

  ghost predicate Restored(t: Tree, e: Entry) {
    e.before.Some? ==>
      var n := e.before.value;
      && (n.kind == RegularFile ==> e.path in t && t[e.path].kind == RegularFile && t[e.path].content == n.content && t[e.path].mode == n.mode)
      && (n.kind == Directory ==> e.path in t && t[e.path].kind == Directory && t[e.path].mode == n.mode)
      && (n.kind == SymbolicLink ==> e.path in t && t[e.path].kind == SymbolicLink && t[e.path].content == n.content)
  }

  const NODE_MODULES := "node_modules"

  /** Whatever lies directly under the root was captured, or is the dependency directory. */
  ghost predicate NothingNew(t: Tree, root: Path, captured: set<Path>) {
    forall c :: root + [c] in t && c != NODE_MODULES ==> root + [c] in captured
  }

  ghost predicate SameOutside(t: Tree, u: Tree, roots: seq<Path>) {
    forall p :: (forall i :: 0 <= i < |roots| ==> !Within(p, roots[i])) ==> (p in t <==> p in u) && (p in t ==> t[p] == u[p])
  }

  // ---------------------------------------------------------------------- ordering

  predicate ByDepth(entries: seq<Entry>) {
    forall i, j :: 0 <= i < j < |entries| ==> |entries[i].path| <= |entries[j].path|
  }

  function InsertByDepth(e: Entry, sorted: seq<Entry>): seq<Entry> {
    if sorted == [] || |e.path| <= |sorted[0].path| then [e] + sorted
    else [sorted[0]] + InsertByDepth(e, sorted[1..])
  }

  function SortByDepth(entries: seq<Entry>): seq<Entry> {
    if entries == [] then [] else InsertByDepth(entries[0], SortByDepth(entries[1..]))
  }

  lemma {:induction false} InsertSame(e: Entry, sorted: seq<Entry>)
    ensures multiset(InsertByDepth(e, sorted)) == multiset{e} + multiset(sorted)
  {
    if sorted != [] {
      assert sorted == [sorted[0]] + sorted[1..];
      InsertSame(e, sorted[1..]);
    }
  }

  lemma {:induction false} InsertByDepthSound(e: Entry, sorted: seq<Entry>)
    requires ByDepth(sorted)
    ensures ByDepth(InsertByDepth(e, sorted)) && multiset(InsertByDepth(e, sorted)) == multiset{e} + multiset(sorted)
  {
    InsertSame(e, sorted);
    if sorted != [] && |e.path| > |sorted[0].path| {
      var rest := InsertByDepth(e, sorted[1..]);
      InsertByDepthSound(e, sorted[1..]);
      forall j | 0 <= j < |rest|
        ensures |sorted[0].path| <= |rest[j].path|
      {
        assert rest[j] in multiset(rest);
        if rest[j] != e {
          assert rest[j] in sorted[1..];
        }
      }
    }
  }

  predicate DistinctPaths(entries: seq<Entry>) {
    forall i, j :: 0 <= i < j < |entries| ==> entries[i].path != entries[j].path
  }

  lemma {:induction false} InsertDistinct(e: Entry, sorted: seq<Entry>)
    requires DistinctPaths(sorted) && forall x :: x in sorted ==> x.path != e.path
    ensures DistinctPaths(InsertByDepth(e, sorted))
  {
    if sorted != [] && |e.path| > |sorted[0].path| {
      InsertDistinct(e, sorted[1..]);
      InsertSame(e, sorted[1..]);
      var rest := InsertByDepth(e, sorted[1..]);
      forall j | 0 <= j < |rest|
        ensures rest[j].path != sorted[0].path
      {
        assert rest[j] in multiset(rest);
        if rest[j] != e {
          var k :| 0 <= k < |sorted[1..]| && sorted[1..][k] == rest[j];
          assert sorted[k + 1] == rest[j];
        }
      }
    }
  }

  lemma {:induction false} SortDistinct(entries: seq<Entry>)
    requires DistinctPaths(entries)
    ensures DistinctPaths(SortByDepth(entries))
  {
    if entries != [] {
      SortDistinct(entries[1..]);
      SortByDepthSound(entries[1..]);
      forall x | x in SortByDepth(entries[1..])
        ensures x.path != entries[0].path
      {
        assert x in multiset(SortByDepth(entries[1..]));
        var k :| 0 <= k < |entries[1..]| && entries[1..][k] == x;
        assert entries[k + 1] == x;
      }
      InsertDistinct(entries[0], SortByDepth(entries[1..]));
    }
  }

  lemma {:induction false} SortByDepthSound(entries: seq<Entry>)
    ensures ByDepth(SortByDepth(entries)) && multiset(SortByDepth(entries)) == multiset(entries)
  {
    if entries != [] {
      SortByDepthSound(entries[1..]);
      InsertByDepthSound(entries[0], SortByDepth(entries[1..]));
      assert entries == [entries[0]] + entries[1..];
    }
  }

  // ---------------------------------------------------------------- the live tree

  function Beneath(t: Tree, d: Path): set<Path> {
    set p | p in t && Below(p, d)
  }

  /** The captured kind of every path that was there. */
  type Preserved = map<Path, Option<Kind>>

  /** What was captured below a child of `root` was captured with that child as a directory. */
  ghost predicate ClosedAbove(preserved: Preserved, root: Path) {
    forall k, c :: k in preserved && Below(k, root + [c]) ==>
      root + [c] in preserved && preserved[root + [c]] == Some(Directory)
  }

  /** Only paths between `root` and `p` changed: nothing went away, and of what was there
      only `p` itself is different. */
  ghost predicate Grown(t: Tree, u: Tree, root: Path, p: Path) {
    && (forall q :: q in t ==> q in u && (q != p ==> u[q] == t[q]))
    && (forall q :: q in u && q !in t ==> Within(q, root) && Within(p, q))
  }

  ghost predicate MadeOnTheWay(t: Tree, u: Tree, root: Path, p: Path) {
    && (forall q :: q in t ==> q in u && u[q] == t[q])
    && (forall q :: q in u && q !in t ==> Within(q, root) && Within(p, q) && u[q].kind == Directory && u[q].mode == PRIVATE)
  }

  /** What putting things back does in every case, links on the way or not: nothing goes away,
      a directory stays the directory it is, and nothing else becomes one. */
  ghost predicate Kept(t: Tree, u: Tree) {
    forall q :: q in t ==>
      q in u && (t[q].kind == Directory <==> u[q].kind == Directory) && (t[q].kind == Directory ==> u[q].inode == t[q].inode)
  }

  ghost predicate SameBut(t: Tree, u: Tree, root: Path) {
    forall q :: !Within(q, root) ==> (q in t <==> q in u) && (q in t ==> t[q] == u[q])
  }

  /** The same names lead to the same places: only bytes, permission bits and the inodes of
      files may differ, and what was accessible still is. */
  ghost predicate SameShape(t: Tree, u: Tree) {
    t.Keys == u.Keys && forall q :: q in t ==>
      && u[q].kind == t[q].kind && (t[q].kind == SymbolicLink ==> u[q] == t[q])
      && (FileFits(t[q]) ==> FileFits(u[q])) && (t[q].kind == Directory && Open(t[q]) ==> Open(u[q]))
  }

  /** A directory that can be read, searched and written. */
  predicate Open(n: Node) {
    n.mode.read && n.mode.write && n.mode.search
  }

  /** Every directory within `base` is. */
  ghost predicate AllOpen(t: Tree, base: Path) {
    forall q :: q in t && Within(q, base) && t[q].kind == Directory ==> Open(t[q])
  }

  // --------------------------------------------------------------- permissions

  /** A rooted handle goes through a directory by opening it for reading and looking up in it. */
  predicate Passes(t: Tree, d: Path) {
    d in t && t[d].mode.read && t[d].mode.search
  }

  /** Every directory that is there between `here` and `p` lets a handle through. */
  ghost predicate WayOpen(t: Tree, here: Path, p: Path) {
    forall q :: q in t && Within(q, here) && Below(p, q) ==> Passes(t, q)
  }

  /** The directory that is to hold `p` takes new names. */
  predicate Room(t: Tree, p: Path) {
    p != [] && Parent(p) in t && t[Parent(p)].mode.write && t[Parent(p)].mode.search
  }

  lemma WayBelow(t: Tree, here: Path, next: Path, p: Path)
    requires Below(next, here) && Within(p, next) && |next| == |here| + 1
    ensures WayOpen(t, here, p) <==> (here in t ==> Passes(t, here)) && WayOpen(t, next, p)
  {
    assert next[..|next|] == next && here[..|here|] == here && p[..|here|] == next[..|here|];
    forall q | q in t && Within(q, here) && Below(p, q)
      ensures q == here || Within(q, next)
    {
      if |q| > |here| {
        assert q == p[..|q|];
        assert q[..|next|] == p[..|next|];
      } else {
        assert q[..|here|] == q;
      }
    }
    forall q | q in t && Within(q, next) && Below(p, q)
      ensures Within(q, here)
    {
      assert q[..|next|][..|here|] == q[..|here|];
    }
  }

  // -------------------------------------------------------- paths through links

  datatype Found = At(path: Path) | Missing | Bad

  const MAX_LINKS := 8

  predicate Absolute(target: string) {
    target != "" && target[0] == '/'
  }

  /** How a rooted handle on `base` finds its way from the directory `here`: links are followed
      as long as they stay inside, and never more than so many. */
  function Walk(t: Tree, base: Path, here: Path, parts: seq<string>, left: nat): (f: Found)
    requires Within(here, base)
    ensures f.At? ==> Within(f.path, base)
    decreases left, |parts|
  {
    if parts == [] then At(here)
    else if parts[0] == "" || parts[0] == "." then Walk(t, base, here, parts[1..], left)
    else if parts[0] == ".." then
      if here == base || !(here in t && t[here].mode.read) then Bad else
        ParentWithin(here, base);
        Walk(t, base, Parent(here), parts[1..], left)
    else if !Passes(t, here) then Bad
    else
      var next := here + [parts[0]];
      ChildWithin(here, base, parts[0]);
      if next !in t then Missing
      else if t[next].kind == Directory then Walk(t, base, next, parts[1..], left)
      else if t[next].kind == SymbolicLink then
        if left == 0 || Absolute(t[next].content) then Bad
        else Walk(t, base, here, Split(t[next].content, '/') + parts[1..], left - 1)
      else if parts[1..] == [] then At(next) else Bad
  }

  lemma ChildWithin(here: Path, base: Path, name: string)
    requires Within(here, base)
    ensures Within(here + [name], base) && Below(here + [name], base)
  {
    assert (here + [name])[..|base|] == here[..|base|];
  }

  /** No step of the way is a link, and every name is an ordinary one. */
  ghost predicate PlainWay(t: Tree, here: Path, parts: seq<string>) {
    && (forall k :: 0 <= k < |parts| ==> PlainName(parts[k]))
    && (forall k :: 1 <= k <= |parts| ==> !(here + parts[..k] in t && t[here + parts[..k]].kind == SymbolicLink))
  }

  lemma PlainNext(t: Tree, here: Path, parts: seq<string>)
    requires PlainWay(t, here, parts) && parts != []
    ensures PlainName(parts[0]) && !(here + [parts[0]] in t && t[here + [parts[0]]].kind == SymbolicLink)
    ensures PlainWay(t, here + [parts[0]], parts[1..]) && here + [parts[0]] + parts[1..] == here + parts
  {
    assert parts[..1] == [parts[0]];
    forall k | 1 <= k <= |parts[1..]|
      ensures here + [parts[0]] + parts[1..][..k] == here + parts[..k + 1]
    {
      assert parts[..k + 1] == [parts[0]] + parts[1..][..k];
    }
  }

  lemma PlainStays(t: Tree, u: Tree, here: Path, parts: seq<string>)
    requires PlainWay(t, here, parts) && forall q :: q in u && u[q].kind == SymbolicLink ==> q in t && t[q].kind == SymbolicLink
    ensures PlainWay(u, here, parts)
  {
  }

  /** On a plain way the path found is the path written down, if every directory on it lets
      the handle through. */
  lemma {:induction false} PlainWalk(t: Tree, base: Path, here: Path, parts: seq<string>, left: nat)
    requires WellFormed(t) && Within(here, base) && PlainWay(t, here, parts) && parts != [] && here in t
    ensures Walk(t, base, here, parts, left).At? ==>
      Walk(t, base, here, parts, left) == At(here + parts) && here + parts in t && WayOpen(t, here, here + parts)
    ensures here + parts in t && WayOpen(t, here, here + parts) ==> Walk(t, base, here, parts, left) == At(here + parts)
    ensures here + parts in t ==> Walk(t, base, here, parts, left) != Missing
    decreases |parts|
  {
    PlainNext(t, here, parts);
    ChildWithin(here, base, parts[0]);
    var next := here + [parts[0]];
    WayToNext(t, here, parts);
    if here + parts in t && next != here + parts {
      assert (here + parts)[..|next|] == next;
      AncestorsExist(t, here + parts, |next|);
    }
    hide WellFormed, PlainWay, WayOpen;
    if parts[1..] == [] {
      assert parts == [parts[0]];
    } else if next in t && t[next].kind == Directory {
      PlainWalk(t, base, next, parts[1..], left);
    }
  }

  lemma WayToNext(t: Tree, here: Path, parts: seq<string>)
    requires parts != []
    ensures here + [parts[0]] + parts[1..] == here + parts
    ensures WayOpen(t, here, here + parts) <==> (here in t ==> Passes(t, here)) && WayOpen(t, here + [parts[0]], here + parts)
    ensures parts[1..] == [] ==> WayOpen(t, here + [parts[0]], here + parts)
  {
    var next, p := here + [parts[0]], here + parts;
    assert p[..|next|] == next && next[..|here|] == here;
    WayBelow(t, here, next, p);
  }

  /** Everything below `d` can be taken away: whatever holds something is writable and every
      directory can be listed. */
  ghost predicate Emptiable(t: Tree, d: Path) {
    && d in t && t[d].mode.read
    && forall p :: p in t && Below(p, d) ==> Room(t, p) && (t[p].kind == Directory ==> t[p].mode.read)
  }

  ghost predicate ChildEmpties(t: Tree, p: Path) {
    p in t ==> Room(t, p) && (t[p].kind == Directory ==> Emptiable(t, p))
  }

  /** Removing new things can do with the child `c` of `base` what it has to: empty it if it
      is a directory that was not captured as one, and take it away if it was not captured. */
  ghost predicate ChildClears(t: Tree, kinds: Preserved, base: Path, c: string)
    requires base in t
  {
    var p := base + [c];
    p in t && c != NODE_MODULES ==>
      && (t[p].kind == Directory && !(p in kinds && kinds[p] == Some(Directory)) ==> t[base].mode.search && Emptiable(t, p))
      && (p !in kinds ==> Room(t, p))
  }

  ghost predicate Clears(t: Tree, kinds: Preserved, base: Path) {
    base in t && t[base].mode.read && forall c :: ChildClears(t, kinds, base, c)
  }

  /** The same for any directory on the way down. */
  ghost predicate ClearsFrom(t: Tree, kinds: Preserved, base: Path, dir: Path) {
    if dir == [] then Clears(t, kinds, base) else Emptiable(t, base + dir)
  }

  ghost predicate ChildClearsFrom(t: Tree, kinds: Preserved, base: Path, dir: Path, c: string)
    requires base + dir in t
  {
    if dir == [] then assert base + dir == base; ChildClears(t, kinds, base, c) else ChildEmpties(t, base + dir + [c])
  }

  lemma ClearsByChild(t: Tree, kinds: Preserved, base: Path, dir: Path)
    requires WellFormed(t) && base + dir in t
    ensures ClearsFrom(t, kinds, base, dir) <==> t[base + dir].mode.read && forall c :: ChildClearsFrom(t, kinds, base, dir, c)
  {
    assert dir == [] ==> base + dir == base;
    if dir != [] {
      EmptiableByChild(t, base + dir);
    }
    hide WellFormed, Emptiable, ChildClears, ChildEmpties;
    forall c
      ensures ChildClearsFrom(t, kinds, base, dir, c) ==
        if dir == [] then ChildClears(t, kinds, base, c) else ChildEmpties(t, base + dir + [c])
    {
    }
    hide ChildClearsFrom;
  }

  lemma EmptiableByChild(t: Tree, d: Path)
    requires WellFormed(t) && d in t
    ensures Emptiable(t, d) <==> t[d].mode.read && forall c :: ChildEmpties(t, d + [c])
  {
    hide WellFormed, Room;
    if Emptiable(t, d) {
      forall c
        ensures ChildEmpties(t, d + [c])
      {
        ChildrenApart(d, c);
        assert Below(d + [c], d) by {
          assert (d + [c])[..|d|] == d;
        }
      }
    }
    if t[d].mode.read && forall c :: ChildEmpties(t, d + [c]) {
      forall p | p in t && Below(p, d)
        ensures Room(t, p) && (t[p].kind == Directory ==> t[p].mode.read)
      {
        var c := FirstStep(t, p, d);
        assert ChildEmpties(t, d + [c]);
        if p != d + [c] {
          assert Below(p, d + [c]);
          AncestorsExist(t, p, |d| + 1);
          assert p[..|d| + 1] == d + [c];
        }
      }
    }
  }

  lemma ChildSame(t: Tree, u: Tree, kinds: Preserved, base: Path, dir: Path, c: string)
    requires base + dir in t && base + dir in u && forall p :: p in u ==> p in t && u[p] == t[p]
    requires forall p :: p in t && Within(p, base + dir + [c]) ==> p in u
    ensures ChildClearsFrom(t, kinds, base, dir, c) <==> ChildClearsFrom(u, kinds, base, dir, c)
  {
    var d := base + dir;
    var q := d + [c];
    assert Parent(q) == d && q[..|q|] == q;
    assert dir == [] ==> d == base;
    forall p | p in t && Below(p, q)
      ensures p in u && Room(t, p) == Room(u, p)
    {
      ParentWithin(p, q);
    }
    assert Emptiable(t, q) <==> Emptiable(u, q);
  }

  /** What removing new things below `base` must not touch: the dependency directory, what
      was captured as a directory with all that is in it, and what was captured at all. */
  ghost predicate Spared(preserved: Preserved, base: Path, p: Path) {
    Below(p, base) &&
    var child := base + [p[|base|]];
    || p[|base|] == NODE_MODULES
    || (child in preserved && (p == child || preserved[child] == Some(Directory)))
  }

  /** The directory that is to hold `p` is there. */
  ghost predicate Ready(t: Tree, root: Path, p: Path) {
    p == root || (p != [] && Parent(p) in t && t[Parent(p)].kind == Directory)
  }

  predicate KeptWhole(t: Tree, preserved: Preserved, child: Path) {
    child in preserved && preserved[child] == Some(Directory) && child in t && t[child].kind == Directory
  }

  lemma SparedStays(t: Tree, u: Tree, preserved: Preserved, base: Path, c: string)
    requires WellFormed(t) && base + [c] in t
    requires forall p :: p in t && !Within(p, base + [c]) ==> p in u
    requires base + [c] in preserved ==> base + [c] in u
    requires c == NODE_MODULES || KeptWhole(t, preserved, base + [c]) ==> u == t
    ensures forall p :: p in t && Spared(preserved, base, p) ==> p in u
  {
    hide WellFormed;
    forall p | p in t && Spared(preserved, base, p) && Within(p, base + [c])
      ensures p in u
    {
      var child := base + [c];
      assert p[|base|] == child[|base|] == c;
      if p != child && t[child].kind != Directory {
        NothingBeneathFile(t, child);
        assert p in Beneath(t, child);
      }
    }
  }

  /** What now lies at `p` lets the captured node be put back, without a link in the way. */
  predicate Replaceable(t: Tree, p: Path, n: Node) {
    match n.kind
    case Directory => p in t ==> t[p].kind == Directory && t[p].mode.read
    case RegularFile => p in t ==> FileFits(t[p])
    case SymbolicLink => p !in t
    case Special => true
  }

  /** A file with one name that can be read. */
  predicate FileFits(n: Node) {
    n.kind == RegularFile && n.links == 1 && n.mode.read
  }

  /** Putting the captured node back makes a new name. */
  predicate Makes(t: Tree, p: Path, n: Node) {
    n.kind == RegularFile || n.kind == SymbolicLink || (n.kind == Directory && p !in t)
  }

  /** A link or a special file lies where a captured file was. Putting the file back opens it,
      and asks what it leads to at that time. */
  predicate OddForFile(t: Tree, p: Path, n: Node) {
    n.kind == RegularFile && p in t && t[p].kind in {SymbolicLink, Special}
  }

  ghost predicate SameAt(t: Tree, u: Tree, p: Path) {
    (p in t <==> p in u) && (p in t ==> t[p] == u[p])
  }

  /** The entry can be put back; `room` are the places whose directory takes new names. */
  predicate Fits(room: set<Path>, t: Tree, e: Entry) {
    e.before.Some? ==>
      Replaceable(t, e.path, e.before.value) && (Makes(t, e.path, e.before.value) ==> e.path in room)
  }

  /** As above, or a link or a special file lies in a file's place. */
  predicate FitsOrOdd(room: set<Path>, t: Tree, e: Entry) {
    e.before.Some? ==>
      && (Replaceable(t, e.path, e.before.value) || OddForFile(t, e.path, e.before.value))
      && (Makes(t, e.path, e.before.value) ==> e.path in room)
  }

  /** The entry can be put back, and so can all that was captured above it. */
  ghost predicate FitsWithin(room: set<Path>, t: Tree, entries: seq<Entry>, e: Entry) {
    Fits(room, t, e) && forall a :: a in entries && Below(e.path, a.path) ==> Fits(room, t, a)
  }

  lemma MissingFits(room: set<Path>, t: Tree, e: Entry)
    ensures e.before.None? ==> Fits(room, t, e) && FitsOrOdd(room, t, e)
  {
  }

  lemma EntryFits(room: set<Path>, t: Tree, u: Tree, e: Entry)
    requires SameAt(t, u, e.path)
    ensures (Fits(room, t, e) <==> Fits(room, u, e)) && (FitsOrOdd(room, t, e) <==> FitsOrOdd(room, u, e))
  {
  }

  lemma SamePlaces(t: Tree, sorted: seq<Entry>)
    ensures forall j :: 0 <= j < |sorted| ==> SameAt(t, t, sorted[j].path)
  {
  }

  lemma NotAbove(p: Path, q: Path)
    requires p != q && |p| <= |q|
    ensures !Within(p, q)
  {
    assert |q| <= |p| ==> p[..|q|] == p;
  }

  /** Putting an entry back changes nothing at the places of the later ones. */
  lemma LaterSame(start: Tree, t: Tree, u: Tree, root: Path, sorted: seq<Entry>, i: nat)
    requires i < |sorted| && Grown(t, u, root, sorted[i].path) && ByDepth(sorted) && DistinctPaths(sorted)
    requires forall j :: i <= j < |sorted| ==> SameAt(start, t, sorted[j].path)
    ensures forall j :: i < j < |sorted| ==> SameAt(start, u, sorted[j].path)
  {
    forall j | i < j < |sorted|
      ensures SameAt(start, u, sorted[j].path)
    {
      var p, q := sorted[i].path, sorted[j].path;
      assert SameAt(start, t, q) && p != q && |p| <= |q|;
      NotAbove(p, q);
    }
  }

  lemma SamePlace(t: Tree, u: Tree, p: Path, n: Node)
    requires (p in t <==> p in u) && (p in t ==> t[p] == u[p])
    ensures (Replaceable(t, p, n) <==> Replaceable(u, p, n)) && (Makes(t, p, n) <==> Makes(u, p, n))
    ensures OddForFile(t, p, n) <==> OddForFile(u, p, n)
  {
  }

  /** Making directories, in every case. */
  ghost predicate Made(t: Tree, u: Tree, base: Path) {
    && (forall q :: q in t ==> q in u && u[q] == t[q])
    && (forall q :: q in u && q !in t ==> Below(q, base) && u[q].kind == Directory && u[q].mode == PRIVATE)
  }

  ghost predicate EndsAtDirectory(t: Tree, base: Path, here: Path, parts: seq<string>, left: nat)
    requires Within(here, base)
  {
    var f := Walk(t, base, here, parts, left);
    f.At? && f.path in t && t[f.path].kind == Directory
  }

  /** Links or not, the way leads to a file with one name in a directory that is there. */
  ghost predicate FileResolves(t: Tree, root: Path, rel: seq<string>)
    requires Within(root, root) && rel != []
  {
    && EndsAtDirectory(t, root, root, rel[..|rel| - 1], MAX_LINKS)
    && var q := Walk(t, root, root, rel[..|rel| - 1], MAX_LINKS).path + [rel[|rel| - 1]];
    && Walk(t, root, root, rel, MAX_LINKS) == At(q)
    && q in t && FileFits(t[q])
  }

  /** Making directories on a plain way to `p`. */
  ghost predicate MadePlainly(t: Tree, u: Tree, here: Path, p: Path, r: Option<Path>, calm: bool) {
    && MadeOnTheWay(t, u, here, p) && (r.Some? ==> r.value == p && WayOpen(t, here, p) && DirectoryFits(t, p))
    && (calm && Ready(t, here, p) && WayOpen(t, here, p) && DirectoryFits(t, p) ==> r.Some?)
  }

  /** A directory is there, or there is room for it if what is to hold it is there. */
  predicate DirectoryFits(t: Tree, p: Path) {
    if p in t then t[p].kind == Directory else p != [] && Parent(p) in t ==> t[Parent(p)].mode.write
  }

  lemma NothingMade(t: Tree, base: Path, here: Path, parts: seq<string>)
    ensures Made(t, t, base) && MadeOnTheWay(t, t, here, here + parts) && here + [] == here
    ensures WayOpen(t, here, here + [])
  {
  }

  lemma OrdinaryName(t: Tree, here: Path, parts: seq<string>)
    ensures PlainWay(t, here, parts) && parts != [] ==> PlainName(parts[0])
    ensures parts != [] && !PlainName(parts[0]) <==> parts != [] && parts[0] in {"", ".", ".."}
  {
  }

  lemma AncestorIsDirectory(t: Tree, p: Path)
    requires WellFormed(t) && p in t && p != []
    ensures Parent(p) in t && t[Parent(p)].kind == Directory
  {
  }

  lemma MadeMore(t: Tree, mid: Tree, u: Tree, base: Path, here: Path, parts: seq<string>, r: Option<Path>, calm: bool)
    requires parts != [] && here + [parts[0]] !in t && here + [parts[0]] in mid && Within(here, base) && WellFormed(t)
    requires mid == t[here + [parts[0]] := mid[here + [parts[0]]]] && mid[here + [parts[0]]].kind == Directory
    requires Made(mid, u, base)
    requires PlainWay(mid, here + [parts[0]], parts[1..]) ==>
      MadePlainly(mid, u, here + [parts[0]], here + [parts[0]] + parts[1..], r, calm)
    requires Passes(t, here) && t[here].mode.write && mid[here + [parts[0]]].mode == PRIVATE
    ensures Made(t, u, base)
    ensures PlainWay(t, here, parts) ==> MadePlainly(t, u, here, here + parts, r, calm)
  {
    var next := here + [parts[0]];
    ChildWithin(here, base, parts[0]);
    ChildWithin(here, here, parts[0]) by {
      RootItself(t, here, []);
    }
    if PlainWay(t, here, parts) {
      PlainNext(t, here, parts);
      PlainStays(t, mid, next, parts[1..]);
      RootItself(t, next, parts[1..]);
      ChildWithin(here, here, parts[0]);
      hide PlainWay, Made;
      MadeOneMore(t, mid, u, here, next, here + parts, r, calm);
    }
  }

  lemma MadeOneMore(t: Tree, mid: Tree, u: Tree, here: Path, next: Path, p: Path, r: Option<Path>, calm: bool)
    requires WellFormed(t) && next !in t && next in mid && mid == t[next := mid[next]] && mid[next].kind == Directory
    requires Below(next, here) && |next| == |here| + 1 && Within(p, next) && MadePlainly(mid, u, next, p, r, calm)
    requires Passes(t, here) && t[here].mode.write && mid[next].mode == PRIVATE
    ensures MadePlainly(t, u, here, p, r, calm)
  {
    MissingAbove(t, next, p);
    NextWay(t, mid, here, next, p);
    OnTheWayFurther(t, mid, u, here, next, p);
    hide WellFormed, WayOpen, MadeOnTheWay, Below, Within;
  }

  lemma OnTheWayFurther(t: Tree, mid: Tree, u: Tree, here: Path, next: Path, p: Path)
    requires next !in t && next in mid && mid == t[next := mid[next]] && mid[next].kind == Directory && mid[next].mode == PRIVATE
    requires Below(next, here) && Within(p, next) && MadeOnTheWay(mid, u, next, p)
    ensures MadeOnTheWay(t, u, here, p)
  {
    forall q | q in u && q !in t
      ensures Within(q, here) && Within(p, q) && u[q].kind == Directory && u[q].mode == PRIVATE
    {
      if q in mid {
        assert q == next;
      } else {
        BelowDeeperOrSame(q, next, here);
      }
    }
  }

  /** Below a directory just made the way is open, and there is room for the next one. */
  lemma NextWay(t: Tree, mid: Tree, here: Path, next: Path, p: Path)
    requires WellFormed(t) && next !in t && next in mid && mid == t[next := mid[next]]
    requires Below(next, here) && |next| == |here| + 1 && Within(p, next) && Passes(t, here) && t[here].mode.write
    requires mid[next].kind == Directory && mid[next].mode == PRIVATE
    ensures WayOpen(t, here, p) && WayOpen(mid, next, p)
    ensures Ready(t, here, p) ==> p == next
    ensures p !in t && DirectoryFits(t, p)
    ensures p != next && Parent(p) in mid ==> Parent(p) == next
    ensures DirectoryFits(mid, p)
  {
    WayBelow(t, here, next, p);
    MissingAbove(t, next, p);
    assert Parent(next) == here by {
      assert next[..|here|] == here;
    }
    forall q | q in mid && Within(q, next) && q != next
      ensures false
    {
      MissingAbove(t, next, q);
    }
    assert p[..|next|] == next;
    if p != next {
      ParentWithin(p, next);
    }
  }

  lemma BelowDeeperOrSame(q: Path, next: Path, here: Path)
    requires Within(q, next) && Within(next, here)
    ensures Within(q, here)
  {
    assert q[..|next|][..|here|] == q[..|here|];
  }

  lemma MissingAbove(t: Tree, next: Path, p: Path)
    requires WellFormed(t) && next !in t && Within(p, next)
    ensures p !in t && (p != next ==> Parent(p) !in t)
  {
    assert p[..|p|] == p;
    if p in t {
      AncestorsExist(t, p, |next|);
    }
    if p != next {
      assert Parent(p)[..|next|] == next;
      assert Parent(p)[..|Parent(p)|] == Parent(p);
      if Parent(p) in t && |next| < |Parent(p)| {
        AncestorsExist(t, Parent(p), |next|);
      }
    }
  }

  /** Where the next directory is missing and cannot be made, what is to be there does not fit. */
  lemma NoRoomHere(t: Tree, here: Path, parts: seq<string>)
    requires WellFormed(t) && parts != [] && here in t && here + [parts[0]] !in t
    ensures Parent(here + [parts[0]]) == here
    ensures !t[here].mode.write ==> !(Ready(t, here, here + parts) && DirectoryFits(t, here + parts))
  {
    var next, p := here + [parts[0]], here + parts;
    assert p[..|next|] == next;
    MissingAbove(t, next, p);
    assert p != next || Parent(p) == here;
  }

  lemma MadeBelow(t: Tree, u: Tree, here: Path, parts: seq<string>, r: Option<Path>, calm: bool)
    requires parts != [] && here + [parts[0]] in t && t[here + [parts[0]]].kind == Directory && Passes(t, here)
    requires PlainWay(t, here + [parts[0]], parts[1..]) ==>
      MadePlainly(t, u, here + [parts[0]], here + [parts[0]] + parts[1..], r, calm)
    ensures PlainWay(t, here, parts) ==> MadePlainly(t, u, here, here + parts, r, calm)
  {
    if PlainWay(t, here, parts) {
      PlainNext(t, here, parts);
      var next := here + [parts[0]];
      WayToNext(t, here, parts);
      hide PlainWay, WayOpen;
      forall q | q in u && q !in t
        ensures Within(q, here)
      {
        assert q[..|here|] == q[..|next|][..|here|];
      }
    }
  }

  /** So does a directory that does not let the handle through. */
  lemma PlainStops(t: Tree, here: Path, parts: seq<string>)
    requires parts != [] && here in t && !Passes(t, here)
    ensures !WayOpen(t, here, here + parts)
  {
    RootItself(t, here, parts);
  }

  /** A file on a plain way ends it. */
  lemma PlainEnds(t: Tree, here: Path, parts: seq<string>)
    requires WellFormed(t) && parts != [] && here + [parts[0]] in t && t[here + [parts[0]]].kind != Directory
    ensures here + parts in t ==> here + parts == here + [parts[0]]
    ensures !(Ready(t, here, here + parts) && DirectoryFits(t, here + parts))
  {
    var next, p := here + [parts[0]], here + parts;
    assert p[..|next|] == next;
    if p in t && p != next {
      AncestorsExist(t, p, |next|);
    }
    if p != next && Parent(p) in t {
      assert Parent(p)[..|next|] == next;
      if |next| < |Parent(p)| {
        AncestorsExist(t, Parent(p), |next|);
      } else {
        assert Parent(p) == next;
      }
    }
  }

  class LiveTree {
    var tree: Tree
    var nextInode: nat
    /** No system call has failed that could have worked. */
    ghost var calm: bool

    ghost predicate Valid()
      reads this`tree
    {
      WellFormed(tree)
    }

    constructor (t: Tree)
      requires WellFormed(t)
      ensures Valid() && tree == t && calm
    {
      tree, nextInode, calm := t, 0, true;
    }

    method Fault() returns (fails: bool)
      modifies this`calm
      ensures calm == (old(calm) && !fails)
    {
      fails := *;
      if fails {
        calm := false;
      }
    }

    /** unlink or rmdir: a directory must be empty, and the one that holds it writable. */
    method Remove(p: Path) returns (ok: bool)
      requires Valid()
      modifies this`tree, this`calm
      ensures Valid() && tree == if ok then old(tree) - {p} else old(tree)
      ensures ok ==> p in old(tree) && Beneath(old(tree), p) == {} && Room(old(tree), p)
      ensures calm ==> old(calm) && (p in old(tree) && Beneath(old(tree), p) == {} && Room(old(tree), p) ==> ok)
    {
      if p !in tree || Beneath(tree, p) != {} || !Room(tree, p) {
        return false;
      }
      var fails := Fault();
      if fails {
        return false;
      }
      forall q | q in tree && q != p && q != []
        ensures Parent(q) != p
      {
        assert q !in Beneath(tree, p);
      }
      tree := tree - {p};
      ok := true;
    }

    function ChildNames(d: Path): (names: set<string>)
      reads this
      ensures forall c :: c in names <==> d + [c] in tree
    {
      var names := set p | p in tree && Below(p, d) && |p| == |d| + 1 :: p[|d|];
      assert forall c :: d + [c] in tree ==> (d + [c])[|d|] == c && Below(d + [c], d);
      assert forall p :: p in tree && Below(p, d) && |p| == |d| + 1 ==> p == d + [p[|d|]];
      names
    }

    /** Removes what is new in a directory of the root. `absolute` is joined with the whole
        relative name at each level, so that below the first level it names no captured path
        and everything found there goes. */
    method RemoveCreatedDir(base: Path, dir: Path, absolute: Path, preserved: Preserved) returns (ok: bool)
      requires Valid() && base + dir in tree
      requires dir == [] ==> absolute == base && ClosedAbove(preserved, base)
      requires dir != [] ==> forall k :: k in preserved ==> !Below(k, absolute)
      modifies this`tree, this`calm
      ensures Valid()
      ensures forall p :: p in tree ==> p in old(tree) && tree[p] == old(tree)[p]
      ensures forall p :: p in old(tree) && !Below(p, base + dir) ==> p in tree
      ensures ok && dir != [] ==> Beneath(tree, base + dir) == {}
      ensures ok && dir == [] ==> NothingNew(tree, base, preserved.Keys)
      ensures dir == [] ==> forall p :: p in old(tree) && Spared(preserved, base, p) ==> p in tree
      ensures ok ==> ClearsFrom(old(tree), preserved, base, dir)
      ensures calm ==> old(calm) && (ClearsFrom(old(tree), preserved, base, dir) ==> ok)
      decreases Beneath(tree, base + dir), 1
    {
      hide WellFormed, Within, Below, ClosedAbove, Beneath, ClearsFrom, ChildClearsFrom, NothingNew, Spared;
      var d := base + dir;
      ClearsByChild(tree, preserved, base, dir);
      if !tree[d].mode.read {
        return false;
      }
      var rest := ChildNames(d);
      ClearingStarts(tree, preserved, base, dir, rest);
      while rest != {}
        invariant Valid() && Clearing(old(tree), tree, preserved, base, dir, rest) && (calm ==> old(calm))
        decreases rest
      {
        var c :| c in rest;
        ChildStands(old(tree), tree, preserved, base, dir, rest, c);
        BeneathShrinks(old(tree), tree, d);
        ghost var before := tree;
        var done := RemoveChild(base, dir, absolute, preserved, c);
        ClearingStep(old(tree), before, tree, preserved, base, dir, rest, c, done);
        if !done {
          return false;
        }
        rest := rest - {c};
      }
      ClearingEnds(old(tree), tree, preserved, base, dir);
      ok := true;
    }

    method RemoveChild(base: Path, dir: Path, absolute: Path, preserved: Preserved, c: string) returns (ok: bool)
      requires Valid() && base + dir in tree && base + dir + [c] in tree
      requires dir == [] ==> absolute == base && ClosedAbove(preserved, base)
      requires dir != [] ==> forall k :: k in preserved ==> !Below(k, absolute)
      modifies this`tree, this`calm
      ensures Valid()
      ensures forall p :: p in tree ==> p in old(tree) && tree[p] == old(tree)[p]
      ensures forall p :: p in old(tree) && !Within(p, base + dir + [c]) ==> p in tree
      ensures ok && base + dir + [c] in tree ==> dir == [] && (c == NODE_MODULES || base + [c] in preserved)
      ensures dir == [] && base + [c] in preserved ==> base + [c] in tree
      ensures dir == [] && (c == NODE_MODULES || KeptWhole(old(tree), preserved, base + [c])) ==> tree == old(tree)
      ensures ok ==> ChildClearsFrom(old(tree), preserved, base, dir, c)
      ensures calm ==> old(calm) && (ChildClearsFrom(old(tree), preserved, base, dir, c) ==> ok)
      decreases Beneath(tree, base + dir), 0
    {
      hide WellFormed, Beneath, ClosedAbove, Emptiable;
      var name := dir + [c];
      var here, absoluteName := base + name, absolute + name;
      assert here == base + dir + [c] && Parent(here) == base + dir;
      assert dir == [] ==> base + dir == base;
      if dir == [] && c == NODE_MODULES {
        return true;
      }
      NothingPreservedBelow(base, dir, absolute, preserved, c);
      if tree[here].kind == Directory {
        if absoluteName !in preserved || preserved[absoluteName] != Some(Directory) {
          assert Beneath(tree, here) < Beneath(tree, base + dir) by {
            BeneathChild(tree, base + dir, c);
          }
          if !tree[base + dir].mode.search {
            return false;
          }
          ok := RemoveCreatedDir(base, name, absoluteName, preserved);
          if !ok {
            return;
          }
        }
      }
      if absoluteName in preserved {
        return true;
      }
      if tree[here].kind != Directory {
        NothingBeneathFile(tree, here);
      }
      NotWithinChild(base + dir, c);
      ok := Remove(here);
    }

    // ------------------------------------------------------------------ restoring

    /** One level of mkdir -p. */
    method MkdirOne(here: Path) returns (ok: bool)
      requires Valid() && here != [] && here !in tree && Parent(here) in tree && tree[Parent(here)].kind == Directory
      requires PlainName(here[|here| - 1])
      modifies this
      ensures Valid() && (!ok ==> tree == old(tree))
      ensures ok ==>
        && old(tree)[Parent(here)].mode.write
        && here in tree && tree[here].kind == Directory && tree[here].mode == PRIVATE && tree == old(tree)[here := tree[here]]
      ensures calm ==> old(calm) && (old(tree)[Parent(here)].mode.write ==> ok)
    {
      if !tree[Parent(here)].mode.write {
        return false;
      }
      var fails := Fault();
      if fails {
        return false;
      }
      AddNode(tree, here, Node(Directory, nextInode, PRIVATE, 1, ""));
      tree := tree[here := Node(Directory, nextInode, PRIVATE, 1, "")];
      nextInode := nextInode + 1;
      ok := true;
    }

    /** mkdir -p through a rooted handle: the directory it ends at, made where it was missing. */
    method MkdirAll(base: Path, here: Path, parts: seq<string>, left: nat) returns (r: Option<Path>)
      requires Valid() && Within(here, base) && here in tree && tree[here].kind == Directory
      modifies this
      ensures Valid() && Made(old(tree), tree, base)
      ensures r.Some? ==> Within(r.value, base) && r.value in tree && tree[r.value].kind == Directory
      ensures calm ==> old(calm)
      ensures EndsAtDirectory(old(tree), base, here, parts, left) ==>
        tree == old(tree) && (calm ==> r.Some?) && (r.Some? ==> At(r.value) == Walk(old(tree), base, here, parts, left))
      ensures PlainWay(old(tree), here, parts) ==> MadePlainly(old(tree), tree, here, here + parts, r, calm)
      decreases left, |parts|, 1
    {
      hide WellFormed, Within, Below, Absolute, PlainName, Made, MadeOnTheWay, PlainWay, Ready, WayOpen;
      NothingMade(tree, base, here, parts);
      if parts == [] {
        return Some(here);
      }
      var name, rest := parts[0], parts[1..];
      OrdinaryName(tree, here, parts);
      if name == "" || name == "." {
        r := MkdirAll(base, here, rest, left);
      } else if name == ".." {
        if here == base || !tree[here].mode.read {
          return None;
        }
        ParentWithin(here, base);
        AncestorIsDirectory(tree, here);
        r := MkdirAll(base, Parent(here), rest, left);
      } else {
        r := MkdirStep(base, here, parts, left);
      }
    }

    /** The next name is an ordinary one. */
    method MkdirStep(base: Path, here: Path, parts: seq<string>, left: nat) returns (r: Option<Path>)
      requires Valid() && Within(here, base) && here in tree && tree[here].kind == Directory
      requires parts != [] && PlainName(parts[0])
      modifies this
      ensures Valid() && Made(old(tree), tree, base)
      ensures r.Some? ==> Within(r.value, base) && r.value in tree && tree[r.value].kind == Directory
      ensures calm ==> old(calm)
      ensures EndsAtDirectory(old(tree), base, here, parts, left) ==>
        tree == old(tree) && (calm ==> r.Some?) && (r.Some? ==> At(r.value) == Walk(old(tree), base, here, parts, left))
      ensures PlainWay(old(tree), here, parts) ==> MadePlainly(old(tree), tree, here, here + parts, r, calm)
      decreases left, |parts|, 0
    {
      hide WellFormed, Within, Below, Absolute, Made, MadeOnTheWay, PlainWay, Ready, WayOpen, DirectoryFits;
      NothingMade(tree, base, here, parts);
      if !Passes(tree, here) {
        PlainStops(tree, here, parts);
        return None;
      }
      var name, rest := parts[0], parts[1..];
      var next := here + [name];
      ChildWithin(here, base, name);
      if PlainWay(tree, here, parts) {
        PlainNext(tree, here, parts);
      }
      if next !in tree {
        NoRoomHere(tree, here, parts);
        var ok := MkdirOne(next);
        if !ok {
          return None;
        }
        ghost var mid := tree;
        r := MkdirAll(base, next, rest, left);
        MadeMore(old(tree), mid, tree, base, here, parts, r, calm);
      } else if tree[next].kind == Directory {
        r := MkdirAll(base, next, rest, left);
        MadeBelow(old(tree), tree, here, parts, r, calm);
      } else if tree[next].kind == SymbolicLink {
        if rest == [] {
          var f := Walk(tree, base, here, parts, left);
          return if f.At? && f.path in tree && tree[f.path].kind == Directory then Some(f.path) else None;
        }
        if left == 0 || Absolute(tree[next].content) {
          return None;
        }
        r := MkdirAll(base, here, Split(tree[next].content, '/') + rest, left - 1);
      } else {
        PlainEnds(tree, here, parts);
        r := None;
      }
    }

    /** mkdir -p, then open and chmod what the path leads to. */
    method RestoreDirectory(root: Path, rel: seq<string>, mode: Mode) returns (ok: bool)
      requires Valid() && root in tree && (rel != [] ==> tree[root].kind == Directory)
      modifies this
      ensures Valid() && Kept(old(tree), tree) && SameBut(old(tree), tree, root) && (calm ==> old(calm))
      ensures Within(root, root) && EndsAtDirectory(old(tree), root, root, rel, MAX_LINKS) ==>
        old(tree)[root].kind == Directory && AllOpen(old(tree), root) && mode.read && mode.write && mode.search ==>
          SameShape(old(tree), tree) && (calm ==> ok)
      ensures PlainWay(old(tree), root, rel) ==> DirectoryPut(old(tree), tree, root, root + rel, mode, ok, calm)
    {
      hide WellFormed, PlainWay, Ready, EndsAtDirectory, Made, MadeOnTheWay, Kept, SameBut, Put, SameShape, WayOpen, DirectoryFits;
      RootItself(tree, root, rel);
      if tree[root].kind != Directory {
        return false;
      }
      var d := MkdirAll(root, root, rel, MAX_LINKS);
      ghost var mid := tree;
      MadeIsKept(old(tree), mid, root);
      if PlainWay(old(tree), root, rel) {
        MadeIsPut(old(tree), mid, root, root + rel, root + rel, Directory);
        MadeReads(old(tree), mid, root, root + rel);
      }
      if d.None? {
        return false;
      }
      if !tree[d.value].mode.read {
        return false;
      }
      var fails := Fault();
      if fails {
        return false;
      }
      ChmodKeeps(old(tree), mid, root, d.value, mode);
      tree := tree[d.value := tree[d.value].(mode := mode)];
      ok := true;
    }

    method RestoreLink(root: Path, rel: seq<string>, target: string) returns (ok: bool)
      requires Valid() && root in tree && (rel != [] ==> tree[root].kind == Directory && PlainName(rel[|rel| - 1]))
      modifies this
      ensures Valid() && Kept(old(tree), tree) && SameBut(old(tree), tree, root) && (calm ==> old(calm))
      ensures rel == [] ==> !ok && tree == old(tree)
      ensures rel != [] && PlainWay(old(tree), root, rel[..|rel| - 1]) ==>
        LinkPut(old(tree), tree, root, root + rel, target, ok, calm)
    {
      hide WellFormed, PlainWay, Kept, SameBut, Put, Ready, WayOpen;
      RootItself(tree, root, rel);
      if rel == [] {
        return false;
      }
      var way, name := rel[..|rel| - 1], rel[|rel| - 1];
      var f := Walk(tree, root, root, way, MAX_LINKS);
      LastOfPlain(tree, root, rel);
      LastWay(tree, root, rel);
      if !f.At? || !Passes(tree, f.path) || tree[f.path].kind != Directory || f.path + [name] in tree || !tree[f.path].mode.write {
        return false;
      }
      var fails := Fault();
      if fails {
        return false;
      }
      var p := f.path + [name];
      assert Parent(p) == f.path;
      ChildWithin(f.path, root, name);
      NewNode(tree, root, p, Node(SymbolicLink, nextInode, PRIVATE, 1, target));
      tree := tree[p := Node(SymbolicLink, nextInode, PRIVATE, 1, target)];
      nextInode := nextInode + 1;
      ok := true;
    }

    /** What opening the destination says: a second hard link is refused, and so is a way that
        leads out or through a file, and what cannot be read. What opening a special file says is
        not known. */
    method MayOverwrite(root: Path, rel: seq<string>) returns (ok: bool)
      requires Valid() && root in tree && (rel != [] ==> tree[root].kind == Directory)
      ensures ok ==> Openable(tree, root, rel)
      ensures Openable(tree, root, rel) && !LeadsToSpecial(tree, root, rel) ==> ok
    {
      RootItself(tree, root, rel);
      var f := Walk(tree, root, root, rel, MAX_LINKS);
      if f.At? && f.path in tree && tree[f.path].kind == Special && tree[f.path].mode.read {
        ok := *;
        return;
      }
      ok := match f
        case Missing => true
        case Bad => false
        case At(q) => q in tree && tree[q].mode.read && !(tree[q].kind == RegularFile && tree[q].links != 1);
    }

    /** A file is put in the place of anything but a directory: a new inode with one link. */
    method Rename(p: Path, content: string, mode: Mode) returns (ok: bool)
      requires Valid() && p != [] && PlainName(p[|p| - 1]) && Parent(p) in tree && tree[Parent(p)].kind == Directory
      modifies this
      ensures Valid() && (calm ==> old(calm) && ((p in old(tree) ==> old(tree)[p].kind != Directory) && Room(old(tree), p) ==> ok))
      ensures ok ==> (p in old(tree) ==> old(tree)[p].kind != Directory) && Room(old(tree), p)
      ensures tree == if ok then old(tree)[p := Node(RegularFile, old(nextInode), mode, 1, content)] else old(tree)
    {
      if (p in tree && tree[p].kind == Directory) || !Room(tree, p) {
        return false;
      }
      var fails := Fault();
      if fails {
        return false;
      }
      forall q | q in tree && q != []
        ensures Parent(q) != p
      {
      }
      tree := tree[p := Node(RegularFile, nextInode, mode, 1, content)];
      nextInode := nextInode + 1;
      ok := true;
    }

    /** Write beside the destination and rename over it. The destination is opened under its
        own name and written under the one with slashes for backslashes. */
    method RestoreFile(root: Path, rel: seq<string>, content: string, mode: Mode) returns (ok: bool)
      requires Valid() && root in tree && root != [] && (rel != [] ==> tree[root].kind == Directory) && AllPlain(rel)
      modifies this
      ensures Valid() && Kept(old(tree), tree) && SameBut(old(tree), tree, root) && (calm ==> old(calm))
      ensures Straight(rel) && (rel == [] || PlainWay(old(tree), root, rel[..|rel| - 1])) ==>
        FilePut(old(tree), tree, root, root + rel, content, mode, ok, calm)
      ensures rel == [] && !ok ==> tree == old(tree)
      ensures ok && rel != [] ==> Turned(rel).Some?
      ensures rel != [] && Turned(rel).Some? ==>
        var to := Turned(rel).value;
        to != [] && (PlainWay(old(tree), root, to[..|to| - 1]) ==> GoneTo(old(tree), tree, root, rel, to, content, mode, ok, calm))
      ensures Within(root, root) && rel != [] && FileResolves(old(tree), root, rel) ==>
        Straight(rel) && AllOpen(old(tree), root) && mode.read ==> SameShape(old(tree), tree) && (calm ==> ok)
    {
      hide WellFormed, PlainWay, Kept, SameBut, Put, Ready, SameShape, WayOpen, Openable, FileResolves, AllOpen, LeadsToSpecial,
           Straight, AllPlain, FilePut, GoneTo, BesidePut;
      RootItself(tree, root, rel);
      TurnedIsPlain(rel);
      OpenSays(tree, root, rel);
      if rel != [] && FileResolves(tree, root, rel) {
        ResolvedOpens(tree, root, rel);
      }
      if Straight(rel) {
        StraightTurned(rel);
      }
      var open := MayOverwrite(root, rel);
      if !open {
        NotOpened(tree, root, rel, content, mode, calm);
        return false;
      }
      if rel == [] {
        ghost var was := tree;
        assert root + rel == root;
        ok := RestoreRootFile(root, content, mode);
        RootFileSays(was, tree, root, content, mode, ok, calm);
        return;
      }
      var to := Turned(rel);
      if to.None? {
        return false;
      }
      ok := WriteBeside(root, to.value, content, mode);
      BesideSays(old(tree), tree, root, rel, to.value, content, mode, ok, calm);
    }

    method RestoreRootFile(root: Path, content: string, mode: Mode) returns (ok: bool)
      requires Valid() && root in tree && root != []
      modifies this
      ensures Valid() && Kept(old(tree), tree) && SameBut(old(tree), tree, root) && (calm ==> old(calm))
      ensures Put(old(tree), tree, root, root, RegularFile) && WayOpen(old(tree), root, root)
      ensures ok ==>
        && root in tree && tree[root].kind == RegularFile && tree[root].content == content && tree[root].mode == mode
        && Room(old(tree), root)
        && old(tree)[root].kind != Directory
      ensures calm && Room(old(tree), root) && old(tree)[root].kind != Directory ==> ok
      ensures !ok ==> tree == old(tree)
    {
      hide WellFormed, Kept, SameBut, Put, WayOpen;
      RootItself(tree, root, []);
      assert root + [] == root;
      ParentOfRoot(tree, root);
      NoWay(tree, root);
      ghost var was := tree;
      ok := Rename(root, content, mode);
      if ok {
        RenameKeeps(was, was, root, root, tree[root]);
      }
    }

    method WriteBeside(root: Path, rel: seq<string>, content: string, mode: Mode) returns (ok: bool)
      requires Valid() && root in tree && rel != [] && tree[root].kind == Directory && PlainName(rel[|rel| - 1])
      modifies this
      ensures Valid() && Kept(old(tree), tree) && SameBut(old(tree), tree, root) && (calm ==> old(calm))
      ensures PlainWay(old(tree), root, rel[..|rel| - 1]) ==> BesidePut(old(tree), tree, root, root + rel, content, mode, ok, calm)
      ensures Within(root, root) && FileResolves(old(tree), root, rel) && AllOpen(old(tree), root) && mode.read ==>
        SameShape(old(tree), tree) && (calm ==> ok)
    {
      hide WellFormed, PlainWay, Kept, SameBut, Put, Made, MadeOnTheWay, Ready, SameShape, WayOpen, DirectoryFits;
      RootItself(tree, root, rel);
      var way := rel[..|rel| - 1];
      var d := MkdirAll(root, root, way, MAX_LINKS);
      ghost var mid := tree;
      MadeIsKept(old(tree), tree, root);
      LastStep(root, rel);
      if PlainWay(old(tree), root, way) {
        MadeIsPut(old(tree), tree, root, root + way, root + rel, RegularFile);
        NotOnItsWay(old(tree), tree, root, root + way, root + rel);
        WayIsReady(old(tree), root, rel);
        MadeReads(old(tree), mid, root, root + way);
        LastWay(old(tree), root, rel);
      }
      if d.None? {
        return false;
      }
      if !Passes(tree, d.value) {
        return false;
      }
      var p := d.value + [rel[|rel| - 1]];
      ChildWithin(d.value, root, rel[|rel| - 1]);
      assert Parent(p) == d.value;
      ok := Rename(p, content, mode);
      if ok {
        RenameKeeps(old(tree), mid, root, p, tree[p]);
        SameFileShape(mid, p, tree[p]);
      }
    }
  }

  /** What could not be opened is left alone. */
  lemma NotOpened(t: Tree, root: Path, rel: seq<string>, content: string, mode: Mode, calm: bool)
    requires WellFormed(t) && root in t && (rel != [] ==> t[root].kind == Directory) && AllPlain(rel)
    requires !(Openable(t, root, rel) && !LeadsToSpecial(t, root, rel))
    ensures rel == [] || PlainWay(t, root, rel[..|rel| - 1]) ==> FilePut(t, t, root, root + rel, content, mode, false, calm)
    ensures forall to: seq<string> :: GoneTo(t, t, root, rel, to, content, mode, false, calm)
  {
    OpenSays(t, root, rel);
    RootItself(t, root, rel);
    hide WellFormed, Put, PlainWay, WayOpen, Openable, LeadsToSpecial, Room, FileFits;
  }

  lemma RootFileSays(t: Tree, u: Tree, root: Path, content: string, mode: Mode, ok: bool, calm: bool)
    requires WellFormed(t) && root in t && root != [] && Openable(t, root, [])
    requires Put(t, u, root, root, RegularFile) && WayOpen(t, root, root)
    requires ok ==>
      && root in u && u[root].kind == RegularFile && u[root].content == content && u[root].mode == mode
      && Room(t, root) && t[root].kind != Directory
    requires calm && Room(t, root) && t[root].kind != Directory ==> ok
    ensures FilePut(t, u, root, root, content, mode, ok, calm)
  {
    OpenSays(t, root, []);
    assert root + [] == root;
    hide WellFormed, Put, PlainWay, WayOpen, Openable, Room;
  }

  /** Writing beside the destination, seen from the name it was asked for. */
  lemma BesideSays(t: Tree, u: Tree, root: Path, rel: seq<string>, to: seq<string>, content: string, mode: Mode, ok: bool, calm: bool)
    requires WellFormed(t) && root in t && t[root].kind == Directory && rel != [] && AllPlain(rel) && Openable(t, root, rel)
    requires to != [] && Turned(rel) == Some(to)
    requires PlainWay(t, root, to[..|to| - 1]) ==> BesidePut(t, u, root, root + to, content, mode, ok, calm)
    ensures PlainWay(t, root, to[..|to| - 1]) ==> GoneTo(t, u, root, rel, to, content, mode, ok, calm)
    ensures to == rel && PlainWay(t, root, rel[..|rel| - 1]) ==> FilePut(t, u, root, root + rel, content, mode, ok, calm)
  {
    OpenSays(t, root, rel);
    LastWay(t, root, rel);
    LastWay(t, root, to);
    hide WellFormed, Put, PlainWay, WayOpen, Openable, LeadsToSpecial, Room, RoomOrMade, Turned;
  }

  lemma ResolvedOpens(t: Tree, root: Path, rel: seq<string>)
    requires Within(root, root) && rel != [] && FileResolves(t, root, rel)
    ensures Openable(t, root, rel) && !LeadsToSpecial(t, root, rel)
  {
  }

  lemma SameFileShape(t: Tree, p: Path, n: Node)
    requires n.kind == RegularFile && (n.mode.read ==> FileFits(n))
    ensures p in t && t[p].kind == RegularFile && n.mode.read ==> SameShape(t, t[p := n])
  {
  }

  /** Where writing under the name with slashes puts the file. */
  ghost predicate GoneTo(t: Tree, u: Tree, root: Path, rel: seq<string>, to: seq<string>, content: string, mode: Mode, ok: bool, calm: bool) {
    var p := root + to;
    && (ok ==> p in u && u[p].kind == RegularFile && u[p].content == content && Put(t, u, root, p, RegularFile))
    && (calm && p != [] && Openable(t, root, rel) && !LeadsToSpecial(t, root, rel) && RoomOrMade(t, root, Parent(p)) ==>
          (p in t ==> t[p].kind != Directory) ==> ok)
  }

  predicate AllPlain(parts: seq<string>) {
    forall k :: 0 <= k < |parts| ==> PlainName(parts[k])
  }

  predicate Straight(parts: seq<string>) {
    forall k :: 0 <= k < |parts| ==> '\\' !in parts[k]
  }

  /** A name with slashes for its backslashes, unless that is no clean relative name. */
  function Turned(parts: seq<string>): Option<seq<string>> {
    if parts == [] then Some([]) else
      var first, rest := Split(parts[0], '\\'), Turned(parts[1..]);
      if rest.Some? && AllPlain(first) then Some(first + rest.value) else None
  }

  lemma {:induction false} TurnedIsPlain(parts: seq<string>)
    ensures Turned(parts).Some? ==> AllPlain(Turned(parts).value) && |Turned(parts).value| >= |parts|
    ensures Turned(parts).Some? && parts != [] ==> PlainName(Turned(parts).value[|Turned(parts).value| - 1])
  {
    if parts != [] {
      TurnedIsPlain(parts[1..]);
      hide PlainName;
    }
  }

  lemma {:induction false} StraightTurned(parts: seq<string>)
    requires Straight(parts) && AllPlain(parts)
    ensures Turned(parts) == Some(parts)
  {
    hide PlainName;
    if parts != [] {
      assert forall k :: 0 <= k < |parts[1..]| ==> parts[1..][k] == parts[k + 1];
      StraightTurned(parts[1..]);
      assert IndexOf(parts[0], '\\') == |parts[0]| && parts[0][..|parts[0]|] == parts[0];
      assert Split(parts[0], '\\') == [parts[0]];
      assert parts == [parts[0]] + parts[1..];
    }
  }

  predicate Openable(t: Tree, root: Path, rel: seq<string>) {
    RootItself(t, root, rel);
    match Walk(t, root, root, rel, MAX_LINKS)
    case Missing => true
    case Bad => false
    case At(q) => q in t && t[q].mode.read && !(t[q].kind == RegularFile && t[q].links != 1)
  }

  predicate LeadsToSpecial(t: Tree, root: Path, rel: seq<string>) {
    RootItself(t, root, rel);
    var f := Walk(t, root, root, rel, MAX_LINKS);
    f.At? && f.path in t && t[f.path].kind == Special
  }

  /** Putting something back at `p` on a plain way. */
  ghost predicate Put(t: Tree, u: Tree, root: Path, p: Path, kind: Kind) {
    && Grown(t, u, root, p)
    && forall q :: q in u && (q !in t || u[q] != t[q]) ==> u[q].kind == Directory || (q == p && u[q].kind == kind)
  }

  ghost predicate DirectoryPut(t: Tree, u: Tree, root: Path, p: Path, mode: Mode, ok: bool, calm: bool) {
    && Put(t, u, root, p, Directory)
    && (ok ==>
          && p in u && u[p].kind == Directory && u[p].mode == mode
          && WayOpen(t, root, p) && DirectoryFits(t, p) && (p in t ==> t[p].mode.read))
    && (calm && Ready(t, root, p) && root in t && t[root].kind == Directory && WayOpen(t, root, p) ==>
          DirectoryFits(t, p) && (p in t ==> t[p].mode.read) ==> ok)
  }

  ghost predicate LinkPut(t: Tree, u: Tree, root: Path, p: Path, target: string, ok: bool, calm: bool) {
    && Put(t, u, root, p, SymbolicLink)
    && (ok ==> p !in t && p in u && u[p].kind == SymbolicLink && u[p].content == target && WayOpen(t, root, p) && Room(t, p))
    && (calm && Ready(t, root, p) && p !in t && WayOpen(t, root, p) && Room(t, p) ==> ok)
  }

  /** There is room for `p`, if what is to hold it is there. */
  predicate RoomIfThere(t: Tree, p: Path) {
    p != [] && Parent(p) in t ==> Room(t, p)
  }

  ghost predicate FilePut(t: Tree, u: Tree, root: Path, p: Path, content: string, mode: Mode, ok: bool, calm: bool) {
    && Put(t, u, root, p, RegularFile)
    && (ok ==>
          && p in u && u[p].kind == RegularFile && u[p].content == content && u[p].mode == mode
          && WayOpen(t, root, p) && RoomIfThere(t, p) && (p in t ==> FileFits(t[p]) || t[p].kind in {SymbolicLink, Special}))
    && (calm && Ready(t, root, p) && WayOpen(t, root, p) && Room(t, p) && (p in t ==> FileFits(t[p])) ==> ok)
  }

  /** The same without a look at what is there. */
  ghost predicate BesidePut(t: Tree, u: Tree, root: Path, p: Path, content: string, mode: Mode, ok: bool, calm: bool) {
    && Put(t, u, root, p, RegularFile) && p != []
    && (ok ==>
          && p in u && u[p].kind == RegularFile && u[p].content == content && u[p].mode == mode
          && WayOpen(t, root, p) && RoomIfThere(t, p) && (p in t ==> t[p].kind != Directory))
    && (calm && p != root && RoomOrMade(t, root, Parent(p)) && (p in t ==> t[p].kind != Directory) ==> ok)
  }

  /** The directory `d` takes new names, or can be made where it is missing. */
  ghost predicate RoomOrMade(t: Tree, root: Path, d: Path) {
    && Ready(t, root, d) && WayOpen(t, root, d) && DirectoryFits(t, d)
    && (d in t ==> Passes(t, d) && t[d].mode.write)
  }

  lemma RootItself(t: Tree, root: Path, rel: seq<string>)
    ensures Within(root, root) && root + [] == root && Within(root + rel, root)
    ensures Kept(t, t) && SameBut(t, t, root) && SameShape(t, t) && forall kind :: Put(t, t, root, root + rel, kind)
  {
    assert root[..|root|] == root;
    assert (root + rel)[..|root|] == root;
  }

  lemma ParentOfRoot(t: Tree, root: Path)
    requires WellFormed(t) && root in t && root != []
    ensures Parent(root) in t && t[Parent(root)].kind == Directory && PlainName(root[|root| - 1])
  {
  }

  lemma MadeIsKept(t: Tree, u: Tree, root: Path)
    requires Made(t, u, root)
    ensures Kept(t, u) && SameBut(t, u, root)
  {
  }

  lemma MadeIsPut(t: Tree, u: Tree, root: Path, a: Path, p: Path, kind: Kind)
    requires MadeOnTheWay(t, u, root, a) && Within(p, a)
    ensures Put(t, u, root, p, kind)
  {
    forall q | q in u && q !in t
      ensures Within(p, q)
    {
      assert p[..|q|] == p[..|a|][..|q|];
    }
  }

  lemma ChmodKeeps(t: Tree, mid: Tree, root: Path, d: Path, mode: Mode)
    requires WellFormed(mid) && Kept(t, mid) && SameBut(t, mid, root) && d in mid && mid[d].kind == Directory && Within(d, root)
    ensures var u := mid[d := mid[d].(mode := mode)];
      && WellFormed(u) && Kept(t, u) && SameBut(t, u, root)
      && (mid == t && mode.read && mode.write && mode.search ==> SameShape(t, u))
      && (Put(t, mid, root, d, Directory) ==> Put(t, u, root, d, Directory))
  {
    StillWellFormed(mid, d, mode);
    ChmodPut(t, mid, root, d, mode);
    ChmodElsewhere(t, mid, root, d, mode);
    ChmodKept(t, mid, d, mode);
    if mode.read && mode.write && mode.search {
      ChmodShape(mid, d, mode);
    }
    hide *;
  }

  lemma ChmodElsewhere(t: Tree, mid: Tree, root: Path, d: Path, mode: Mode)
    requires d in mid && Within(d, root)
    ensures SameBut(t, mid, root) ==> SameBut(t, mid[d := mid[d].(mode := mode)], root)
  {
  }

  lemma ChmodKept(t: Tree, mid: Tree, d: Path, mode: Mode)
    requires d in mid
    ensures Kept(t, mid) ==> Kept(t, mid[d := mid[d].(mode := mode)])
  {
  }

  lemma ChmodShape(t: Tree, d: Path, mode: Mode)
    requires d in t && t[d].kind == Directory && mode.read && mode.write && mode.search
    ensures SameShape(t, t[d := t[d].(mode := mode)])
  {
    assert t[d := t[d].(mode := mode)].Keys == t.Keys;
  }

  lemma ChmodPut(t: Tree, mid: Tree, root: Path, d: Path, mode: Mode)
    requires d in mid && mid[d].kind == Directory
    ensures Put(t, mid, root, d, Directory) ==> Put(t, mid[d := mid[d].(mode := mode)], root, d, Directory)
  {
    hide Within;
  }

  lemma StillWellFormed(t: Tree, d: Path, mode: Mode)
    requires WellFormed(t) && d in t
    ensures WellFormed(t[d := t[d].(mode := mode)])
  {
    hide PlainName;
  }

  /** What was made on the way is private, and the rest is what it was. */
  lemma MadeReads(t: Tree, u: Tree, root: Path, p: Path)
    requires MadeOnTheWay(t, u, root, p)
    ensures p in u && p !in t ==> u[p].kind == Directory && u[p].mode == PRIVATE
    ensures p in t ==> p in u && u[p] == t[p]
  {
  }

  lemma NoWay(t: Tree, root: Path)
    ensures WayOpen(t, root, root)
  {
  }

  /** The way to a place is the way to its directory and that directory. */
  lemma LastWay(t: Tree, root: Path, rel: seq<string>)
    requires rel != []
    ensures var way := root + rel[..|rel| - 1];
      && Parent(root + rel) == way
      && (WayOpen(t, root, root + rel) <==> WayOpen(t, root, way) && (way in t ==> Passes(t, way)))
      && (way in t && t[way].kind == Directory ==> DirectoryFits(t, way))
      && root + rel != root && root + rel != []
      && (WellFormed(t) && Ready(t, root, root + rel) && WayOpen(t, root, root + rel) && Room(t, root + rel) ==> RoomOrMade(t, root, way))
  {
    var way, p := root + rel[..|rel| - 1], root + rel;
    LastStep(root, rel);
    assert p[..|way|] == way;
    RootItself(t, root, rel[..|rel| - 1]);
    if WellFormed(t) && Ready(t, root, p) {
      WayIsReady(t, root, rel);
    }
    hide WellFormed;
    forall q | Below(p, q)
      ensures q == way || Below(way, q)
    {
      assert q == p[..|q|];
      if |q| < |way| {
        assert way[..|q|] == p[..|q|];
      }
    }
    forall q | Below(way, q)
      ensures Below(p, q)
    {
      assert p[..|q|] == way[..|q|];
    }
  }

  lemma NewNode(t: Tree, root: Path, p: Path, n: Node)
    requires WellFormed(t) && p != [] && p !in t && Parent(p) in t && t[Parent(p)].kind == Directory && PlainName(p[|p| - 1])
    requires Within(p, root)
    ensures var u := t[p := n]; WellFormed(u) && Kept(t, u) && SameBut(t, u, root) && Put(t, u, root, p, n.kind)
  {
    AddNode(t, p, n);
    hide WellFormed;
    assert p[..|p|] == p;
  }

  lemma RenameKeeps(t: Tree, mid: Tree, root: Path, p: Path, n: Node)
    requires Kept(t, mid) && SameBut(t, mid, root) && Within(p, root) && n.kind == RegularFile
    requires p in mid ==> mid[p].kind != Directory
    ensures var u := mid[p := n];
      Kept(t, u) && SameBut(t, u, root) && (Put(t, mid, root, p, RegularFile) ==> Put(t, u, root, p, RegularFile))
  {
    assert p[..|p|] == p;
  }

  lemma LastStep(root: Path, rel: seq<string>)
    requires rel != []
    ensures var way := rel[..|rel| - 1]; root + way + [rel[|rel| - 1]] == root + rel && Within(root + rel, root + way)
  {
    var way := rel[..|rel| - 1];
    assert way + [rel[|rel| - 1]] == rel;
    assert (root + rel)[..|root + way|] == root + way;
  }

  lemma NotOnItsWay(t: Tree, u: Tree, root: Path, a: Path, p: Path)
    requires MadeOnTheWay(t, u, root, a) && |p| > |a|
    ensures (p in t <==> p in u) && (p in t ==> u[p] == t[p])
  {
  }

  /** The directory of a place that is ready can be made. */
  lemma WayIsReady(t: Tree, root: Path, rel: seq<string>)
    requires WellFormed(t) && rel != []
    ensures var way := rel[..|rel| - 1];
      Ready(t, root, root + rel) ==> root + way in t && t[root + way].kind == Directory && Ready(t, root, root + way)
  {
    var way := rel[..|rel| - 1];
    LastStep(root, rel);
    assert Parent(root + rel) == root + way;
    if way != [] && root + way in t {
      AboveIsReady(t, root, root + way);
    }
    assert way == [] ==> root + way == root;
  }

  lemma LastOfPlain(t: Tree, root: Path, rel: seq<string>)
    requires WellFormed(t) && rel != [] && root in t && Within(root, root)
    ensures var way, f := rel[..|rel| - 1], Walk(t, root, root, rel[..|rel| - 1], MAX_LINKS);
      && (PlainWay(t, root, way) && f.At? ==> f.path + [rel[|rel| - 1]] == root + rel && WayOpen(t, root, root + way))
      && (PlainWay(t, root, way) && Ready(t, root, root + rel) && WayOpen(t, root, root + way) ==>
            f == At(root + way) && root + way in t && t[root + way].kind == Directory)
  {
    var way := rel[..|rel| - 1];
    LastStep(root, rel);
    WayIsReady(t, root, rel);
    if way == [] {
      assert root + way == root;
      NoWay(t, root);
    } else if PlainWay(t, root, way) {
      PlainWalk(t, root, root, way, MAX_LINKS);
    }
  }

  /** What opening a destination on a plain way says. */
  lemma OpenSays(t: Tree, root: Path, rel: seq<string>)
    requires WellFormed(t) && root in t && (rel != [] ==> t[root].kind == Directory) && AllPlain(rel)
    ensures rel == [] || PlainWay(t, root, rel[..|rel| - 1]) ==>
      && (root + rel in t && t[root + rel].kind != SymbolicLink && Openable(t, root, rel) ==>
            t[root + rel].mode.read && !(t[root + rel].kind == RegularFile && t[root + rel].links != 1))
      && (root + rel in t && FileFits(t[root + rel]) && WayOpen(t, root, root + rel) ==>
            Openable(t, root, rel) && !LeadsToSpecial(t, root, rel))
      && (root + rel !in t && Ready(t, root, root + rel) && WayOpen(t, root, root + rel) ==>
            Openable(t, root, rel) && !LeadsToSpecial(t, root, rel))
  {
    RootItself(t, root, rel);
    if rel != [] && PlainWay(t, root, rel[..|rel| - 1]) && !(root + rel in t && t[root + rel].kind == SymbolicLink) {
      WholeWay(t, root, rel);
      PlainWalk(t, root, root, rel, MAX_LINKS);
      hide WayOpen, PlainWay, WellFormed, Walk;
      if root + rel !in t && Ready(t, root, root + rel) && WayOpen(t, root, root + rel) {
        PlainMissing(t, root, root, rel, MAX_LINKS);
      }
    }
  }

  lemma WholeWay(t: Tree, root: Path, rel: seq<string>)
    requires rel != [] && PlainWay(t, root, rel[..|rel| - 1]) && PlainName(rel[|rel| - 1])
    requires !(root + rel in t && t[root + rel].kind == SymbolicLink)
    ensures PlainWay(t, root, rel)
  {
    var way := rel[..|rel| - 1];
    forall k | 1 <= k <= |rel|
      ensures !(root + rel[..k] in t && t[root + rel[..k]].kind == SymbolicLink)
    {
      if k <= |way| {
        assert way[..k] == rel[..k];
      } else {
        assert rel[..k] == rel;
      }
    }
    forall k | 0 <= k < |rel|
      ensures PlainName(rel[k])
    {
      assert k < |way| ==> way[k] == rel[k];
    }
  }

  lemma {:induction false} PlainMissing(t: Tree, base: Path, here: Path, parts: seq<string>, left: nat)
    requires WellFormed(t) && Within(here, base) && PlainWay(t, here, parts) && parts != []
    requires here + parts !in t && Ready(t, here, here + parts) && WayOpen(t, here, here + parts) && here in t
    ensures Walk(t, base, here, parts, left) == Missing
    decreases |parts|
  {
    PlainNext(t, here, parts);
    WayToNext(t, here, parts);
    ChildWithin(here, base, parts[0]);
    var next := here + [parts[0]];
    hide PlainWay, WayOpen;
    if parts[1..] == [] {
      assert parts == [parts[0]];
    } else {
      assert Parent(here + parts)[..|next|] == next;
      if |next| < |Parent(here + parts)| {
        AncestorsExist(t, Parent(here + parts), |next|);
      }
      assert Parent(here + parts)[..|Parent(here + parts)|] == Parent(here + parts);
      PlainMissing(t, base, next, parts[1..], left);
    }
  }

  lemma NothingBeneathFile(t: Tree, p: Path)
    requires WellFormed(t) && p in t && t[p].kind != Directory
    ensures Beneath(t, p) == {}
  {
    hide WellFormed;
    forall q | q in t
      ensures !Below(q, p)
    {
      if Below(q, p) {
        AncestorsExist(t, q, |p|);
      }
    }
  }

  lemma AboveIsReady(t: Tree, root: Path, p: Path)
    requires WellFormed(t) && p != []
    ensures p in t ==> Ready(t, root, p)
  {
  }

  lemma ParentWithin(p: Path, root: Path)
    requires Within(p, root) && p != root
    ensures p != [] && Within(Parent(p), root)
  {
    assert Parent(p)[..|root|] == p[..|root|];
    assert p[..|p|] == p;
  }

  lemma AddNode(t: Tree, p: Path, n: Node)
    requires WellFormed(t) && p != [] && p !in t && Parent(p) in t && t[Parent(p)].kind == Directory && PlainName(p[|p| - 1])
    ensures WellFormed(t[p := n])
  {
    hide PlainName;
    forall q | q in t && q != []
      ensures Parent(q) != p
    {
    }
  }

  lemma ChildrenApart(d: Path, c: string)
    ensures forall p :: Within(p, d + [c]) ==> Below(p, d)
    ensures forall x :: x != c ==> !Within(d + [x], d + [c])
  {
    forall p | Within(p, d + [c])
      ensures Below(p, d)
    {
      assert p[..|d| + 1][..|d|] == d;
    }
    forall x
      ensures Within(d + [x], d + [c]) ==> x == c
    {
      assert (d + [x])[..|d| + 1] == d + [x];
      assert (d + [x])[|d|] == x && (d + [c])[|d|] == c;
    }
  }

  lemma SiblingsApart(d: Path, c: string, x: string, p: Path)
    requires x != c && Within(p, d + [x])
    ensures !Within(p, d + [c])
  {
    assert p[..|d| + 1][|d|] == x && (d + [c])[|d|] == c;
  }

  lemma NotWithinChild(d: Path, c: string)
    ensures !Within(d, d + [c]) && !Below(d, d + [c])
  {
  }

  /** While new things are removed from a directory: the children in `rest` are still to be
      looked at, and so far everything could be done. */
  ghost predicate Clearing(start: Tree, t: Tree, kinds: Preserved, base: Path, dir: Path, rest: set<string>) {
    var d := base + dir;
    && d in start && ClearedPart(start, t, kinds, base, dir)
    && (forall c :: c in rest ==> d + [c] in t)
    && (forall c, p :: c in rest && p in start && Within(p, d + [c]) ==> p in t)
    && (forall c :: c !in rest ==> ChildDone(start, t, kinds, base, dir, c))
  }

  ghost predicate ClearedPart(start: Tree, t: Tree, kinds: Preserved, base: Path, dir: Path) {
    && base + dir in t && (forall p :: p in t ==> p in start && t[p] == start[p])
    && (forall p :: p in start && !Below(p, base + dir) ==> p in t)
    && (dir == [] ==> forall p :: p in start && Spared(kinds, base, p) ==> p in t)
  }

  ghost predicate ChildDone(start: Tree, t: Tree, kinds: Preserved, base: Path, dir: Path, c: string)
    requires base + dir in start
  {
    && ChildClearsFrom(start, kinds, base, dir, c)
    && (base + dir + [c] in t ==> dir == [] && (c == NODE_MODULES || base + [c] in kinds))
  }

  lemma ClearingStarts(t: Tree, kinds: Preserved, base: Path, dir: Path, all: set<string>)
    requires base + dir in t && forall c :: c in all <==> base + dir + [c] in t
    ensures Clearing(t, t, kinds, base, dir, all)
  {
    assert dir == [] ==> base + dir == base;
    hide Spared, Below, Within;
  }

  lemma ChildStands(start: Tree, t: Tree, kinds: Preserved, base: Path, dir: Path, rest: set<string>, c: string)
    requires Clearing(start, t, kinds, base, dir, rest) && c in rest
    ensures base + dir in t && base + dir + [c] in t && forall p :: p in t ==> p in start
    ensures ChildClearsFrom(start, kinds, base, dir, c) <==> ChildClearsFrom(t, kinds, base, dir, c)
  {
    ChildSame(start, t, kinds, base, dir, c);
  }

  lemma ClearedStep(start: Tree, t: Tree, u: Tree, kinds: Preserved, base: Path, dir: Path, c: string)
    requires ClearedPart(start, t, kinds, base, dir) && base + dir + [c] in t && WellFormed(t)
    requires forall p :: p in u ==> p in t && u[p] == t[p]
    requires forall p :: p in t && !Within(p, base + dir + [c]) ==> p in u
    requires dir == [] && base + [c] in kinds ==> base + [c] in u
    requires dir == [] && (c == NODE_MODULES || KeptWhole(t, kinds, base + [c])) ==> u == t
    ensures ClearedPart(start, u, kinds, base, dir)
  {
    NotWithinChild(base + dir, c);
    ChildrenApart(base + dir, c);
    hide Below, Within, KeptWhole, Spared;
    if dir == [] {
      assert base + dir == base;
      SparedStays(t, u, kinds, base, c);
    }
    hide WellFormed;
  }

  lemma ClearingStep(start: Tree, t: Tree, u: Tree, kinds: Preserved, base: Path, dir: Path, rest: set<string>, c: string, done: bool)
    requires Clearing(start, t, kinds, base, dir, rest) && c in rest && WellFormed(t)
    requires forall p :: p in u ==> p in t && u[p] == t[p]
    requires forall p :: p in t && !Within(p, base + dir + [c]) ==> p in u
    requires dir == [] && base + [c] in kinds ==> base + [c] in u
    requires dir == [] && (c == NODE_MODULES || KeptWhole(t, kinds, base + [c])) ==> u == t
    requires done && base + dir + [c] in u ==> dir == [] && (c == NODE_MODULES || base + [c] in kinds)
    requires base + dir in t && (done ==> ChildClearsFrom(t, kinds, base, dir, c))
    ensures ClearedPart(start, u, kinds, base, dir)
    ensures done ==> Clearing(start, u, kinds, base, dir, rest - {c})
  {
    hide WellFormed, ChildClearsFrom, Spared, Below, KeptWhole, ClearedPart, Within, ChildDone;
    ClearedStep(start, t, u, kinds, base, dir, c);
    if done {
      ChildStands(start, t, kinds, base, dir, rest, c);
      var d := base + dir;
      forall x | x in rest - {c}
        ensures d + [x] in u
        ensures forall p :: p in start && Within(p, d + [x]) ==> p in u
      {
        ChildrenApart(d, c);
        forall p | p in start && Within(p, d + [x])
          ensures p in u
        {
          SiblingsApart(d, c, x, p);
        }
      }
      forall x | x !in rest - {c}
        ensures ChildDone(start, u, kinds, base, dir, x)
      {
        OneChildDone(start, t, u, kinds, base, dir, rest, c, x);
      }
    }
  }

  lemma OneChildDone(start: Tree, t: Tree, u: Tree, kinds: Preserved, base: Path, dir: Path, rest: set<string>, c: string, x: string)
    requires Clearing(start, t, kinds, base, dir, rest) && x !in rest - {c}
    requires forall p :: p in u ==> p in t
    requires base + dir + [c] in u ==> dir == [] && (c == NODE_MODULES || base + [c] in kinds)
    requires ChildClearsFrom(start, kinds, base, dir, c)
    ensures ChildDone(start, u, kinds, base, dir, x)
  {
    hide ChildClearsFrom, ClearedPart, Within;
    assert x != c ==> ChildDone(start, t, kinds, base, dir, x);
  }

  lemma ClearingEnds(start: Tree, t: Tree, kinds: Preserved, base: Path, dir: Path)
    requires Clearing(start, t, kinds, base, dir, {}) && WellFormed(start) && WellFormed(t) && start[base + dir].mode.read
    ensures ClearsFrom(start, kinds, base, dir)
    ensures dir == [] ==> NothingNew(t, base, kinds.Keys)
    ensures dir != [] ==> Beneath(t, base + dir) == {}
  {
    ClearsByChild(start, kinds, base, dir);
    hide ClearsFrom, ChildClearsFrom, WellFormed, Below, Within, ClearedPart;
    var d := base + dir;
    forall c
      ensures ChildClearsFrom(start, kinds, base, dir, c)
      ensures d + [c] in t ==> dir == [] && (c == NODE_MODULES || base + [c] in kinds)
    {
      assert ChildDone(start, t, kinds, base, dir, c);
    }
    hide ChildDone;
    if dir != [] {
      NoChildren(t, d);
    } else {
      assert d == base;
    }
  }

  lemma BeneathShrinks(t: Tree, u: Tree, d: Path)
    requires forall p :: p in u ==> p in t
    ensures Beneath(u, d) <= Beneath(t, d)
  {
  }

  lemma BeneathChild(t: Tree, d: Path, c: string)
    requires d + [c] in t
    ensures Beneath(t, d + [c]) < Beneath(t, d)
  {
    forall p | p in Beneath(t, d + [c])
      ensures Below(p, d)
    {
      assert p[..|d| + 1][..|d|] == d;
    }
    assert d + [c] in Beneath(t, d) && d + [c] !in Beneath(t, d + [c]);
  }

  lemma FirstStep(t: Tree, p: Path, d: Path) returns (c: string)
    requires WellFormed(t) && p in t && Below(p, d)
    ensures d + [c] in t && Within(p, d + [c])
  {
    c := p[|d|];
    assert p[..|d| + 1] == d + [c];
    if |p| == |d| + 1 {
      assert p == d + [c];
    } else {
      AncestorsExist(t, p, |d| + 1);
    }
  }

  lemma NoChildren(t: Tree, d: Path)
    requires WellFormed(t) && forall c :: d + [c] !in t
    ensures Beneath(t, d) == {}
  {
    hide WellFormed, Below;
    forall p | p in t
      ensures !Below(p, d)
    {
      if Below(p, d) {
        var c := FirstStep(t, p, d);
      }
    }
  }

  lemma BelowDeeper(k: Path, there: Path, above: Path)
    requires Below(k, there) && Within(there, above)
    ensures Below(k, above)
  {
    assert k[..|there|][..|above|] == k[..|above|];
  }

  /** Neither a new child nor anything below it was captured under the name looked up. */
  lemma NothingPreservedBelow(base: Path, dir: Path, absolute: Path, preserved: Preserved, c: string)
    requires dir == [] ==> absolute == base && ClosedAbove(preserved, base)
    requires dir != [] ==> forall k :: k in preserved ==> !Below(k, absolute)
    ensures var there := absolute + (dir + [c]);
      && (there !in preserved || preserved[there] != Some(Directory) ==> forall k :: k in preserved ==> !Below(k, there))
      && (dir != [] ==> there !in preserved) && (dir == [] ==> there == base + [c])
  {
    var there := absolute + (dir + [c]);
    assert dir == [] ==> dir + [c] == [c];
    if dir != [] {
      assert there[..|absolute|] == absolute;
      assert Below(there, absolute);
      forall k | k in preserved
        ensures !Below(k, there)
      {
        if Below(k, there) {
          BelowDeeper(k, there, absolute);
        }
      }
    }
  }

  // --------------------------------------------------------- one change at a time

  /** What putting one entry back does on a plain way. */
  ghost predicate EntryPut(t: Tree, u: Tree, root: Path, e: Entry, ok: bool, calm: bool)
    requires e.before.Some?
  {
    var p, n := e.path, e.before.value;
    && Put(t, u, root, p, n.kind)
    && (ok ==>
          && Restored(u, e) && (Replaceable(t, p, n) || OddForFile(t, p, n))
          && (Makes(t, p, n) && p != [] && Parent(p) in t ==> t[Parent(p)].mode.write))
    && (calm && Ready(t, root, p) && WayOpen(t, root, p) && Replaceable(t, p, n) && (Makes(t, p, n) ==> Room(t, p)) ==> ok)
  }

  lemma DirectorySays(t: Tree, u: Tree, root: Path, e: Entry, ok: bool, calm: bool)
    requires e.before.Some? && e.before.value.kind == Directory && root in t && t[root].kind == Directory
    ensures DirectoryPut(t, u, root, e.path, e.before.value.mode, ok, calm) ==> EntryPut(t, u, root, e, ok, calm)
  {
    hide Put, WayOpen;
  }

  lemma LinkSays(t: Tree, u: Tree, root: Path, e: Entry, ok: bool, calm: bool)
    requires e.before.Some? && e.before.value.kind == SymbolicLink && root in t
    ensures LinkPut(t, u, root, e.path, e.before.value.content, ok, calm) ==> EntryPut(t, u, root, e, ok, calm)
    ensures e.path == root && !ok && t == u ==> EntryPut(t, u, root, e, ok, calm)
  {
    hide WayOpen;
    RootItself(t, root, []);
    assert root + [] == root;
    hide Put;
  }

  lemma FileSays(t: Tree, u: Tree, root: Path, e: Entry, ok: bool, calm: bool)
    requires e.before.Some? && e.before.value.kind == RegularFile
    ensures FilePut(t, u, root, e.path, e.before.value.content, e.before.value.mode, ok, calm) ==> EntryPut(t, u, root, e, ok, calm)
  {
    hide Put, WayOpen;
  }

  /** Nothing is done, without success or for something that needs nothing. */
  lemma NothingSays(t: Tree, root: Path, e: Entry, ok: bool, calm: bool)
    requires e.before.Some? && Within(e.path, root) && (ok ==> e.before.value.kind == Special)
    requires !ok ==> !WayOpen(t, root, e.path)
    ensures EntryPut(t, t, root, e, ok, calm) && SameShape(t, t) && Kept(t, t) && SameBut(t, t, root)
  {
    RootItself(t, root, e.path[|root|..]);
    assert root + e.path[|root|..] == e.path;
    hide Put, WayOpen, Kept, SameBut, SameShape;
  }

  /** A link lies where a directory was captured. */
  ghost predicate LinkedDirectory(origin: Tree, roots: seq<Path>, opencode: Path, t: Tree) {
    exists p :: p in origin && InScope(p, roots, opencode) && origin[p].kind == Directory && p in t && t[p].kind == SymbolicLink
  }

  /** A link or a special file lies where a file was captured. */
  ghost predicate OddFile(origin: Tree, roots: seq<Path>, opencode: Path, t: Tree) {
    exists p :: p in origin && InScope(p, roots, opencode) && OddForFile(t, p, origin[p])
  }

  /** No captured file has a backslash in its name or on its way. */
  ghost predicate StraightFiles(origin: Tree, roots: seq<Path>, opencode: Path) {
    forall p, i :: p in origin && InScope(p, roots, opencode) && 0 <= i < |roots| && Within(p, roots[i]) ==>
      origin[p].kind == RegularFile ==> Straight(p[|roots[i]|..])
  }

  /** Whatever was captured could be opened, each directory on the way lets a handle through,
      and each root can be looked up. */
  ghost predicate Capturable(t: Tree, roots: seq<Path>, opencode: Path) {
    && LookedUp(t, roots)
    && forall p :: p in t && InScope(p, roots, opencode) ==> CapturableAt(t, roots, p)
  }

  predicate CapturableAt(t: Tree, roots: seq<Path>, p: Path)
    requires p in t
  {
    && (t[p].kind != SymbolicLink ==> t[p].mode.read)
    && (p !in roots ==> p != [] && Parent(p) in t && t[Parent(p)].mode.search)
  }

  /** The directories that hold the roots can be searched. */
  ghost predicate LookedUp(t: Tree, roots: seq<Path>) {
    forall i :: 0 <= i < |roots| ==> roots[i] != [] && Parent(roots[i]) in t && t[Parent(roots[i])].mode.search
  }

  /** A rooted handle finds something of the right kind under a captured name, through links
      perhaps. */
  ghost predicate Resolves(t: Tree, root: Path, p: Path, kind: Kind)
    requires Within(p, root)
  {
    RootItself(t, root, p[|root|..]);
    match kind
    case Directory => EndsAtDirectory(t, root, root, p[|root|..], MAX_LINKS)
    case RegularFile => p != root && FileResolves(t, root, p[|root|..])
    case SymbolicLink => false
    case Special => true
  }

  ghost predicate AllResolve(origin: Tree, roots: seq<Path>, opencode: Path, t: Tree) {
    forall p, i :: p in origin && InScope(p, roots, opencode) && 0 <= i < |roots| && Within(p, roots[i]) ==>
      Resolves(t, roots[i], p, origin[p].kind)
  }

  lemma {:induction false} SameWalk(t: Tree, u: Tree, base: Path, here: Path, parts: seq<string>, left: nat)
    requires SameShape(t, u) && AllOpen(t, base) && WellFormed(t)
    requires Within(here, base) && here in t && t[here].kind == Directory
    ensures Walk(t, base, here, parts, left) == Walk(u, base, here, parts, left)
    decreases left, |parts|
  {
    assert Open(t[here]) && Open(u[here]) && here in u;
    if parts != [] {
      if parts[0] == "" || parts[0] == "." {
        SameWalk(t, u, base, here, parts[1..], left);
      } else if parts[0] == ".." {
        if here != base {
          ParentWithin(here, base);
          AncestorIsDirectory(t, here);
          SameWalk(t, u, base, Parent(here), parts[1..], left);
        }
      } else {
        var next := here + [parts[0]];
        ChildWithin(here, base, parts[0]);
        if next in t && t[next].kind == Directory {
          SameWalk(t, u, base, next, parts[1..], left);
        } else if next in t && t[next].kind == SymbolicLink && left > 0 && !Absolute(t[next].content) {
          SameWalk(t, u, base, here, Split(t[next].content, '/') + parts[1..], left - 1);
        }
      }
    }
  }

  lemma StillResolves(t: Tree, u: Tree, root: Path, p: Path, kind: Kind)
    requires SameShape(t, u) && Within(p, root) && Resolves(t, root, p, kind) && WellFormed(t)
    requires AllOpen(t, root) && root in t && (p != root ==> t[root].kind == Directory)
    ensures Resolves(u, root, p, kind)
  {
    var rel := p[|root|..];
    RootItself(t, root, rel);
    hide WellFormed, AllOpen, SameShape;
    if rel != [] {
      SameWalk(t, u, root, root, rel, MAX_LINKS);
      SameWalk(t, u, root, root, rel[..|rel| - 1], MAX_LINKS);
    }
    hide Walk, Within;
    ResolvedSame(t, u, root, rel);
  }

  lemma ResolvedSame(t: Tree, u: Tree, root: Path, rel: seq<string>)
    requires SameShape(t, u) && Within(root, root)
    requires rel != [] ==>
      && Walk(t, root, root, rel, MAX_LINKS) == Walk(u, root, root, rel, MAX_LINKS)
      && Walk(t, root, root, rel[..|rel| - 1], MAX_LINKS) == Walk(u, root, root, rel[..|rel| - 1], MAX_LINKS)
    ensures EndsAtDirectory(t, root, root, rel, MAX_LINKS) ==> EndsAtDirectory(u, root, root, rel, MAX_LINKS)
    ensures rel != [] && FileResolves(t, root, rel) ==> FileResolves(u, root, rel)
  {
  }

  /** What makes every captured name lead somewhere, and keeps it so. */
  ghost predicate Accessible(origin: Tree, roots: seq<Path>, opencode: Path, t: Tree) {
    && AllResolve(origin, roots, opencode, t) && StraightFiles(origin, roots, opencode)
    && (forall i :: 0 <= i < |roots| ==> AllOpen(t, roots[i]))
    && (forall p :: p in origin && InScope(p, roots, opencode) && origin[p].kind == Directory ==> Open(origin[p]))
  }

  lemma StillAccessible(origin: Tree, roots: seq<Path>, opencode: Path, t: Tree, u: Tree)
    requires SameShape(t, u) && Accessible(origin, roots, opencode, t) && WellFormed(t)
    requires forall p, i :: p in origin && InScope(p, roots, opencode) && 0 <= i < |roots| && Within(p, roots[i]) ==>
      roots[i] in t && (p != roots[i] ==> t[roots[i]].kind == Directory)
    ensures Accessible(origin, roots, opencode, u)
  {
    hide WellFormed, InScope;
    AllStillResolve(origin, roots, opencode, t, u);
    hide Within, AllResolve, StraightFiles;
  }

  lemma AllStillResolve(origin: Tree, roots: seq<Path>, opencode: Path, t: Tree, u: Tree)
    requires SameShape(t, u) && AllResolve(origin, roots, opencode, t) && WellFormed(t)
    requires forall i :: 0 <= i < |roots| ==> AllOpen(t, roots[i])
    requires forall p, i :: p in origin && InScope(p, roots, opencode) && 0 <= i < |roots| && Within(p, roots[i]) ==>
      roots[i] in t && (p != roots[i] ==> t[roots[i]].kind == Directory)
    ensures AllResolve(origin, roots, opencode, u)
  {
    hide WellFormed, InScope, Resolves, SameShape, AllOpen;
    forall p, i | p in origin && InScope(p, roots, opencode) && 0 <= i < |roots| && Within(p, roots[i])
      ensures Resolves(u, roots[i], p, origin[p].kind)
    {
      StillResolves(t, u, roots[i], p, origin[p].kind);
    }
  }

  /** A directory on the way is as little a link as one that was captured. */
  lemma StillPlain(origin: Tree, roots: seq<Path>, opencode: Path, t: Tree, u: Tree, root: Path, e: Entry)
    requires !LinkedDirectory(origin, roots, opencode, t) && e.before.Some? && e.path in origin && origin[e.path] == e.before.value
    requires Put(t, u, root, e.path, e.before.value.kind)
    ensures !LinkedDirectory(origin, roots, opencode, u)
  {
  }

  /** A captured directory whose place a link took stays a link. */
  lemma StillLinked(origin: Tree, roots: seq<Path>, opencode: Path, t: Tree, u: Tree, entries: seq<Entry>)
    requires LinkedDirectory(origin, roots, opencode, t) && Kept(t, u) && Captures(origin, roots, opencode, entries)
    ensures exists e :: e in entries && !Restored(u, e)
  {
    hide InScope;
    var p :| p in origin && InScope(p, roots, opencode) && origin[p].kind == Directory && p in t && t[p].kind == SymbolicLink;
    assert Entry(p, Some(origin[p])) in entries && !Restored(u, Entry(p, Some(origin[p])));
  }

  lemma StaysOutside(start: Tree, t: Tree, u: Tree, roots: seq<Path>, root: Path)
    requires SameOutside(start, t, roots) && SameBut(t, u, root) && root in roots
    ensures SameOutside(start, u, roots)
  {
    var i :| 0 <= i < |roots| && roots[i] == root;
  }

  lemma KeptFurther(t: Tree, mid: Tree, u: Tree)
    requires Kept(t, mid) && Kept(mid, u)
    ensures Kept(t, u)
  {
  }

  lemma ShapeFurther(t: Tree, mid: Tree, u: Tree)
    requires SameShape(t, mid) && SameShape(mid, u)
    ensures SameShape(t, u)
  {
  }

  lemma StillRestored(t: Tree, u: Tree, root: Path, p: Path, e: Entry)
    requires Grown(t, u, root, p) && e.path != p && Restored(t, e)
    ensures Restored(u, e)
  {
  }

  /** What holds of the tree while entries are put back. */
  ghost predicate Cleaned(t0: Tree, roots: seq<Path>, captured: set<Path>, start: Tree, t: Tree) {
    && WellFormed(t) && SameOutside(start, t, roots)
    && (forall i :: 0 <= i < |roots| ==> roots[i] !in t0 ==> roots[i] !in t)
    && (forall i :: 0 <= i < |roots| ==> roots[i] in t0 && t0[roots[i]].kind == Directory ==> NothingNew(t, roots[i], captured))
  }

  function Paths(entries: seq<Entry>): set<Path> {
    set e | e in entries :: e.path
  }

  lemma GrownOutside(start: Tree, t: Tree, u: Tree, roots: seq<Path>, root: Path, p: Path)
    requires SameOutside(start, t, roots) && Grown(t, u, root, p) && root in roots && Within(p, root)
    ensures SameOutside(start, u, roots)
  {
    var i :| 0 <= i < |roots| && roots[i] == root;
  }

  lemma CapturedStep(t0: Tree, roots: seq<Path>, opencode: Path, entries: seq<Entry>, e: Entry, root: Path, q: Path)
    requires WellFormed(t0) && RootsOk(roots) && Captures(t0, roots, opencode, entries)
    requires e in entries && e.before.Some? && root in roots && Within(e.path, root) && Within(q, root) && Within(e.path, q)
    ensures q in Paths(entries) && q in t0
  {
    if q == e.path {
      assert e.path in t0;
    } else {
      assert q == e.path[..|q|];
      EntryAbove(t0, roots, opencode, entries, e, root, |q|);
      assert Entry(q, Some(t0[q])) in entries;
    }
  }

  /** Putting an entry back makes nothing new: what it adds on the way was captured too. */
  lemma RestoringKeepsClean(t0: Tree, roots: seq<Path>, opencode: Path, entries: seq<Entry>, start: Tree, t: Tree, u: Tree, root: Path, e: Entry)
    requires WellFormed(t0) && RootsOk(roots) && Captures(t0, roots, opencode, entries)
    requires e in entries && e.before.Some? && root in roots && Within(e.path, root)
    requires Cleaned(t0, roots, Paths(entries), start, t) && WellFormed(u) && Grown(t, u, root, e.path)
    ensures Cleaned(t0, roots, Paths(entries), start, u)
  {
    GrownOutside(start, t, u, roots, root, e.path);
    hide WellFormed, Captures, SameOutside, RootsOk, Paths;
    forall q | q in u && q !in t
      ensures q in Paths(entries) && q in t0
    {
      CapturedStep(t0, roots, opencode, entries, e, root, q);
    }
  }

  // -------------------------------------------------------------------- the snapshot

  datatype Identity = Identity(kind: Kind, inode: nat)

  function IdentityAt(t: Tree, p: Path): Option<Identity> {
    if p in t then Some(Identity(t[p].kind, t[p].inode)) else None
  }

  ghost predicate Shrunk(t: Tree, u: Tree) {
    forall p :: p in u ==> p in t && u[p] == t[p]
  }

  ghost predicate ParentsStand(t: Tree, roots: seq<Path>) {
    forall i :: 0 <= i < |roots| ==> roots[i] != [] && Parent(roots[i]) in t && t[Parent(roots[i])].kind == Directory
  }

  lemma ParentOutside(roots: seq<Path>, i: nat)
    requires RootsOk(roots) && i < |roots|
    ensures forall j :: 0 <= j < |roots| ==> !Within(Parent(roots[i]), roots[j])
  {
    forall j | 0 <= j < |roots|
      ensures !Within(Parent(roots[i]), roots[j])
    {
      if Within(Parent(roots[i]), roots[j]) {
        assert roots[i][..|roots[j]|] == Parent(roots[i])[..|roots[j]|];
        assert Within(roots[i], roots[j]);
      }
    }
  }

  lemma ParentsStay(t: Tree, u: Tree, roots: seq<Path>)
    requires RootsOk(roots) && ParentsStand(t, roots) && SameOutside(t, u, roots)
    ensures ParentsStand(u, roots)
  {
    forall i | 0 <= i < |roots|
      ensures Parent(roots[i]) in u && u[Parent(roots[i])].kind == Directory
    {
      ParentOutside(roots, i);
    }
  }

  /** A root can be looked up; one that is new is empty and can be taken away; one that was
      there is the same file, or gone, and what is new in it can be taken away. */
  ghost predicate RootGoes(t: Tree, kinds: Preserved, id: Option<Identity>, root: Path) {
    && root != [] && Parent(root) in t && t[Parent(root)].mode.search
    && (root in t ==>
          if id.None? then Beneath(t, root) == {} && Room(t, root)
          else id == IdentityAt(t, root) && (t[root].kind == Directory ==> Clears(t, kinds, root)))
  }

  /** The captured kind of everything that was there, and None for roots that were not. */
  ghost function KindsOfAll(origin: Tree, roots: seq<Path>, opencode: Path): Preserved {
    map p | p in origin.Keys + (set r | r in roots) && (p in origin ==> InScope(p, roots, opencode)) ::
      if p in origin then Some(origin[p].kind) else None
  }

  /** There will be room for a captured name: in the directory that was captured around it,
      which is put back first, or around the root. */
  predicate MayMake(origin: Tree, roots: seq<Path>, t: Tree, p: Path) {
    p != [] &&
    if p in roots then Parent(p) in t && t[Parent(p)].mode.write else Parent(p) in origin && origin[Parent(p)].mode.write
  }

  /** Exactly what rollback needs of the trees it finds: each captured root is the same
      file still, each new root is empty, what is new in a root can be taken away, whatever is
      to be put back fits its place, and there will be room for it. */
  ghost predicate Recoverable(origin: Tree, roots: seq<Path>, opencode: Path, t: Tree) {
    && RootsRecoverable(origin, roots, opencode, t)
    && (forall p :: p in origin && InScope(p, roots, opencode) ==> Returns(origin, roots, t, p))
  }

  /** What lies at a captured place can be replaced, and there will be room for it. */
  ghost predicate Returns(origin: Tree, roots: seq<Path>, t: Tree, p: Path)
    requires p in origin
  {
    Replaceable(t, p, origin[p]) && (Makes(t, p, origin[p]) ==> MayMake(origin, roots, t, p))
  }

  /** The same for all that was captured above it. */
  ghost predicate ReturnsWithin(origin: Tree, roots: seq<Path>, opencode: Path, t: Tree, p: Path)
    requires p in origin
  {
    && Returns(origin, roots, t, p)
    && forall q :: q in origin && InScope(q, roots, opencode) && Below(p, q) ==> Returns(origin, roots, t, q)
  }

  ghost predicate RootRecoverable(origin: Tree, kinds: Preserved, root: Path, t: Tree) {
    RootGoes(t, kinds, IdentityAt(origin, root), root) && (root in origin ==> root in t)
  }

  /** Every root is the file on record. */
  ghost predicate Matching(roots: seq<Path>, identity: map<Path, Option<Identity>>, t: Tree) {
    forall i :: 0 <= i < |roots| ==> roots[i] in identity && identity[roots[i]] == IdentityAt(t, roots[i])
  }

  /** What was captured and is still there stays there. */
  ghost predicate HeldStays(origin: Tree, roots: seq<Path>, opencode: Path, t: Tree, u: Tree) {
    forall p :: p in origin && InScope(p, roots, opencode) && p in t ==> p in u
  }

  lemma CapturedIsSpared(preserved: Preserved, root: Path, p: Path)
    requires p in preserved && ClosedAbove(preserved, root) && Within(p, root) && p != root
    ensures Spared(preserved, root, p)
  {
    assert p[..|p|] == p;
    var child := root + [p[|root|]];
    assert p[..|root| + 1] == child;
    if p != child {
      assert |p| > |child|;
      assert Below(p, child);
    }
  }

  lemma HeldIsSpared(origin: Tree, roots: seq<Path>, opencode: Path, entries: seq<Entry>, preserved: Preserved, root: Path, p: Path)
    requires Captures(origin, roots, opencode, entries) && preserved.Keys == Paths(entries)
    requires ClosedAbove(preserved, root) && p in origin && InScope(p, roots, opencode) && Within(p, root)
    ensures p == root || Spared(preserved, root, p)
  {
    hide InScope, ClosedAbove, Within, Spared;
    assert Entry(p, Some(origin[p])) in entries;
    if p != root {
      CapturedIsSpared(preserved, root, p);
    }
  }

  lemma NotCapturedWithin(origin: Tree, roots: seq<Path>, root: Path, p: Path)
    requires WellFormed(origin) && root !in origin && p in origin
    ensures !Within(p, root)
  {
    if Within(p, root) {
      assert p[..|p|] == p;
      if p != root {
        AncestorsExist(origin, p, |root|);
      }
    }
  }

  lemma RootGoesSame(t: Tree, u: Tree, kinds: Preserved, id: Option<Identity>, roots: seq<Path>, i: nat, j: nat)
    requires RootsOk(roots) && i < |roots| && j < |roots| && i != j && Shrunk(t, u)
    requires forall p :: p in t && !Within(p, roots[i]) ==> p in u
    ensures RootGoes(t, kinds, id, roots[j]) <==> RootGoes(u, kinds, id, roots[j])
  {
    var root := roots[j];
    forall p | p in t && Within(p, root)
      ensures p in u
    {
      if Within(p, roots[i]) {
        OneRoot(roots, p, i, j);
      }
    }
    ParentOutside(roots, j);
    assert Parent(root) in t <==> Parent(root) in u;
    RootItself(t, root, []);
    assert Beneath(t, root) == Beneath(u, root);
    if root in t {
      ClearsSame(t, u, kinds, root);
    }
    hide Within, RootsOk, Clears;
  }

  lemma ClearsSame(t: Tree, u: Tree, kinds: Preserved, root: Path)
    requires root in t && root in u && Shrunk(t, u) && forall p :: p in t && Within(p, root) ==> p in u
    ensures Clears(t, kinds, root) <==> Clears(u, kinds, root)
  {
    forall c
      ensures ChildClears(t, kinds, root, c) <==> ChildClears(u, kinds, root, c)
    {
      assert root + [] == root;
      forall p | p in t && Within(p, root + [c])
        ensures p in u
      {
        ChildrenApart(root, c);
      }
      ChildSame(t, u, kinds, root, [], c);
    }
    hide ChildClears;
  }

  /** Every captured root is the same file still, every new one is empty, and so on. */
  ghost predicate RootsRecoverable(origin: Tree, roots: seq<Path>, opencode: Path, t: Tree) {
    forall i :: 0 <= i < |roots| ==> RootRecoverable(origin, KindsOfAll(origin, roots, opencode), roots[i], t)
  }

  /** All that lies within the roots was captured. */
  ghost predicate NothingAdded(origin: Tree, roots: seq<Path>, opencode: Path, t: Tree) {
    forall p, i :: p in t && 0 <= i < |roots| && Within(p, roots[i]) ==> p in origin && InScope(p, roots, opencode)
  }

  lemma RootIsPlain(t: Tree, root: Path)
    ensures PlainWay(t, root, [])
  {
  }

  /** A rooted handle reaches something of the right kind under every captured name, links or
      not, and there is nothing else. */
  ghost predicate Reached(origin: Tree, roots: seq<Path>, opencode: Path, t: Tree) {
    && RootsRecoverable(origin, roots, opencode, t) && NothingAdded(origin, roots, opencode, t)
    && Accessible(origin, roots, opencode, t)
  }

  /** Down to a captured entry every step is an ordinary name and a captured directory. */
  lemma WayToEntry(origin: Tree, roots: seq<Path>, opencode: Path, entries: seq<Entry>, e: Entry, root: Path, t: Tree)
    requires WellFormed(origin) && RootsOk(roots) && Captures(origin, roots, opencode, entries)
    requires e in entries && e.before.Some? && root in roots && Within(e.path, root)
    ensures var rel := e.path[|root|..];
      && root + rel == e.path && (rel == [] <==> e.path == root)
      && AllPlain(rel)
      && (!LinkedDirectory(origin, roots, opencode, t) ==>
            && (rel != [] ==> PlainWay(t, root, rel[..|rel| - 1]))
            && (e.before.value.kind == Directory ==> PlainWay(t, root, rel)))
  {
    hide WellFormed, Captures, LinkedDirectory, InScope, PlainName, RootsOk, PlainWay;
    var rel := e.path[|root|..];
    EntryNames(origin, roots, opencode, entries, e, root);
    if !LinkedDirectory(origin, roots, opencode, t) {
      if rel != [] {
        EntryWay(origin, roots, opencode, entries, e, root, t, |rel| - 1);
      }
      if e.before.value.kind == Directory {
        EntryWay(origin, roots, opencode, entries, e, root, t, |rel|);
        assert rel[..|rel|] == rel;
      }
    }
  }

  lemma EntryNames(t: Tree, roots: seq<Path>, opencode: Path, entries: seq<Entry>, e: Entry, root: Path)
    requires WellFormed(t) && Captures(t, roots, opencode, entries) && e in entries && e.before.Some? && Within(e.path, root)
    ensures forall k :: 0 <= k < |e.path[|root|..]| ==> PlainName(e.path[|root|..][k])
  {
    assert e.path in t;
    hide *;
    NamesFrom(t, e.path, |root|);
  }

  lemma NamesFrom(t: Tree, p: Path, n: nat)
    requires WellFormed(t) && p in t && n <= |p|
    ensures forall k :: 0 <= k < |p[n..]| ==> PlainName(p[n..][k])
  {
    hide PlainName, WellFormed;
    forall k | 0 <= k < |p[n..]|
      ensures PlainName(p[n..][k])
    {
      StepName(t, p, n + k);
    }
  }

  lemma StepName(t: Tree, p: Path, k: nat)
    requires WellFormed(t) && p in t && k < |p|
    ensures PlainName(p[k])
  {
    hide PlainName;
    var q := p[..k + 1];
    assert q in t by {
      if k + 1 < |p| {
        AncestorsExist(t, p, k + 1);
      } else {
        assert q == p;
      }
    }
    assert PlainName(q[|q| - 1]);
  }

  lemma EntryWay(origin: Tree, roots: seq<Path>, opencode: Path, entries: seq<Entry>, e: Entry, root: Path, t: Tree, n: nat)
    requires WellFormed(origin) && RootsOk(roots) && Captures(origin, roots, opencode, entries)
    requires e in entries && e.before.Some? && root in roots && Within(e.path, root)
    requires !LinkedDirectory(origin, roots, opencode, t)
    requires |root| + n <= |e.path| && (|root| + n < |e.path| || e.before.value.kind == Directory)
    ensures PlainWay(t, root, e.path[|root|..][..n])
  {
    hide WellFormed, Captures, LinkedDirectory, InScope, PlainName, RootsOk;
    EntryNames(origin, roots, opencode, entries, e, root);
    var way := e.path[|root|..][..n];
    forall k | 1 <= k <= |way|
      ensures !(root + way[..k] in t && t[root + way[..k]].kind == SymbolicLink)
    {
      StepIsNoLink(origin, roots, opencode, entries, e, root, t, |root| + k);
      assert root + way[..k] == e.path[..|root| + k];
    }
  }

  lemma StepIsNoLink(origin: Tree, roots: seq<Path>, opencode: Path, entries: seq<Entry>, e: Entry, root: Path, t: Tree, k: nat)
    requires WellFormed(origin) && RootsOk(roots) && Captures(origin, roots, opencode, entries)
    requires e in entries && e.before.Some? && root in roots && Within(e.path, root)
    requires |root| <= k <= |e.path| && (k < |e.path| || e.before.value.kind == Directory)
    requires !LinkedDirectory(origin, roots, opencode, t)
    ensures !(e.path[..k] in t && t[e.path[..k]].kind == SymbolicLink)
  {
    hide InScope, WellFormed;
    if k < |e.path| {
      EntryAbove(origin, roots, opencode, entries, e, root, k);
    } else {
      assert e.path[..k] == e.path;
    }
    assert InScope(e.path[..k], roots, opencode);
  }

  function Identities(t: Tree, roots: seq<Path>): (ids: map<Path, Option<Identity>>)
    ensures forall i :: 0 <= i < |roots| ==> roots[i] in ids && ids[roots[i]] == IdentityAt(t, roots[i])
  {
    map r | r in roots :: IdentityAt(t, r)
  }

  /** One entry for each of some paths of a tree. */
  method EntriesOf(t: Tree, paths: set<Path>) returns (entries: seq<Entry>)
    requires paths <= t.Keys
    ensures forall e :: e in entries <==> e.path in paths && e.before == Some(t[e.path])
    ensures DistinctPaths(entries)
  {
    entries := [];
    var rest := paths;
    while rest != {}
      invariant rest <= paths
      invariant forall e :: e in entries <==> e.path in paths - rest && e.before == Some(t[e.path])
      invariant DistinctPaths(entries)
      decreases rest
    {
      var p :| p in rest;
      rest := rest - {p};
      assert forall i :: 0 <= i < |entries| ==> entries[i] in entries;
      entries := entries + [Entry(p, Some(t[p]))];
    }
  }

  method MissingRoots(t: Tree, roots: seq<Path>) returns (entries: seq<Entry>)
    requires RootsOk(roots)
    ensures forall e :: e in entries <==> e.path in roots && e.path !in t && e.before.None?
    ensures DistinctPaths(entries)
  {
    hide RootsOk;
    entries := [];
    for i := 0 to |roots|
      invariant forall e :: e in entries <==> e.path in roots[..i] && e.path !in t && e.before.None?
      invariant DistinctPaths(entries)
    {
      if roots[i] !in t {
        DistinctRoots(roots, i);
        assert forall j :: 0 <= j < |entries| ==> entries[j] in entries;
        entries := entries + [Entry(roots[i], None)];
      }
      assert roots[..i + 1] == roots[..i] + [roots[i]];
    }
    assert roots[..|roots|] == roots;
  }

  class SnapshotState {
    const live: LiveTree
    const roots: seq<Path>
    const opencode: Path
    var entries: seq<Entry>
    var identity: map<Path, Option<Identity>>
    /** The tree the entries were captured from. */
    ghost const origin: Tree

    /** Nothing has been rolled back yet. */
    ghost predicate Fresh()
      reads this
    {
      forall i :: 0 <= i < |roots| ==> roots[i] in identity && identity[roots[i]] == IdentityAt(origin, roots[i])
    }

    /** The roots are held and nothing is captured yet. */
    ghost predicate Held()
      reads this, live`tree
    {
      && live.Valid() && RootsOk(roots) && ParentsStand(live.tree, roots) && WellFormed(origin)
      && (forall i :: 0 <= i < |roots| ==> roots[i] in identity)
      && (forall i :: 0 <= i < |roots| ==> (identity[roots[i]].None? <==> roots[i] !in origin))
      && (forall i :: 0 <= i < |roots| && roots[i] in origin ==> identity[roots[i]].value.kind == origin[roots[i]].kind)
    }

    ghost predicate Valid()
      reads this, live`tree
    {
      Held() && Captures(origin, roots, opencode, entries) && Capturable(origin, roots, opencode)
    }

    /** Hold every root of a tree. */
    constructor (live: LiveTree, roots: seq<Path>, opencode: Path)
      requires live.Valid() && RootsOk(roots) && ParentsStand(live.tree, roots)
      ensures Held() && Fresh() && this.live == live && this.roots == roots && this.opencode == opencode && origin == live.tree
    {
      hide WellFormed, ParentsStand, RootsOk;
      this.live, this.roots, this.opencode := live, roots, opencode;
      origin := live.tree;
      identity := Identities(live.tree, roots);
      entries := [];
    }

    /** Capture every root; what cannot be opened keeps everything from being captured. */
    method Capture() returns (ok: bool)
      requires Held() && Fresh() && origin == live.tree
      modifies this`entries, live`calm
      ensures Held() && (ok ==> Valid())
      ensures live.calm ==> old(live.calm) && (ok <==> Capturable(origin, roots, opencode))
    {
      hide InScope, WellFormed, ParentsStand, CapturableAt;
      var all := set p | p in live.tree && InScope(p, roots, opencode);
      var nodes := EntriesOf(live.tree, all);
      var missing := MissingRoots(live.tree, roots);
      var fails := live.Fault();
      ok := !fails && CanCapture(live.tree, roots, all);
      if ok {
        entries := nodes + missing;
      }
    }

    // ------------------------------------------------------------------ rollback

    method PreservedKinds() returns (preserved: Preserved)
      requires Valid()
      ensures preserved.Keys == Paths(entries) && preserved == KindsOfAll(origin, roots, opencode)
      ensures forall i :: 0 <= i < |roots| && roots[i] in origin ==> ClosedAbove(preserved, roots[i])
    {
      hide Captures, WellFormed, RootsOk, ParentsStand, ClosedAbove, Paths, KindsIn, Capturable;
      EntriesDistinct(origin, roots, opencode, entries);
      preserved := KindsOf(entries);
      AllKinds(origin, roots, opencode, entries, preserved);
      forall i | 0 <= i < |roots|
        ensures ClosedAbove(preserved, roots[i])
      {
        CapturedIsClosed(origin, roots, opencode, entries, preserved, roots[i]);
      }
    }

    ghost predicate RootDone(t: Tree, root: Path)
      reads this
    {
      && (root !in origin ==> root !in t)
      && (root in origin && origin[root].kind == Directory ==> NothingNew(t, root, Paths(entries)))
    }

    /** A root that came into being goes if it can; one that is a different file now is
        refused; a captured directory loses what is new in it. */
    method RemoveRooted(root: Path, preserved: Preserved) returns (ok: bool)
      requires Valid() && root in roots && preserved.Keys == Paths(entries)
      requires root in origin ==> ClosedAbove(preserved, root)
      modifies live`tree, live`calm
      ensures live.Valid() && forall p :: p in live.tree ==> p in old(live.tree) && live.tree[p] == old(live.tree)[p]
      ensures forall p :: p in old(live.tree) && !Within(p, root) ==> p in live.tree
      ensures ok ==> RootDone(live.tree, root)
      ensures identity[root].Some? ==> forall p :: p in old(live.tree) && (p == root || Spared(preserved, root, p)) ==> p in live.tree
      ensures ok ==> RootGoes(old(live.tree), preserved, identity[root], root)
      ensures live.calm ==> old(live.calm) && (RootGoes(old(live.tree), preserved, identity[root], root) ==> ok)
    {
      hide WellFormed, ParentsStand, RootsOk, Captures, Capturable, ClosedAbove, NothingNew, Paths, Spared, Clears;
      RootIsNotTop(live.tree, roots, root);
      if !live.tree[Parent(root)].mode.search {
        return false;
      }
      if root !in live.tree {
        NothingWithout(live.tree, root, Paths(entries));
        return true;
      }
      if identity[root].None? {
        ok := live.Remove(root);
        return;
      }
      if identity[root] != IdentityAt(live.tree, root) {
        return false;
      }
      if live.tree[root].kind != Directory {
        return true;
      }
      assert root + [] == root;
      ok := live.RemoveCreatedDir(root, [], root, preserved);
    }

    method ValidateRetained() returns (ok: bool)
      requires Valid()
      modifies live`calm
      ensures (ok ==> RootsMatch()) && (live.calm ==> old(live.calm) && (RootsMatch() ==> ok))
    {
      hide WellFormed, RootsOk, Captures, Capturable, Matching, LookedUp, ParentsStand;
      var fails := live.Fault();
      if fails {
        return false;
      }
      ok := RootsHeld();
    }

    method RootsHeld() returns (ok: bool)
      requires Valid()
      ensures ok <==> RootsMatch()
    {
      hide WellFormed, RootsOk, Captures, Capturable, IdentityAt;
      for i := 0 to |roots|
        invariant forall j :: 0 <= j < i ==>
          identity[roots[j]] == IdentityAt(live.tree, roots[j]) && live.tree[Parent(roots[j])].mode.search
      {
        if !live.tree[Parent(roots[i])].mode.search || identity[roots[i]] != IdentityAt(live.tree, roots[i]) {
          return false;
        }
      }
      ok := true;
    }

    /** The root an entry belongs to. */
    method RetainedRoot(p: Path) returns (root: Path)
      requires exists i :: 0 <= i < |roots| && Within(p, roots[i])
      ensures root in roots && Within(p, root)
    {
      var i :| 0 <= i < |roots| && Within(p, roots[i]);
      root := roots[i];
    }

    /** Puts back one entry through a handle on its root. */
    method RestoreEntry(e: Entry) returns (ok: bool, root: Path)
      requires Valid() && RootsMatch() && e in entries && e.before.Some?
      modifies live
      ensures live.Valid() && root in roots && Within(e.path, root)
      ensures Kept(old(live.tree), live.tree) && SameBut(old(live.tree), live.tree, root) && (live.calm ==> old(live.calm))
      ensures e.path == root && e.before.value.kind in {SymbolicLink, Special} ==> live.tree == old(live.tree)
      ensures e.path == root && e.before.value.kind == RegularFile && !ok ==> live.tree == old(live.tree)
      ensures e.path == root || Plain(old(live.tree)) ==> EntryPut(old(live.tree), live.tree, root, e, ok, live.calm)
      ensures Accessible(origin, roots, opencode, old(live.tree)) ==> SameShape(old(live.tree), live.tree) && (live.calm ==> ok)
    {
      hide WellFormed, ParentsStand, Captures, RootsOk, Matching, LinkedDirectory, InScope, Kept, SameBut, SameShape, Put, Within,
           PlainWay, Ready, EndsAtDirectory, FileResolves, PlainName, WayOpen, AllOpen, Accessible, StraightFiles, Straight,
           Capturable, LookedUp, GoneTo, DirectoryPut, LinkPut, FilePut, EntryPut;
      EntryInScope(origin, roots, opencode, entries, e);
      root := RetainedRoot(e.path);
      RootOfEntry(e, root);
      var rel, n := e.path[|root|..], e.before.value;
      WayToEntry(origin, roots, opencode, entries, e, root, live.tree);
      EntryIsStraight(e, root);
      RootItself(live.tree, root, rel);
      RootIsPlain(live.tree, root);
      AccessibleEntry(e, root, live.tree);
      RootOnWay(live.tree, root, e.path);
      if rel != [] {
        LastWay(live.tree, root, rel);
      }
      if rel != [] && !live.tree[root].mode.read {
        NothingSays(live.tree, root, e, false, live.calm);
        return false, root;
      }
      match n.kind
      case Directory =>
        ok := live.RestoreDirectory(root, rel, n.mode);
        DirectorySays(old(live.tree), live.tree, root, e, ok, live.calm);
      case SymbolicLink =>
        ok := live.RestoreLink(root, rel, n.content);
        LinkSays(old(live.tree), live.tree, root, e, ok, live.calm);
      case RegularFile =>
        ok := live.RestoreFile(root, rel, n.content, n.mode);
        FileSays(old(live.tree), live.tree, root, e, ok, live.calm);
      case Special =>
        ok := true;
        NothingSays(live.tree, root, e, true, live.calm);
    }

    /** Names without backslashes, if all captured files have such. */
    lemma EntryIsStraight(e: Entry, root: Path)
      requires Captures(origin, roots, opencode, entries) && e in entries && e.before.Some? && root in roots && Within(e.path, root)
      ensures StraightFiles(origin, roots, opencode) && e.before.value.kind == RegularFile ==> Straight(e.path[|root|..])
      ensures e.path == root ==> Straight(e.path[|root|..])
    {
      var i :| 0 <= i < |roots| && roots[i] == root;
      hide InScope;
    }

    /** What is accessible leads somewhere. */
    lemma AccessibleEntry(e: Entry, root: Path, t: Tree)
      requires Captures(origin, roots, opencode, entries) && Capturable(origin, roots, opencode) && e in entries && e.before.Some?
      requires root in roots && Within(e.path, root) && root in t && (e.path != root ==> t[root].kind == Directory)
      ensures Accessible(origin, roots, opencode, t) ==>
        && Within(root, root) && AllOpen(t, root) && e.before.value.kind != SymbolicLink
        && (e.path != root ==> t[root].mode.read) && e.before.value.mode.read
        && (e.before.value.kind == Directory ==>
              Open(e.before.value) && EndsAtDirectory(t, root, root, e.path[|root|..], MAX_LINKS))
        && (e.before.value.kind == RegularFile ==>
              Straight(e.path[|root|..]) && e.path != root && FileResolves(t, root, e.path[|root|..]))
    {
      var i :| 0 <= i < |roots| && roots[i] == root;
      RootItself(t, root, []);
      assert e.path in origin && InScope(e.path, roots, opencode);
      hide InScope, Straight, EndsAtDirectory, FileResolves;
      assert Accessible(origin, roots, opencode, t) ==> Resolves(t, root, e.path, e.before.value.kind);
    }

    /** A way that is open goes through the root. */
    lemma RootOnWay(t: Tree, root: Path, p: Path)
      requires Within(p, root) && root in t
      ensures p != root && WayOpen(t, root, p) ==> t[root].mode.read
    {
      RootItself(t, root, []);
      if p != root {
        assert Below(p, root) by {
          assert p[..|p|] == p;
        }
      }
    }

    /** While every root is the file on record, the root of an entry is there and holds it. */
    lemma RootOfEntry(e: Entry, root: Path)
      requires Valid() && RootsMatch() && e in entries && e.before.Some? && root in roots && Within(e.path, root)
      ensures root != [] && root in live.tree && live.tree[root].kind == origin[root].kind
      ensures if e.path == root then live.tree[root].kind == e.before.value.kind else live.tree[root].kind == Directory
    {
      hide WellFormed, ParentsStand, InScope;
      var i :| 0 <= i < |roots| && roots[i] == root;
      assert root in origin by {
        if e.path != root {
          EntryAbove(origin, roots, opencode, entries, e, root, |root|);
          assert e.path[..|root|] == root;
        }
      }
      if e.path != root {
        EntryAbove(origin, roots, opencode, entries, e, root, |root|);
        assert e.path[..|root|] == root;
      }
    }

    method RemoveOneRoot(i: nat, preserved: Preserved, ghost start: Tree) returns (ok: bool)
      requires Valid() && i < |roots| && preserved.Keys == Paths(entries) && preserved == KindsOfAll(origin, roots, opencode)
      requires roots[i] in origin ==> ClosedAbove(preserved, roots[i])
      requires SameOutside(start, live.tree, roots) && ParentsStand(start, roots)
      modifies live`tree, live`calm
      ensures Valid() && SameOutside(start, live.tree, roots) && Shrunk(old(live.tree), live.tree)
      ensures ok ==> RootDone(live.tree, roots[i]) && Goes(identity, old(live.tree), i)
      ensures HeldStays(origin, roots, opencode, old(live.tree), live.tree)
      ensures live.calm ==> old(live.calm) && (Goes(identity, old(live.tree), i) ==> ok)
      ensures forall p :: p in old(live.tree) && !Within(p, roots[i]) ==> p in live.tree
    {
      hide WellFormed, Captures, Capturable, ClosedAbove, Within, NothingNew, Paths, SameOutside, ParentsStand, RootsOk, InScope,
           Spared, RootGoes, KindsOfAll;
      ok := RemoveRooted(roots[i], preserved);
      ShrunkOutside(start, old(live.tree), live.tree, roots, roots[i]);
      ParentsStay(start, live.tree, roots);
      forall p | p in origin && InScope(p, roots, opencode) && p in old(live.tree)
        ensures p in live.tree
      {
        if Within(p, roots[i]) {
          if roots[i] in origin {
            HeldIsSpared(origin, roots, opencode, entries, preserved, roots[i], p);
          } else {
            NotCapturedWithin(origin, roots, roots[i], p);
          }
        }
      }
    }

    method RemoveRoots() returns (ok: bool)
      requires Valid()
      modifies live`tree, live`calm
      ensures Valid() && SameOutside(old(live.tree), live.tree, roots)
      ensures ok ==> Cleaned(origin, roots, Paths(entries), old(live.tree), live.tree)
      ensures Shrunk(old(live.tree), live.tree) && HeldStays(origin, roots, opencode, old(live.tree), live.tree)
      ensures ok ==> forall i :: 0 <= i < |roots| ==> Goes(identity, old(live.tree), i)
      ensures live.calm ==> old(live.calm) && ((forall i :: 0 <= i < |roots| ==> Goes(identity, old(live.tree), i)) ==> ok)
      ensures live.calm ==> forall i :: 0 <= i < |roots| && Goes(identity, old(live.tree), i) ==> RootDone(live.tree, roots[i])
    {
      hide WellFormed, Captures, Capturable, ClosedAbove, NothingNew, Paths, SameOutside, ParentsStand, RootsOk, RootDone, Cleaned,
           RootGoes, InScope, Within, KindsOfAll;
      NothingChanged(live.tree, roots);
      var preserved := PreservedKinds();
      ok := true;
      for i := 0 to |roots|
        invariant Valid() && SameOutside(old(live.tree), live.tree, roots)
        invariant ok ==> forall j :: 0 <= j < i ==> RootDone(live.tree, roots[j]) && Goes(identity, old(live.tree), j)
        invariant Shrunk(old(live.tree), live.tree) && HeldStays(origin, roots, opencode, old(live.tree), live.tree)
        invariant forall j :: i <= j < |roots| ==> (Goes(identity, old(live.tree), j) <==> Goes(identity, live.tree, j))
        invariant live.calm ==> old(live.calm) && ((forall j :: 0 <= j < i ==> Goes(identity, old(live.tree), j)) ==> ok)
        invariant live.calm ==> forall j :: 0 <= j < i && Goes(identity, old(live.tree), j) ==> RootDone(live.tree, roots[j])
      {
        ghost var before := live.tree;
        var done := RemoveOneRoot(i, preserved, old(live.tree));
        forall j | 0 <= j < i && RootDone(before, roots[j])
          ensures RootDone(live.tree, roots[j])
        {
          StillDone(before, live.tree, roots[j]);
        }
        forall j | i < j < |roots|
          ensures Goes(identity, before, j) <==> Goes(identity, live.tree, j)
        {
          RootGoesSame(before, live.tree, preserved, identity[roots[j]], roots, i, j);
        }
        ok := ok && done;
      }
      if ok {
        AllDone(old(live.tree));
      }
    }

    /** Whether the root is gone or can be cleaned. */
    ghost predicate Goes(ids: map<Path, Option<Identity>>, t: Tree, i: nat)
      requires i < |roots| && roots[i] in ids
    {
      RootGoes(t, KindsOfAll(origin, roots, opencode), ids[roots[i]], roots[i])
    }

    lemma StillDone(t: Tree, u: Tree, root: Path)
      requires RootDone(t, root) && Shrunk(t, u)
      ensures RootDone(u, root)
    {
    }

    lemma AllDone(start: Tree)
      requires Valid() && SameOutside(start, live.tree, roots) && forall j :: 0 <= j < |roots| ==> RootDone(live.tree, roots[j])
      ensures Cleaned(origin, roots, Paths(entries), start, live.tree)
    {
      hide WellFormed, Captures, NothingNew, Paths, SameOutside, ParentsStand, RootsOk;
    }

    ghost predicate RootsMatch()
      reads this, live`tree
    {
      Matching(roots, identity, live.tree) && LookedUp(live.tree, roots)
    }

    /** Entries from the top down; each is put back only while every root is the file on record. */
    method RestoreAll(sorted: seq<Entry>, ghost start: Tree) returns (ok: bool)
      requires Valid() && Cleaned(origin, roots, Paths(entries), start, live.tree) && ParentsStand(start, roots)
      requires DistinctPaths(sorted) && ByDepth(sorted) && forall e :: e in sorted <==> e in entries
      modifies live, this`identity
      ensures Valid() && SameOutside(start, live.tree, roots) && Kept(old(live.tree), live.tree) && (live.calm ==> old(live.calm))
      ensures Plain(old(live.tree)) ==> Cleaned(origin, roots, Paths(entries), start, live.tree)
      ensures !old(RootsMatch()) ==> live.tree == old(live.tree)
      ensures live.calm && old(RootsMatch()) && Plain(old(live.tree)) ==>
        forall e :: e in entries && FitsWithin(Rooms(start), old(live.tree), entries, e) ==> Restored(live.tree, e)
      ensures Plain(old(live.tree)) && ok ==> forall e :: e in entries ==>
        Restored(live.tree, e) && FitsOrOdd(Rooms(start), old(live.tree), e) && (e.before.Some? ==> old(RootsMatch()))
      ensures Plain(old(live.tree)) && live.calm ==>
        (forall e :: e in entries ==> Fits(Rooms(start), old(live.tree), e) && (e.before.Some? ==> old(RootsMatch()))) ==> ok
      ensures old(RootsMatch()) && Accessible(origin, roots, opencode, old(live.tree)) && live.calm ==> ok
    {
      hide WellFormed, Captures, Capturable, SameOutside, Within, ParentsStand, Cleaned, Plain, Matching, LookedUp, RootsOk, Kept,
           SameShape, Accessible, DistinctPaths, ByDepth, IdentityAt, Rooms, PutSoFar, Paths, Fits, FitsOrOdd, Restored, FitsWithin;
      ghost var matched, plain, access := RootsMatch(), Plain(live.tree), Accessible(origin, roots, opencode, live.tree);
      ghost var room, first, captured := Rooms(start), live.tree, Paths(entries);
      if plain {
        NothingPut(captured, sorted, room, start, live.tree);
      }
      NothingKept(live.tree);
      CleanedSays(origin, roots, Paths(entries), start, live.tree);
      if matched {
        RootsUnder(live.tree);
      }
      ok := true;
      for i := 0 to |sorted|
        invariant Valid() && SameOutside(start, live.tree, roots) && Kept(first, live.tree) && (live.calm ==> old(live.calm))
        invariant plain ==> PutSoFar(captured, sorted, i, room, start, first, live.tree, ok, live.calm)
        invariant matched ==> RootsMatch()
        invariant (forall j :: 0 <= j < i ==> sorted[j].before.None?) ==> live.tree == first && identity == old(identity)
        invariant forall j :: 0 <= j < i && sorted[j].before.Some? ==> matched
        invariant matched && access ==> SameShape(first, live.tree) && (live.calm ==> ok)
      {
        if sorted[i].before.None? {
          if plain {
            MissingPut(captured, sorted, i, room, start, first, live.tree, ok, live.calm);
          }
          continue;
        }
        ghost var calm := live.calm;
        var valid := ValidateRetained();
        if plain {
          LessCalm(captured, sorted, i, room, start, first, live.tree, ok, calm, live.calm);
        }
        if !valid {
          RefusedSoFar(captured, sorted, i, room, start, first, live.tree, ok, live.calm);
          return false;
        }
        ghost var before := live.tree;
        var done := TryNext(sorted, i, start, first, plain, matched && access, ok);
        KeptFurther(first, before, live.tree);
        ok := ok && done;
      }
      AllPut(captured, sorted, room, start, first, live.tree, ok, live.calm);
      if plain && live.calm {
        FittingPut(captured, sorted, room, start, first, live.tree, ok);
      }
    }

    /** One entry, and what is known so far. */
    method TryNext(sorted: seq<Entry>, i: nat, ghost start: Tree, ghost first: Tree, ghost plain: bool, ghost access: bool, ghost ok: bool)
      returns (done: bool)
      requires Valid() && SameOutside(start, live.tree, roots) && ParentsStand(start, roots)
      requires DistinctPaths(sorted) && ByDepth(sorted) && forall e :: e in sorted <==> e in entries
      requires i < |sorted| && sorted[i].before.Some? && RootsMatch()
      requires plain ==> PutSoFar(Paths(entries), sorted, i, Rooms(start), start, first, live.tree, ok, live.calm)
      requires access ==> SameShape(first, live.tree) && Accessible(origin, roots, opencode, first) && WellFormed(first)
      requires access ==> forall p, i :: p in origin && InScope(p, roots, opencode) && 0 <= i < |roots| && Within(p, roots[i]) ==>
        roots[i] in first && (p != roots[i] ==> first[roots[i]].kind == Directory)
      modifies live, this`identity
      ensures Valid() && SameOutside(start, live.tree, roots) && Kept(old(live.tree), live.tree) && (live.calm ==> old(live.calm))
      ensures RootsMatch()
      ensures plain ==> PutSoFar(Paths(entries), sorted, i + 1, Rooms(start), start, first, live.tree, ok && done, live.calm)
      ensures access ==> SameShape(first, live.tree) && (live.calm ==> done)
    {
      hide WellFormed, Captures, Capturable, SameOutside, Within, ParentsStand, Cleaned, Plain, Matching, LookedUp, RootsOk, Kept,
           SameShape, Accessible, DistinctPaths, ByDepth, Rooms, PutSoFar, Paths, Fits, FitsOrOdd, Restored, InScope, SameAt,
           FitsWithin, Below;
      ghost var before, calm := live.tree, live.calm;
      if access {
        StillAccessible(origin, roots, opencode, first, live.tree);
      }
      if plain {
        PutSoFarSays(Paths(entries), sorted, i, Rooms(start), start, first, before, ok, calm);
      }
      done := RestoreNext(sorted, i, start, first, plain);
      if plain {
        OneMorePut(Paths(entries), sorted, i, Rooms(start), start, first, before, live.tree, ok, calm, done, live.calm);
      }
      if access {
        ShapeFurther(first, before, live.tree);
      }
    }

    /** On plain ways the first `i` entries were tried: all are put back if none failed, and in
        a calm run those that fit are, whatever else failed. */
    ghost predicate PutSoFar(captured: set<Path>, sorted: seq<Entry>, i: nat, room: set<Path>, start: Tree, first: Tree, t: Tree, ok: bool, calm: bool)
      requires i <= |sorted|
    {
      && Plain(t) && Cleaned(origin, roots, captured, start, t)
      && (forall j :: i <= j < |sorted| ==> SameAt(first, t, sorted[j].path))
      && (ok ==> forall j :: 0 <= j < i ==> Restored(t, sorted[j]) && FitsOrOdd(room, first, sorted[j]))
      && (calm ==> forall j :: 0 <= j < i && FitsWithin(room, first, sorted, sorted[j]) ==> Restored(t, sorted[j]))
      && (calm && (forall j :: 0 <= j < i ==> Fits(room, first, sorted[j])) ==> ok)
    }

    lemma NothingPut(captured: set<Path>, sorted: seq<Entry>, room: set<Path>, start: Tree, t: Tree)
      requires Plain(t) && Cleaned(origin, roots, captured, start, t)
      ensures forall calm :: PutSoFar(captured, sorted, 0, room, start, t, t, true, calm)
    {
      SamePlaces(t, sorted);
      hide SameAt;
    }

    lemma LessCalm(captured: set<Path>, sorted: seq<Entry>, i: nat, room: set<Path>, start: Tree, first: Tree, t: Tree, ok: bool,
                   calm: bool, still: bool)
      requires i <= |sorted| && PutSoFar(captured, sorted, i, room, start, first, t, ok, calm) && (still ==> calm)
      ensures PutSoFar(captured, sorted, i, room, start, first, t, ok, still)
    {
    }

    lemma MissingPut(captured: set<Path>, sorted: seq<Entry>, i: nat, room: set<Path>, start: Tree, first: Tree, t: Tree, ok: bool, calm: bool)
      requires i < |sorted| && sorted[i].before.None? && PutSoFar(captured, sorted, i, room, start, first, t, ok, calm)
      ensures PutSoFar(captured, sorted, i + 1, room, start, first, t, ok, calm)
    {
      hide Plain, Cleaned, SameAt, Restored, Fits, FitsOrOdd, FitsWithin;
      var e := sorted[i];
      MissingIsRestored(t, e);
      MissingFits(room, first, e);
      assert forall j :: 0 <= j < i + 1 ==> j < i || sorted[j] == e;
    }

    lemma RefusedSoFar(captured: set<Path>, sorted: seq<Entry>, i: nat, room: set<Path>, start: Tree, first: Tree, t: Tree, ok: bool, calm: bool)
      requires i <= |sorted|
      ensures PutSoFar(captured, sorted, i, room, start, first, t, ok, calm) ==>
        && Cleaned(origin, roots, captured, start, t)
        && (calm && (forall j :: 0 <= j < i ==> Fits(room, first, sorted[j])) ==> ok)
    {
    }

    lemma PutSoFarSays(captured: set<Path>, sorted: seq<Entry>, i: nat, room: set<Path>, start: Tree, first: Tree, t: Tree, ok: bool, calm: bool)
      requires i <= |sorted| && PutSoFar(captured, sorted, i, room, start, first, t, ok, calm)
      ensures Plain(t) && Cleaned(origin, roots, captured, start, t)
      ensures forall j :: i <= j < |sorted| ==> SameAt(first, t, sorted[j].path)
    {
      hide Plain, Cleaned, SameAt;
    }

    lemma OneMorePut(captured: set<Path>, sorted: seq<Entry>, i: nat, room: set<Path>, start: Tree, first: Tree, t: Tree, u: Tree, ok: bool, calm: bool, done: bool, still: bool)
      requires i < |sorted| && PutSoFar(captured, sorted, i, room, start, first, t, ok, calm) && (still ==> calm)
      requires Plain(u) && Cleaned(origin, roots, captured, start, u)
      requires forall j :: i < j < |sorted| ==> SameAt(first, u, sorted[j].path)
      requires forall j :: 0 <= j < i && Restored(t, sorted[j]) ==> Restored(u, sorted[j])
      requires done ==> Restored(u, sorted[i])
      requires ByDepth(sorted)
      requires (forall j :: 0 <= j < i && Below(sorted[i].path, sorted[j].path) ==> Restored(t, sorted[j])) ==>
        (done ==> FitsOrOdd(room, first, sorted[i])) && (still && Fits(room, first, sorted[i]) ==> done)
      ensures PutSoFar(captured, sorted, i + 1, room, start, first, u, ok && done, still)
    {
      hide Plain, Cleaned, SameAt, Restored, Fits, FitsOrOdd;
      if FitsWithin(room, first, sorted, sorted[i]) {
        forall j | 0 <= j < i && Below(sorted[i].path, sorted[j].path)
          ensures FitsWithin(room, first, sorted, sorted[j])
        {
          FitsAbove(room, first, sorted, sorted[i], sorted[j]);
        }
      }
      hide FitsWithin, Below, ByDepth;
    }

    /** What fits with all that is above it: so does each of these. */
    lemma FitsAbove(room: set<Path>, first: Tree, sorted: seq<Entry>, e: Entry, above: Entry)
      requires FitsWithin(room, first, sorted, e) && above in sorted && Below(e.path, above.path)
      ensures FitsWithin(room, first, sorted, above)
    {
      hide Fits;
      forall a | a in sorted && Below(above.path, a.path)
        ensures Fits(room, first, a)
      {
        assert e.path[..|above.path|][..|a.path|] == e.path[..|a.path|];
      }
    }

    lemma FittingPut(captured: set<Path>, sorted: seq<Entry>, room: set<Path>, start: Tree, first: Tree, t: Tree, ok: bool)
      requires PutSoFar(captured, sorted, |sorted|, room, start, first, t, ok, true)
      requires forall e :: e in sorted <==> e in entries
      ensures forall e :: e in entries && FitsWithin(room, first, entries, e) ==> Restored(t, e)
    {
      hide Plain, Cleaned, SameAt, Restored, Fits, FitsOrOdd, Below;
      forall e | e in entries && FitsWithin(room, first, entries, e)
        ensures Restored(t, e)
      {
        assert e in sorted;
        var j :| 0 <= j < |sorted| && sorted[j] == e;
        assert FitsWithin(room, first, sorted, sorted[j]);
      }
    }

    lemma AllPut(captured: set<Path>, sorted: seq<Entry>, room: set<Path>, start: Tree, first: Tree, t: Tree, ok: bool, calm: bool)
      requires forall e :: e in sorted <==> e in entries
      ensures PutSoFar(captured, sorted, |sorted|, room, start, first, t, ok, calm) ==>
        && Cleaned(origin, roots, captured, start, t)
        && (ok ==> forall e :: e in entries ==> Restored(t, e) && FitsOrOdd(room, first, e))
        && (calm && (forall e :: e in entries ==> Fits(room, first, e)) ==> ok)
      ensures forall e :: e in entries ==> exists j :: 0 <= j < |sorted| && sorted[j] == e
    {
      hide Plain, Cleaned, SameAt, Restored, Fits, FitsOrOdd;
      forall e | e in entries
        ensures exists j :: 0 <= j < |sorted| && sorted[j] == e
      {
        assert e in sorted;
      }
    }

    /** No captured directory is a link now, and no captured file has a backslash in its name. */
    ghost predicate Plain(t: Tree) {
      !LinkedDirectory(origin, roots, opencode, t) && StraightFiles(origin, roots, opencode)
    }

    /** The places whose directory takes new names by the time they are put back. */
    ghost function Rooms(t: Tree): set<Path> {
      set p | p in origin && InScope(p, roots, opencode) && MayMake(origin, roots, t, p)
    }

    /** While every root is the file on record, whatever was captured has its root there. */
    lemma RootsUnder(t: Tree)
      requires Held() && Captures(origin, roots, opencode, entries) && Matching(roots, identity, t)
      ensures forall p, i :: p in origin && InScope(p, roots, opencode) && 0 <= i < |roots| && Within(p, roots[i]) ==>
        roots[i] in t && (p != roots[i] ==> t[roots[i]].kind == Directory)
    {
      hide WellFormed, ParentsStand, RootsOk, InScope;
      forall p, i | p in origin && InScope(p, roots, opencode) && 0 <= i < |roots| && Within(p, roots[i])
        ensures roots[i] in t && (p != roots[i] ==> t[roots[i]].kind == Directory)
      {
        var e := Entry(p, Some(origin[p]));
        assert e in entries;
        if p != roots[i] {
          EntryAbove(origin, roots, opencode, entries, e, roots[i], |roots[i]|);
          assert p[..|roots[i]|] == roots[i];
        }
        assert roots[i] in origin;
      }
    }

    method RestoreNext(sorted: seq<Entry>, i: nat, ghost start: Tree, ghost first: Tree, ghost plain: bool) returns (done: bool)
      requires Valid() && SameOutside(start, live.tree, roots) && ParentsStand(start, roots)
      requires DistinctPaths(sorted) && ByDepth(sorted) && forall e :: e in sorted <==> e in entries
      requires i < |sorted| && sorted[i].before.Some? && RootsMatch()
      requires plain ==> Plain(live.tree) && Cleaned(origin, roots, Paths(entries), start, live.tree)
      requires plain ==> forall j :: i <= j < |sorted| ==> SameAt(first, live.tree, sorted[j].path)
      modifies live, this`identity
      ensures Valid() && SameOutside(start, live.tree, roots) && Kept(old(live.tree), live.tree) && (live.calm ==> old(live.calm))
      ensures RootsMatch()
      ensures plain ==> Plain(live.tree) && Cleaned(origin, roots, Paths(entries), start, live.tree)
      ensures plain ==> forall j :: i < j < |sorted| ==> SameAt(first, live.tree, sorted[j].path)
      ensures plain ==> forall j :: 0 <= j < i && Restored(old(live.tree), sorted[j]) ==> Restored(live.tree, sorted[j])
      ensures plain && done ==> Restored(live.tree, sorted[i])
      ensures plain && (forall j :: 0 <= j < i && Below(sorted[i].path, sorted[j].path) ==> Restored(old(live.tree), sorted[j])) ==>
        && (done ==> FitsOrOdd(Rooms(start), first, sorted[i]))
        && (live.calm && Fits(Rooms(start), first, sorted[i]) ==> done)
      ensures Accessible(origin, roots, opencode, old(live.tree)) ==> SameShape(old(live.tree), live.tree) && (live.calm ==> done)
    {
      hide WellFormed, Captures, Capturable, NothingNew, Paths, SameOutside, Restored, Within, ParentsStand, Cleaned, Fits, SameAt,
           Matching, LookedUp, RootsOk, FitsOrOdd, Kept, SameShape, SameBut, EntryPut, Accessible, LinkedDirectory, StraightFiles,
           Rooms, Below;
      var e := sorted[i];
      ghost var before := live.tree;
      var root: Path;
      done, root := RestoreEntry(e);
      StaysOutside(start, before, live.tree, roots, root);
      ParentsStay(start, live.tree, roots);
      if plain {
        NextPut(sorted, i, start, first, before, root, done);
      }
      if done {
        if e.path == root {
          EntryPutSays(before, live.tree, root, e, done, live.calm);
        }
        RefreshIdentity(e, before, root);
      } else {
        RootsStay(e, before, root);
      }
    }

    lemma EntryPutSays(t: Tree, u: Tree, root: Path, e: Entry, ok: bool, calm: bool)
      requires e.before.Some? && EntryPut(t, u, root, e, ok, calm) && ok
      ensures Restored(u, e)
    {
    }

    /** What one entry put back means for all of them, no captured directory being a link. */
    lemma NextPut(sorted: seq<Entry>, i: nat, start: Tree, first: Tree, t: Tree, root: Path, done: bool)
      requires WellFormed(origin) && RootsOk(roots) && Captures(origin, roots, opencode, entries) && WellFormed(live.tree)
      requires Capturable(origin, roots, opencode) && LookedUp(t, roots) && SameOutside(start, t, roots)
      requires DistinctPaths(sorted) && ByDepth(sorted) && (forall e :: e in sorted <==> e in entries)
      requires i < |sorted| && sorted[i].before.Some? && root in roots && Within(sorted[i].path, root)
      requires Plain(t) && Cleaned(origin, roots, Paths(entries), start, t)
      requires forall j :: i <= j < |sorted| ==> SameAt(first, t, sorted[j].path)
      requires EntryPut(t, live.tree, root, sorted[i], done, live.calm)
      ensures Plain(live.tree) && Cleaned(origin, roots, Paths(entries), start, live.tree)
      ensures forall j :: i < j < |sorted| ==> SameAt(first, live.tree, sorted[j].path)
      ensures forall j :: 0 <= j < i && Restored(t, sorted[j]) ==> Restored(live.tree, sorted[j])
      ensures done ==> Restored(live.tree, sorted[i])
      ensures (forall j :: 0 <= j < i && Below(sorted[i].path, sorted[j].path) ==> Restored(t, sorted[j])) ==>
        && (done ==> FitsOrOdd(Rooms(start), first, sorted[i]))
        && (live.calm && Fits(Rooms(start), first, sorted[i]) ==> done)
    {
      var e := sorted[i];
      assert Put(t, live.tree, root, e.path, e.before.value.kind) && Grown(t, live.tree, root, e.path);
      assert e in entries && e.path in origin && origin[e.path] == e.before.value;
      hide WellFormed, Captures, Capturable, NothingNew, Paths, SameOutside, Restored, Within, Cleaned, Fits, SameAt, Grown, Put,
           RootsOk, FitsOrOdd, LinkedDirectory, StraightFiles, LookedUp, Rooms;
      RestoringKeepsClean(origin, roots, opencode, entries, start, t, live.tree, root, e);
      StillPlain(origin, roots, opencode, t, live.tree, root, e);
      LaterSame(first, t, live.tree, root, sorted, i);
      forall j | 0 <= j < i && Restored(t, sorted[j])
        ensures Restored(live.tree, sorted[j])
      {
        StillRestored(t, live.tree, root, e.path, sorted[j]);
      }
      if forall j :: 0 <= j < i && Below(e.path, sorted[j].path) ==> Restored(t, sorted[j]) {
        ParentRestored(t, sorted, i, root, start);
        EntryFits(Rooms(start), first, t, e);
        PutSays(t, root, e, start, done);
      }
    }

    /** With the directories above it put back, an entry is put back exactly if it fits. */
    lemma PutSays(t: Tree, root: Path, e: Entry, start: Tree, done: bool)
      requires e.before.Some? && EntryPut(t, live.tree, root, e, done, live.calm)
      requires Ready(t, root, e.path) && WayOpen(t, root, e.path) && e.path != [] && Parent(e.path) in t
      requires (e.path in Rooms(start) ==> Room(t, e.path)) && (t[Parent(e.path)].mode.write ==> e.path in Rooms(start))
      ensures done ==> FitsOrOdd(Rooms(start), t, e)
      ensures live.calm && Fits(Rooms(start), t, e) ==> done
    {
      hide Put, Restored, WayOpen, Ready, Rooms, Replaceable, OddForFile;
    }

    /** A directory above an entry was put back before it. */
    lemma AncestorRestored(t: Tree, sorted: seq<Entry>, i: nat, root: Path, k: nat)
      requires WellFormed(origin) && RootsOk(roots) && Captures(origin, roots, opencode, entries)
      requires i < |sorted| && sorted[i].before.Some? && root in roots && Within(sorted[i].path, root)
      requires ByDepth(sorted) && forall e :: e in sorted <==> e in entries
      requires forall j :: 0 <= j < i && Below(sorted[i].path, sorted[j].path) ==> Restored(t, sorted[j])
      requires |root| <= k < |sorted[i].path|
      ensures var q := sorted[i].path[..k];
        q in t && t[q].kind == Directory && q in origin && t[q].mode == origin[q].mode && InScope(q, roots, opencode)
    {
      hide WellFormed, RootsOk, InScope;
      var e := sorted[i];
      var q := e.path[..k];
      assert e in entries;
      EntryAbove(origin, roots, opencode, entries, e, root, k);
      var above := Entry(q, Some(origin[q]));
      assert above in sorted;
      var j :| 0 <= j < |sorted| && sorted[j] == above;
      assert j < i && Below(e.path, sorted[j].path);
      hide Captures;
      assert Restored(t, above);
    }

    /** The directories an entry lies in were put back before it, with the modes on record. */
    lemma ParentRestored(t: Tree, sorted: seq<Entry>, i: nat, root: Path, start: Tree)
      requires WellFormed(origin) && RootsOk(roots) && Captures(origin, roots, opencode, entries)
      requires Capturable(origin, roots, opencode) && LookedUp(t, roots) && SameOutside(start, t, roots)
      requires i < |sorted| && sorted[i].before.Some? && root in roots && Within(sorted[i].path, root)
      requires ByDepth(sorted) && forall e :: e in sorted <==> e in entries
      requires forall j :: 0 <= j < i && Below(sorted[i].path, sorted[j].path) ==> Restored(t, sorted[j])
      ensures var p := sorted[i].path;
        && Ready(t, root, p) && WayOpen(t, root, p) && p != [] && Parent(p) in t
        && (p in Rooms(start) ==> Room(t, p)) && (t[Parent(p)].mode.write ==> p in Rooms(start))
    {
      var e := sorted[i];
      var p := e.path;
      assert e in entries && p in origin && InScope(p, roots, opencode);
      hide Captures, InScope, WellFormed, Capturable, Restored, ByDepth, Rooms, WayOpen;
      if p == root {
        RootHasRoom(t, root, start);
        NoWay(t, root);
      } else {
        ParentPasses(t, sorted, i, root);
        NotARoot(p, root);
        hide RootsOk, SameOutside, LookedUp, Within, Passes;
        ChildHasRoom(t, p, start);
      }
    }

    lemma ParentPasses(t: Tree, sorted: seq<Entry>, i: nat, root: Path)
      requires WellFormed(origin) && RootsOk(roots) && Captures(origin, roots, opencode, entries)
      requires Capturable(origin, roots, opencode)
      requires i < |sorted| && sorted[i].before.Some? && root in roots && Within(sorted[i].path, root) && sorted[i].path != root
      requires ByDepth(sorted) && forall e :: e in sorted <==> e in entries
      requires forall j :: 0 <= j < i && Below(sorted[i].path, sorted[j].path) ==> Restored(t, sorted[j])
      ensures var p := sorted[i].path;
        && p != [] && Parent(p) in t && t[Parent(p)].kind == Directory && Parent(p) in origin
        && t[Parent(p)].mode == origin[Parent(p)].mode && Passes(t, Parent(p)) && WayOpen(t, root, p)
    {
      var p := sorted[i].path;
      hide Captures, InScope, WellFormed, Capturable, Restored, ByDepth, Passes, RootsOk, WayOpen;
      ParentWithin(p, root);
      assert |root| <= |p| - 1;
      AncestorRestored(t, sorted, i, root, |p| - 1);
      forall k | |root| <= k < |p|
        ensures Passes(t, p[..k])
      {
        AncestorPasses(t, sorted, i, root, k);
      }
      assert Passes(t, p[..|p| - 1]);
      WayOfPrefixes(t, root, p);
    }

    lemma WayOfPrefixes(t: Tree, root: Path, p: Path)
      requires Within(p, root) && forall k :: |root| <= k < |p| ==> Passes(t, p[..k])
      ensures WayOpen(t, root, p)
    {
      hide Passes;
      forall q | q in t && Within(q, root) && Below(p, q)
        ensures Passes(t, q)
      {
        assert q == p[..|q|];
      }
    }

    lemma ChildHasRoom(t: Tree, p: Path, start: Tree)
      requires p in origin && InScope(p, roots, opencode) && p !in roots && p != []
      requires Parent(p) in t && Parent(p) in origin && t[Parent(p)].mode == origin[Parent(p)].mode && Passes(t, Parent(p))
      ensures (p in Rooms(start) ==> Room(t, p)) && (t[Parent(p)].mode.write ==> p in Rooms(start))
    {
      hide InScope;
    }

    lemma RootHasRoom(t: Tree, root: Path, start: Tree)
      requires RootsOk(roots) && LookedUp(t, roots) && SameOutside(start, t, roots) && root in roots
      requires root in origin && InScope(root, roots, opencode)
      ensures root != [] && Parent(root) in t
      ensures (root in Rooms(start) ==> Room(t, root)) && (t[Parent(root)].mode.write ==> root in Rooms(start))
    {
      var i :| 0 <= i < |roots| && roots[i] == root;
      ParentOutside(roots, i);
      hide InScope;
    }

    lemma NotARoot(p: Path, root: Path)
      requires RootsOk(roots) && root in roots && Within(p, root) && p != root
      ensures p !in roots
    {
      if p in roots {
        SameRoot(p, root);
      }
    }

    lemma AncestorPasses(t: Tree, sorted: seq<Entry>, i: nat, root: Path, k: nat)
      requires WellFormed(origin) && RootsOk(roots) && Captures(origin, roots, opencode, entries)
      requires Capturable(origin, roots, opencode)
      requires i < |sorted| && sorted[i].before.Some? && root in roots && Within(sorted[i].path, root)
      requires ByDepth(sorted) && forall e :: e in sorted <==> e in entries
      requires forall j :: 0 <= j < i && Below(sorted[i].path, sorted[j].path) ==> Restored(t, sorted[j])
      requires |root| <= k < |sorted[i].path|
      ensures Passes(t, sorted[i].path[..k])
    {
      assert sorted[i] in entries;
      AncestorRestored(t, sorted, i, root, k);
      PassesOnRecord(sorted[i], root, k);
      hide *;
      PassesAlike(t, origin, sorted[i].path[..k]);
    }

    /** A directory around something captured was readable and searchable. */
    lemma PassesOnRecord(e: Entry, root: Path, k: nat)
      requires WellFormed(origin) && RootsOk(roots) && Captures(origin, roots, opencode, entries)
      requires Capturable(origin, roots, opencode) && e in entries && e.before.Some? && root in roots && Within(e.path, root)
      requires |root| <= k < |e.path|
      ensures Passes(origin, e.path[..k])
    {
      var q, next := e.path[..k], e.path[..k + 1];
      assert e.path in origin && InScope(e.path, roots, opencode);
      hide InScope, WellFormed;
      EntryAbove(origin, roots, opencode, entries, e, root, k);
      if k + 1 < |e.path| {
        EntryAbove(origin, roots, opencode, entries, e, root, k + 1);
      } else {
        assert next == e.path;
      }
      hide Within;
      InRootStep(e.path, root, k);
      NotARoot(next, root);
      hide RootsOk;
      assert InScope(q, roots, opencode) && InScope(next, roots, opencode);
      hide Captures;
      assert CapturableAt(origin, roots, q) && CapturableAt(origin, roots, next);
    }

    lemma InRootStep(p: Path, root: Path, k: nat)
      requires Within(p, root) && |root| <= k < |p|
      ensures Within(p[..k + 1], root) && p[..k + 1] != root && Parent(p[..k + 1]) == p[..k]
    {
      assert p[..k + 1][..|root|] == p[..|root|];
    }

    lemma PassesAlike(t: Tree, u: Tree, q: Path)
      requires q in t && q in u && t[q].mode == u[q].mode && Passes(u, q)
      ensures Passes(t, q)
    {
    }

    /** A root that is a file has a new inode now. */
    method RefreshIdentity(e: Entry, ghost before: Tree, ghost root: Path)
      requires Valid() && e in entries && e.before.Some? && root in roots && Within(e.path, root)
      requires Kept(before, live.tree) && SameBut(before, live.tree, root) && Matching(roots, identity, before) && LookedUp(before, roots)
      requires e.path == root ==> Restored(live.tree, e) && (e.before.value.kind in {SymbolicLink, Special} ==> live.tree == before)
      modifies this`identity
      ensures Valid() && RootsMatch()
    {
      hide WellFormed, ParentsStand, Capturable, Captures, InScope;
      LookedUpStays(before, live.tree, roots, root);
      hide LookedUp;
      RootStays(e, before, root);
      if e.before.value.kind == RegularFile && e.path in roots {
        assert e.path == root by {
          SameRoot(e.path, root);
        }
        identity := identity[e.path := IdentityAt(live.tree, e.path)];
      }
      forall i | 0 <= i < |roots|
        ensures identity[roots[i]] == IdentityAt(live.tree, roots[i])
      {
        if roots[i] != root {
          assert !Within(roots[i], root) by {
            var j :| 0 <= j < |roots| && roots[j] == root;
          }
        }
      }
    }

    /** An entry that was not put back leaves every root the file on record. */
    lemma RootsStay(e: Entry, before: Tree, root: Path)
      requires Valid() && e in entries && e.before.Some? && root in roots && Within(e.path, root)
      requires Kept(before, live.tree) && SameBut(before, live.tree, root) && Matching(roots, identity, before) && LookedUp(before, roots)
      requires e.path == root && e.before.value.kind != Directory ==> live.tree == before
      ensures RootsMatch()
    {
      hide WellFormed, ParentsStand, Capturable;
      LookedUpStays(before, live.tree, roots, root);
      hide LookedUp;
      RootIsKept(e, before, root);
      forall i | 0 <= i < |roots|
        ensures identity[roots[i]] == IdentityAt(live.tree, roots[i])
      {
        if roots[i] != root {
          assert !Within(roots[i], root) by {
            var j :| 0 <= j < |roots| && roots[j] == root;
          }
        }
      }
    }

    lemma RootIsKept(e: Entry, before: Tree, root: Path)
      requires Valid() && e in entries && e.before.Some? && root in roots && Within(e.path, root)
      requires Kept(before, live.tree) && Matching(roots, identity, before)
      requires e.path == root && e.before.value.kind != Directory ==> live.tree == before
      ensures IdentityAt(before, root) == IdentityAt(live.tree, root)
    {
      var i :| 0 <= i < |roots| && roots[i] == root;
      if e.path != root {
        EntryAbove(origin, roots, opencode, entries, e, root, |root|);
        assert e.path[..|root|] == root;
      }
      hide WellFormed, ParentsStand, InScope, Capturable;
    }

    lemma SameRoot(p: Path, root: Path)
      requires RootsOk(roots) && p in roots && root in roots && Within(p, root)
      ensures p == root
    {
      var i :| 0 <= i < |roots| && roots[i] == p;
      var j :| 0 <= j < |roots| && roots[j] == root;
    }

    lemma RootStays(e: Entry, before: Tree, root: Path)
      requires Valid() && e in entries && e.before.Some? && root in roots && Within(e.path, root)
      requires Kept(before, live.tree) && Matching(roots, identity, before)
      requires e.path == root ==> Restored(live.tree, e) && (e.before.value.kind in {SymbolicLink, Special} ==> live.tree == before)
      ensures root in origin && (e.path == root ==> e.before.value == origin[root])
      ensures e.path != root || e.before.value.kind != RegularFile ==> IdentityAt(before, root) == IdentityAt(live.tree, root)
    {
      var i :| 0 <= i < |roots| && roots[i] == root;
      if e.path != root {
        EntryAbove(origin, roots, opencode, entries, e, root, |root|);
        assert e.path[..|root|] == root;
      }
      hide WellFormed, ParentsStand, InScope;
    }

    ghost predicate RolledBack()
      reads this, live
    {
      && (forall e :: e in entries ==> Restored(live.tree, e))
      && (forall i :: 0 <= i < |roots| ==> RootDone(live.tree, roots[i]))
    }

    /** Whatever happened to the trees since they were captured, nothing outside the roots
        changes. If no captured file has a backslash in its name and rollback reports no error,
        then every captured file has its bytes and mode again, every captured directory and link
        is there, nothing new lies directly under a captured root directory and a root that did
        not exist does not exist, if and only if no link lay in a captured directory's place:
        such a link is followed without a word. */
    method Rollback() returns (ok: bool)
      requires Valid() && Fresh()
      modifies live, this`identity
      ensures live.Valid() && SameOutside(old(live.tree), live.tree, roots) && (live.calm ==> old(live.calm))
      ensures ok && RolledBack() ==> !LinkedDirectory(origin, roots, opencode, old(live.tree))
      ensures ok && StraightFiles(origin, roots, opencode) ==>
        (RolledBack() <==> !LinkedDirectory(origin, roots, opencode, old(live.tree)))
      ensures live.calm && StraightFiles(origin, roots, opencode) ==>
        Recoverable(origin, roots, opencode, old(live.tree)) ==> ok && RolledBack()
      ensures ok && StraightFiles(origin, roots, opencode) && RolledBack() ==>
        !OddFile(origin, roots, opencode, old(live.tree)) ==> Recoverable(origin, roots, opencode, old(live.tree))
      ensures live.calm && Reached(origin, roots, opencode, old(live.tree)) ==> ok
      ensures live.calm && RootsRecoverable(origin, roots, opencode, old(live.tree)) && StraightFiles(origin, roots, opencode) ==>
        !LinkedDirectory(origin, roots, opencode, old(live.tree)) ==>
          forall p :: p in origin && InScope(p, roots, opencode) && ReturnsWithin(origin, roots, opencode, old(live.tree), p) ==>
            Restored(live.tree, Entry(p, Some(origin[p])))
      ensures !RootsRecoverable(origin, roots, opencode, old(live.tree)) ==>
        && Shrunk(old(live.tree), live.tree)
        && (live.calm ==> forall i :: 0 <= i < |roots| && Goes(old(identity), old(live.tree), i) ==> RootDone(live.tree, roots[i]))
    {
      hide WellFormed, Captures, Capturable, NothingNew, Paths, SameOutside, Restored, Within, ParentsStand, Cleaned, RootsOk, OddFile,
           RootGoes, Matching, LookedUp, Fits, FitsOrOdd, Shrunk, HeldStays, LinkedDirectory, StraightFiles, Kept, Accessible,
           RootsRecoverable, NothingAdded, InScope, Replaceable, Recoverable, Reached, Goes, Rooms, ReturnsWithin, FitsWithin;
      ghost var found, ids := live.tree, identity;
      ok := RemoveRoots();
      ghost var t := live.tree;
      OnlyRoots(origin, roots, opencode, found);
      if RootsRecoverable(origin, roots, opencode, found) {
        GoesIsNeeded(found);
      }
      if !ok {
        return;
      }
      var sorted := SortByDepth(entries);
      SortedEntries(sorted);
      CleanedSays(origin, roots, Paths(entries), found, t);
      LinkedSame(origin, roots, opencode, found, t);
      GoneAreLookedUp(found, t);
      if Recoverable(origin, roots, opencode, found) {
        RecoverableFits(found, t);
      }
      if Reached(origin, roots, opencode, found) {
        NothingTaken(found, t);
      }
      if !OddFile(origin, roots, opencode, found) &&
         forall e :: e in entries ==> FitsOrOdd(Rooms(found), t, e) && (e.before.Some? ==> RootsMatch()) {
        FitsRecoverable(found, t);
      }
      if RootsRecoverable(origin, roots, opencode, found) {
        StillMatching(found, t);
        forall p | p in origin && InScope(p, roots, opencode) && ReturnsWithin(origin, roots, opencode, found, p)
          ensures Entry(p, Some(origin[p])) in entries && FitsWithin(Rooms(found), t, entries, Entry(p, Some(origin[p])))
        {
          ReturnsFits(found, t, p);
        }
      } else {
        MissingRoot(found, t);
      }
      ok := RestoreAll(sorted, found);
      if Plain(t) {
        CleanedSays(origin, roots, Paths(entries), found, live.tree);
      }
      if LinkedDirectory(origin, roots, opencode, t) {
        StillLinked(origin, roots, opencode, t, live.tree, entries);
      }
    }

    lemma SortedEntries(sorted: seq<Entry>)
      requires Captures(origin, roots, opencode, entries) && sorted == SortByDepth(entries)
      ensures DistinctPaths(sorted) && ByDepth(sorted) && forall e :: e in sorted <==> e in entries
    {
      EntriesDistinct(origin, roots, opencode, entries);
      SortDistinct(entries);
      SortByDepthSound(entries);
      hide *;
      forall e
        ensures e in sorted <==> e in entries
      {
        assert e in multiset(sorted) <==> e in multiset(entries);
      }
    }

    lemma GoesIsNeeded(found: Tree)
      requires Fresh() && RootsRecoverable(origin, roots, opencode, found)
      ensures forall i :: 0 <= i < |roots| ==> Goes(identity, found, i)
    {
      hide Replaceable, InScope, Beneath, Clears, Accessible, KindsOfAll, NothingAdded;
      forall i | 0 <= i < |roots|
        ensures Goes(identity, found, i)
      {
        assert RootRecoverable(origin, KindsOfAll(origin, roots, opencode), roots[i], found);
      }
    }

    /** Roots that could be cleaned can still be looked up. */
    lemma GoneAreLookedUp(found: Tree, t: Tree)
      requires RootsOk(roots) && SameOutside(found, t, roots) && forall i :: 0 <= i < |roots| ==> roots[i] in identity
      requires forall i :: 0 <= i < |roots| ==> Goes(identity, found, i)
      ensures LookedUp(t, roots)
    {
      hide KindsOfAll, Clears, Beneath;
      forall i | 0 <= i < |roots|
        ensures roots[i] != [] && Parent(roots[i]) in t && t[Parent(roots[i])].mode.search
      {
        ParentOutside(roots, i);
        assert Goes(identity, found, i);
      }
    }

    /** When all that lies within the roots was captured, taking away what is new takes nothing. */
    lemma NothingTaken(found: Tree, t: Tree)
      requires Fresh() && Reached(origin, roots, opencode, found)
      requires Shrunk(found, t) && HeldStays(origin, roots, opencode, found, t) && SameOutside(found, t, roots)
      ensures t == found && Matching(roots, identity, t) && Accessible(origin, roots, opencode, t)
    {
      hide InScope, Beneath, Accessible, Within, Clears, KindsOfAll;
      forall p | p in found
        ensures p in t
      {
        if i :| 0 <= i < |roots| && Within(p, roots[i]) {
          assert p in origin && InScope(p, roots, opencode);
        }
      }
      forall i | 0 <= i < |roots|
        ensures identity[roots[i]] == IdentityAt(found, roots[i])
      {
        assert RootRecoverable(origin, KindsOfAll(origin, roots, opencode), roots[i], found);
        RootItself(found, roots[i], []);
      }
    }

    lemma RecoverableFits(found: Tree, t: Tree)
      requires Valid() && Fresh() && Shrunk(found, t) && HeldStays(origin, roots, opencode, found, t)
      requires forall i :: 0 <= i < |roots| ==> roots[i] !in origin ==> roots[i] !in t
      requires Recoverable(origin, roots, opencode, found)
      ensures Matching(roots, identity, t) && !LinkedDirectory(origin, roots, opencode, found)
      ensures forall e :: e in entries ==> Fits(Rooms(found), t, e)
    {
      hide WellFormed, ParentsStand, RootsOk, Replaceable, Makes, MayMake, Beneath, InScope, Capturable, Clears, KindsOfAll;
      StillMatching(found, t);
      forall e | e in entries && e.before.Some?
        ensures Fits(Rooms(found), t, e)
      {
        SamePlace(found, t, e.path, e.before.value);
      }
      RecoverableIsPlain(origin, roots, opencode, found);
    }

    /** Taking away what is new leaves every recoverable root the file on record. */
    lemma StillMatching(found: Tree, t: Tree)
      requires Valid() && Fresh() && Shrunk(found, t) && HeldStays(origin, roots, opencode, found, t)
      requires forall i :: 0 <= i < |roots| ==> roots[i] !in origin ==> roots[i] !in t
      requires RootsRecoverable(origin, roots, opencode, found)
      ensures Matching(roots, identity, t)
    {
      hide WellFormed, ParentsStand, RootsOk, Beneath, InScope, Capturable, Clears, KindsOfAll;
      forall i | 0 <= i < |roots|
        ensures identity[roots[i]] == IdentityAt(t, roots[i])
      {
        assert RootRecoverable(origin, KindsOfAll(origin, roots, opencode), roots[i], found);
        if roots[i] in origin {
          RootInScope(roots, opencode, i);
        }
      }
    }

    /** A captured root that is gone is noticed. */
    lemma MissingRoot(found: Tree, t: Tree)
      requires Valid() && Fresh() && Shrunk(found, t) && !RootsRecoverable(origin, roots, opencode, found)
      requires forall i :: 0 <= i < |roots| ==> Goes(identity, found, i)
      ensures !Matching(roots, identity, t)
    {
      hide WellFormed, ParentsStand, RootsOk, Beneath, InScope, Capturable, Clears, KindsOfAll;
      var i :| 0 <= i < |roots| && !RootRecoverable(origin, KindsOfAll(origin, roots, opencode), roots[i], found);
      assert Goes(identity, found, i);
      assert roots[i] in origin && roots[i] !in found;
    }

    lemma ReturnsFits(found: Tree, t: Tree, p: Path)
      requires Valid() && Fresh() && Shrunk(found, t) && HeldStays(origin, roots, opencode, found, t)
      requires p in origin && InScope(p, roots, opencode) && ReturnsWithin(origin, roots, opencode, found, p)
      ensures Entry(p, Some(origin[p])) in entries && FitsWithin(Rooms(found), t, entries, Entry(p, Some(origin[p])))
    {
      hide WellFormed, ParentsStand, RootsOk, Replaceable, Makes, MayMake, InScope, Capturable, Below;
      var e := Entry(p, Some(origin[p]));
      SamePlace(found, t, p, origin[p]);
      forall a | a in entries && Below(e.path, a.path) && a.before.Some?
        ensures Fits(Rooms(found), t, a)
      {
        assert Returns(origin, roots, found, a.path);
        SamePlace(found, t, a.path, a.before.value);
      }
    }

    /** Once the roots are clean, what is left to ask is whether every root that was there is
        the file on record and every entry fits its place. */
    lemma FitsRecoverable(found: Tree, t: Tree)
      requires Valid() && Fresh() && Shrunk(found, t) && HeldStays(origin, roots, opencode, found, t)
      requires forall i :: 0 <= i < |roots| ==> Goes(identity, found, i)
      requires forall e :: e in entries ==> FitsOrOdd(Rooms(found), t, e) && (e.before.Some? ==> Matching(roots, identity, t))
      requires !OddFile(origin, roots, opencode, found)
      ensures Recoverable(origin, roots, opencode, found)
    {
      hide WellFormed, ParentsStand, RootsOk, Replaceable, Makes, MayMake, OddForFile, Beneath, InScope, Capturable, RootGoes, KindsOfAll;
      forall i | 0 <= i < |roots|
        ensures RootRecoverable(origin, KindsOfAll(origin, roots, opencode), roots[i], found)
      {
        assert Goes(identity, found, i);
        if roots[i] in origin {
          RootInScope(roots, opencode, i);
          assert Entry(roots[i], Some(origin[roots[i]])) in entries;
        }
      }
      forall p | p in origin && InScope(p, roots, opencode)
        ensures Replaceable(found, p, origin[p]) && (Makes(found, p, origin[p]) ==> MayMake(origin, roots, found, p))
      {
        assert FitsOrOdd(Rooms(found), t, Entry(p, Some(origin[p])));
        SamePlace(found, t, p, origin[p]);
      }
    }
  }

  lemma OnlyRoots(origin: Tree, roots: seq<Path>, opencode: Path, t: Tree)
    ensures Recoverable(origin, roots, opencode, t) || Reached(origin, roots, opencode, t) ==> RootsRecoverable(origin, roots, opencode, t)
  {
  }

  lemma RecoverableIsPlain(origin: Tree, roots: seq<Path>, opencode: Path, t: Tree)
    requires Recoverable(origin, roots, opencode, t)
    ensures !LinkedDirectory(origin, roots, opencode, t)
  {
    hide InScope;
  }

  lemma LinkedSame(origin: Tree, roots: seq<Path>, opencode: Path, t: Tree, u: Tree)
    requires Shrunk(t, u) && HeldStays(origin, roots, opencode, t, u)
    ensures LinkedDirectory(origin, roots, opencode, t) <==> LinkedDirectory(origin, roots, opencode, u)
  {
    hide InScope;
  }

  lemma NothingKept(t: Tree)
    ensures Kept(t, t) && SameShape(t, t)
  {
  }

  /** Whether all that was captured can be written back in place: no link, no file with a second
      name, no file in a directory that is read-only. */
  ghost predicate WritesBack(t: Tree, roots: seq<Path>, opencode: Path) {
    forall p :: p in t && InScope(p, roots, opencode) ==>
      && t[p].kind != SymbolicLink
      && (t[p].kind == RegularFile ==> t[p].links == 1 && MayMake(t, roots, t, p))
  }

  /** Even trees that nobody touched can be rolled back only if no link was captured, no
      captured file has a second name and none lies in a read-only directory: a link still in
      place cannot be made again, and a file is written beside the old one. */
  lemma UntouchedIsRecoverable(t: Tree, roots: seq<Path>, opencode: Path)
    requires WellFormed(t) && RootsOk(roots) && Capturable(t, roots, opencode)
    ensures Recoverable(t, roots, opencode, t) <==> WritesBack(t, roots, opencode)
  {
    forall i | 0 <= i < |roots|
      ensures RootRecoverable(t, KindsOfAll(t, roots, opencode), roots[i], t)
    {
      UntouchedRoot(t, roots, opencode, i);
    }
    hide InScope, MayMake, WellFormed, RootsOk, LookedUp, KindsOfAll, RootRecoverable;
    forall p | p in t && InScope(p, roots, opencode)
      ensures (Replaceable(t, p, t[p]) && (Makes(t, p, t[p]) ==> MayMake(t, roots, t, p))) <==>
        t[p].kind != SymbolicLink && (t[p].kind == RegularFile ==> t[p].links == 1 && MayMake(t, roots, t, p))
    {
      assert CapturableAt(t, roots, p);
    }
    hide Replaceable, Makes;
  }

  lemma UntouchedRoot(t: Tree, roots: seq<Path>, opencode: Path, i: nat)
    requires WellFormed(t) && RootsOk(roots) && Capturable(t, roots, opencode) && i < |roots|
    ensures RootRecoverable(t, KindsOfAll(t, roots, opencode), roots[i], t)
  {
    RootInScope(roots, opencode, i);
    hide InScope, WellFormed, RootsOk, KindsOfAll, Clears;
    if roots[i] in t && t[roots[i]].kind == Directory {
      assert CapturableAt(t, roots, roots[i]);
      UntouchedClears(t, roots, opencode, i);
    }
  }

  lemma UntouchedClears(t: Tree, roots: seq<Path>, opencode: Path, i: nat)
    requires i < |roots| && roots[i] in t && t[roots[i]].mode.read
    ensures Clears(t, KindsOfAll(t, roots, opencode), roots[i])
  {
    hide InScope;
    var root, kinds := roots[i], KindsOfAll(t, roots, opencode);
    forall c
      ensures ChildClears(t, kinds, root, c)
    {
      ChildInScope(roots, opencode, i, c);
      hide Emptiable, Room;
    }
    hide ChildClears;
  }

  /** What lies directly in a root is captured. */
  lemma ChildInScope(roots: seq<Path>, opencode: Path, i: nat, c: string)
    requires i < |roots|
    ensures InScope(roots[i] + [c], roots, opencode)
  {
    var p := roots[i] + [c];
    assert p[..|roots[i]|] == roots[i] && p[|roots[i]|..] == [c];
    assert Within(p, roots[i]) && !Skipped(p, roots[i], opencode);
  }

  lemma LookedUpStays(t: Tree, u: Tree, roots: seq<Path>, root: Path)
    requires RootsOk(roots) && LookedUp(t, roots) && SameBut(t, u, root) && root in roots
    ensures LookedUp(u, roots)
  {
    var j :| 0 <= j < |roots| && roots[j] == root;
    forall i | 0 <= i < |roots|
      ensures roots[i] != [] && Parent(roots[i]) in u && u[Parent(roots[i])].mode.search
    {
      ParentOutside(roots, i);
    }
  }

  lemma RootInScope(roots: seq<Path>, opencode: Path, i: nat)
    requires i < |roots|
    ensures InScope(roots[i], roots, opencode)
  {
    assert roots[i][..|roots[i]|] == roots[i] && roots[i][|roots[i]|..] == [];
  }

  /** Whether the roots can be looked up and all that is to be captured can be opened. */
  predicate CanCapture(t: Tree, roots: seq<Path>, all: set<Path>)
    requires all <= t.Keys
  {
    && (forall r :: r in roots ==> r != [] && Parent(r) in t && t[Parent(r)].mode.search)
    && (forall p :: p in all ==> CapturableAt(t, roots, p))
  }

  /** The kinds collected from the entries are those of all that was captured. */
  lemma AllKinds(t: Tree, roots: seq<Path>, opencode: Path, entries: seq<Entry>, preserved: Preserved)
    requires Captures(t, roots, opencode, entries) && preserved.Keys == Paths(entries) && KindsIn(preserved, entries)
    ensures preserved == KindsOfAll(t, roots, opencode)
  {
    hide InScope;
    var all := KindsOfAll(t, roots, opencode);
    forall p | p in preserved
      ensures p in all && all[p] == preserved[p]
    {
      var e :| e in entries && e.path == p;
      var j :| 0 <= j < |entries| && entries[j] == e;
    }
    forall p | p in all
      ensures p in preserved
    {
      if p in t {
        assert Entry(p, Some(t[p])) in entries;
      } else {
        var i :| 0 <= i < |roots| && roots[i] == p;
        assert Entry(p, None) in entries;
      }
    }
  }

  lemma NothingChanged(t: Tree, roots: seq<Path>)
    ensures SameOutside(t, t, roots)
  {
  }

  lemma ShrunkOutside(start: Tree, t: Tree, u: Tree, roots: seq<Path>, root: Path)
    requires SameOutside(start, t, roots) && root in roots
    requires forall p :: p in u ==> p in t && u[p] == t[p]
    requires forall p :: p in t && !Within(p, root) ==> p in u
    ensures SameOutside(start, u, roots)
  {
    var i :| 0 <= i < |roots| && roots[i] == root;
  }

  lemma MissingIsRestored(t: Tree, e: Entry)
    ensures e.before.None? ==> Restored(t, e)
  {
  }

  lemma CleanedSays(t0: Tree, roots: seq<Path>, captured: set<Path>, start: Tree, t: Tree)
    requires Cleaned(t0, roots, captured, start, t)
    ensures SameOutside(start, t, roots)
    ensures forall i :: 0 <= i < |roots| ==>
      (roots[i] !in t0 ==> roots[i] !in t) && (roots[i] in t0 && t0[roots[i]].kind == Directory ==> NothingNew(t, roots[i], captured))
  {
  }

  lemma EntriesDistinct(t: Tree, roots: seq<Path>, opencode: Path, entries: seq<Entry>)
    requires Captures(t, roots, opencode, entries)
    ensures DistinctPaths(entries)
  {
  }

  method KindsOf(entries: seq<Entry>) returns (preserved: Preserved)
    requires DistinctPaths(entries)
    ensures preserved.Keys == Paths(entries) && KindsIn(preserved, entries)
  {
    preserved := map[];
    for i := 0 to |entries|
      invariant preserved.Keys == Paths(entries[..i])
      invariant forall j :: 0 <= j < i ==> entries[j].path in preserved && preserved[entries[j].path] == KindOf(entries[j])
    {
      assert entries[..i + 1] == entries[..i] + [entries[i]];
      preserved := preserved[entries[i].path := KindOf(entries[i])];
    }
    assert entries[..|entries|] == entries;
  }

  /** Capture, let anything happen to the trees, fail, and roll back. */
  method ApplyFailing(live: LiveTree, roots: seq<Path>, opencode: Path, after: Tree)
    returns (s: SnapshotState, captured: bool, ok: bool)
    requires live.Valid() && RootsOk(roots) && ParentsStand(live.tree, roots)
    requires WellFormed(after) && ParentsStand(after, roots)
    modifies live
    ensures s.origin == old(live.tree) && s.roots == roots && s.opencode == opencode && s.live == live && (live.calm ==> old(live.calm))
    ensures captured ==> Capturable(old(live.tree), roots, opencode)
    ensures live.calm && Capturable(old(live.tree), roots, opencode) ==> captured
    ensures !captured ==> live.tree == old(live.tree) && !ok
    ensures captured ==> SameOutside(after, live.tree, roots)
    ensures ok && s.RolledBack() ==> !LinkedDirectory(old(live.tree), roots, opencode, after)
    ensures ok && StraightFiles(old(live.tree), roots, opencode) ==>
      (s.RolledBack() <==> !LinkedDirectory(old(live.tree), roots, opencode, after))
    ensures captured && live.calm && StraightFiles(old(live.tree), roots, opencode) ==>
      Recoverable(old(live.tree), roots, opencode, after) ==> ok && s.RolledBack()
    ensures ok && StraightFiles(old(live.tree), roots, opencode) && s.RolledBack() ==>
      !OddFile(old(live.tree), roots, opencode, after) ==> Recoverable(old(live.tree), roots, opencode, after)
    ensures captured && live.calm && Reached(old(live.tree), roots, opencode, after) ==> ok
    ensures captured && live.calm && RootsRecoverable(old(live.tree), roots, opencode, after) ==>
      StraightFiles(old(live.tree), roots, opencode) && !LinkedDirectory(old(live.tree), roots, opencode, after) ==>
        forall p :: p in old(live.tree) && InScope(p, roots, opencode) ==>
          ReturnsWithin(old(live.tree), roots, opencode, after, p) ==> Restored(live.tree, Entry(p, Some(old(live.tree)[p])))
  {
    hide WellFormed, ParentsStand, RootsOk, Captures, Capturable, SameOutside, Recoverable, LinkedDirectory, OddFile, Reached,
         StraightFiles, RootsRecoverable, ReturnsWithin, InScope, Restored;
    s := new SnapshotState(live, roots, opencode);
    captured := s.Capture();
    if !captured {
      return s, false, false;
    }
    live.tree := after;
    ok := s.Rollback();
  }

  /** Rolling back what nobody touched: for straight names it works exactly if everything can
      be written back in place. */
  method RollBackUntouched(live: LiveTree, roots: seq<Path>, opencode: Path)
    returns (s: SnapshotState, captured: bool, ok: bool)
    requires live.Valid() && RootsOk(roots) && ParentsStand(live.tree, roots)
    modifies live
    ensures s.live == live && (live.calm ==> old(live.calm))
    ensures live.calm && Capturable(old(live.tree), roots, opencode) ==> captured
    ensures ok && StraightFiles(old(live.tree), roots, opencode) ==> WritesBack(old(live.tree), roots, opencode)
    ensures captured && live.calm && StraightFiles(old(live.tree), roots, opencode) ==>
      WritesBack(old(live.tree), roots, opencode) ==> ok
  {
    ghost var t := live.tree;
    s, captured, ok := ApplyFailing(live, roots, opencode, live.tree);
    if captured {
      UntouchedIsRecoverable(t, roots, opencode);
      UntouchedIsPlain(t, roots, opencode);
    }
    hide *;
  }

  lemma UntouchedIsPlain(t: Tree, roots: seq<Path>, opencode: Path)
    ensures !LinkedDirectory(t, roots, opencode, t) && !OddFile(t, roots, opencode, t)
  {
  }

  // Two captured directories with a file each; then one of them gives way to a link to the other.

  const TARGET: Path := ["r"]

  function Folder(inode: nat): Node {
    Node(Directory, inode, PRIVATE, 1, "")
  }

  function File(inode: nat, content: string): Node {
    Node(RegularFile, inode, Mode(true, true, false, 0), 1, content)
  }

  const TWO_FOLDERS: Tree := map[
    [] := Folder(0), TARGET := Folder(1), ["r", "a"] := Folder(2), ["r", "b"] := Folder(3),
    ["r", "a", "f"] := File(4, "x"), ["r", "b", "f"] := File(5, "y")]

  const LINKED_FOLDER: Tree := map[
    [] := Folder(0), TARGET := Folder(1), ["r", "a"] := Node(SymbolicLink, 6, PRIVATE, 1, "b"), ["r", "b"] := Folder(3),
    ["r", "b", "f"] := File(5, "y")]

  /** What the captured names lead to once `a` is a link to `b`. */
  lemma FollowTheLink()
    ensures Walk(LINKED_FOLDER, TARGET, TARGET, [], MAX_LINKS) == At(TARGET)
    ensures Walk(LINKED_FOLDER, TARGET, TARGET, ["a"], MAX_LINKS) == At(["r", "b"])
    ensures Walk(LINKED_FOLDER, TARGET, TARGET, ["b"], MAX_LINKS) == At(["r", "b"])
    ensures Walk(LINKED_FOLDER, TARGET, TARGET, ["a", "f"], MAX_LINKS) == At(["r", "b", "f"])
    ensures Walk(LINKED_FOLDER, TARGET, TARGET, ["b", "f"], MAX_LINKS) == At(["r", "b", "f"])
  {
    assert TARGET + ["a"] == ["r", "a"] && TARGET + ["b"] == ["r", "b"] && ["r", "b"] + ["f"] == ["r", "b", "f"];
    assert Split("b", '/') == ["b"] by {
      assert IndexOf("b", '/') == 1;
    }
    forall left | left == 7 || left == 8
      ensures Walk(LINKED_FOLDER, TARGET, TARGET, ["b"], left) == At(["r", "b"])
      ensures Walk(LINKED_FOLDER, TARGET, TARGET, ["b", "f"], left) == At(["r", "b", "f"])
    {
      assert ["b"][1..] == [] && ["b", "f"][1..] == ["f"] && ["f"][1..] == [];
      assert Walk(LINKED_FOLDER, TARGET, ["r", "b"], ["f"], left) == At(["r", "b", "f"]);
    }
    assert ["a"][1..] == [] && ["a", "f"][1..] == ["f"] && ["b"] + [] == ["b"] && ["b"] + ["f"] == ["b", "f"];
  }

  lemma FolderNames()
    ensures Parent(TARGET) == [] && Parent(["r", "a"]) == TARGET && Parent(["r", "b"]) == TARGET
    ensures Parent(["r", "a", "f"]) == ["r", "a"] && Parent(["r", "b", "f"]) == ["r", "b"]
    ensures PlainName("r") && PlainName("a") && PlainName("b") && PlainName("f")
  {
  }

  lemma FoldersStand()
    ensures WellFormed(TWO_FOLDERS) && ParentsStand(TWO_FOLDERS, [TARGET])
  {
    FolderNames();
    hide PlainName, Parent;
  }

  lemma LinkStands()
    ensures WellFormed(LINKED_FOLDER) && ParentsStand(LINKED_FOLDER, [TARGET]) && RootsOk([TARGET])
  {
    FolderNames();
    hide PlainName, Parent;
  }

  lemma FolderScope(p: Path, opencode: Path)
    requires opencode != TARGET && p in TWO_FOLDERS
    ensures InScope(p, [TARGET], opencode) <==> p != []
    ensures Within(p, TARGET) <==> p != []
  {
    if p != [] {
      assert p[..1] == TARGET;
      assert Within(p, [TARGET][0]);
    }
  }

  lemma FolderResolves(p: Path)
    requires p in TWO_FOLDERS && Within(p, TARGET)
    ensures Resolves(LINKED_FOLDER, TARGET, p, TWO_FOLDERS[p].kind)
  {
    FollowTheLink();
    assert ["r", "b"] + ["f"] == ["r", "b", "f"];
    hide Walk;
    if p == TARGET {
      assert p[1..] == [];
    } else if p == ["r", "a"] {
      assert p[1..] == ["a"];
    } else if p == ["r", "b"] {
      assert p[1..] == ["b"];
    } else if p == ["r", "a", "f"] {
      assert p[1..] == ["a", "f"] && ["a", "f"][..1] == ["a"];
    } else {
      assert p == ["r", "b", "f"];
      assert p[1..] == ["b", "f"] && ["b", "f"][..1] == ["b"];
    }
  }

  lemma FolderIsLink()
    ensures var a := ["r", "a"];
      a in TWO_FOLDERS && TWO_FOLDERS[a].kind == Directory && a in LINKED_FOLDER && LINKED_FOLDER[a].kind == SymbolicLink
    ensures forall p :: p in LINKED_FOLDER ==> p in TWO_FOLDERS && (p != ["r", "a"] ==> LINKED_FOLDER[p] == TWO_FOLDERS[p])
    ensures forall p :: p in TWO_FOLDERS && TWO_FOLDERS[p].kind == Directory ==> Open(TWO_FOLDERS[p])
    ensures forall p :: p in LINKED_FOLDER && LINKED_FOLDER[p].kind == Directory ==> Open(LINKED_FOLDER[p])
    ensures [] in LINKED_FOLDER && LINKED_FOLDER[[]].mode.search && [] in TWO_FOLDERS && TWO_FOLDERS[[]].mode.search
    ensures TARGET in LINKED_FOLDER && LINKED_FOLDER[TARGET].mode.read && TARGET in TWO_FOLDERS && Parent(TARGET) == []
  {
  }

  lemma FoldersCapturable(opencode: Path)
    requires opencode != TARGET
    ensures Capturable(TWO_FOLDERS, [TARGET], opencode)
  {
    FolderNames();
    forall p | p in TWO_FOLDERS && InScope(p, [TARGET], opencode)
      ensures CapturableAt(TWO_FOLDERS, [TARGET], p)
    {
      FolderScope(p, opencode);
    }
  }

  lemma FolderNamesStraight(opencode: Path)
    requires opencode != TARGET
    ensures StraightFiles(TWO_FOLDERS, [TARGET], opencode)
  {
    forall p | p in TWO_FOLDERS && TWO_FOLDERS[p].kind == RegularFile
      ensures Straight(p[1..])
    {
      assert p[1..] == ["a", "f"] || p[1..] == ["b", "f"];
    }
    hide Straight;
  }

  lemma LinkClears(opencode: Path)
    requires opencode != TARGET
    ensures RootsRecoverable(TWO_FOLDERS, [TARGET], opencode, LINKED_FOLDER)
  {
    FolderIsLink();
    var kinds := KindsOfAll(TWO_FOLDERS, [TARGET], opencode);
    forall c
      ensures ChildClears(LINKED_FOLDER, kinds, TARGET, c)
    {
      if TARGET + [c] in LINKED_FOLDER {
        FolderScope(TARGET + [c], opencode);
        assert TARGET + [c] in kinds && kinds[TARGET + [c]] == Some(TWO_FOLDERS[TARGET + [c]].kind);
      }
    }
    assert IdentityAt(TWO_FOLDERS, TARGET) == IdentityAt(LINKED_FOLDER, TARGET);
    hide ChildClears, KindsOfAll, InScope, TWO_FOLDERS, LINKED_FOLDER;
  }

  lemma LinkHidesFolder(opencode: Path)
    requires opencode != TARGET
    ensures LinkedDirectory(TWO_FOLDERS, [TARGET], opencode, LINKED_FOLDER) && Reached(TWO_FOLDERS, [TARGET], opencode, LINKED_FOLDER)
  {
    FolderIsLink();
    FolderScope(["r", "a"], opencode);
    LinkClears(opencode);
    LinkAccessible(opencode);
    hide InScope, RootsRecoverable, Accessible, TWO_FOLDERS, LINKED_FOLDER, Open;
    forall p | p in TWO_FOLDERS
      ensures Within(p, TARGET) ==> InScope(p, [TARGET], opencode)
    {
      FolderScope(p, opencode);
    }
    hide Within;
  }

  lemma LinkAccessible(opencode: Path)
    requires opencode != TARGET
    ensures Accessible(TWO_FOLDERS, [TARGET], opencode, LINKED_FOLDER)
  {
    FolderIsLink();
    FolderNamesStraight(opencode);
    LinkResolves(opencode);
    assert AllOpen(LINKED_FOLDER, TARGET);
    hide InScope, StraightFiles, AllResolve, AllOpen, TWO_FOLDERS, LINKED_FOLDER, Open;
  }

  lemma LinkResolves(opencode: Path)
    requires opencode != TARGET
    ensures AllResolve(TWO_FOLDERS, [TARGET], opencode, LINKED_FOLDER)
  {
    hide InScope, Within, Resolves, TWO_FOLDERS, LINKED_FOLDER;
    forall p | p in TWO_FOLDERS && Within(p, TARGET)
      ensures Resolves(LINKED_FOLDER, TARGET, p, TWO_FOLDERS[p].kind)
    {
      FolderResolves(p);
    }
  }

  /** A captured directory gives way to a link to another one: rollback puts both of their
      files back into the same place and reports no error. */
  method SilentButIncomplete(opencode: Path) returns (s: SnapshotState, ok: bool)
    requires opencode != TARGET
    ensures s.live.calm ==> ok
    ensures ok ==> !s.RolledBack()
  {
    FoldersStand();
    LinkStands();
    LinkHidesFolder(opencode);
    FoldersCapturable(opencode);
    hide *;
    var live := new LiveTree(TWO_FOLDERS);
    var captured: bool;
    s, captured, ok := ApplyFailing(live, [TARGET], opencode, LINKED_FOLDER);
  }

  // A read-only directory with a file in it.

  const READ_ONLY: Tree := map[
    [] := Folder(0), TARGET := Node(Directory, 1, Mode(true, false, true, 0), 1, ""), ["r", "f"] := File(2, "x")]

  lemma ReadOnlyStands(opencode: Path)
    requires opencode != TARGET
    ensures WellFormed(READ_ONLY) && ParentsStand(READ_ONLY, [TARGET]) && RootsOk([TARGET])
    ensures Capturable(READ_ONLY, [TARGET], opencode)
  {
    FolderNames();
    LinkStands();
    assert Parent(["r", "f"]) == TARGET;
    hide PlainName, Parent, InScope, RootsOk, LINKED_FOLDER, WellFormed;
    ReadOnlyIsWellFormed();
    ReadOnlyOpens();
    hide READ_ONLY;
  }

  lemma ReadOnlyIsWellFormed()
    ensures WellFormed(READ_ONLY)
  {
    FolderNames();
    assert Parent(["r", "f"]) == TARGET;
    hide PlainName, Parent;
  }

  lemma ReadOnlyOpens()
    ensures LookedUp(READ_ONLY, [TARGET]) && forall p :: p in READ_ONLY ==> p == [] || CapturableAt(READ_ONLY, [TARGET], p)
  {
    FolderNames();
    assert Parent(["r", "f"]) == TARGET;
    hide Parent, PlainName;
  }

  lemma ReadOnlyFile(opencode: Path)
    requires opencode != TARGET
    ensures StraightFiles(READ_ONLY, [TARGET], opencode) && !WritesBack(READ_ONLY, [TARGET], opencode)
  {
    var f := ["r", "f"];
    assert f[..1] == TARGET && f[1..] == ["f"] && Parent(f) == TARGET;
    assert Within(f, [TARGET][0]) && !Skipped(f, TARGET, opencode);
    assert InScope(f, [TARGET], opencode);
    hide InScope, Within;
    assert !MayMake(READ_ONLY, [TARGET], READ_ONLY, f);
  }

  /** Nobody touches a read-only directory with a file in it; it is captured, and rolling it back
      always reports an error. */
  method ReadOnlyStays(opencode: Path) returns (s: SnapshotState, captured: bool, ok: bool)
    requires opencode != TARGET
    ensures (s.live.calm ==> captured) && !ok
  {
    ReadOnlyStands(opencode);
    ReadOnlyFile(opencode);
    hide *;
    var live := new LiveTree(READ_ONLY);
    s, captured, ok := RollBackUntouched(live, [TARGET], opencode);
  }

  // A file with a backslash in its name.

  const EMPTY_TARGET: Tree := map[[] := Folder(0), TARGET := Folder(1)]

  lemma LongIsPlain(name: string)
    requires |name| > 2
    ensures PlainName(name)
  {
  }

  lemma TurnsAway()
    ensures Turned([['a', '\\', 'b']]) == Some(["a", "b"]) && PlainName(['a', '\\', 'b'])
  {
    var name := ['a', '\\', 'b'];
    LongIsPlain(name);
    assert IndexOf(name, '\\') == 1 by {
      assert name[..1] == ['a'] && '\\' !in name[..1];
      IndexOfIs(name, '\\', 1);
    }
    assert name[..1] == "a" && name[2..] == "b";
    assert Split("b", '\\') == ["b"] by {
      assert IndexOf("b", '\\') == 1;
    }
    assert Split(name, '\\') == ["a", "b"];
    assert [name][1..] == [] && Turned([]) == Some([]);
    assert AllPlain(["a", "b"]) && ["a", "b"] + [] == ["a", "b"];
  }

  lemma AwayIsOpen()
    ensures WellFormed(EMPTY_TARGET) && TARGET != [] && PlainWay(EMPTY_TARGET, TARGET, ["a"])
    ensures TARGET + ["a", "b"] == ["r", "a", "b"] && ["a", "b"][..1] == ["a"] && Parent(["r", "a", "b"]) == ["r", "a"]
    ensures RoomOrMade(EMPTY_TARGET, TARGET, ["r", "a"])
    ensures ["r", "a", "b"] !in EMPTY_TARGET && TARGET in EMPTY_TARGET && EMPTY_TARGET[TARGET].kind == Directory
  {
    FolderNames();
    assert ["a"][..1] == ["a"] && TARGET + ["a"] == ["r", "a"];
    assert Below(["r", "a"], TARGET) && !Below(["r", "a"], ["r", "a"]);
  }

  lemma AwayOpens(name: string)
    requires PlainName(name)
    ensures Openable(EMPTY_TARGET, TARGET, [name]) && !LeadsToSpecial(EMPTY_TARGET, TARGET, [name])
  {
    RootItself(EMPTY_TARGET, TARGET, [name]);
    assert TARGET + [name] == ["r", name] && ["r", name] !in EMPTY_TARGET;
    assert Walk(EMPTY_TARGET, TARGET, TARGET, [name], MAX_LINKS) == Missing;
  }

  lemma NotAway(u: Tree, name: string)
    requires name != "a" && Put(EMPTY_TARGET, u, TARGET, ["r", "a", "b"], RegularFile)
    ensures ["r", name] !in u
  {
    assert ["r", name] !in EMPTY_TARGET;
    assert ["r", "a", "b"][..2] == ["r", "a"];
  }

  lemma {:induction false} TurnedIsStraight(parts: seq<string>)
    ensures Turned(parts).Some? ==> Straight(Turned(parts).value)
  {
    if parts != [] {
      TurnedIsStraight(parts[1..]);
      var first := Split(parts[0], '\\');
      assert forall k :: 0 <= k < |first| ==> first[k] in first;
    }
  }

  /** A file that was put back over a plain way lies in its place exactly if its name is
      straight, or if it lay there before: otherwise its place is left as it was. */
  lemma InPlaceExactly(t: Tree, u: Tree, root: Path, rel: seq<string>, content: string, mode: Mode, calm: bool)
    requires rel != [] && AllPlain(rel) && Turned(rel).Some?
    requires GoneTo(t, u, root, rel, Turned(rel).value, content, mode, true, calm)
    ensures HoldsFile(u, root + rel, content) <==> Straight(rel) || HoldsFile(t, root + rel, content)
  {
    var to := Turned(rel).value;
    if Straight(rel) {
      StraightTurned(rel);
    } else {
      TurnedIsStraight(rel);
      StraightPrefix(root, to, rel);
      RootItself(t, root + to, []);
      hide Turned, Straight, AllPlain, Within;
    }
  }

  lemma StraightPrefix(root: Path, to: seq<string>, rel: seq<string>)
    ensures Straight(to) && Within(root + to, root + rel) ==> Straight(rel)
  {
    forall k | 0 <= k < |rel| && Within(root + to, root + rel)
      ensures rel[k] == to[k]
    {
      assert (root + rel)[|root| + k] == rel[k] && (root + to)[..|root + rel|][|root| + k] == to[k];
    }
  }

  predicate HoldsFile(t: Tree, p: Path, content: string) {
    p in t && t[p].kind == RegularFile && t[p].content == content
  }

  /** Putting a missing file back whose name is a, a backslash and b reports success and writes
      a file b into a new directory a. */
  method BackslashGoesAstray() returns (live: LiveTree, ok: bool)
    ensures live.calm ==> ok
    ensures ok ==> ["r", "a", "b"] in live.tree && ["r", ['a', '\\', 'b']] !in live.tree
  {
    var name := ['a', '\\', 'b'];
    assert name != "a" by {
      assert |name| == 3;
    }
    TurnsAway();
    AwayIsOpen();
    AwayOpens(name);
    RootItself(EMPTY_TARGET, TARGET, []);
    live := new LiveTree(EMPTY_TARGET);
    hide PlainWay, WellFormed, Put, Openable, LeadsToSpecial, RoomOrMade, EMPTY_TARGET, Turned, Kept, SameBut, FilePut, PlainName;
    ok := live.RestoreFile(TARGET, [name], "x", PRIVATE);
    if ok {
      NotAway(live.tree, name);
    }
  }

  predicate KindsIn(preserved: Preserved, entries: seq<Entry>) {
    forall j :: 0 <= j < |entries| ==> entries[j].path in preserved && preserved[entries[j].path] == KindOf(entries[j])
  }

  function KindOf(e: Entry): Option<Kind> {
    if e.before.Some? then Some(e.before.value.kind) else None
  }

  lemma EntryInScope(t: Tree, roots: seq<Path>, opencode: Path, entries: seq<Entry>, e: Entry)
    requires Captures(t, roots, opencode, entries) && e in entries && e.before.Some?
    ensures exists i :: 0 <= i < |roots| && Within(e.path, roots[i])
  {
    assert InScope(e.path, roots, opencode);
  }

  lemma RootIsNotTop(t: Tree, roots: seq<Path>, root: Path)
    requires ParentsStand(t, roots) && root in roots
    ensures root != [] && Parent(root) in t && t[Parent(root)].kind == Directory
  {
    var i :| 0 <= i < |roots| && roots[i] == root;
  }

  lemma NothingWithout(t: Tree, root: Path, captured: set<Path>)
    requires WellFormed(t) && root !in t
    ensures NothingNew(t, root, captured)
  {
    forall c
      ensures root + [c] !in t
    {
      assert Parent(root + [c]) == root;
    }
  }

  lemma CapturedIsClosed(t: Tree, roots: seq<Path>, opencode: Path, entries: seq<Entry>, preserved: Preserved, root: Path)
    requires WellFormed(t) && RootsOk(roots) && Captures(t, roots, opencode, entries) && root in roots
    requires preserved.Keys == Paths(entries)
    requires KindsIn(preserved, entries)
    ensures ClosedAbove(preserved, root)
  {
    forall k, c | k in preserved && Below(k, root + [c])
      ensures root + [c] in preserved && preserved[root + [c]] == Some(Directory)
    {
      var e :| e in entries && e.path == k;
      var n := |root| + 1;
      assert k[..n] == root + [c] && k[..|root|] == root by {
        assert (root + [c])[..|root|] == root;
        assert k[..|root|] == k[..n][..|root|];
      }
      DeepEntryExisted(t, roots, opencode, entries, e, root);
      EntryAbove(t, roots, opencode, entries, e, root, n);
      var j :| 0 <= j < |entries| && entries[j] == Entry(k[..n], Some(t[k[..n]]));
    }
  }

  lemma DeepEntryExisted(t: Tree, roots: seq<Path>, opencode: Path, entries: seq<Entry>, e: Entry, root: Path)
    requires RootsOk(roots) && Captures(t, roots, opencode, entries) && e in entries && root in roots && Below(e.path, root)
    ensures e.before.Some?
  {
    if e.before.None? {
      var i :| 0 <= i < |roots| && roots[i] == e.path;
      var j :| 0 <= j < |roots| && roots[j] == root;
      assert Within(roots[i], roots[j]);
    }
  }

  lemma DistinctRoots(roots: seq<Path>, i: nat)
    requires RootsOk(roots) && i < |roots|
    ensures roots[i] !in roots[..i]
  {
    forall j | 0 <= j < i
      ensures roots[j] != roots[i]
    {
      assert Within(roots[i], roots[i]);
    }
  }
}
