/** The patches a worker hands to the mutation broker: which paths they may name,
    and what writing them leaves in the worktree. */
module Patches {
  import opened Text

  datatype Option<T> = None | Some(value: T)

  // --------------------------------------------------------------------- paths

  /** A lexically cleaned path: rooted or not, leading `..` steps, then plain names. */
  datatype CleanPath = CleanPath(rooted: bool, ups: nat, names: seq<string>)

  function CleanStep(c: CleanPath, part: string): CleanPath {
    if part == "" || part == "." then c
    else if part != ".." then c.(names := c.names + [part])
    else if c.names != [] then c.(names := c.names[..|c.names| - 1])
    else if c.rooted then c
    else c.(ups := c.ups + 1)
  }

  function CleanParts(c: CleanPath, parts: seq<string>): CleanPath
    decreases |parts|
  {
    if parts == [] then c else CleanParts(CleanStep(c, parts[0]), parts[1..])
  }

  function Clean(path: string): CleanPath {
    CleanParts(CleanPath(path != "" && path[0] == '/', 0, []), Split(path, '/'))
  }

  lemma {:induction false} UpsOnlyGrow(c: CleanPath, parts: seq<string>)
    ensures CleanParts(c, parts).ups >= c.ups && CleanParts(c, parts).rooted == c.rooted
    decreases |parts|
  {
    if parts != [] {
      UpsOnlyGrow(CleanStep(c, parts[0]), parts[1..]);
    }
  }

  /** A path that cleans to plain names stays below any directory it is joined to. */
  lemma {:induction false} StaysBelow(root: seq<string>, c: CleanPath, parts: seq<string>)
    requires !c.rooted && c.ups == 0 && CleanParts(c, parts).ups == 0
    ensures CleanParts(CleanPath(true, 0, root + c.names), parts) == CleanPath(true, 0, root + CleanParts(c, parts).names)
    decreases |parts|
  {
    if parts != [] {
      var next := CleanStep(c, parts[0]);
      UpsOnlyGrow(next, parts[1..]);
      assert CleanStep(CleanPath(true, 0, root + c.names), parts[0]) == CleanPath(true, 0, root + next.names);
      StaysBelow(root, next, parts[1..]);
    }
  }

  predicate Plain(part: string) {
    part != "" && part != "." && part != ".."
  }

  lemma {:induction false} CleanTogether(c: CleanPath, a: seq<string>, b: seq<string>)
    ensures CleanParts(c, a + b) == CleanParts(CleanParts(c, a), b)
    decreases |a|
  {
    if a == [] {
      assert a + b == b;
    } else {
      assert (a + b)[1..] == a[1..] + b;
      CleanTogether(CleanStep(c, a[0]), a[1..], b);
    }
  }

  /** The rules of lexical cleaning: an empty part or a single dot says nothing, a plain name and
      two dots after it cancel out, two dots say nothing at the root. */
  lemma CleaningRules(c: CleanPath, a: seq<string>, x: string, b: seq<string>)
    ensures CleanParts(c, a + [""] + b) == CleanParts(c, a + b) == CleanParts(c, a + ["."] + b)
    ensures Plain(x) ==> CleanParts(c, a + [x, ".."] + b) == CleanParts(c, a + b)
    ensures c.rooted && c.names == [] ==> CleanParts(c, [".."] + b) == CleanParts(c, b)
  {
    SaysNothing(c, a, "", b);
    SaysNothing(c, a, ".", b);
    OnePart(c, "..", b);
    if Plain(x) {
      CancelOut(c, a, x, b);
    }
  }

  lemma SaysNothing(c: CleanPath, a: seq<string>, part: string, b: seq<string>)
    requires part == "" || part == "."
    ensures CleanParts(c, a + [part] + b) == CleanParts(c, a + b)
  {
    hide CleanParts;
    CleanTogether(c, a, b);
    OnePart(CleanParts(c, a), part, b);
    CleanTogether(c, a, [part] + b);
    assert a + [part] + b == a + ([part] + b);
  }

  lemma CancelOut(c: CleanPath, a: seq<string>, x: string, b: seq<string>)
    requires Plain(x)
    ensures CleanParts(c, a + [x, ".."] + b) == CleanParts(c, a + b)
  {
    hide CleanParts, CleanStep, Plain;
    CleanTogether(c, a, b);
    CleanTogether(c, a, [x, ".."] + b);
    assert a + [x, ".."] + b == a + ([x, ".."] + b);
    UpAndDown(CleanParts(c, a), x, b);
  }

  lemma UpAndDown(c: CleanPath, x: string, b: seq<string>)
    requires Plain(x)
    ensures CleanParts(c, [x, ".."] + b) == CleanParts(c, b)
  {
    hide CleanParts;
    OnePart(c, x, [".."] + b);
    OnePart(CleanStep(c, x), "..", b);
    assert [x, ".."] + b == [x] + ([".."] + b);
    assert (c.names + [x])[..|c.names|] == c.names;
  }

  lemma OnePart(c: CleanPath, part: string, b: seq<string>)
    ensures CleanParts(c, [part] + b) == CleanParts(CleanStep(c, part), b)
  {
    assert ([part] + b)[1..] == b;
  }

  function Dots(k: nat): seq<string> {
    if k == 0 then [] else [".."] + Dots(k - 1)
  }

  /** What is clean already stays: leading double dots, then plain names. */
  lemma {:induction false} CleanStays(c: CleanPath, ups: nat, names: seq<string>)
    requires (forall n :: n in names ==> Plain(n)) && (ups > 0 ==> !c.rooted && c.names == [])
    ensures CleanParts(c, Dots(ups) + names) == c.(ups := c.ups + ups, names := c.names + names)
    decreases ups + |names|
  {
    if ups > 0 {
      assert Dots(ups) + names == [".."] + (Dots(ups - 1) + names);
      OnePart(c, "..", Dots(ups - 1) + names);
      CleanStays(c.(ups := c.ups + 1), ups - 1, names);
    } else if names != [] {
      var rest := names[1..];
      assert Plain(names[0]) && names == [names[0]] + rest && ups == 0;
      assert CleanStep(c, names[0]) == c.(names := c.names + [names[0]]);
      assert Dots(ups) + names == [names[0]] + (Dots(0) + rest);
      OnePart(c, names[0], Dots(0) + rest);
      CleanStays(c.(names := c.names + [names[0]]), 0, rest);
      assert c.names + ([names[0]] + rest) == c.names + [names[0]] + rest;
    } else {
      assert Dots(ups) + names == [] && c.names + names == c.names;
    }
  }

  /** A path is cleaned part by part, rooted if it begins with a slash. */
  lemma CleanOfParts(parts: seq<string>)
    requires parts != [] && forall p :: p in parts ==> '/' !in p
    ensures Clean(Joined(parts, '/')) == CleanParts(CleanPath(|parts| > 1 && parts[0] == "", 0, []), parts)
  {
    SplitJoined(parts, '/');
    if |parts| > 1 && parts[0] != "" {
      assert Joined(parts, '/')[0] == parts[0][0];
    }
  }

  type Location = seq<string>

  // ---------------------------------------------------------------------- disk

  datatype Node = Regular(data: seq<bv8>, mode: bv32) | Symlink(target: string)

  /** Files and links by location. */
  type Tree = map<Location, Node>

  /** A worktree as it lies on disk, with the files that git leaves out and with its directories. */
  datatype Disk = Disk(files: Tree, dirs: set<Location>)

  /** What freezing leaves out of a worktree: files that are ignored and not tracked, generated
      exports, git's own. The rules may lie in the worktree themselves. */
  type Rules = (Tree, Location) -> bool

  const OWNER_EXECUTE: bv32 := 0x40

  /** Git records of a file's mode whether its owner may execute it. */
  function Recorded(n: Node): Node {
    if n.Symlink? then n else n.(mode := if n.mode & OWNER_EXECUTE != 0 then 0x1C0 else 0x180)
  }

  /** The tree that freezing a worktree gives. */
  function Frozen(hidden: Rules, files: Tree): Tree {
    map p | p in files && !hidden(files, p) :: Recorded(files[p])
  }

  datatype FileOperation = FileOperation(path: string, data: seq<bv8>, mode: bv32, delete: bool)

  type Patch = seq<FileOperation>

  const MODE_TYPE: bv32 := 0x8F28_0000
  const ANY_EXECUTE: bv32 := 0x49

  /** Special file types are refused; a plain mode keeps nothing but its executable bit. */
  function NormalizedMode(mode: bv32): (m: Option<bv32>)
    ensures m.None? <==> mode & MODE_TYPE != 0
    ensures m.Some? ==> m.value in {0x1C0, 0x180} && (m.value == 0x1C0 <==> mode & ANY_EXECUTE != 0)
  {
    if mode & MODE_TYPE != 0 then None
    else if mode & ANY_EXECUTE != 0 then Some(0x1C0) else Some(0x180)
  }

  function Place(op: FileOperation): Location {
    Clean(op.path).names
  }

  predicate Under(p: Location, q: Location) {
    |p| < |q| && q[..|p|] == p
  }

  /** The directories on the way to `p`, without the root itself. */
  function Above(p: Location): (r: set<Location>)
    ensures forall q :: q in r <==> q != [] && Under(q, p)
  {
    var r := set k | 1 <= k < |p| :: p[..k];
    assert forall q :: q != [] && Under(q, p) ==> q == p[..|q|] && 1 <= |q| < |p|;
    r
  }

  // ---------------------------------------------------------------- validation

  predicate PathAllowed(op: FileOperation, allowed: seq<string>) {
    var c := Clean(op.path);
    !c.rooted && c.ups == 0 && c.names != [] && exists a :: a in allowed && Clean(a) == c
  }

  /** No step of the way to `p`, nor `p` itself, is a symbolic link. */
  predicate NoLinkOn(t: Tree, p: Location) {
    forall k :: 1 <= k <= |p| ==> !(p[..k] in t && t[p[..k]].Symlink?)
  }

  predicate Validated(patch: Patch, allowed: seq<string>, t: Tree) {
    forall i :: 0 <= i < |patch| ==> PathAllowed(patch[i], allowed) && NoLinkOn(t, Place(patch[i]))
  }

  method ValidatePatch(patch: Patch, allowed: seq<string>, t: Tree) returns (ok: bool)
    ensures ok <==> Validated(patch, allowed, t)
  {
    var clean: set<CleanPath> := {};
    for i := 0 to |allowed|
      invariant forall c :: c in clean <==> exists a :: a in allowed[..i] && Clean(a) == c
    {
      assert allowed[..i + 1] == allowed[..i] + [allowed[i]];
      clean := clean + {Clean(allowed[i])};
    }
    assert allowed[..|allowed|] == allowed;
    for i := 0 to |patch|
      invariant forall j :: 0 <= j < i ==> PathAllowed(patch[j], allowed) && NoLinkOn(t, Place(patch[j]))
    {
      var c := Clean(patch[i].path);
      if c.rooted || c.ups > 0 || c.names == [] || c !in clean {
        return false;
      }
      for k := 1 to |c.names| + 1
        invariant forall m :: 1 <= m < k ==> !(c.names[..m] in t && t[c.names[..m]].Symlink?)
      {
        if c.names[..k] in t && t[c.names[..k]].Symlink? {
          assert !NoLinkOn(t, c.names);
          return false;
        }
      }
    }
    return true;
  }

  // ---------------------------------------------------------------- application

  /** A file sits where a directory on the way to `p` should be. */
  predicate FileOnWay(d: Disk, p: Location) {
    exists q :: q in d.files && Under(q, p)
  }

  /** The directory `p` is not empty. */
  predicate Occupied(d: Disk, p: Location) {
    (exists q :: q in d.files && Under(p, q)) || (exists q :: q in d.dirs && Under(p, q))
  }

  /** os.Remove takes a file or an empty directory and does not mind if there is nothing;
      os.WriteFile does not write over a directory. */
  predicate Succeeds(d: Disk, op: FileOperation) {
    var p := Place(op);
    && p != [] && !FileOnWay(d, p)
    && (if op.delete then !(p in d.dirs && Occupied(d, p)) else p !in d.dirs && NormalizedMode(op.mode).Some?)
  }

  function ApplyOp(d: Disk, op: FileOperation): Option<Disk> {
    var p := Place(op);
    if !Succeeds(d, op) then None
    else if op.delete then Some(Disk(d.files - {p}, d.dirs - {p}))
    else Some(Disk(d.files[p := Regular(op.data, NormalizedMode(op.mode).value)], d.dirs + Above(p)))
  }

  /** A write that is refused for its mode has made the directories by then. */
  function Leftover(d: Disk, op: FileOperation): Disk {
    if op.delete || FileOnWay(d, Place(op)) then d else d.(dirs := d.dirs + Above(Place(op)))
  }

  function ApplyAll(d: Disk, patch: Patch): Option<Disk> {
    if patch == [] then Some(d) else
      var before := ApplyAll(d, patch[..|patch| - 1]);
      if before.None? then None else ApplyOp(before.value, patch[|patch| - 1])
  }

  /** What an operation that succeeds does to the files. */
  function EffectOf(t: Tree, op: FileOperation): Tree {
    if op.delete then t - {Place(op)}
    else if NormalizedMode(op.mode).None? then t
    else t[Place(op) := Regular(op.data, NormalizedMode(op.mode).value)]
  }

  function Result(t: Tree, patch: Patch): Tree {
    if patch == [] then t else EffectOf(Result(t, patch[..|patch| - 1]), patch[|patch| - 1])
  }

  lemma ResultSnoc(t: Tree, patch: Patch, k: nat)
    requires k < |patch|
    ensures Result(t, patch[..k + 1]) == EffectOf(Result(t, patch[..k]), patch[k])
  {
    assert patch[..k + 1][..k] == patch[..k];
  }

  lemma ApplySnoc(d: Disk, patch: Patch, k: nat)
    requires k < |patch|
    ensures ApplyAll(d, patch[..k + 1]) ==
      if ApplyAll(d, patch[..k]).None? then None else ApplyOp(ApplyAll(d, patch[..k]).value, patch[k])
  {
    assert patch[..k + 1][..k] == patch[..k];
  }

  /** A patch that succeeds leaves the result. */
  lemma {:induction false} SuccessIsResult(d: Disk, patch: Patch)
    requires ApplyAll(d, patch).Some?
    ensures ApplyAll(d, patch).value.files == Result(d.files, patch)
  {
    hide ApplyOp, EffectOf;
    if patch != [] {
      var n := |patch| - 1;
      SuccessIsResult(d, patch[..n]);
      OpIsEffect(ApplyAll(d, patch[..n]).value, patch[n]);
    }
  }

  lemma OpIsEffect(d: Disk, op: FileOperation)
    requires ApplyOp(d, op).Some?
    ensures ApplyOp(d, op).value.files == EffectOf(d.files, op)
  {
  }

  lemma {:induction false} FailureStays(d: Disk, patch: Patch, k: nat)
    requires k <= |patch| && ApplyAll(d, patch[..k]).None?
    ensures ApplyAll(d, patch).None?
    decreases |patch| - k
  {
    if k < |patch| {
      ApplySnoc(d, patch, k);
      FailureStays(d, patch, k + 1);
    } else {
      assert patch[..k] == patch;
    }
  }

  // ---------------------------------------------------------------- properties

  function Lookup(t: Tree, p: Location): Option<Node> {
    if p in t then Some(t[p]) else None
  }

  /** What the last operation on `p` says; with none, what the tree had. */
  function Decided(t: Tree, patch: Patch, p: Location): Option<Node> {
    if patch == [] then Lookup(t, p) else
      var op := patch[|patch| - 1];
      if Place(op) != p || (!op.delete && NormalizedMode(op.mode).None?) then Decided(t, patch[..|patch| - 1], p)
      else if op.delete then None
      else Some(Regular(op.data, NormalizedMode(op.mode).value))
  }

  /** Some operation on `p` that can have an effect. */
  predicate Touches(patch: Patch, p: Location) {
    exists i :: 0 <= i < |patch| && Place(patch[i]) == p && (patch[i].delete || NormalizedMode(patch[i].mode).Some?)
  }

  lemma {:induction false} LastOperationDecides(t: Tree, patch: Patch, p: Location)
    ensures Lookup(Result(t, patch), p) == Decided(t, patch, p)
  {
    if patch != [] {
      LastOperationDecides(t, patch[..|patch| - 1], p);
    }
  }

  lemma {:induction false} UntouchedDecided(t: Tree, t': Tree, patch: Patch, p: Location)
    ensures !Touches(patch, p) ==> Decided(t, patch, p) == Lookup(t, p)
    ensures Touches(patch, p) ==> Decided(t, patch, p) == Decided(t', patch, p)
  {
    if patch != [] {
      var n := |patch| - 1;
      var rest := patch[..n];
      UntouchedDecided(t, t', rest, p);
      assert Touches(rest, p) ==> Touches(patch, p);
      if Touches(patch, p) && !(Place(patch[n]) == p && (patch[n].delete || NormalizedMode(patch[n].mode).Some?)) {
        var i :| 0 <= i < |patch| && Place(patch[i]) == p && (patch[i].delete || NormalizedMode(patch[i].mode).Some?);
        assert rest[i] == patch[i] && Touches(rest, p);
      }
    }
  }

  /** However far a validated patch gets, only allowed paths differ from before. */
  lemma {:induction false} OnlyAllowedPathsChange(t: Tree, patch: Patch, allowed: seq<string>, k: nat, p: Location)
    requires Validated(patch, allowed, t) && k <= |patch| && Lookup(Result(t, patch[..k]), p) != Lookup(t, p)
    ensures p != [] && exists a :: a in allowed && Clean(a) == CleanPath(false, 0, p)
  {
    LastOperationDecides(t, patch[..k], p);
    UntouchedDecided(t, t, patch[..k], p);
    var i :| 0 <= i < k && Place(patch[..k][i]) == p;
    assert PathAllowed(patch[i], allowed);
  }

  /** A validated patch never writes through a symbolic link, at any of its steps. */
  lemma {:induction false} NeverThroughALink(t: Tree, patch: Patch, allowed: seq<string>, k: nat, i: nat)
    requires Validated(patch, allowed, t) && k <= |patch| && i < |patch|
    ensures NoLinkOn(Result(t, patch[..k]), Place(patch[i]))
  {
    var now := Result(t, patch[..k]);
    forall j | 1 <= j <= |Place(patch[i])|
      ensures !(Place(patch[i])[..j] in now && now[Place(patch[i])[..j]].Symlink?)
    {
      var q := Place(patch[i])[..j];
      LastOperationDecides(t, patch[..k], q);
      DecidedPlain(t, patch[..k], q);
    }
  }

  lemma {:induction false} DecidedPlain(t: Tree, patch: Patch, p: Location)
    ensures Decided(t, patch, p).Some? && Decided(t, patch, p).value.Symlink? ==> Decided(t, patch, p) == Lookup(t, p)
  {
    if patch != [] {
      DecidedPlain(t, patch[..|patch| - 1], p);
    }
  }

  /** A patch over any part of itself comes to the same files as the patch alone. */
  lemma {:induction false} ResultOfRetry(t: Tree, patch: Patch, k: nat)
    requires k <= |patch|
    ensures Result(Result(t, patch[..k]), patch) == Result(t, patch)
  {
    var mid := Result(t, patch[..k]);
    var once, twice := Result(t, patch), Result(mid, patch);
    forall p
      ensures Lookup(once, p) == Lookup(twice, p)
    {
      LastOperationDecides(t, patch, p);
      LastOperationDecides(mid, patch, p);
      LastOperationDecides(t, patch[..k], p);
      UntouchedDecided(t, mid, patch, p);
      UntouchedDecided(mid, t, patch, p);
      UntouchedDecided(t, t, patch[..k], p);
      if i :| 0 <= i < k && Place(patch[..k][i]) == p && (patch[..k][i].delete || NormalizedMode(patch[..k][i].mode).Some?) {
        assert Place(patch[i]) == p && Touches(patch, p);
      }
    }
    SameLookups(once, twice);
  }

  lemma SameLookups(a: Tree, b: Tree)
    requires forall p :: Lookup(a, p) == Lookup(b, p)
    ensures a == b
  {
    forall p
      ensures p in a <==> p in b
      ensures p in a ==> a[p] == b[p]
    {
      assert Lookup(a, p) == Lookup(b, p);
    }
  }

  /** Joined to the repository root, an allowed operation lands at its own place below it. */
  lemma LandsBelowTheRoot(root: seq<string>, op: FileOperation, allowed: seq<string>)
    requires PathAllowed(op, allowed)
    ensures CleanParts(CleanPath(true, 0, root), Split(op.path, '/')) == CleanPath(true, 0, root + Place(op))
  {
    UpsOnlyGrow(CleanPath(op.path != "" && op.path[0] == '/', 0, []), Split(op.path, '/'));
    assert root + [] == root;
    StaysBelow(root, CleanPath(false, 0, []), Split(op.path, '/'));
  }

  // --------------------------------------------------- what freezing sees of it

  /** The patch leaves nothing that is left out, and of what it does not name nothing is left
      out for the first time or no longer. */
  ghost predicate Traced(hidden: Rules, files: Tree, patch: Patch) {
    var after := Result(files, patch);
    && (forall p :: p in after && Touches(patch, p) ==> !hidden(after, p))
    && (forall p :: p in files && !Touches(patch, p) ==> (hidden(files, p) <==> hidden(after, p)))
  }

  lemma FrozenLookup(hidden: Rules, files: Tree, p: Location)
    ensures Lookup(Frozen(hidden, files), p) ==
      if p in files && !hidden(files, p) then Some(Recorded(files[p])) else None
  {
  }

  lemma {:induction false} DecidedIsRecorded(t: Tree, patch: Patch, p: Location)
    requires Touches(patch, p)
    ensures Decided(t, patch, p).Some? ==> Recorded(Decided(t, patch, p).value) == Decided(t, patch, p).value
  {
    var n := |patch| - 1;
    if !(Place(patch[n]) == p && (patch[n].delete || NormalizedMode(patch[n].mode).Some?)) {
      var i :| 0 <= i < |patch| && Place(patch[i]) == p && (patch[i].delete || NormalizedMode(patch[i].mode).Some?);
      assert patch[..n][i] == patch[i];
      DecidedIsRecorded(t, patch[..n], p);
    }
  }

  lemma TracedAt(hidden: Rules, files: Tree, patch: Patch, p: Location)
    ensures var after := Result(files, patch);
      Lookup(Frozen(hidden, after), p) == Lookup(Result(Frozen(hidden, files), patch), p) <==>
        && (p in after && Touches(patch, p) ==> !hidden(after, p))
        && (p in files && !Touches(patch, p) ==> (hidden(files, p) <==> hidden(after, p)))
  {
    var after, frozen := Result(files, patch), Frozen(hidden, files);
    LastOperationDecides(files, patch, p);
    LastOperationDecides(frozen, patch, p);
    UntouchedDecided(files, frozen, patch, p);
    UntouchedDecided(frozen, files, patch, p);
    FrozenLookup(hidden, files, p);
    FrozenLookup(hidden, after, p);
    if Touches(patch, p) {
      DecidedIsRecorded(files, patch, p);
    }
  }

  /** Freezing the worktree after a patch gives what the patch does to the tree frozen before
      it, exactly if the patch is traced. */
  lemma FrozenResult(hidden: Rules, files: Tree, patch: Patch)
    ensures Frozen(hidden, Result(files, patch)) == Result(Frozen(hidden, files), patch) <==> Traced(hidden, files, patch)
  {
    var after := Result(files, patch);
    var a, b := Frozen(hidden, after), Result(Frozen(hidden, files), patch);
    forall p
      ensures Lookup(a, p) == Lookup(b, p) <==>
        && (p in after && Touches(patch, p) ==> !hidden(after, p))
        && (p in files && !Touches(patch, p) ==> (hidden(files, p) <==> hidden(after, p)))
    {
      TracedAt(hidden, files, patch, p);
    }
    hide Frozen, Touches, Result;
    if Traced(hidden, files, patch) {
      SameLookups(a, b);
    }
  }

  /** When the patch leaves the rules as they are, it is traced exactly if it leaves no file
      that they leave out. */
  lemma TracedBySteadyRules(hidden: Rules, files: Tree, patch: Patch)
    requires forall p :: hidden(files, p) <==> hidden(Result(files, patch), p)
    ensures Traced(hidden, files, patch) <==> forall p :: p in Result(files, patch) && Touches(patch, p) ==> !hidden(files, p)
  {
    hide Touches, Result;
  }

  // ------------------------------------------------- when a patch can be retried

  datatype Status = Absent | File(node: Node) | Directory

  function StatusOf(d: Disk, c: Location): Status {
    if c in d.files then File(d.files[c]) else if c in d.dirs then Directory else Absent
  }

  /** Nothing is a file and a directory, and what is there lies in directories that are there. */
  ghost predicate DiskOk(d: Disk) {
    && d.files.Keys !! d.dirs && [] !in d.files && [] !in d.dirs
    && forall q, p :: (p in d.files || p in d.dirs) && q != [] && Under(q, p) ==> q in d.dirs
  }

  /** Some operation before `i` is on `c` itself. */
  predicate Named(patch: Patch, i: nat, c: Location)
    requires i <= |patch|
  {
    exists m :: 0 <= m < i && Place(patch[m]) == c
  }

  /** Some write before `i` is below `c`. */
  predicate FilledBelow(patch: Patch, i: nat, c: Location)
    requires i <= |patch|
  {
    exists m :: 0 <= m < i && !patch[m].delete && Under(c, Place(patch[m]))
  }

  /** The write `j` gets in the way of the earlier operation `i` when the patch starts again:
      it makes `c`, a file above what `i` touches, a directory where `i` writes, or something
      in the directory that `i` removes, and no operation before `i` is on `c` to take it away. */
  predicate Clash(patch: Patch, i: nat, j: nat, c: Location)
    requires i < j < |patch|
  {
    var p, q := Place(patch[i]), Place(patch[j]);
    && !patch[j].delete && !Named(patch, i, c)
    && (|| (c == q && Under(q, p))
        || (c == p && Under(p, q) && !patch[i].delete)
        || (Under(p, c) && (c == q || Under(c, q)) && patch[i].delete))
  }

  /** To be read off the list of operations. */
  ghost predicate Retriable(patch: Patch) {
    forall i, j, c :: 0 <= i < j < |patch| ==> !Clash(patch, i, j, c)
  }

  lemma StatusAfter(d: Disk, op: FileOperation, c: Location)
    requires ApplyOp(d, op).Some?
    ensures var e, p := ApplyOp(d, op).value, Place(op);
      StatusOf(e, c) ==
        if c == p then if op.delete then Absent else File(Regular(op.data, NormalizedMode(op.mode).value))
        else if !op.delete && c != [] && Under(c, p) then Directory
        else StatusOf(d, c)
  {
    FileIsOnWay(d, c, Place(op));
  }

  lemma FileIsOnWay(d: Disk, c: Location, p: Location)
    ensures c in d.files && Under(c, p) ==> FileOnWay(d, p)
  {
  }

  lemma IsOccupied(d: Disk, p: Location, c: Location)
    ensures (c in d.files || c in d.dirs) && Under(p, c) ==> Occupied(d, p)
  {
  }

  lemma OpKeepsOk(d: Disk, op: FileOperation)
    requires DiskOk(d) && ApplyOp(d, op).Some?
    ensures DiskOk(ApplyOp(d, op).value)
  {
    var e, p := ApplyOp(d, op).value, Place(op);
    hide Place, Under, NormalizedMode;
    forall q, r | (r in e.files || r in e.dirs) && q != [] && Under(q, r)
      ensures q in e.dirs
    {
      if r in d.files || r in d.dirs {
        assert q in d.dirs;
        IsOccupied(d, p, r);
      } else if r != p {
        UnderBoth(q, r, p);
      }
    }
    forall q | q in Above(p)
      ensures q !in d.files
    {
      assert q in d.files ==> FileOnWay(d, p);
    }
    NotUnderItself(p);
  }

  lemma UnderBoth(q: Location, r: Location, p: Location)
    requires Under(q, r) && Under(r, p)
    ensures Under(q, p)
  {
  }

  lemma NotUnderItself(p: Location)
    ensures !Under(p, p)
  {
  }

  lemma {:induction false} AllKeepOk(d: Disk, patch: Patch)
    requires DiskOk(d) && ApplyAll(d, patch).Some?
    ensures DiskOk(ApplyAll(d, patch).value)
  {
    hide DiskOk, ApplyOp;
    if patch != [] {
      AllKeepOk(d, patch[..|patch| - 1]);
      OpKeepsOk(ApplyAll(d, patch[..|patch| - 1]).value, patch[|patch| - 1]);
    }
  }

  lemma PrefixSucceeds(d: Disk, patch: Patch, k: nat)
    requires k <= |patch| && ApplyAll(d, patch).Some?
    ensures ApplyAll(d, patch[..k]).Some?
    ensures k < |patch| ==> ApplyOp(ApplyAll(d, patch[..k]).value, patch[k]).Some?
  {
    hide ApplyOp;
    if ApplyAll(d, patch[..k]).None? {
      FailureStays(d, patch, k);
    } else if k < |patch| && ApplyOp(ApplyAll(d, patch[..k]).value, patch[k]).None? {
      ApplySnoc(d, patch, k);
      FailureStays(d, patch, k + 1);
    }
  }

  /** What is there stays what it is while no operation is on it. */
  lemma {:induction false} Persists(d: Disk, patch: Patch, i: nat, c: Location)
    requires i <= |patch| && DiskOk(d) && ApplyAll(d, patch[..i]).Some? && !Named(patch, i, c) && StatusOf(d, c) != Absent
    ensures StatusOf(ApplyAll(d, patch[..i]).value, c) == StatusOf(d, c)
  {
    if i == 0 {
      assert patch[..0] == [];
    } else {
      ApplySnoc(d, patch, i - 1);
      assert !Named(patch, i - 1, c) && Place(patch[i - 1]) != c;
      hide ApplyOp, ApplyAll, DiskOk, StatusOf, Named, Place;
      Persists(d, patch, i - 1, c);
      var x, op := ApplyAll(d, patch[..i - 1]).value, patch[i - 1];
      AllKeepOk(d, patch[..i - 1]);
      StatusAfter(x, op, c);
      if !op.delete && Under(c, Place(op)) {
        NoFileOnWay(x, op, c);
      }
    }
  }

  lemma NoFileOnWay(d: Disk, op: FileOperation, c: Location)
    requires ApplyOp(d, op).Some? && Under(c, Place(op)) && StatusOf(d, c) != Absent
    ensures StatusOf(d, c) == Directory
  {
  }

  /** What a prefix of the patch has left at `c`: something that was there, or what a write made. */
  lemma {:induction false} CameFrom(d: Disk, patch: Patch, k: nat, c: Location)
    requires k <= |patch| && ApplyAll(d, patch[..k]).Some? && StatusOf(ApplyAll(d, patch[..k]).value, c) != Absent
    ensures var s := StatusOf(ApplyAll(d, patch[..k]).value, c);
      || (s == Directory && (StatusOf(d, c) == Directory || FilledBelow(patch, k, c)))
      || (s.File? && (StatusOf(d, c) == s || exists j :: 0 <= j < k && !patch[j].delete && Place(patch[j]) == c))
  {
    if k == 0 {
      assert patch[..0] == [];
    } else {
      ApplySnoc(d, patch, k - 1);
      hide ApplyOp;
      var op := patch[k - 1];
      StatusAfter(ApplyAll(d, patch[..k - 1]).value, op, c);
      if StatusOf(ApplyAll(d, patch[..k - 1]).value, c) != Absent {
        CameFrom(d, patch, k - 1, c);
      }
    }
  }

  /** A clash makes the retry after `j` fail. */
  lemma ClashFails(d: Disk, patch: Patch, i: nat, j: nat, c: Location)
    requires DiskOk(d) && ApplyAll(d, patch).Some? && i < j < |patch| && Clash(patch, i, j, c)
    ensures ApplyAll(d, patch[..j + 1]).Some? && ApplyAll(ApplyAll(d, patch[..j + 1]).value, patch).None?
  {
    PrefixSucceeds(d, patch, j);
    PrefixSucceeds(d, patch, j + 1);
    PrefixSucceeds(d, patch, i);
    ApplySnoc(d, patch, j);
    AllKeepOk(d, patch[..j + 1]);
    var mid := ApplyAll(d, patch[..j + 1]).value;
    NotRoot(ApplyAll(d, patch[..i]).value, patch[i]);
    StatusAfter(ApplyAll(d, patch[..j]).value, patch[j], c);
    if ApplyAll(mid, patch).Some? {
      PrefixSucceeds(mid, patch, i);
      AllKeepOk(mid, patch[..i]);
      Persists(mid, patch, i, c);
      StillThere(ApplyAll(mid, patch[..i]).value, patch[i], c, Place(patch[j]), patch[j].delete);
    }
  }

  lemma NotRoot(d: Disk, op: FileOperation)
    requires ApplyOp(d, op).Some?
    ensures Place(op) != []
  {
  }

  lemma StillThere(x: Disk, op: FileOperation, c: Location, q: Location, delete: bool)
    requires DiskOk(x) && ApplyOp(x, op).Some?
    ensures !(Under(c, Place(op)) && StatusOf(x, c).File?)
    ensures !(c == Place(op) && StatusOf(x, c) == Directory && !op.delete)
    ensures !(Under(Place(op), c) && StatusOf(x, c) != Absent && op.delete)
  {
    var p := Place(op);
    if Under(p, c) && StatusOf(x, c) != Absent {
      assert p in x.dirs && Occupied(x, p);
    }
  }

  /** The retry, at `x`, and the first run, at `y`, before operation `i`. */
  ghost predicate TracksAt(d: Disk, mid: Disk, patch: Patch, i: nat, x: Disk, y: Disk, c: Location)
    requires i <= |patch|
  {
    if Named(patch, i, c) then StatusOf(x, c) == StatusOf(y, c)
    else if c != [] && FilledBelow(patch, i, c) then StatusOf(x, c) == StatusOf(y, c) == Directory
    else StatusOf(x, c) == StatusOf(mid, c) && StatusOf(y, c) == StatusOf(d, c)
  }

  ghost predicate Tracks(d: Disk, mid: Disk, patch: Patch, i: nat, x: Disk, y: Disk)
    requires i <= |patch|
  {
    forall c :: TracksAt(d, mid, patch, i, x, y, c)
  }

  lemma NamedSnoc(patch: Patch, i: nat, c: Location)
    requires i < |patch|
    ensures Named(patch, i + 1, c) <==> Named(patch, i, c) || Place(patch[i]) == c
    ensures FilledBelow(patch, i + 1, c) <==> FilledBelow(patch, i, c) || (!patch[i].delete && Under(c, Place(patch[i])))
  {
    hide Place, Under;
    if m :| 0 <= m < i && Place(patch[m]) == c {
      assert m < i + 1;
    }
    if m :| 0 <= m < i && !patch[m].delete && Under(c, Place(patch[m])) {
      assert m < i + 1;
    }
  }

  lemma TracksStep(d: Disk, mid: Disk, patch: Patch, i: nat, x: Disk, y: Disk)
    requires i < |patch| && Tracks(d, mid, patch, i, x, y) && ApplyOp(x, patch[i]).Some? && ApplyOp(y, patch[i]).Some?
    ensures Tracks(d, mid, patch, i + 1, ApplyOp(x, patch[i]).value, ApplyOp(y, patch[i]).value)
  {
    hide ApplyOp, StatusOf, Place, Under, Named, FilledBelow;
    var n, x', y' := i + 1, ApplyOp(x, patch[i]).value, ApplyOp(y, patch[i]).value;
    forall c
      ensures TracksAt(d, mid, patch, n, x', y', c)
    {
      assert TracksAt(d, mid, patch, i, x, y, c);
      NamedSnoc(patch, i, c);
      StatusAfter(x, patch[i], c);
      StatusAfter(y, patch[i], c);
    }
  }

  /** What the retry finds at `c` and the first run did not is from a later write. */
  lemma FromALaterWrite(d: Disk, patch: Patch, k: nat, i: nat, x: Disk, y: Disk, c: Location)
    requires k <= |patch| && i < |patch| && ApplyAll(d, patch[..k]).Some? && c != []
    requires TracksAt(d, ApplyAll(d, patch[..k]).value, patch, i, x, y, c)
    requires StatusOf(x, c) != Absent && StatusOf(x, c) != StatusOf(y, c)
    ensures !Named(patch, i, c)
    ensures exists j ::
      && i <= j < k && !patch[j].delete
      && ((StatusOf(x, c).File? && Place(patch[j]) == c) || (StatusOf(x, c) == Directory && Under(c, Place(patch[j]))))
  {
    CameFrom(d, patch, k, c);
    hide StatusOf, Place, Under, ApplyAll;
  }

  lemma NoClash(patch: Patch, i: nat, j: nat, c: Location)
    requires Retriable(patch)
    ensures i < j < |patch| ==> !Clash(patch, i, j, c)
  {
    hide Clash;
  }

  lemma RetryFindsNoFile(d: Disk, patch: Patch, k: nat, i: nat, x: Disk, y: Disk)
    requires k <= |patch| && i < |patch| && ApplyAll(d, patch[..k]).Some? && DiskOk(x) && DiskOk(y)
    requires Retriable(patch) && Tracks(d, ApplyAll(d, patch[..k]).value, patch, i, x, y) && Succeeds(y, patch[i])
    ensures !FileOnWay(x, Place(patch[i]))
  {
    hide ApplyAll, DiskOk, Named, FilledBelow;
    var mid, p := ApplyAll(d, patch[..k]).value, Place(patch[i]);
    if FileOnWay(x, p) {
      var q :| q in x.files && Under(q, p);
      assert TracksAt(d, mid, patch, i, x, y, q);
      FileIsOnWay(y, q, p);
      NotTheRoot(x, q);
      FromALaterWrite(d, patch, k, i, x, y, q);
      var j :| i <= j < k && !patch[j].delete && Place(patch[j]) == q;
      NotUnderItself(p);
      NoClash(patch, i, j, q);
    }
  }

  lemma NotTheRoot(x: Disk, c: Location)
    requires DiskOk(x) && StatusOf(x, c) != Absent
    ensures c != []
  {
  }

  lemma RetryCanWrite(d: Disk, patch: Patch, k: nat, i: nat, x: Disk, y: Disk)
    requires k <= |patch| && i < |patch| && ApplyAll(d, patch[..k]).Some? && DiskOk(x) && DiskOk(y)
    requires Retriable(patch) && Tracks(d, ApplyAll(d, patch[..k]).value, patch, i, x, y) && Succeeds(y, patch[i])
    ensures !patch[i].delete ==> Place(patch[i]) !in x.dirs
  {
    hide ApplyAll, Named, FilledBelow;
    var mid, p := ApplyAll(d, patch[..k]).value, Place(patch[i]);
    if p in x.dirs && !patch[i].delete {
      assert TracksAt(d, mid, patch, i, x, y, p);
      FromALaterWrite(d, patch, k, i, x, y, p);
      var j :| i <= j < k && !patch[j].delete && Under(p, Place(patch[j]));
      NotUnderItself(p);
      NoClash(patch, i, j, p);
    }
  }

  lemma RetryCanRemove(d: Disk, patch: Patch, k: nat, i: nat, x: Disk, y: Disk)
    requires k <= |patch| && i < |patch| && ApplyAll(d, patch[..k]).Some? && DiskOk(x) && DiskOk(y)
    requires Retriable(patch) && Tracks(d, ApplyAll(d, patch[..k]).value, patch, i, x, y) && Succeeds(y, patch[i])
    ensures patch[i].delete && Place(patch[i]) in x.dirs ==> !Occupied(x, Place(patch[i]))
  {
    hide ApplyAll, Named, FilledBelow;
    var mid, p := ApplyAll(d, patch[..k]).value, Place(patch[i]);
    if p in x.dirs && patch[i].delete && Occupied(x, p) {
      var c :| (c in x.files || c in x.dirs) && Under(p, c);
      assert TracksAt(d, mid, patch, i, x, y, c);
      IsOccupied(y, p, c);
      assert StatusOf(y, c) != Absent ==> p in y.dirs;
      hide DiskOk, Occupied;
      FromALaterWrite(d, patch, k, i, x, y, c);
      var j :| i <= j < k && !patch[j].delete && (Place(patch[j]) == c || Under(c, Place(patch[j])));
      NoClash(patch, i, j, c);
    }
  }

  lemma RetryOpSucceeds(d: Disk, patch: Patch, k: nat, i: nat, x: Disk, y: Disk)
    requires k <= |patch| && i < |patch| && ApplyAll(d, patch[..k]).Some? && DiskOk(x) && DiskOk(y)
    requires Retriable(patch) && Tracks(d, ApplyAll(d, patch[..k]).value, patch, i, x, y) && Succeeds(y, patch[i])
    ensures Succeeds(x, patch[i])
  {
    RetryFindsNoFile(d, patch, k, i, x, y);
    RetryCanWrite(d, patch, k, i, x, y);
    RetryCanRemove(d, patch, k, i, x, y);
    hide DiskOk, Tracks, Retriable, ApplyAll, FileOnWay, Occupied;
  }

  lemma TracksStart(d: Disk, patch: Patch, k: nat)
    requires k <= |patch| && DiskOk(d) && ApplyAll(d, patch[..k]).Some?
    ensures ApplyAll(d, patch[..0]) == Some(d)
    ensures var mid := ApplyAll(d, patch[..k]).value; ApplyAll(mid, patch[..0]) == Some(mid) && Tracks(d, mid, patch, 0, mid, d)
  {
    assert patch[..0] == [];
    AllKeepOk(d, patch[..k]);
  }

  lemma {:induction false} RetrySucceeds(d: Disk, patch: Patch, k: nat, i: nat)
    requires k <= |patch| && i <= |patch| && DiskOk(d) && ApplyAll(d, patch).Some? && Retriable(patch)
    ensures ApplyAll(d, patch[..k]).Some? && ApplyAll(d, patch[..i]).Some?
    ensures var mid := ApplyAll(d, patch[..k]).value;
      && ApplyAll(mid, patch[..i]).Some?
      && Tracks(d, mid, patch, i, ApplyAll(mid, patch[..i]).value, ApplyAll(d, patch[..i]).value)
  {
    hide ApplyOp, ApplyAll, Tracks, DiskOk, Retriable, Succeeds;
    PrefixSucceeds(d, patch, k);
    PrefixSucceeds(d, patch, i);
    var mid := ApplyAll(d, patch[..k]).value;
    AllKeepOk(d, patch[..k]);
    if i == 0 {
      TracksStart(d, patch, k);
    } else {
      RetrySucceeds(d, patch, k, i - 1);
      PrefixSucceeds(d, patch, i - 1);
      var x, y := ApplyAll(mid, patch[..i - 1]).value, ApplyAll(d, patch[..i - 1]).value;
      AllKeepOk(mid, patch[..i - 1]);
      AllKeepOk(d, patch[..i - 1]);
      ApplySnoc(d, patch, i - 1);
      ApplySnoc(mid, patch, i - 1);
      OnlyIfSucceeds(y, patch[i - 1]);
      RetryOpSucceeds(d, patch, k, i - 1, x, y);
      OnlyIfSucceeds(x, patch[i - 1]);
      TracksStep(d, mid, patch, i - 1, x, y);
    }
  }

  lemma OnlyIfSucceeds(d: Disk, op: FileOperation)
    ensures ApplyOp(d, op).Some? <==> Succeeds(d, op)
  {
  }

  ghost predicate RetryComesToTheSame(d: Disk, patch: Patch, k: nat)
    requires k <= |patch| && ApplyAll(d, patch).Some? && ApplyAll(d, patch[..k]).Some?
  {
    var again := ApplyAll(ApplyAll(d, patch[..k]).value, patch);
    again.Some? && again.value.files == ApplyAll(d, patch).value.files
  }

  /** A patch that succeeds can be sent again after every part of itself, and then leaves the
      same files, exactly if no write clashes with an earlier operation. */
  lemma RetriableExactly(d: Disk, patch: Patch)
    requires DiskOk(d) && ApplyAll(d, patch).Some?
    ensures forall k :: 0 <= k <= |patch| ==> ApplyAll(d, patch[..k]).Some?
    ensures (forall k :: 0 <= k <= |patch| ==> RetryComesToTheSame(d, patch, k)) <==> Retriable(patch)
  {
    forall k | 0 <= k <= |patch|
      ensures ApplyAll(d, patch[..k]).Some?
    {
      PrefixSucceeds(d, patch, k);
    }
    hide DiskOk, ApplyAll, Clash;
    if Retriable(patch) {
      forall k | 0 <= k <= |patch|
        ensures RetryComesToTheSame(d, patch, k)
      {
        RetrySucceeds(d, patch, k, |patch|);
        assert patch[..|patch|] == patch;
        var mid := ApplyAll(d, patch[..k]).value;
        SuccessIsResult(d, patch);
        SuccessIsResult(d, patch[..k]);
        SuccessIsResult(mid, patch);
        ResultOfRetry(d.files, patch, k);
      }
    } else {
      var i, j, c :| 0 <= i < j < |patch| && Clash(patch, i, j, c);
      ClashFails(d, patch, i, j, c);
      assert !RetryComesToTheSame(d, patch, j + 1);
    }
  }

  /** In particular when no path of the patch lies inside another one. */
  lemma FlatIsRetriable(patch: Patch)
    requires forall i, j :: 0 <= i < |patch| && 0 <= j < |patch| ==> !Under(Place(patch[i]), Place(patch[j]))
    ensures Retriable(patch)
  {
    hide Place, Named;
    forall i, j, c | 0 <= i < j < |patch|
      ensures !Clash(patch, i, j, c)
    {
      if Under(Place(patch[i]), c) && Under(c, Place(patch[j])) {
        UnderBoth(Place(patch[i]), c, Place(patch[j]));
      }
    }
  }

  /** The patch succeeds, and sent again after its first `k` operations it does not, or comes
      to something else. */
  ghost predicate FailsAgain(d: Disk, patch: Patch, k: nat) {
    && DiskOk(d) && k <= |patch| && ApplyAll(d, patch).Some? && ApplyAll(d, patch[..k]).Some?
    && !RetryComesToTheSame(d, patch, k)
  }

  lemma TwoTaken<T>(a: T, b: T)
    ensures [a, b][..0] == [] && [a, b][..1] == [a] && [a, b][..2] == [a, b]
  {
  }

  /** Replacing a file by a directory succeeds once and not again: the second run finds the
      directory in use. */
  lemma FileBecomesDirectory()
    ensures exists d, patch, k :: FailsAgain(d, patch, k)
  {
    var gone := FileOperation("a", [], 0, true);
    var inner := FileOperation("a/b", [], 0, false);
    PlaceOfOne();
    PlaceOfTwo();
    hide Clean;
    var file := Regular([], 0x180);
    assert NormalizedMode(0) == Some(0x180);
    var start := Disk(map[["a"] := file], {});
    var patch := [gone, inner];
    TwoTaken(gone, inner);
    ApplySnoc(start, patch, 0);
    ApplySnoc(start, patch, 1);
    assert Succeeds(start, gone);
    var empty := ApplyOp(start, gone).value;
    assert empty.files == map[] && empty.dirs == {};
    assert Succeeds(empty, inner);
    assert Clash(patch, 0, 1, ["a", "b"]);
    RetriableExactly(start, patch);
    var k :| 0 <= k <= |patch| && !RetryComesToTheSame(start, patch, k);
    assert FailsAgain(start, patch, k);
  }

  /** Git cannot tell: an empty directory that an earlier patch has left makes a write fail. */
  lemma EmptyDirectoryBlocks()
    ensures exists d, e, patch :: DiskOk(d) && DiskOk(e) && d.files == e.files && ApplyAll(d, patch).Some? && ApplyAll(e, patch).None?
  {
    var write := FileOperation("a", [], 0, false);
    PlaceOfOne();
    hide Clean;
    assert NormalizedMode(0) == Some(0x180);
    var d, e, patch := Disk(map[], {}), Disk(map[], {["a"]}), [write];
    assert patch[..0] == [] && patch[..1] == patch;
    ApplySnoc(d, patch, 0);
    ApplySnoc(e, patch, 0);
    assert Succeeds(d, write) && !Succeeds(e, write);
  }

  /** Nor can it tell of a file that it leaves out and that lies where a directory has to be. */
  lemma HiddenFileBlocks()
    ensures exists hidden, d, e, patch ::
      && DiskOk(d) && DiskOk(e) && Frozen(hidden, d.files) == Frozen(hidden, e.files) && d.dirs == e.dirs
      && ApplyAll(d, patch).Some? && ApplyAll(e, patch).None?
  {
    var inner := FileOperation("a/b", [], 0, false);
    PlaceOfTwo();
    hide Clean;
    assert NormalizedMode(0) == Some(0x180);
    var hidden: Rules := (files, p) => p == ["a"];
    var d, e, patch := Disk(map[], {}), Disk(map[["a"] := Regular([], 0x180)], {}), [inner];
    assert patch[..0] == [] && patch[..1] == patch;
    ApplySnoc(d, patch, 0);
    ApplySnoc(e, patch, 0);
    assert Succeeds(d, inner);
    assert !Succeeds(e, inner) by {
      assert ["a"] in e.files && Under(["a"], ["a", "b"]);
    }
    assert Frozen(hidden, d.files) == Frozen(hidden, e.files);
  }

  /** A file that is written where freezing leaves it out is not in the tree frozen afterwards. */
  lemma HiddenWriteIsUnseen()
    ensures exists hidden, files, patch ::
      && Frozen(hidden, Result(files, patch)) == Frozen(hidden, files) && !Traced(hidden, files, patch)
  {
    var write := FileOperation("a", [], 0, false);
    PlaceOfOne();
    hide Clean;
    assert NormalizedMode(0) == Some(0x180);
    var hidden: Rules := (files, p) => true;
    var files: Tree, patch := map[], [write];
    assert patch[..0] == [] && Result(files, []) == files;
    var after := Result(files, patch);
    assert after == map[["a"] := Regular([], 0x180)];
    assert Touches(patch, ["a"]) by {
      assert Place(patch[0]) == ["a"];
    }
    assert ["a"] in after && hidden(after, ["a"]);
    assert Frozen(hidden, after) == Frozen(hidden, files);
  }

  /** A directory or a file at `x` keeps the operation from succeeding. */
  predicate BlocksOp(op: FileOperation, x: Location, file: bool) {
    || (op.delete && Under(Place(op), x))
    || if file then Under(x, Place(op)) else !op.delete && Place(op) == x
  }

  /** What only the second disk has at `x` is still there when operation `i` runs into it. */
  predicate BlockedAt(patch: Patch, i: nat, x: Location, file: bool) {
    i < |patch| && !Named(patch, i, x) && BlocksOp(patch[i], x, file)
  }

  /** The places of `extra` that the first `i` operations do not name. */
  function LeftOf(extra: set<Location>, patch: Patch, i: nat): set<Location>
    requires i <= |patch|
  {
    set x | x in extra && !Named(patch, i, x)
  }

  lemma LeftSnoc(extra: set<Location>, patch: Patch, i: nat)
    requires i < |patch|
    ensures LeftOf(extra, patch, i + 1) == LeftOf(extra, patch, i) - {Place(patch[i])}
  {
    hide Place;
  }

  /** The second disk is the first one with more files and more directories. */
  ghost predicate More(d: Disk, e: Disk, files: set<Location>, dirs: set<Location>) {
    e.files.Keys == d.files.Keys + files && e.dirs == d.dirs + dirs
  }

  lemma BlockedOp(d: Disk, e: Disk, files: set<Location>, dirs: set<Location>, op: FileOperation)
    requires DiskOk(d) && DiskOk(e) && More(d, e, files, dirs)
    ensures Succeeds(e, op) <==>
      Succeeds(d, op) && (forall x :: x in files ==> !BlocksOp(op, x, true)) && (forall x :: x in dirs ==> !BlocksOp(op, x, false))
    ensures Succeeds(e, op) ==>
      More(ApplyOp(d, op).value, ApplyOp(e, op).value, files - {Place(op)}, dirs - {Place(op)})
  {
    hide NormalizedMode, Place;
    var p := Place(op);
    if Succeeds(e, op) {
      forall x | x in files
        ensures !BlocksOp(op, x, true)
      {
        NotBlocking(e, op, x);
      }
      forall x | x in dirs
        ensures !BlocksOp(op, x, false)
      {
        NotBlocking(e, op, x);
      }
    }
  }

  lemma NotBlocking(e: Disk, op: FileOperation, x: Location)
    requires DiskOk(e) && Succeeds(e, op)
    ensures x in e.files ==> !BlocksOp(op, x, true)
    ensures x in e.dirs ==> !BlocksOp(op, x, false)
  {
    hide NormalizedMode, Place;
    IsOccupied(e, Place(op), x);
  }

  /** Of two disks, one with more files and directories than the other, that one takes a patch
      exactly if the other one does and nothing that only it has is in the way. */
  lemma {:induction false} BlockedExactly(d: Disk, e: Disk, patch: Patch)
    requires DiskOk(d) && DiskOk(e) && d.files.Keys <= e.files.Keys && d.dirs <= e.dirs
    ensures ApplyAll(e, patch).Some? <==>
      && ApplyAll(d, patch).Some?
      && (forall x, i :: x in e.files && x !in d.files ==> !BlockedAt(patch, i, x, true))
      && (forall x, i :: x in e.dirs && x !in d.dirs ==> !BlockedAt(patch, i, x, false))
    ensures ApplyAll(e, patch).Some? ==>
      More(ApplyAll(d, patch).value, ApplyAll(e, patch).value,
           LeftOf(e.files.Keys - d.files.Keys, patch, |patch|), LeftOf(e.dirs - d.dirs, patch, |patch|))
  {
    hide DiskOk, ApplyOp, Place, BlockedAt, BlocksOp;
    var files, dirs := e.files.Keys - d.files.Keys, e.dirs - d.dirs;
    if patch == [] {
      NothingBlocks();
    } else {
      var n := |patch| - 1;
      var rest := patch[..n];
      BlockedExactly(d, e, rest);
      BlockedSnoc(files, patch, true);
      BlockedSnoc(dirs, patch, false);
      LeftSnoc(files, patch, n);
      LeftSnoc(dirs, patch, n);
      hide LeftOf, More;
      if ApplyAll(e, rest).Some? {
        AllKeepOk(d, rest);
        AllKeepOk(e, rest);
        BlockedOp(ApplyAll(d, rest).value, ApplyAll(e, rest).value, LeftOf(files, patch, n), LeftOf(dirs, patch, n), patch[n]);
        OnlyIfSucceeds(ApplyAll(d, rest).value, patch[n]);
        OnlyIfSucceeds(ApplyAll(e, rest).value, patch[n]);
      }
    }
  }

  lemma NothingBlocks()
    ensures forall x, i, file :: !BlockedAt([], i, x, file)
    ensures forall extra :: LeftOf(extra, [], 0) == extra
  {
  }

  lemma BlockedSnoc(extra: set<Location>, patch: Patch, file: bool)
    requires patch != []
    ensures var n := |patch| - 1;
      && LeftOf(extra, patch[..n], n) == LeftOf(extra, patch, n)
      && ((forall x, i :: x in extra ==> !BlockedAt(patch, i, x, file)) <==>
            && (forall x, i :: x in extra ==> !BlockedAt(patch[..n], i, x, file))
            && (forall x :: x in LeftOf(extra, patch, n) ==> !BlocksOp(patch[n], x, file)))
  {
    hide Place, BlocksOp;
    var n := |patch| - 1;
    forall x, i | 0 <= i <= n
      ensures Named(patch[..n], i, x) <==> Named(patch, i, x)
    {
      if Named(patch, i, x) {
        var m :| 0 <= m < i && Place(patch[m]) == x;
        assert patch[..n][m] == patch[m];
      }
    }
    hide Named;
    forall x, i | 0 <= i < n
      ensures BlockedAt(patch[..n], i, x, file) <==> BlockedAt(patch, i, x, file)
    {
    }
    forall x | x in extra
      ensures BlockedAt(patch, n, x, file) <==> x in LeftOf(extra, patch, n) && BlocksOp(patch[n], x, file)
    {
    }
  }

  /** The worktree that a frozen tree tells of: its files and the directories they need. */
  function Bare(t: Tree): Disk {
    Disk(t, set p, q | p in t && q in Above(p) :: q)
  }

  /** A worktree takes a patch exactly if the tree frozen from it would and neither a file that
      is left out nor a directory that no frozen file needs is in the way. */
  lemma FrozenTreeDecides(hidden: Rules, e: Disk, patch: Patch)
    requires DiskOk(e)
    ensures var d := Bare(Frozen(hidden, e.files));
      ApplyAll(e, patch).Some? <==>
        && ApplyAll(d, patch).Some?
        && (forall x, i :: x in e.files && hidden(e.files, x) ==> !BlockedAt(patch, i, x, true))
        && (forall x, i :: x in e.dirs && x !in d.dirs ==> !BlockedAt(patch, i, x, false))
  {
    var d := Bare(Frozen(hidden, e.files));
    BareIsOk(hidden, e);
    BlockedExactly(d, e, patch);
    hide ApplyAll, BlockedAt;
    assert forall x :: x in d.files <==> x in e.files && !hidden(e.files, x);
  }

  lemma BareIsOk(hidden: Rules, e: Disk)
    requires DiskOk(e)
    ensures var d := Bare(Frozen(hidden, e.files)); DiskOk(d) && d.files.Keys <= e.files.Keys && d.dirs <= e.dirs
  {
    var d := Bare(Frozen(hidden, e.files));
    forall q, p | (p in d.files || p in d.dirs) && q != [] && Under(q, p)
      ensures q in d.dirs
    {
      if p in d.files {
        assert q in Above(p);
      } else {
        var r :| r in d.files && p in Above(r);
        UnderBoth(q, p, r);
        assert q in Above(r);
      }
    }
  }

  lemma PlaceOfOne()
    ensures Clean("a").names == ["a"]
  {
    assert Split("a", '/') == ["a"];
    assert CleanParts(CleanPath(false, 0, ["a"]), []) == CleanPath(false, 0, ["a"]);
    assert ["a"][1..] == [] && [] + ["a"] == ["a"];
  }

  lemma PlaceOfTwo()
    ensures Clean("a/b").names == ["a", "b"]
  {
    assert IndexOf("a/b", '/') == 1 by {
      assert IndexOf("a/b", '/') < 2;
    }
    assert "a/b"[..1] == "a" && "a/b"[2..] == "b";
    assert Split("b", '/') == ["b"];
    var parts := ["a", "b"];
    assert Split("a/b", '/') == parts;
    var c := CleanPath(false, 0, []);
    assert parts[1..] == ["b"] && ["b"][1..] == [];
    assert CleanStep(c, "a") == CleanPath(false, 0, ["a"]);
    assert CleanStep(CleanPath(false, 0, ["a"]), "b") == CleanPath(false, 0, ["a", "b"]);
    assert CleanParts(CleanPath(false, 0, ["a", "b"]), []) == CleanPath(false, 0, ["a", "b"]);
  }
}
