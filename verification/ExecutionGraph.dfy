/** The execution graph: when it is accepted, which slice runs next, and the order
    in which a whole run completes the slices. */
module ExecutionGraph {
  import opened Text

  datatype Slice = Slice(id: string, title: string, criteria: seq<string>, dependencies: seq<string>)

  type Graph = seq<Slice>

  datatype Option<T> = None | Some(value: T)

  function Ids(g: Graph): set<string> {
    set s | s in g :: s.id
  }

  predicate UniqueIds(g: Graph) {
    forall i, j :: 0 <= i < j < |g| ==> g[i].id != g[j].id
  }

  const PREFIX := "slice_"

  /** What a graph must satisfy slice by slice, before any ordering question. */
  predicate FieldsOk(g: Graph) {
    && g != [] && UniqueIds(g)
    && (forall s :: s in g ==> PREFIX <= s.id && s.title != "" && s.criteria != [])
    && (forall s :: s in g ==> KnownDependencies(g, s))
  }

  function Dependencies(g: Graph, id: string): seq<string> {
    if g == [] then [] else if g[0].id == id then g[0].dependencies else Dependencies(g[1..], id)
  }

  predicate Distinct<T(==)>(xs: seq<T>) {
    forall i, j :: 0 <= i < j < |xs| ==> xs[i] != xs[j]
  }

  predicate DependenciesIn(g: Graph, id: string, done: set<string>) {
    forall d :: d in Dependencies(g, id) ==> d in done
  }

  function Elements(xs: seq<string>): set<string> {
    set x | x in xs
  }

  /** `order` lists distinct slices, each after everything it depends on. */
  predicate Respects(g: Graph, order: seq<string>) {
    && Distinct(order) && Elements(order) <= Ids(g)
    && forall k :: 0 <= k < |order| ==> DependenciesIn(g, order[k], Elements(order[..k]))
  }

  predicate Topological(g: Graph, order: seq<string>) {
    Respects(g, order) && Elements(order) == Ids(g)
  }

  /** A graph with no cycle is one that can be laid out. */
  ghost predicate Acyclic(g: Graph) {
    exists order :: Topological(g, order)
  }

  lemma {:induction false} DependenciesOf(g: Graph, s: Slice)
    requires UniqueIds(g) && s in g
    ensures Dependencies(g, s.id) == s.dependencies
  {
    if g[0] != s {
      assert s in g[1..];
      var k :| 0 <= k < |g| && g[k] == s;
      assert g[0].id != g[k].id;
      DependenciesOf(g[1..], s);
    }
  }

  // ---------------------------------------------------------------- validation

  /** How many entries of `deps` are still to come. */
  function Open(deps: seq<string>, done: set<string>): nat {
    if deps == [] then 0 else (if deps[0] in done then 0 else 1) + Open(deps[1..], done)
  }

  function Count(xs: seq<string>, x: string): nat {
    if xs == [] then 0 else (if xs[0] == x then 1 else 0) + Count(xs[1..], x)
  }

  lemma {:induction false} CountAppend(xs: seq<string>, y: string, x: string)
    ensures Count(xs + [y], x) == Count(xs, x) + if x == y then 1 else 0
  {
    if xs != [] {
      assert (xs + [y])[1..] == xs[1..] + [y];
      CountAppend(xs[1..], y, x);
    }
  }

  lemma {:induction false} CountZero(xs: seq<string>, x: string)
    ensures Count(xs, x) == 0 <==> x !in xs
  {
    if xs != [] {
      CountZero(xs[1..], x);
    }
  }

  lemma {:induction false} OpenAfter(deps: seq<string>, done: set<string>, id: string)
    requires id !in done
    ensures Open(deps, done + {id}) + Count(deps, id) == Open(deps, done)
  {
    if deps != [] {
      OpenAfter(deps[1..], done, id);
    }
  }

  lemma {:induction false} OpenZero(deps: seq<string>, done: set<string>)
    ensures Open(deps, done) == 0 <==> forall d :: d in deps ==> d in done
  {
    if deps != [] {
      OpenZero(deps[1..], done);
      assert deps == [deps[0]] + deps[1..];
    }
  }

  lemma {:induction false} OpenNothing(deps: seq<string>)
    ensures Open(deps, {}) == |deps|
  {
    if deps != [] {
      OpenNothing(deps[1..]);
    }
  }

  /** `edges[id]` names every slice once for each time it lists `id`. */
  ghost predicate EdgesOf(g: Graph, edges: map<string, seq<string>>) {
    && edges.Keys == Ids(g)
    && (forall id, x :: id in edges && x in Ids(g) ==> Count(edges[id], x) == Count(Dependencies(g, x), id))
    && (forall id, x :: id in edges && x in edges[id] ==> x in Ids(g))
  }

  lemma {:induction false} DependenciesGrow(g: Graph, i: nat, x: string)
    requires i < |g| && UniqueIds(g)
    ensures Dependencies(g[..i + 1], x) == if x == g[i].id then g[i].dependencies else Dependencies(g[..i], x)
  {
    if i > 0 {
      DependenciesGrow(g[1..], i - 1, x);
      assert g[..i + 1][1..] == g[1..][..i] && g[..i][1..] == g[1..][..i - 1];
    }
  }

  method CheckSlices(g: Graph) returns (ok: bool)
    ensures ok <==> g != [] && UniqueIds(g) && forall s :: s in g ==> PREFIX <= s.id && s.title != "" && s.criteria != []
  {
    if g == [] {
      return false;
    }
    var ids: set<string> := {};
    for i := 0 to |g|
      invariant UniqueIds(g[..i])
      invariant ids == Ids(g[..i])
      invariant forall s :: s in g[..i] ==> PREFIX <= s.id && s.title != "" && s.criteria != []
    {
      var s := g[i];
      assert s in g;
      if !(PREFIX <= s.id) {
        return false;
      }
      if s.id in ids || s.title == "" || s.criteria == [] {
        if s.id in ids {
          var k :| 0 <= k < i && g[k].id == s.id;
        }
        return false;
      }
      assert g[..i + 1] == g[..i] + [s];
      ids := ids + {s.id};
    }
    assert g[..|g|] == g;
    return true;
  }

  /** The entries for slice `x` that the edge loop has read at slice `i`, entry `j`. */
  ghost function Read(g: Graph, i: nat, j: nat, x: string): seq<string>
    requires i <= |g| && (i < |g| ==> j <= |g[i].dependencies|)
  {
    if i < |g| && x == g[i].id then g[i].dependencies[..j] else Dependencies(g[..i], x)
  }

  ghost predicate Tallied(g: Graph, i: nat, j: nat, edges: map<string, seq<string>>, indegree: map<string, int>)
    requires i <= |g| && (i < |g| ==> j <= |g[i].dependencies|)
  {
    && edges.Keys == indegree.Keys == Ids(g)
    && (forall id, x :: id in edges && x in Ids(g) ==> Count(edges[id], x) == Count(Read(g, i, j, x), id))
    && (forall id, x :: id in edges && x in edges[id] ==> x in Ids(g))
    && (forall x :: x in indegree ==> indegree[x] == |Read(g, i, j, x)|)
  }

  lemma TallyKeys(g: Graph, i: nat, j: nat, edges: map<string, seq<string>>, indegree: map<string, int>)
    requires i <= |g| && (i < |g| ==> j <= |g[i].dependencies|) && Tallied(g, i, j, edges, indegree)
    ensures edges.Keys == indegree.Keys == Ids(g)
  {
  }

  lemma TallyEntry(g: Graph, i: nat, j: nat, out: seq<string>, id: string, x: string)
    requires i < |g| && j < |g[i].dependencies| && Count(out, x) == Count(Read(g, i, j, x), id)
    ensures var d, s := g[i].dependencies[j], g[i].id;
      Count(if id == d then out + [s] else out, x) == Count(Read(g, i, j + 1, x), id)
  {
    hide Dependencies;
    var d, s := g[i].dependencies[j], g[i].id;
    assert g[i].dependencies[..j + 1] == g[i].dependencies[..j] + [d];
    CountAppend(out, s, x);
    CountAppend(g[i].dependencies[..j], d, id);
  }

  lemma ReadOne(g: Graph, i: nat, j: nat, x: string)
    requires i < |g| && j < |g[i].dependencies|
    ensures |Read(g, i, j + 1, x)| == |Read(g, i, j, x)| + if x == g[i].id then 1 else 0
  {
    hide Dependencies;
  }

  lemma TallyOne(g: Graph, i: nat, j: nat, edges: map<string, seq<string>>, indegree: map<string, int>)
    requires UniqueIds(g) && i < |g| && j < |g[i].dependencies| && Tallied(g, i, j, edges, indegree)
    requires g[i].dependencies[j] in Ids(g)
    ensures var d := g[i].dependencies[j];
      Tallied(g, i, j + 1, edges[d := edges[d] + [g[i].id]], indegree[g[i].id := indegree[g[i].id] + 1])
  {
    hide UniqueIds, Dependencies, Count, Read;
    var d, s := g[i].dependencies[j], g[i].id;
    assert g[i] in g && s in Ids(g);
    hide Ids;
    var edges', indegree' := edges[d := edges[d] + [s]], indegree[s := indegree[s] + 1];
    forall id, x | id in edges' && x in Ids(g)
      ensures Count(edges'[id], x) == Count(Read(g, i, j + 1, x), id)
    {
      TallyEntry(g, i, j, edges[id], id, x);
    }
    forall x | x in indegree'
      ensures indegree'[x] == |Read(g, i, j + 1, x)|
    {
      ReadOne(g, i, j, x);
    }
  }

  lemma ReadNext(g: Graph, i: nat, x: string)
    requires UniqueIds(g) && i < |g|
    ensures Read(g, i + 1, 0, x) == Read(g, i, |g[i].dependencies|, x)
  {
    DependenciesGrow(g, i, x);
    assert g[i].dependencies[..|g[i].dependencies|] == g[i].dependencies;
    if i + 1 < |g| && x == g[i + 1].id {
      NotYet(g, i + 1, x);
    }
  }

  lemma TallyNext(g: Graph, i: nat, edges: map<string, seq<string>>, indegree: map<string, int>)
    requires UniqueIds(g) && i < |g| && Tallied(g, i, |g[i].dependencies|, edges, indegree)
    ensures Tallied(g, i + 1, 0, edges, indegree)
  {
    forall x
      ensures Read(g, i + 1, 0, x) == Read(g, i, |g[i].dependencies|, x)
    {
      ReadNext(g, i, x);
    }
    hide Read, Count, UniqueIds;
  }

  lemma {:induction false} NotYet(g: Graph, i: nat, x: string)
    requires UniqueIds(g) && i < |g| && x == g[i].id
    ensures Dependencies(g[..i], x) == []
  {
    if i > 0 {
      assert g[0].id != g[i].id;
      NotYet(g[1..], i - 1, x);
      assert g[..i][1..] == g[1..][..i - 1];
    }
  }

  lemma TallyStart(g: Graph)
    ensures Tallied(g, 0, 0, map id | id in Ids(g) :: [], map id | id in Ids(g) :: 0)
  {
    forall x
      ensures Read(g, 0, 0, x) == []
    {
    }
  }

  lemma TallyEnd(g: Graph, edges: map<string, seq<string>>, indegree: map<string, int>)
    requires Tallied(g, |g|, 0, edges, indegree)
    ensures EdgesOf(g, edges) && indegree == map id | id in Ids(g) :: |Dependencies(g, id)|
  {
    assert g[..|g|] == g;
  }

  method ReadDependencies(g: Graph, i: nat, edges0: map<string, seq<string>>, indegree0: map<string, int>)
    returns (ok: bool, edges: map<string, seq<string>>, indegree: map<string, int>)
    requires UniqueIds(g) && i < |g| && Tallied(g, i, 0, edges0, indegree0)
    ensures ok <==> KnownDependencies(g, g[i])
    ensures ok ==> Tallied(g, i + 1, 0, edges, indegree)
  {
    hide Tallied, Read, Dependencies, Count, UniqueIds;
    var s := g[i];
    assert s in g;
    edges, indegree := edges0, indegree0;
    TallyKeys(g, i, 0, edges, indegree);
    for j := 0 to |s.dependencies|
      invariant Tallied(g, i, j, edges, indegree) && edges.Keys == indegree.Keys == Ids(g)
      invariant forall d :: d in s.dependencies[..j] ==> d in Ids(g) && d != s.id
    {
      var d := s.dependencies[j];
      assert d in s.dependencies;
      if d !in Ids(g) || d == s.id {
        return false, edges, indegree;
      }
      TallyOne(g, i, j, edges, indegree);
      assert s.dependencies[..j + 1] == s.dependencies[..j] + [d];
      edges := edges[d := edges[d] + [s.id]];
      indegree := indegree[s.id := indegree[s.id] + 1];
      TallyKeys(g, i, j + 1, edges, indegree);
    }
    assert s.dependencies[..|s.dependencies|] == s.dependencies;
    TallyNext(g, i, edges, indegree);
    ok := true;
  }

  predicate KnownDependencies(g: Graph, s: Slice) {
    forall d :: d in s.dependencies ==> d in Ids(g) && d != s.id
  }

  method BuildEdges(g: Graph) returns (ok: bool, edges: map<string, seq<string>>, indegree: map<string, int>)
    requires UniqueIds(g)
    ensures ok <==> forall s :: s in g ==> KnownDependencies(g, s)
    ensures ok ==> EdgesOf(g, edges) && indegree == map id | id in Ids(g) :: |Dependencies(g, id)|
  {
    edges := map id | id in Ids(g) :: [];
    indegree := map id | id in Ids(g) :: 0;
    TallyStart(g);
    ok := true;
    hide Tallied, KnownDependencies, Count, Dependencies, UniqueIds;
    for i := 0 to |g|
      invariant Tallied(g, i, 0, edges, indegree)
      invariant forall k :: 0 <= k < i ==> KnownDependencies(g, g[k])
    {
      ok, edges, indegree := ReadDependencies(g, i, edges, indegree);
      if !ok {
        assert g[i] in g;
        return;
      }
    }
    TallyEnd(g, edges, indegree);
    ok := true;
  }

  /** What Kahn's loop keeps: `done` are the slices taken off the queue so far. */
  ghost predicate Frontier(g: Graph, done: seq<string>, queue: seq<string>, indegree: map<string, int>) {
    && Distinct(done + queue) && Elements(queue) <= Ids(g) && Respects(g, done)
    && indegree.Keys == Ids(g)
    && (forall x :: x in Ids(g) ==> indegree[x] == Open(Dependencies(g, x), Elements(done)))
    && (forall x :: x in Ids(g) ==> (x in done + queue <==> indegree[x] == 0))
  }

  /** The same in the middle of handling `id`, the last slice taken: `k` of its edges are used up. */
  ghost predicate Midway(g: Graph, done: seq<string>, id: string, out: seq<string>, k: nat, queue: seq<string>, indegree: map<string, int>)
    requires k <= |out|
  {
    && Distinct(done + [id] + queue) && Elements(queue) <= Ids(g) && Respects(g, done + [id])
    && indegree.Keys == Ids(g)
    && (forall x :: x in Ids(g) ==> indegree[x] == Open(Dependencies(g, x), Elements(done)) - Count(out[..k], x))
    && (forall x :: x in Ids(g) ==> (x in done + [id] + queue <==> indegree[x] == 0))
  }

  lemma MidwayKeys(g: Graph, done: seq<string>, id: string, out: seq<string>, k: nat, queue: seq<string>, indegree: map<string, int>)
    requires k <= |out| && Midway(g, done, id, out, k, queue, indegree)
    ensures indegree.Keys == Ids(g)
  {
  }

  lemma Take(g: Graph, done: seq<string>, queue: seq<string>, indegree: map<string, int>, out: seq<string>)
    requires queue != [] && Frontier(g, done, queue, indegree)
    ensures Midway(g, done, queue[0], out, 0, queue[1..], indegree)
  {
    var id := queue[0];
    assert id in queue && id in Elements(queue) && id in done + queue;
    assert done + [id] + queue[1..] == done + queue;
    OpenZero(Dependencies(g, id), Elements(done));
    assert DependenciesIn(g, id, Elements(done));
    assert Distinct(done + [id]) by {
      assert done + [id] == (done + queue)[..|done| + 1];
    }
    assert (done + [id])[..|done|] == done;
    forall k | 0 <= k < |done + [id]|
      ensures DependenciesIn(g, (done + [id])[k], Elements((done + [id])[..k]))
    {
      if k < |done| {
        assert (done + [id])[..k] == done[..k];
      }
    }
  }

  lemma Head(g: Graph, done: seq<string>, queue: seq<string>, indegree: map<string, int>)
    requires queue != [] && Frontier(g, done, queue, indegree)
    ensures queue[0] in Ids(g) && queue[0] !in done && |done| < |Ids(g)|
  {
    var id := queue[0];
    assert id in Elements(queue) && (done + queue)[|done|] == id;
    forall k | 0 <= k < |done|
      ensures done[k] != id
    {
      assert (done + queue)[k] == done[k];
    }
    DistinctSize(done);
    assert Elements(done) + {id} <= Ids(g);
    SubsetSize(Elements(done) + {id}, Ids(g));
  }

  lemma {:induction false} CountPrefix(xs: seq<string>, k: nat, x: string)
    requires k < |xs|
    ensures Count(xs[..k + 1], x) == Count(xs[..k], x) + if x == xs[k] then 1 else 0
    ensures Count(xs[..k], x) + (if x == xs[k] then 1 else 0) <= Count(xs, x)
  {
    assert xs[..k + 1] == xs[..k] + [xs[k]];
    CountAppend(xs[..k], xs[k], x);
    CountSplit(xs, k + 1, x);
  }

  lemma {:induction false} CountSplit(xs: seq<string>, k: nat, x: string)
    requires k <= |xs|
    ensures Count(xs[..k], x) + Count(xs[k..], x) == Count(xs, x)
  {
    if k > 0 {
      CountSplit(xs[1..], k - 1, x);
      assert xs[..k][1..] == xs[1..][..k - 1] && xs[k..] == xs[1..][k - 1..];
    }
  }

  lemma Relax(g: Graph, done: seq<string>, id: string, out: seq<string>, k: nat, queue: seq<string>, indegree: map<string, int>)
    requires k < |out| && Midway(g, done, id, out, k, queue, indegree) && out[k] in Ids(g) && id !in done
    requires forall x :: x in Ids(g) ==> Count(out, x) == Count(Dependencies(g, x), id)
    ensures var next := out[k];
      var indegree' := indegree[next := indegree[next] - 1];
      Midway(g, done, id, out, k + 1, if indegree'[next] == 0 then queue + [next] else queue, indegree')
  {
    hide Open, Dependencies, Respects, Count;
    var next := out[k];
    var indegree' := indegree[next := indegree[next] - 1];
    var queue' := if indegree'[next] == 0 then queue + [next] else queue;
    forall x | x in Ids(g)
      ensures indegree'[x] == Open(Dependencies(g, x), Elements(done)) - Count(out[..k + 1], x)
    {
      CountPrefix(out, k, x);
    }
    CountPrefix(out, k, next);
    OpenAfter(Dependencies(g, next), Elements(done), id);
    assert indegree[next] > 0;
    Enqueue(done + [id] + queue, next);
    assert done + [id] + (queue + [next]) == (done + [id] + queue) + [next];
  }

  lemma Enqueue(xs: seq<string>, next: string)
    ensures Distinct(xs) && next !in xs ==> Distinct(xs + [next])
    ensures forall x :: x in xs + [next] <==> x in xs || x == next
  {
  }

  lemma Settle(g: Graph, done: seq<string>, id: string, out: seq<string>, queue: seq<string>, indegree: map<string, int>)
    requires Midway(g, done, id, out, |out|, queue, indegree) && id !in done
    requires forall x :: x in Ids(g) ==> Count(out, x) == Count(Dependencies(g, x), id)
    ensures Frontier(g, done + [id], queue, indegree)
  {
    assert out[..|out|] == out;
    assert Elements(done + [id]) == Elements(done) + {id};
    forall x | x in Ids(g)
      ensures indegree[x] == Open(Dependencies(g, x), Elements(done + [id]))
    {
      OpenAfter(Dependencies(g, x), Elements(done), id);
    }
  }

  /** If every slice not laid out still waits for another one that is not, there is no layout. */
  lemma Stuck(g: Graph, done: set<string>, order: seq<string>)
    requires done < Ids(g) && Topological(g, order)
    ensures exists id :: id in Ids(g) - done && DependenciesIn(g, id, done)
  {
    var missing :| missing in Ids(g) && missing !in done;
    assert missing in Elements(order);
    var k := 0;
    while k < |order| && order[k] in done
      invariant k <= |order| && forall i :: 0 <= i < k ==> order[i] in done
    {
      k := k + 1;
    }
    assert k < |order|;
    assert order[k] in Elements(order);
    assert Elements(order[..k]) <= done;
    assert DependenciesIn(g, order[k], Elements(order[..k]));
    assert DependenciesIn(g, order[k], done);
  }

  lemma {:induction false} DistinctSize(xs: seq<string>)
    requires Distinct(xs)
    ensures |Elements(xs)| == |xs|
  {
    if xs != [] {
      DistinctSize(xs[1..]);
      assert Elements(xs) == {xs[0]} + Elements(xs[1..]);
      assert xs[0] !in Elements(xs[1..]);
    }
  }

  lemma Exhausted(g: Graph, done: seq<string>, indegree: map<string, int>)
    requires Frontier(g, done, [], indegree)
    ensures |done| == |Ids(g)| <==> Acyclic(g)
  {
    assert done + [] == done;
    DistinctSize(done);
    if |done| == |Ids(g)| {
      SameSize(Elements(done), Ids(g));
      assert Topological(g, done);
    } else if Acyclic(g) {
      var order :| Topological(g, order);
      assert Elements(done) != Ids(g);
      Stuck(g, Elements(done), order);
      var id :| id in Ids(g) - Elements(done) && DependenciesIn(g, id, Elements(done));
      OpenZero(Dependencies(g, id), Elements(done));
      assert false;
    }
  }

  lemma SameSize(a: set<string>, b: set<string>)
    requires a <= b && |a| == |b|
    ensures a == b
  {
    if a != b {
      var x :| x in b && x !in a;
      SubsetSize(a, b - {x});
    }
  }

  lemma {:induction false} SubsetSize(a: set<string>, b: set<string>)
    requires a <= b
    ensures |a| <= |b|
  {
    if x :| x in a {
      SubsetSize(a - {x}, b - {x});
    }
  }

  /** Slices nothing holds back, in whatever order the map is walked. */
  method Roots(g: Graph, indegree: map<string, int>) returns (queue: seq<string>)
    requires indegree == map id | id in Ids(g) :: |Dependencies(g, id)|
    ensures Frontier(g, [], queue, indegree)
  {
    queue := [];
    var rest := Ids(g);
    while rest != {}
      invariant rest <= Ids(g) && Distinct(queue)
      invariant forall x :: x in queue <==> x in Ids(g) - rest && indegree[x] == 0
      decreases rest
    {
      var id :| id in rest;
      rest := rest - {id};
      if indegree[id] == 0 {
        queue := queue + [id];
      }
    }
    assert [] + queue == queue;
    forall x | x in Ids(g)
      ensures indegree[x] == Open(Dependencies(g, x), Elements([]))
    {
      OpenNothing(Dependencies(g, x));
      assert Elements([]) == {};
    }
  }

  method Release(g: Graph, ghost done: seq<string>, id: string, out: seq<string>, queue0: seq<string>, indegree0: map<string, int>)
    returns (queue: seq<string>, indegree: map<string, int>)
    requires Midway(g, done, id, out, 0, queue0, indegree0) && id !in done
    requires forall x :: x in out ==> x in Ids(g)
    requires forall x :: x in Ids(g) ==> Count(out, x) == Count(Dependencies(g, x), id)
    ensures Frontier(g, done + [id], queue, indegree)
  {
    hide Midway, Frontier, Count, Dependencies;
    queue, indegree := queue0, indegree0;
    MidwayKeys(g, done, id, out, 0, queue, indegree);
    for k := 0 to |out|
      invariant Midway(g, done, id, out, k, queue, indegree) && indegree.Keys == Ids(g)
    {
      var next := out[k];
      assert next in out;
      Relax(g, done, id, out, k, queue, indegree);
      indegree := indegree[next := indegree[next] - 1];
      if indegree[next] == 0 {
        queue := queue + [next];
      }
      MidwayKeys(g, done, id, out, k + 1, queue, indegree);
    }
    Settle(g, done, id, out, queue, indegree);
  }

  method Drain(g: Graph, edges: map<string, seq<string>>, degrees: map<string, int>) returns (ok: bool)
    requires EdgesOf(g, edges) && degrees == map id | id in Ids(g) :: |Dependencies(g, id)|
    ensures ok <==> Acyclic(g)
  {
    var indegree := degrees;
    var queue := Roots(g, indegree);
    ghost var done: seq<string> := [];
    var seen := 0;
    hide Midway, Frontier, Count, Dependencies;
    while queue != []
      invariant Frontier(g, done, queue, indegree) && seen == |done|
      decreases |Ids(g)| - |done|
    {
      var id := queue[0];
      Head(g, done, queue, indegree);
      Take(g, done, queue, indegree, edges[id]);
      queue, indegree := Release(g, done, id, edges[id], queue[1..], indegree);
      seen := seen + 1;
      done := done + [id];
    }
    Exhausted(g, done, indegree);
    ok := seen == |Ids(g)|;
  }

  /** A graph is accepted exactly when its fields are sound and it has no cycle. */
  method Validate(g: Graph) returns (ok: bool)
    ensures ok <==> FieldsOk(g) && Acyclic(g)
  {
    var fields := CheckSlices(g);
    if !fields {
      return false;
    }
    var known, edges, indegree := BuildEdges(g);
    if !known {
      return false;
    }
    ok := Drain(g, edges, indegree);
  }

  // ---------------------------------------------------------------- scheduling

  datatype Status = Pending | Active | Completed

  predicate Is(status: map<string, Status>, id: string, v: Status) {
    id in status && status[id] == v
  }

  predicate ReadyNow(g: Graph, status: map<string, Status>, id: string) {
    && id in Ids(g) && Is(status, id, Pending)
    && forall d :: d in Dependencies(g, id) ==> Is(status, d, Completed)
  }

  function Insert(s: Slice, sorted: Graph): Graph {
    if sorted == [] || Less(s.id, sorted[0].id) then [s] + sorted else [sorted[0]] + Insert(s, sorted[1..])
  }

  function SortById(g: Graph): Graph {
    if g == [] then [] else Insert(g[0], SortById(g[1..]))
  }

  predicate Sorted(g: Graph) {
    forall i, j :: 0 <= i < j < |g| ==> !Less(g[j].id, g[i].id)
  }

  lemma {:induction false} InsertKeeps(s: Slice, g: Graph)
    requires Sorted(g)
    ensures Sorted(Insert(s, g))
    ensures forall x :: x in Insert(s, g) <==> x == s || x in g
  {
    if g == [] {
    } else if Less(s.id, g[0].id) {
      forall j | 0 <= j < |g|
        ensures !Less(g[j].id, s.id)
      {
        LessTotal(s.id, g[0].id);
        if Less(g[j].id, s.id) {
          LessTransitive(g[j].id, s.id, g[0].id);
        }
      }
    } else {
      InsertKeeps(s, g[1..]);
      assert forall x :: x in Insert(s, g) <==> x == g[0] || x in Insert(s, g[1..]);
      assert forall x :: x in g <==> x == g[0] || x in g[1..];
      forall x | x in Insert(s, g[1..])
        ensures !Less(x.id, g[0].id)
      {
        if x in g[1..] {
          var k :| 0 <= k < |g[1..]| && g[1..][k] == x;
          assert g[k + 1] == x;
        }
      }
    }
  }

  lemma {:induction false} SortSound(g: Graph)
    ensures Sorted(SortById(g)) && forall x :: x in SortById(g) <==> x in g
  {
    if g != [] {
      SortSound(g[1..]);
      InsertKeeps(g[0], SortById(g[1..]));
      assert g == [g[0]] + g[1..];
    }
  }

  method IsReady(g: Graph, status: map<string, Status>, slice: Slice) returns (ready: bool)
    requires UniqueIds(g) && slice in g
    ensures ready <==> ReadyNow(g, status, slice.id)
  {
    DependenciesOf(g, slice);
    if !Is(status, slice.id, Pending) {
      return false;
    }
    ready := true;
    for j := 0 to |slice.dependencies|
      invariant ready <==> forall d :: d in slice.dependencies[..j] ==> Is(status, d, Completed)
    {
      if !Is(status, slice.dependencies[j], Completed) {
        ready := false;
      }
    }
    assert slice.dependencies[..|slice.dependencies|] == slice.dependencies;
  }

  /** The slice to run next: none while one is active, otherwise the ready slice
      with the smallest id. */
  method NextReady(g: Graph, status: map<string, Status>) returns (next: Option<Slice>)
    requires UniqueIds(g)
    ensures next.Some? ==> next.value in g && ReadyNow(g, status, next.value.id)
                           && (forall id :: id in status ==> status[id] != Active)
                           && forall x :: ReadyNow(g, status, x) && x != next.value.id ==> Less(next.value.id, x)
    ensures next.None? ==> (exists id :: Is(status, id, Active)) || forall id :: !ReadyNow(g, status, id)
  {
    if active :| active in status && status[active] == Active {
      assert Is(status, active, Active);
      return None;
    }
    var slices := SortById(g);
    SortSound(g);
    assert forall x :: ReadyNow(g, status, x) ==> exists s :: s in g && s.id == x;
    hide ReadyNow, SortById, UniqueIds;
    for i := 0 to |slices|
      invariant forall s :: s in slices[..i] ==> !ReadyNow(g, status, s.id)
    {
      var ready := IsReady(g, status, slices[i]);
      if ready {
        SmallestFirst(g, status, slices, i);
        return Some(slices[i]);
      }
    }
    assert slices[..|slices|] == slices;
    return None;
  }

  lemma SmallestFirst(g: Graph, status: map<string, Status>, slices: Graph, i: nat)
    requires Sorted(slices) && (forall x :: x in slices <==> x in g) && i < |slices|
    requires forall s :: s in slices[..i] ==> !ReadyNow(g, status, s.id)
    ensures forall x :: ReadyNow(g, status, x) && x != slices[i].id ==> Less(slices[i].id, x)
  {
    forall x | ReadyNow(g, status, x) && x != slices[i].id
      ensures Less(slices[i].id, x)
    {
      var s :| s in g && s.id == x;
      assert s !in slices[..i];
      var k :| 0 <= k < |slices| && slices[k] == s;
      LessTotal(slices[i].id, x);
    }
  }

  function DoneIn(status: map<string, Status>): set<string> {
    set id | id in status && status[id] == Completed
  }

  /** On an accepted graph with nothing active and something pending, some slice is ready. */
  lemma NeverStuck(g: Graph, status: map<string, Status>)
    requires Acyclic(g) && status.Keys == Ids(g)
    requires (forall id :: id in status ==> status[id] != Active) && exists id :: Is(status, id, Pending)
    ensures exists id :: ReadyNow(g, status, id)
  {
    var order :| Topological(g, order);
    var waiting :| Is(status, waiting, Pending);
    assert waiting in Ids(g) && waiting !in DoneIn(status);
    Stuck(g, DoneIn(status), order);
    var id :| id in Ids(g) - DoneIn(status) && DependenciesIn(g, id, DoneIn(status));
    assert ReadyNow(g, status, id);
  }

  predicate Ready(g: Graph, done: set<string>, id: string) {
    id in Ids(g) && id !in done && DependenciesIn(g, id, done)
  }

  /** Every slice of `order` was the smallest one ready when it was picked. */
  ghost predicate Greedy(g: Graph, order: seq<string>) {
    forall k :: 0 <= k < |order| ==>
      Ready(g, Elements(order[..k]), order[k])
      && forall x :: Ready(g, Elements(order[..k]), x) && x != order[k] ==> Less(order[k], x)
  }

  lemma GreedyRespects(g: Graph, order: seq<string>)
    requires Greedy(g, order)
    ensures Respects(g, order)
  {
    forall i, j | 0 <= i < j < |order|
      ensures order[i] != order[j]
    {
      assert order[i] in order[..j];
    }
    forall x | x in Elements(order)
      ensures x in Ids(g)
    {
      var k :| 0 <= k < |order| && order[k] == x;
    }
  }

  /** `a` comes before `b` in dictionary order. */
  ghost predicate Before(a: seq<string>, b: seq<string>) {
    exists k :: 0 <= k < |a| && k < |b| && a[..k] == b[..k] && Less(a[k], b[k])
  }

  /** A greedy run over all slices is the first of all topological orders in
      dictionary order, so the order of a run is decided by the graph alone. */
  lemma GreedyIsFirst(g: Graph, order: seq<string>, other: seq<string>)
    requires Greedy(g, order) && Elements(order) == Ids(g) && Topological(g, other)
    ensures Topological(g, order)
    ensures order == other || Before(order, other)
  {
    GreedyRespects(g, order);
    DistinctSize(order);
    DistinctSize(other);
    var k := 0;
    while k < |order| && order[k] == other[k]
      invariant k <= |order| == |other| && order[..k] == other[..k]
    {
      assert order[..k + 1] == order[..k] + [order[k]] && other[..k + 1] == other[..k] + [other[k]];
      k := k + 1;
    }
    if k < |order| {
      assert other[k] in Elements(other);
      forall i | 0 <= i < k
        ensures other[i] != other[k]
      {
      }
      assert Ready(g, Elements(order[..k]), other[k]);
    } else {
      assert order == order[..k] && other == other[..k];
    }
  }
}
