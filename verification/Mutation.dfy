/** Running an execution graph: every slice is one fenced mutation of the worktree,
    recorded ahead of the write, so a process may die anywhere and the next one
    decides from the rows and the tree whether to adopt, send again or stop. */
module Mutation {
  import G = ExecutionGraph
  import opened Text
  import opened Patches

  // ---------------------------------------------------------------- data model

  datatype Attempt = Attempt(basis: Tree, live: bool)

  datatype OperationStatus = Intended | Mutated | Finished

  datatype Operation = Operation(pre: Tree, post: Option<Tree>, status: OperationStatus)

  datatype Phase = Ready | Executing | Verifying | Conflict

  /** What was sent to the broker: the files it started from and the patch. */
  datatype Sending = Sending(from: Tree, patch: Patch)

  /** One mutation that was committed: its slice, the tree frozen before it, what was written
      and the tree frozen after it. */
  datatype Entry = Entry(slice: string, pre: Tree, done: Sending, post: Tree)

  /** The durable tables (one attempt and one operation row per slice), all files of the
      worktree and what freezing leaves out of them, and what has happened so far: the tree
      at the start, the committed mutations, what was last sent for a slice (`sent`), what
      left the post tree that is on record (`kept`), the slices sent again after their post
      tree was on record (`resent`), and whether anybody else has changed the worktree. The
      trees in the rows, `origin` too, are frozen ones. */
  datatype State =
    State(status: map<string, G.Status>, attempts: map<string, Attempt>, operations: map<string, Operation>,
          phase: Phase, worktree: Tree, hidden: Rules, origin: Tree, log: seq<Entry>, sent: map<string, Sending>,
          kept: map<string, Sending>, resent: set<string>, edited: bool)

  /** The tree that freezing the worktree gives. */
  function Seen(s: State): Tree {
    Frozen(s.hidden, s.worktree)
  }

  /** The tree that freezing gives once all that was sent is written. */
  function Left(hidden: Rules, sending: Sending): Tree {
    Frozen(hidden, Result(sending.from, sending.patch))
  }

  function Slices(log: seq<Entry>): (r: seq<string>)
    ensures |r| == |log| && forall i :: 0 <= i < |log| ==> r[i] == log[i].slice
  {
    seq(|log|, i requires 0 <= i < |log| => log[i].slice)
  }

  function Tail(s: State): Tree {
    if s.log == [] then s.origin else s.log[|s.log| - 1].post
  }

  predicate Live(s: State, id: string) {
    id in s.attempts && s.attempts[id].live
  }

  predicate Retired(s: State, id: string) {
    id in s.attempts && !s.attempts[id].live
  }

  // ----------------------------------------------------------------- invariant

  /** The rows of one slice agree with each other. */
  ghost predicate RowOk(s: State, id: string) {
    && (id in s.attempts <==> id in s.status && s.status[id] != G.Pending)
    && (Live(s, id) ==> s.status[id] == G.Active)
    && (Retired(s, id) <==> id in s.operations && s.operations[id].status == Finished)
    && (id in s.operations ==>
          && id in s.attempts && s.operations[id].pre == s.attempts[id].basis
          && (s.operations[id].post.None? <==> s.operations[id].status == Intended)
          && (s.operations[id].post.Some? ==>
                && id in s.kept && s.operations[id].pre == Frozen(s.hidden, s.kept[id].from)
                && s.operations[id].post == Some(Left(s.hidden, s.kept[id]))))
  }

  ghost predicate TablesOk(g: G.Graph, s: State) {
    && s.status.Keys == G.Ids(g)
    && (forall id :: RowOk(s, id))
    && (forall a, b :: G.Is(s.status, a, G.Active) && G.Is(s.status, b, G.Active) ==> a == b)
    && (s.phase == Ready ==> s.attempts == map[])
    && (s.phase == Verifying ==> AllCompleted(s.status))
  }

  predicate AllCompleted(status: map<string, G.Status>) {
    forall id :: id in status ==> status[id] == G.Completed
  }

  ghost predicate Chosen(g: G.Graph, done: set<string>, id: string) {
    G.Ready(g, done, id) && forall x :: G.Ready(g, done, x) && x != id ==> Less(id, x)
  }

  ghost predicate TrueEntry(hidden: Rules, e: Entry) {
    e.pre == Frozen(hidden, e.done.from) && e.post == Left(hidden, e.done)
  }

  /** Every entry names the trees around what was written, and the slices come in greedy order. */
  ghost predicate LogOk(g: G.Graph, s: State) {
    && (forall i :: 0 <= i < |s.log| ==> TrueEntry(s.hidden, s.log[i]))
    && G.Greedy(g, Slices(s.log))
    && (forall id :: id in Slices(s.log) <==> Retired(s, id))
    && (forall id :: Live(s, id) ==> Chosen(g, G.Elements(Slices(s.log)), id))
  }

  ghost predicate Link(origin: Tree, log: seq<Entry>, i: nat)
    requires i < |log|
  {
    log[i].pre == if i == 0 then origin else log[i - 1].post
  }

  ghost predicate Chained(origin: Tree, log: seq<Entry>) {
    forall i :: 0 <= i < |log| ==> Link(origin, log, i)
  }

  /** Some operations of the patch are written, and the next one possibly in part. */
  ghost predicate PartWritten(sending: Sending, t: Tree) {
    var from, patch := sending.from, sending.patch;
    exists k :: 0 <= k <= |patch| && (t == Result(from, patch[..k]) || TornAt(from, patch, k, t))
  }

  /** The process died inside the write of operation `k`: its file holds anything. */
  ghost predicate TornAt(from: Tree, patch: Patch, k: nat, t: Tree) {
    k < |patch| && exists data, mode :: t == Result(from, patch[..k])[Place(patch[k]) := Regular(data, mode)]
  }

  /** Which patch the post tree on record belongs to. */
  ghost predicate EntryOnRecord(s: State, e: Entry) {
    && e.slice in s.operations && s.operations[e.slice].status == Finished && s.operations[e.slice].pre == e.pre
    && s.operations[e.slice].post.Some? && e.slice in s.kept && (e.slice !in s.resent ==> s.kept[e.slice] == e.done)
  }

  ghost predicate LiveOnRecord(s: State, id: string) {
    Live(s, id) && id in s.operations && s.operations[id].status == Mutated && id !in s.resent ==>
      id in s.sent && id in s.kept && s.kept[id] == s.sent[id]
  }

  ghost predicate RecordOk(s: State) {
    && (forall i :: 0 <= i < |s.log| ==> EntryOnRecord(s, s.log[i]))
    && (forall id :: LiveOnRecord(s, id))
  }

  /** What a live attempt means for the worktree while nobody else edits it. */
  ghost predicate LiveTreeOk(s: State, id: string) {
    Live(s, id) ==>
      && s.attempts[id].basis == Tail(s)
      && (id !in s.operations ==> Seen(s) == Tail(s))
      && (id in s.operations && s.operations[id].status == Intended ==>
            id in s.sent && Frozen(s.hidden, s.sent[id].from) == Tail(s) && PartWritten(s.sent[id], s.worktree))
      && (id in s.operations && s.operations[id].status == Mutated ==> s.operations[id].post == Some(Seen(s)))
  }

  ghost predicate NoneLive(s: State) {
    forall id :: !Live(s, id)
  }

  /** The operation row of a committed mutation says what the log says. */
  ghost predicate RowMatches(s: State, e: Entry) {
    e.slice in s.operations && s.operations[e.slice] == Operation(e.pre, Some(e.post), Finished)
  }

  /** Unedited, the log is one chain of trees that ends in the tree of the worktree. */
  ghost predicate TreesOk(s: State) {
    !s.edited ==>
      && Chained(s.origin, s.log)
      && (forall i :: 0 <= i < |s.log| ==> RowMatches(s, s.log[i]))
      && (forall id :: LiveTreeOk(s, id))
      && (NoneLive(s) ==> Seen(s) == Tail(s))
  }

  ghost predicate Inv(g: G.Graph, s: State) {
    TablesOk(g, s) && LogOk(g, s) && TreesOk(s) && RecordOk(s)
  }

  function Initial(g: G.Graph, hidden: Rules, files: Tree): State {
    State(map id | id in G.Ids(g) :: G.Pending, map[], map[], Ready, files, hidden, Frozen(hidden, files),
          [], map[], map[], {}, false)
  }

  lemma InitialHolds(g: G.Graph, hidden: Rules, files: Tree)
    ensures Inv(g, Initial(g, hidden, files))
  {
  }

  // --------------------------------------------------------------- transactions

  function Advance(s: State): State {
    if s.phase == Executing && AllCompleted(s.status) then s.(phase := Verifying) else s
  }

  function ActivateStep(s: State, id: string, basis: Tree): State {
    s.(status := s.status[id := G.Active], attempts := s.attempts[id := Attempt(basis, true)],
       phase := if s.phase == Ready then Executing else s.phase)
  }

  /** INSERT OR IGNORE of the operation row. */
  function IntendStep(s: State, id: string, patch: Patch): State
    requires id in s.attempts
  {
    s.(operations := if id in s.operations then s.operations
                     else s.operations[id := Operation(s.attempts[id].basis, None, Intended)],
       sent := s.sent[id := Sending(s.worktree, patch)],
       resent := if id in s.operations && s.operations[id].status == Mutated then s.resent + {id} else s.resent)
  }

  /** Only an operation that is still intended takes the post tree. */
  function RecordStep(s: State, id: string): State
    requires id in s.operations && id in s.sent
  {
    if s.operations[id].status == Intended then
      s.(operations := s.operations[id := s.operations[id].(post := Some(Seen(s)), status := Mutated)],
         kept := s.kept[id := s.sent[id]])
    else s
  }

  function RetireStep(s: State, id: string): State
    requires id in s.operations && id in s.attempts && id in s.sent
  {
    s.(operations := s.operations[id := s.operations[id].(status := Finished)],
       attempts := s.attempts[id := s.attempts[id].(live := false)],
       log := s.log + [Entry(id, s.attempts[id].basis, s.sent[id], Seen(s))])
  }

  function CompleteStep(s: State, id: string): State {
    Advance(s.(status := s.status[id := G.Completed]))
  }

  function AdoptStep(s: State, id: string): State
    requires id in s.operations && id in s.attempts && id in s.kept && s.operations[id].post.Some?
  {
    var retired := s.(operations := s.operations[id := s.operations[id].(status := Finished)],
                      attempts := s.attempts[id := s.attempts[id].(live := false)],
                      log := s.log + [Entry(id, s.attempts[id].basis, s.kept[id], s.operations[id].post.value)]);
    CompleteStep(retired, id)
  }

  /** Every active slice whose mutation was committed and whose attempt is retired is complete. */
  function Reconciled(s: State): map<string, G.Status> {
    map id | id in s.status ::
      if s.status[id] == G.Active && Retired(s, id) && id in s.operations && s.operations[id].status == Finished
      then G.Completed else s.status[id]
  }

  function ReconcileStep(s: State): State {
    Advance(s.(status := Reconciled(s)))
  }

  function EditStep(s: State, t: Tree): State {
    s.(worktree := t, edited := true)
  }

  // -------------------------------------------------- every transaction keeps it

  /** The rows of slice `x` are the same in both states. */
  ghost predicate SameRow(s: State, t: State, x: string) {
    && (x in s.status <==> x in t.status) && (x in s.status ==> s.status[x] == t.status[x])
    && (x in s.attempts <==> x in t.attempts) && (x in s.attempts ==> s.attempts[x] == t.attempts[x])
    && (x in s.operations <==> x in t.operations) && (x in s.operations ==> s.operations[x] == t.operations[x])
    && (x in s.kept ==> x in t.kept && t.kept[x] == s.kept[x]) && (x in s.resent <==> x in t.resent)
  }

  lemma RowSame(s: State, t: State, x: string)
    requires RowOk(s, x) && SameRow(s, t, x) && t.hidden == s.hidden
    ensures RowOk(t, x)
  {
    hide Result;
  }

  /** A step of the broker changes the rows of its own slice only. */
  lemma TablesStep(g: G.Graph, s: State, t: State, id: string)
    requires TablesOk(g, s) && t.status == s.status && t.phase == s.phase && t.hidden == s.hidden && id in s.attempts
    requires RowOk(t, id) && forall x :: x != id ==> SameRow(s, t, x)
    ensures TablesOk(g, t)
  {
    hide RowOk, SameRow, G.Ids, AllCompleted, G.Is;
    forall x
      ensures RowOk(t, x)
    {
      if x != id {
        assert SameRow(s, t, x);
        RowSame(s, t, x);
      }
    }
  }

  lemma LogSame(g: G.Graph, s: State, t: State)
    requires LogOk(g, s) && t.log == s.log && t.attempts == s.attempts && t.hidden == s.hidden
    ensures LogOk(g, t)
  {
    hide Slices, Chosen, G.Greedy, TrueEntry, G.Elements;
    forall id
      ensures Live(t, id) <==> Live(s, id)
      ensures Retired(t, id) <==> Retired(s, id)
    {
    }
  }

  lemma OneLive(g: G.Graph, s: State, a: string, b: string)
    requires TablesOk(g, s) && Live(s, a) && Live(s, b)
    ensures a == b
  {
    hide G.Ids, Result;
    assert RowOk(s, a) && RowOk(s, b);
    assert G.Is(s.status, a, G.Active) && G.Is(s.status, b, G.Active);
  }

  /** Only the live slice has anything to say about the worktree. */
  lemma TreesStep(g: G.Graph, s: State, t: State, id: string)
    requires TablesOk(g, s) && TreesOk(s) && Live(s, id) && LiveTreeOk(t, id) && t.attempts == s.attempts
    requires t.log == s.log && t.origin == s.origin && t.edited == s.edited && t.hidden == s.hidden
    requires forall x :: x != id ==> SameRow(s, t, x)
    ensures TreesOk(t)
  {
    hide TablesOk, LiveTreeOk, Chained;
    assert Live(t, id);
    LiveRow(g, s, id);
    forall i | 0 <= i < |s.log|
      ensures !s.edited ==> RowMatches(t, t.log[i])
    {
      assert !s.edited ==> RowMatches(s, s.log[i]);
      assert s.log[i].slice != id ==> SameRow(s, t, s.log[i].slice);
    }
    forall x
      ensures LiveTreeOk(t, x)
    {
      if Live(t, x) {
        OneLive(g, s, x, id);
      } else {
        NotLive(t, x);
      }
    }
  }

  lemma NotLive(s: State, x: string)
    requires !Live(s, x)
    ensures LiveTreeOk(s, x)
  {
  }

  lemma LiveTree(s: State, id: string)
    requires TreesOk(s) && Live(s, id) && !s.edited
    ensures LiveTreeOk(s, id)
  {
    hide LiveTreeOk;
  }

  lemma LiveRow(g: G.Graph, s: State, id: string)
    requires TablesOk(g, s) && Live(s, id)
    ensures RowOk(s, id) && G.Is(s.status, id, G.Active)
    ensures id in s.operations ==> s.operations[id].status != Finished
    ensures s.phase != Ready && s.phase != Verifying
  {
    hide G.Ids, Result;
    assert RowOk(s, id);
  }

  lemma DoneIsCompleted(g: G.Graph, s: State)
    requires TablesOk(g, s) && LogOk(g, s) && forall a :: a in s.status ==> s.status[a] != G.Active
    ensures forall x :: x in G.Elements(Slices(s.log)) <==> G.Is(s.status, x, G.Completed)
    ensures NoneLive(s)
  {
    hide Slices, Chosen, G.Greedy, Result, G.Ids, TrueEntry;
    forall x
      ensures x in G.Elements(Slices(s.log)) <==> G.Is(s.status, x, G.Completed)
      ensures !Live(s, x)
    {
      assert RowOk(s, x);
      assert x in Slices(s.log) <==> Retired(s, x);
    }
  }

  lemma ReadyIsReadyNow(g: G.Graph, s: State, x: string)
    requires TablesOk(g, s) && LogOk(g, s) && forall a :: a in s.status ==> s.status[a] != G.Active
    ensures G.Ready(g, G.Elements(Slices(s.log)), x) <==> G.ReadyNow(g, s.status, x)
  {
    DoneIsCompleted(g, s);
    hide Slices, RowOk, LogOk, G.Dependencies;
  }

  lemma ActivateTables(g: G.Graph, s: State, id: string, basis: Tree)
    requires TablesOk(g, s) && G.Is(s.status, id, G.Pending) && (s.phase == Ready || s.phase == Executing)
    requires forall a :: a in s.status ==> s.status[a] != G.Active
    ensures TablesOk(g, ActivateStep(s, id, basis))
  {
    hide G.Ids, RowOk;
    var t := ActivateStep(s, id, basis);
    forall x
      ensures RowOk(t, x)
    {
      assert RowOk(s, x);
      if x != id {
        RowSame(s, t, x);
      } else {
        FreshRow(s, t, id);
      }
    }
    assert !AllCompleted(s.status);
  }

  lemma FreshRow(s: State, t: State, id: string)
    requires RowOk(s, id) && G.Is(s.status, id, G.Pending) && t.operations == s.operations
    requires G.Is(t.status, id, G.Active) && id in t.attempts && t.attempts[id].live && t.hidden == s.hidden
    ensures RowOk(t, id) && id !in s.operations && id !in s.attempts
  {
    hide Result;
  }

  lemma ActivateLog(g: G.Graph, s: State, id: string, basis: Tree)
    requires LogOk(g, s) && id !in s.attempts && NoneLive(s) && Chosen(g, G.Elements(Slices(s.log)), id)
    ensures LogOk(g, ActivateStep(s, id, basis))
  {
    hide Slices, Chosen, G.Greedy, G.Elements, TrueEntry;
    var t := ActivateStep(s, id, basis);
    forall x
      ensures Live(t, x) ==> x == id
      ensures Retired(t, x) <==> Retired(s, x)
    {
      assert !Live(s, x);
    }
  }

  lemma ActivateTrees(s: State, id: string, basis: Tree)
    requires TreesOk(s) && NoneLive(s) && id !in s.operations && (s.edited || basis == Seen(s))
    ensures TreesOk(ActivateStep(s, id, basis))
  {
    hide Chained, PartWritten;
    var t := ActivateStep(s, id, basis);
    assert Live(t, id);
    forall x
      ensures !s.edited ==> LiveTreeOk(t, x)
    {
      assert !Live(s, x);
    }
  }

  lemma ActivateKeeps(g: G.Graph, s: State, id: string, basis: Tree)
    requires Inv(g, s) && G.ReadyNow(g, s.status, id) && (s.edited || basis == Seen(s))
    requires forall a :: a in s.status ==> s.status[a] != G.Active
    requires forall x :: G.ReadyNow(g, s.status, x) && x != id ==> Less(id, x)
    requires s.phase == Ready || s.phase == Executing
    ensures Inv(g, ActivateStep(s, id, basis)) && Live(ActivateStep(s, id, basis), id)
  {
    var t := ActivateStep(s, id, basis);
    ReadyIsPending(g, s.status, id);
    ActivateTables(g, s, id, basis);
    DoneIsCompleted(g, s);
    assert RowOk(s, id);
    FreshRow(s, t, id);
    forall x
      ensures G.Ready(g, G.Elements(Slices(s.log)), x) <==> G.ReadyNow(g, s.status, x)
    {
      ReadyIsReadyNow(g, s, x);
    }
    hide G.Ready, G.ReadyNow, Less, TablesOk, LogOk, TreesOk, Slices, RecordOk;
    RecordSame(s, t);
    assert Chosen(g, G.Elements(Slices(s.log)), id);
    ActivateLog(g, s, id, basis);
    ActivateTrees(s, id, basis);
  }

  lemma ReadyIsPending(g: G.Graph, status: map<string, G.Status>, id: string)
    requires G.ReadyNow(g, status, id)
    ensures G.Is(status, id, G.Pending)
  {
  }

  /** The broker between its intent and its record: some of the patch is written. */
  ghost predicate Writing(s: State, id: string, patch: Patch, k: nat) {
    && Live(s, id) && id in s.operations && id in s.sent && s.sent[id].patch == patch && k <= |patch|
    && Frozen(s.hidden, s.sent[id].from) == s.attempts[id].basis && Result(s.sent[id].from, patch[..k]) == s.worktree
    && (!s.edited ==> s.operations[id].status == Intended)
  }

  /** A step of the broker changes the record of its own slice only. */
  lemma RecordStays(g: G.Graph, s: State, t: State, id: string)
    requires TablesOk(g, s) && LogOk(g, s) && RecordOk(s) && Live(s, id) && t.log == s.log && t.attempts == s.attempts
    requires (forall x :: x != id ==> SameRow(s, t, x)) && LiveOnRecord(t, id)
    ensures RecordOk(t)
  {
    hide TablesOk, G.Greedy, Chosen, TrueEntry, Result, Slices;
    forall i | 0 <= i < |t.log|
      ensures EntryOnRecord(t, t.log[i])
    {
      var e := s.log[i];
      assert EntryOnRecord(s, e);
      SliceOf(s.log, i);
      assert Retired(s, e.slice);
      assert SameRow(s, t, e.slice);
    }
    forall x
      ensures LiveOnRecord(t, x)
    {
      if Live(t, x) {
        OneLive(g, s, x, id);
      }
    }
  }

  lemma SliceOf(log: seq<Entry>, i: nat)
    requires i < |log|
    ensures log[i].slice in Slices(log)
  {
    assert Slices(log)[i] == log[i].slice;
  }

  /** Steps that touch neither rows nor log. */
  lemma RecordSame(s: State, t: State)
    requires RecordOk(s) && t.log == s.log && t.operations == s.operations && t.kept == s.kept && t.resent == s.resent
    requires t.sent == s.sent && forall id :: Live(t, id) ==> Live(s, id) || id !in s.operations
    ensures RecordOk(t)
  {
    forall i | 0 <= i < |t.log|
      ensures EntryOnRecord(t, t.log[i])
    {
      assert EntryOnRecord(s, s.log[i]);
    }
    forall id
      ensures LiveOnRecord(t, id)
    {
      assert LiveOnRecord(s, id);
    }
  }

  lemma IntendKeeps(g: G.Graph, s: State, id: string, patch: Patch)
    requires Inv(g, s) && Live(s, id) && Seen(s) == s.attempts[id].basis
    requires !s.edited && id in s.operations ==> s.operations[id].status == Intended
    ensures Inv(g, IntendStep(s, id, patch)) && Writing(IntendStep(s, id, patch), id, patch, 0)
  {
    var t := IntendStep(s, id, patch);
    hide Result, Frozen, TablesOk, LogOk, TreesOk, RecordOk, PartWritten;
    LiveRow(g, s, id);
    RecordStays(g, s, t, id);
    IntendTables(g, s, id, patch);
    LogSame(g, s, t);
    IntendWrites(s, id, patch);
    hide RowOk, LiveTreeOk;
    if !s.edited {
      LiveTree(s, id);
      TreesStep(g, s, t, id);
    }
    EditedTrees(t);
  }

  /** Nothing is written yet. */
  lemma IntendWrites(s: State, id: string, patch: Patch)
    requires Live(s, id) && Seen(s) == s.attempts[id].basis
    requires !s.edited && id in s.operations ==> s.operations[id].status == Intended
    ensures Writing(IntendStep(s, id, patch), id, patch, 0)
    ensures !s.edited && LiveTreeOk(s, id) ==> LiveTreeOk(IntendStep(s, id, patch), id)
  {
    assert patch[..0] == [] && Result(s.worktree, patch[..0]) == s.worktree;
    assert PartWritten(Sending(s.worktree, patch), s.worktree);
    hide Result, Frozen, PartWritten;
  }

  lemma IntendTables(g: G.Graph, s: State, id: string, patch: Patch)
    requires TablesOk(g, s) && Live(s, id)
    ensures TablesOk(g, IntendStep(s, id, patch))
  {
    hide Result, Frozen, TablesOk;
    LiveRow(g, s, id);
    TablesStep(g, s, IntendStep(s, id, patch), id);
  }

  lemma EditedTrees(s: State)
    ensures s.edited ==> TreesOk(s)
  {
  }

  /** One operation that succeeds. */
  lemma WriteKeeps(g: G.Graph, s: State, id: string, patch: Patch, k: nat)
    requires Inv(g, s) && Writing(s, id, patch, k) && k < |patch|
    ensures var t := s.(worktree := EffectOf(s.worktree, patch[k])); Inv(g, t) && Writing(t, id, patch, k + 1)
  {
    var t := s.(worktree := EffectOf(s.worktree, patch[k]));
    ResultSnoc(s.sent[id].from, patch, k);
    assert t.worktree == Result(s.sent[id].from, patch[..k + 1]);
    assert PartWritten(s.sent[id], t.worktree);
    hide Inv;
    InWriteKeeps(g, s, t, id, patch, k);
  }

  /** A write that the process does not survive. */
  lemma TearKeeps(g: G.Graph, s: State, id: string, patch: Patch, k: nat, data: seq<bv8>, mode: bv32)
    requires Inv(g, s) && Writing(s, id, patch, k) && k < |patch|
    ensures Inv(g, s.(worktree := s.worktree[Place(patch[k]) := Regular(data, mode)]))
  {
    var t := s.(worktree := s.worktree[Place(patch[k]) := Regular(data, mode)]);
    assert TornAt(s.sent[id].from, patch, k, t.worktree);
    assert PartWritten(s.sent[id], t.worktree);
    hide Inv, Result;
    InWriteKeeps(g, s, t, id, patch, k);
  }

  lemma InWriteKeeps(g: G.Graph, s: State, t: State, id: string, patch: Patch, k: nat)
    requires Inv(g, s) && Writing(s, id, patch, k) && t == s.(worktree := t.worktree)
    requires PartWritten(s.sent[id], t.worktree)
    ensures Inv(g, t)
  {
    hide TablesOk, LogOk, TreesOk, RecordOk, Result, PartWritten;
    LiveRow(g, s, id);
    TablesStep(g, s, t, id);
    LogSame(g, s, t);
    RecordSame(s, t);
    if !s.edited {
      LiveTree(s, id);
      TreesStep(g, s, t, id);
    }
    EditedTrees(t);
  }

  /** The broker after its record: the whole patch is in the tree. */
  ghost predicate Written(s: State, id: string, patch: Patch) {
    && Live(s, id) && id in s.operations && id in s.sent && s.sent[id].patch == patch
    && s.operations[id].status == Mutated
    && Frozen(s.hidden, s.sent[id].from) == s.attempts[id].basis && Result(s.sent[id].from, patch) == s.worktree
  }

  lemma RecordKeeps(g: G.Graph, s: State, id: string, patch: Patch)
    requires Inv(g, s) && Writing(s, id, patch, |patch|)
    ensures Inv(g, RecordStep(s, id)) && Written(RecordStep(s, id), id, patch)
  {
    hide TablesOk, LogOk, TreesOk, RecordOk, Result;
    var t := RecordStep(s, id);
    assert patch[..|patch|] == patch;
    LiveRow(g, s, id);
    LiveHasRecord(s, id);
    RecordStays(g, s, t, id);
    TablesStep(g, s, t, id);
    LogSame(g, s, t);
    if !s.edited {
      LiveTree(s, id);
      TreesStep(g, s, t, id);
    }
    EditedTrees(t);
  }

  lemma LiveHasRecord(s: State, id: string)
    requires RecordOk(s)
    ensures LiveOnRecord(s, id)
  {
    hide LiveOnRecord, EntryOnRecord;
  }

  lemma GreedyGrows(g: G.Graph, order: seq<string>, id: string)
    requires G.Greedy(g, order) && Chosen(g, G.Elements(order), id)
    ensures G.Greedy(g, order + [id])
  {
    var longer := order + [id];
    forall k | 0 <= k < |longer|
      ensures G.Ready(g, G.Elements(longer[..k]), longer[k])
      ensures forall x :: G.Ready(g, G.Elements(longer[..k]), x) && x != longer[k] ==> Less(longer[k], x)
    {
      if k < |order| {
        assert longer[..k] == order[..k];
      } else {
        assert longer[..k] == order;
      }
    }
  }

  /** The state after the live attempt of `e.slice` is retired with entry `e`. */
  function Retiring(s: State, e: Entry): State
    requires e.slice in s.operations && e.slice in s.attempts
  {
    s.(operations := s.operations[e.slice := s.operations[e.slice].(status := Finished)],
       attempts := s.attempts[e.slice := s.attempts[e.slice].(live := false)],
       log := s.log + [e])
  }

  lemma NoneLeft(g: G.Graph, s: State, e: Entry)
    requires TablesOk(g, s) && Live(s, e.slice) && e.slice in s.operations
    ensures NoneLive(Retiring(s, e))
  {
    hide TablesOk;
    var t := Retiring(s, e);
    forall x
      ensures !Live(t, x)
    {
      if x != e.slice && Live(s, x) {
        OneLive(g, s, x, e.slice);
      }
    }
  }

  /** Retiring a live attempt with a true entry keeps the log. */
  lemma RetireLog(g: G.Graph, s: State, e: Entry)
    requires LogOk(g, s) && Live(s, e.slice) && e.slice in s.operations && TrueEntry(s.hidden, e) && NoneLive(Retiring(s, e))
    ensures LogOk(g, Retiring(s, e))
  {
    var t := Retiring(s, e);
    var before, after := Slices(s.log), Slices(t.log);
    assert after == before + [e.slice];
    hide Slices, TrueEntry, G.Greedy;
    GreedyGrows(g, before, e.slice);
    hide Chosen;
    forall x
      ensures x in after <==> Retired(t, x)
    {
      assert x in before <==> Retired(s, x);
    }
    forall i | 0 <= i < |t.log|
      ensures TrueEntry(t.hidden, t.log[i])
    {
      assert i < |s.log| ==> t.log[i] == s.log[i];
    }
  }

  lemma RetireTables(g: G.Graph, s: State, e: Entry)
    requires TablesOk(g, s) && Live(s, e.slice) && e.slice in s.operations && s.operations[e.slice].status == Mutated
    ensures TablesOk(g, Retiring(s, e)) && Retired(Retiring(s, e), e.slice)
  {
    hide TablesOk, Result;
    LiveRow(g, s, e.slice);
    TablesStep(g, s, Retiring(s, e), e.slice);
  }

  lemma RetireTrees(g: G.Graph, s: State, e: Entry)
    requires TablesOk(g, s) && TreesOk(s) && Live(s, e.slice)
    requires e.slice in s.operations && s.operations[e.slice].status == Mutated && NoneLive(Retiring(s, e))
    requires e.pre == s.attempts[e.slice].basis && e.post == Seen(s)
    ensures TreesOk(Retiring(s, e))
  {
    LiveRow(g, s, e.slice);
    hide TablesOk, PartWritten, Result;
    var t := Retiring(s, e);
    if !s.edited {
      LiveTree(s, e.slice);
      ChainGrows(s.origin, s.log, e);
      hide Chained, LiveTreeOk;
      forall i | 0 <= i < |t.log|
        ensures RowMatches(t, t.log[i])
      {
        if i < |s.log| {
          assert RowMatches(s, s.log[i]);
        } else {
          assert LiveTreeOk(s, e.slice);
        }
      }
      forall x
        ensures LiveTreeOk(t, x)
      {
        NotLive(t, x);
      }
    }
  }

  lemma ChainGrows(origin: Tree, log: seq<Entry>, e: Entry)
    requires Chained(origin, log) && e.pre == if log == [] then origin else log[|log| - 1].post
    ensures Chained(origin, log + [e])
  {
    forall i | 0 <= i < |log + [e]|
      ensures Link(origin, log + [e], i)
    {
      if i < |log| {
        assert Link(origin, log, i);
      }
    }
  }

  lemma RetiringKeeps(g: G.Graph, s: State, e: Entry)
    requires Inv(g, s) && Live(s, e.slice) && e.slice in s.operations && s.operations[e.slice].status == Mutated
    requires TrueEntry(s.hidden, e) && e.pre == s.attempts[e.slice].basis && e.post == Seen(s)
    requires e.slice in s.kept && (e.slice !in s.resent ==> s.kept[e.slice] == e.done)
    ensures Inv(g, Retiring(s, e)) && Retired(Retiring(s, e), e.slice)
    ensures G.Is(Retiring(s, e).status, e.slice, G.Active)
  {
    hide TablesOk, LogOk, TreesOk, RecordOk, Retiring;
    RetireRecord(g, s, e);
    NoneLeft(g, s, e);
    RetireLog(g, s, e);
    RetireTables(g, s, e);
    RetireTrees(g, s, e);
    LiveRow(g, s, e.slice);
    SameStatus(s, e);
  }

  lemma RetireRecord(g: G.Graph, s: State, e: Entry)
    requires TablesOk(g, s) && LogOk(g, s) && RecordOk(s) && Live(s, e.slice)
    requires e.slice in s.operations && s.operations[e.slice].status == Mutated && e.pre == s.attempts[e.slice].basis
    requires e.slice in s.kept && (e.slice !in s.resent ==> s.kept[e.slice] == e.done)
    ensures RecordOk(Retiring(s, e))
  {
    LiveRow(g, s, e.slice);
    hide TablesOk, G.Greedy, Chosen, TrueEntry, Result, Slices;
    var t := Retiring(s, e);
    forall i | 0 <= i < |t.log|
      ensures EntryOnRecord(t, t.log[i])
    {
      if i < |s.log| {
        assert EntryOnRecord(s, s.log[i]);
        SliceOf(s.log, i);
        assert Retired(s, s.log[i].slice);
      }
    }
    forall x
      ensures LiveOnRecord(t, x)
    {
      if Live(t, x) {
        OneLive(g, s, x, e.slice);
      }
    }
  }

  lemma SameStatus(s: State, e: Entry)
    requires e.slice in s.operations && e.slice in s.attempts
    ensures Retiring(s, e).status == s.status && Retiring(s, e).phase == s.phase
  {
  }

  lemma RetireKeeps(g: G.Graph, s: State, id: string, patch: Patch)
    requires Inv(g, s) && Written(s, id, patch)
    ensures Inv(g, RetireStep(s, id))
    ensures Retired(RetireStep(s, id), id) && G.Is(RetireStep(s, id).status, id, G.Active)
  {
    hide TablesOk, LogOk, TreesOk, RecordOk, Result;
    LiveRow(g, s, id);
    LiveHasRecord(s, id);
    RetiringKeeps(g, s, Entry(id, s.attempts[id].basis, s.sent[id], Seen(s)));
  }

  /** Changing only statuses from active to completed, for retired attempts, is sound. */
  lemma StatusTables(g: G.Graph, s: State, t: State)
    requires TablesOk(g, s) && t.status.Keys == s.status.Keys && t.attempts == s.attempts
    requires t.operations == s.operations && t.kept == s.kept && t.hidden == s.hidden
    requires t.phase == s.phase || (t.phase == Verifying && AllCompleted(t.status))
    requires forall id :: id in t.status && t.status[id] != s.status[id] ==>
      s.status[id] == G.Active && t.status[id] == G.Completed && Retired(s, id)
    ensures TablesOk(g, t)
  {
    hide G.Ids, RowOk;
    forall x
      ensures RowOk(t, x)
    {
      assert RowOk(s, x);
      CompletedRow(s, t, x);
    }
    forall a, b | G.Is(t.status, a, G.Active) && G.Is(t.status, b, G.Active)
      ensures a == b
    {
      assert G.Is(s.status, a, G.Active) && G.Is(s.status, b, G.Active);
    }
  }

  lemma CompletedRow(s: State, t: State, x: string)
    requires RowOk(s, x) && t.attempts == s.attempts && t.operations == s.operations && t.kept == s.kept && t.hidden == s.hidden
    requires x in s.status <==> x in t.status
    requires x in t.status && t.status[x] != s.status[x] ==>
      s.status[x] == G.Active && t.status[x] == G.Completed && Retired(s, x)
    ensures RowOk(t, x)
  {
    hide Result;
  }

  lemma SameTrees(s: State, t: State)
    requires TreesOk(s) && t.log == s.log && t.origin == s.origin && t.edited == s.edited && t.worktree == s.worktree && t.hidden == s.hidden
    requires t.attempts == s.attempts && t.operations == s.operations && t.sent == s.sent
    ensures TreesOk(t)
  {
    hide PartWritten, Chained;
    if !s.edited {
      forall x
        ensures LiveTreeOk(t, x)
      {
        assert LiveTreeOk(s, x);
      }
      if NoneLive(t) {
        assert forall x :: Live(s, x) ==> Live(t, x);
      }
    }
  }

  lemma AdvanceFacts(s: State)
    ensures var t := Advance(s);
      && t == s.(phase := t.phase) && (t.phase == s.phase || (t.phase == Verifying && AllCompleted(s.status)))
      && (s.phase == Executing && AllCompleted(s.status) ==> t.phase == Verifying)
  {
    hide AllCompleted;
  }

  lemma StatusKeeps(g: G.Graph, s: State, status: map<string, G.Status>)
    requires Inv(g, s) && status.Keys == s.status.Keys
    requires forall id :: id in status && status[id] != s.status[id] ==>
      s.status[id] == G.Active && status[id] == G.Completed && Retired(s, id)
    ensures Inv(g, Advance(s.(status := status)))
  {
    hide TablesOk, LogOk, TreesOk, RecordOk, Retired, AllCompleted, Advance;
    var u := s.(status := status);
    var t := Advance(u);
    AdvanceFacts(u);
    assert t.status == status;
    StatusTables(g, s, t);
    LogSame(g, s, t);
    RecordSame(s, t);
    SameTrees(s, t);
  }

  lemma CompleteKeeps(g: G.Graph, s: State, id: string)
    requires Inv(g, s) && Retired(s, id) && G.Is(s.status, id, G.Active)
    ensures Inv(g, CompleteStep(s, id))
  {
    hide Inv;
    StatusKeeps(g, s, s.status[id := G.Completed]);
  }

  lemma AdoptKeeps(g: G.Graph, s: State, id: string)
    requires Inv(g, s) && Live(s, id) && id in s.operations && s.operations[id].post == Some(Seen(s))
    ensures id in s.kept && Inv(g, AdoptStep(s, id))
  {
    hide TablesOk, LogOk, TreesOk, RecordOk, Result;
    LiveRow(g, s, id);
    var e := Entry(id, s.attempts[id].basis, s.kept[id], Seen(s));
    RetiringKeeps(g, s, e);
    CompleteKeeps(g, Retiring(s, e), id);
  }

  lemma ReconciledRow(s: State, id: string)
    requires RowOk(s, id)
    ensures G.Is(Reconciled(s), id, G.Active) ==> Live(s, id)
  {
    hide Result;
  }

  lemma ReconcileKeeps(g: G.Graph, s: State)
    requires Inv(g, s)
    ensures Inv(g, ReconcileStep(s))
    ensures forall id :: G.Is(ReconcileStep(s).status, id, G.Active) ==> Live(ReconcileStep(s), id)
  {
    hide Inv, RowOk, TablesOk, AllCompleted;
    StatusKeeps(g, s, Reconciled(s));
    Opened(g, s);
    forall id
      ensures G.Is(Reconciled(s), id, G.Active) ==> Live(s, id)
    {
      EveryRow(g, s, id);
      ReconciledRow(s, id);
    }
    hide Reconciled, G.Is;
  }

  lemma EveryRow(g: G.Graph, s: State, id: string)
    requires TablesOk(g, s)
    ensures RowOk(s, id)
  {
    hide RowOk;
  }

  lemma Opened(g: G.Graph, s: State)
    requires Inv(g, s)
    ensures TablesOk(g, s) && LogOk(g, s) && TreesOk(s) && RecordOk(s)
  {
  }

  lemma ConflictKeeps(g: G.Graph, s: State)
    requires Inv(g, s) && s.phase == Executing
    ensures Inv(g, s.(phase := Conflict))
  {
    hide TablesOk, LogOk, TreesOk, RecordOk;
    var t := s.(phase := Conflict);
    RecordSame(s, t);
    assert TablesOk(g, t) by {
      Opened(g, s);
      ConflictTables(g, s);
    }
    LogSame(g, s, t);
    SameTrees(s, t);
  }

  lemma ConflictTables(g: G.Graph, s: State)
    requires TablesOk(g, s) && s.phase == Executing
    ensures TablesOk(g, s.(phase := Conflict))
  {
    hide RowOk, G.Ids;
    var t := s.(phase := Conflict);
    forall x
      ensures RowOk(t, x)
    {
      assert RowOk(s, x);
      RowSame(s, t, x);
    }
  }

  lemma EditKeeps(g: G.Graph, s: State, tree: Tree)
    requires Inv(g, s)
    ensures Inv(g, EditStep(s, tree))
  {
    hide LogOk, RowOk, G.Ids, RecordOk;
    var t := EditStep(s, tree);
    RecordSame(s, t);
    forall x
      ensures RowOk(t, x)
    {
      assert RowOk(s, x);
      RowSame(s, t, x);
    }
    LogSame(g, s, t);
  }

  // ---------------------------------------------------------- what a run comes to

  /** The patches of a log written one after the other. */
  function Fold(t: Tree, log: seq<Entry>): Tree {
    if log == [] then t else Result(Fold(t, log[..|log| - 1]), log[|log| - 1].done.patch)
  }

  ghost predicate EntryTraced(hidden: Rules, e: Entry) {
    Traced(hidden, e.done.from, e.done.patch)
  }

  /** An entry's post tree is what its patch does to its pre tree exactly if it is traced. */
  lemma EntryFolds(hidden: Rules, e: Entry)
    requires TrueEntry(hidden, e)
    ensures e.post == Result(e.pre, e.done.patch) <==> EntryTraced(hidden, e)
  {
    FrozenResult(hidden, e.done.from, e.done.patch);
    hide Frozen, Result, Traced;
  }

  lemma {:induction false} ChainFolds(hidden: Rules, origin: Tree, log: seq<Entry>)
    requires Chained(origin, log) && forall i :: 0 <= i < |log| ==> TrueEntry(hidden, log[i]) && EntryTraced(hidden, log[i])
    ensures Fold(origin, log) == if log == [] then origin else log[|log| - 1].post
  {
    hide TrueEntry, EntryTraced, Result;
    if log != [] {
      var shorter := log[..|log| - 1];
      forall i | 0 <= i < |shorter|
        ensures Link(origin, shorter, i)
      {
        assert Link(origin, log, i);
      }
      ChainFolds(hidden, origin, shorter);
      EntryFolds(hidden, log[|log| - 1]);
      assert Link(origin, log, |log| - 1);
    }
  }

  /** A finished run mutated every slice exactly once, in the first topological order. */
  lemma FinishedOrder(g: G.Graph, s: State, other: seq<string>)
    requires Inv(g, s) && s.phase == Verifying && G.Topological(g, other)
    ensures G.Topological(g, Slices(s.log)) && (Slices(s.log) == other || G.Before(Slices(s.log), other))
  {
    hide Slices, G.Greedy, TreesOk, Result, G.Before, G.Topological;
    forall x
      ensures x in G.Ids(g) <==> x in G.Elements(Slices(s.log))
    {
      assert RowOk(s, x);
      assert x in Slices(s.log) <==> Retired(s, x);
    }
    G.GreedyIsFirst(g, Slices(s.log), other);
  }

  /** Unedited, a run between two mutations left a worktree whose tree is the post tree of the
      last one; each slice started from the post tree of the one before it, its trees are those
      frozen around its writes, and its row says so. A post tree is what the patch does to the
      pre tree exactly if the patch is traced, and if all are the log folds to the final tree. */
  lemma SettledTree(g: G.Graph, s: State)
    requires Inv(g, s) && !s.edited && NoneLive(s)
    ensures Seen(s) == Tail(s)
    ensures forall i :: 0 <= i < |s.log| ==>
      && RowMatches(s, s.log[i]) && Link(s.origin, s.log, i) && TrueEntry(s.hidden, s.log[i])
      && (s.log[i].post == Result(s.log[i].pre, s.log[i].done.patch) <==> EntryTraced(s.hidden, s.log[i]))
    ensures (forall i :: 0 <= i < |s.log| ==> EntryTraced(s.hidden, s.log[i])) ==> Fold(s.origin, s.log) == Seen(s)
  {
    hide TablesOk, LiveTreeOk, G.Greedy, Slices, RowMatches, Link, TrueEntry, Fold, EntryTraced, Frozen, Result;
    forall i | 0 <= i < |s.log|
      ensures s.log[i].post == Result(s.log[i].pre, s.log[i].done.patch) <==> EntryTraced(s.hidden, s.log[i])
    {
      EntryFolds(s.hidden, s.log[i]);
    }
    if forall i :: 0 <= i < |s.log| ==> EntryTraced(s.hidden, s.log[i]) {
      ChainFolds(s.hidden, s.origin, s.log);
    }
  }

  lemma VerifyingIsSettled(g: G.Graph, s: State)
    requires Inv(g, s) && s.phase == Verifying
    ensures NoneLive(s)
  {
    forall x
      ensures !Live(s, x)
    {
      if Live(s, x) {
        LiveRow(g, s, x);
      }
    }
  }

  // ------------------------------------------------------- what recovery decides

  datatype Decision = Adopts | Resends | Refuses

  /** Adopt at the recorded post tree, send again at the pre tree or with no row, and
      otherwise fail closed. */
  function Decide(s: State, id: string): Decision {
    if id !in s.operations then Resends
    else if s.operations[id].post == Some(Seen(s)) then Adopts
    else if s.operations[id].pre == Seen(s) then Resends
    else Refuses
  }

  /** A process that dies anywhere in its writes, inside one too, leaves a worktree that the next
      process refuses, unless it freezes to the tree the slice started from. */
  lemma HalfWrittenIsRefused(g: G.Graph, s: State, id: string)
    requires Inv(g, s) && Live(s, id) && id in s.operations && s.operations[id].status == Intended
    ensures Decide(s, id) == if Seen(s) == s.attempts[id].basis then Resends else Refuses
  {
    LiveRow(g, s, id);
    hide TablesOk, LogOk, TreesOk, RecordOk, Result;
  }

  // -------------------------------------------------- when a row names another tree

  /** Whatever crashes, edits and restarts there were: the row of a committed mutation names
      another post tree than was written exactly if the slice was sent again after its post
      tree was on record and the two sendings leave different trees. */
  lemma StaleExactly(g: G.Graph, s: State, i: nat)
    requires Inv(g, s) && i < |s.log|
    ensures var e := s.log[i];
      && e.slice in s.operations && e.slice in s.kept
      && (s.operations[e.slice].post != Some(e.post) <==>
            e.slice in s.resent && Left(s.hidden, s.kept[e.slice]) != Left(s.hidden, e.done))
  {
    var e := s.log[i];
    assert EntryOnRecord(s, e) && TrueEntry(s.hidden, e);
    EveryRow(g, s, e.slice);
    hide TablesOk, LogOk, TreesOk, RecordOk, Result;
  }

  /** One dispatch of a slice: intent, the whole patch, record. */
  function Dispatched(s: State, id: string, patch: Patch): State
    requires id in s.attempts
  {
    var intended := IntendStep(s, id, patch);
    RecordStep(intended.(worktree := Result(s.worktree, patch)), id)
  }

  /** The process dies after its record, somebody takes the change back, the next process
      finds the pre tree and sends the slice again: the row is completed with the post tree
      of the first patch while the worktree holds the second one. */
  ghost predicate RowGoesStale(g: G.Graph, hidden: Rules, id: string, p: Patch, q: Patch)
    requires id in G.Ids(g)
  {
    var reverted := EditStep(Dispatched(ActivateStep(Initial(g, hidden, map[]), id, map[]), id, p), map[]);
    var done := RetireStep(Dispatched(reverted, id, q), id);
    && Decide(reverted, id) == Resends && id in done.resent
    && done.operations[id].status == Finished && done.operations[id].post == Some(Frozen(hidden, Result(map[], p)))
    && done.worktree == Result(map[], q) && done.operations[id].post != Some(Seen(done))
  }

  lemma StaleStates(g: G.Graph, hidden: Rules, id: string, p: Patch, q: Patch)
    requires id in G.Ids(g) && Frozen(hidden, Result(map[], p)) != Frozen(hidden, Result(map[], q))
    requires Frozen(hidden, Result(map[], p)) != map[]
    ensures RowGoesStale(g, hidden, id, p, q)
  {
    assert Frozen(hidden, map[]) == map[];
    hide Result, Frozen, G.Ids;
  }

  lemma OneFile(data: seq<bv8>)
    ensures Result(map[], [FileOperation("a", data, 0, false)]) == map[["a"] := Regular(data, 0x180)]
  {
    PlaceOfOne();
    hide Clean;
    var patch := [FileOperation("a", data, 0, false)];
    assert NormalizedMode(0) == Some(0x180) && patch[..0] == [];
    var start: Tree := map[];
    assert Result(start, patch[..0]) == start;
    assert start[["a"] := Regular(data, 0x180)] == map[["a"] := Regular(data, 0x180)];
  }

  /** With nothing left out, the row goes stale for two patches that write one file differently. */
  lemma StaleRecord()
    ensures exists g: G.Graph, hidden, id: string, p: Patch, q: Patch :: id in G.Ids(g) && RowGoesStale(g, hidden, id, p, q)
  {
    hide *;
    OneFile([1]);
    OneFile([2]);
    var one, two := [FileOperation("a", [1], 0, false)], [FileOperation("a", [2], 0, false)];
    var hidden: Rules := (files, p) => false;
    OneFileFrozen(hidden, [1]);
    OneFileFrozen(hidden, [2]);
    var first: Tree, second: Tree := map[["a"] := Regular([1], 0x180)], map[["a"] := Regular([2], 0x180)];
    assert first != second && first != map[] by {
      assert first[["a"]] == Regular([1], 0x180) && second[["a"]] == Regular([2], 0x180);
    }
    StaleStates(OneSlice(), hidden, "slice_a", one, two);
  }

  lemma OneFileFrozen(hidden: Rules, data: seq<bv8>)
    requires forall files, p :: !hidden(files, p)
    ensures Frozen(hidden, map[["a"] := Regular(data, 0x180)]) == map[["a"] := Regular(data, 0x180)]
  {
  }

  function OneSlice(): (g: G.Graph)
    ensures "slice_a" in G.Ids(g)
  {
    var slice := G.Slice("slice_a", "t", ["c"], []);
    assert slice in [slice];
    [slice]
  }
}
