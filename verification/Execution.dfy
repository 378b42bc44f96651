/** The process that executes a workflow: one pass inherits a live attempt or starts
    the next slice, has the broker apply the worker's patch, and completes it. The
    process may die before any durable effect; the next pass goes on from the rows. */
module Execution {
  import G = ExecutionGraph
  import opened Text
  import opened Patches
  import opened Mutation

  datatype Outcome =
    | Died | InvalidGraph | WrongPhase | WorkerFailed | Stale | Forbidden | WriteFailed | Unrecognized | StoppedEarly
    | Applied | Adopted | Redispatched | NothingReady | ReachedVerification

  /** What a worker sends back: the attempt it names (with the right owner and token or
      not), the tree it started from and its patch. */
  datatype Answer = Nothing | Answer(slice: string, fenced: bool, basis: Tree, patch: Patch)

  lemma RedispatchIsIntended(g: G.Graph, s: State, id: string)
    requires Inv(g, s) && Live(s, id) && !s.edited && id in s.operations && s.operations[id].post != Some(Seen(s))
    ensures s.operations[id].status == Intended
  {
    hide TablesOk, LiveTreeOk;
    LiveRow(g, s, id);
    LiveTree(s, id);
    if s.operations[id].status == Mutated {
      LiveTreePost(s, id);
    }
  }

  lemma LiveTreePost(s: State, id: string)
    requires LiveTreeOk(s, id) && Live(s, id) && id in s.operations && s.operations[id].status == Mutated
    ensures s.operations[id].post == Some(Seen(s))
  {
  }

  /** Unedited, what is sent again is sent on the tree its attempt started from. */
  lemma RedispatchOnBasis(g: G.Graph, s: State, id: string)
    requires Inv(g, s) && Live(s, id) && (id in s.operations ==> Seen(s) == s.operations[id].pre)
    ensures !s.edited ==> Seen(s) == s.attempts[id].basis
  {
    hide TablesOk, LogOk, TreesOk, ApplyAll, PartWritten, Frozen, Result;
    LiveRow(g, s, id);
    if !s.edited {
      LiveTree(s, id);
    }
  }

  /** With no live attempt and no slice ready, an accepted graph has been run to its end. */
  lemma NothingReadyMeansDone(g: G.Graph, s: State)
    requires Inv(g, s) && G.Acyclic(g) && NoneLive(s)
    requires forall id :: G.Is(s.status, id, G.Active) ==> Live(s, id)
    requires forall id :: !G.ReadyNow(g, s.status, id)
    ensures AllCompleted(s.status)
  {
    hide G.Acyclic, G.ReadyNow, LogOk, TreesOk, RowOk, G.Ids;
    if !AllCompleted(s.status) {
      var id :| id in s.status && s.status[id] != G.Completed;
      assert G.Is(s.status, id, G.Active) || G.Is(s.status, id, G.Pending);
      assert G.Is(s.status, id, G.Pending);
      forall a | a in s.status
        ensures s.status[a] != G.Active
      {
        assert !G.Is(s.status, a, G.Active);
      }
      G.NeverStuck(g, s.status);
    }
  }

  /** The worker: what it answers for a slice and the worktree it finds. */
  type Worker = (string, Disk) -> Answer

  /** A process that may die before any of its durable effects or one that does not, and its worker. */
  datatype Process = Process(mortal: bool, worker: Worker)

  /** An executing workflow goes on to verification with its last slice; no other phase changes. */
  function Later(phase: Phase, status: map<string, G.Status>): Phase {
    if phase.Executing? && (forall id :: id in status ==> status[id] == G.Completed) then Verifying else phase
  }

  lemma AdoptSays(s: State, id: string)
    requires id in s.operations && id in s.attempts && id in s.kept && s.operations[id].post == Some(Seen(s))
    ensures var status := s.status[id := G.Completed];
      AdoptStep(s, id) == s.(status := status, phase := Later(s.phase, status),
                             attempts := s.attempts[id := s.attempts[id].(live := false)],
                             operations := s.operations[id := s.operations[id].(status := Finished)],
                             log := s.log + [Entry(id, s.attempts[id].basis, s.kept[id], Seen(s))])
  {
  }

  /** Reconciliation completes exactly the active slices whose attempt is retired. */
  lemma ReconcileSays(g: G.Graph, s: State, id: string)
    requires Inv(g, s)
    ensures Reconciled(s).Keys == s.status.Keys
    ensures id in s.status ==>
      Reconciled(s)[id] == if s.status[id] == G.Active && Retired(s, id) then G.Completed else s.status[id]
  {
    assert RowOk(s, id);
    hide Inv, RowOk;
  }

  lemma ReconcileMoves(s: State)
    ensures ReconcileStep(s) == s.(status := Reconciled(s), phase := Later(s.phase, Reconciled(s)))
  {
    hide Reconciled;
  }

  function Undone(status: map<string, G.Status>): set<string> {
    set id | id in status && status[id] != G.Completed
  }

  class Workflow {
    const graph: G.Graph
    const allowed: map<string, seq<string>>
    var status: map<string, G.Status>
    var attempts: map<string, Attempt>
    var operations: map<string, Operation>
    var phase: Phase
    var disk: Disk
    /** What freezing leaves out. */
    const hidden: Rules
    /** Whether the running process may die. */
    var mortal: bool
    ghost const origin: Tree
    ghost var log: seq<Entry>
    ghost var sent: map<string, Sending>
    ghost var kept: map<string, Sending>
    ghost var resent: set<string>
    ghost var edited: bool

    ghost function Now(): State
      reads this
    {
      State(status, attempts, operations, phase, disk.files, hidden, origin, log, sent, kept, resent, edited)
    }

    ghost predicate Valid()
      reads this
    {
      Inv(graph, Now())
    }

    /** Freezing the worktree. */
    function Freeze(): Tree
      reads this`disk
    {
      Frozen(hidden, disk.files)
    }

    constructor (graph: G.Graph, allowed: map<string, seq<string>>, hidden: Rules, disk: Disk)
      ensures Valid() && Now() == Initial(graph, hidden, disk.files) && this.disk == disk
    {
      this.graph := graph;
      this.hidden := hidden;
      this.allowed := allowed;
      status := map id | id in G.Ids(graph) :: G.Pending;
      this.disk := disk;
      attempts, operations, phase, mortal := map[], map[], Ready, true;
      origin, log, sent, kept, resent, edited := Frozen(hidden, disk.files), [], map[], map[], {}, false;
      new;
      InitialHolds(graph, hidden, disk.files);
    }

    /** Whether the process lives to make its next effect. */
    method Alive() returns (alive: bool)
      ensures mortal || alive
    {
      alive := true;
      if mortal {
        alive := *;
      }
    }

    /** Somebody else may change the worktree here. */
    method Interfere()
      requires Valid()
      modifies this`disk, this`edited
      ensures Valid() && (old(edited) ==> edited) && (!edited ==> disk == old(disk))
    {
      if * {
        var changed: Disk := *;
        EditKeeps(graph, Now(), changed.files);
        disk := changed;
        edited := true;
      }
    }

    // ------------------------------------------------------------------- broker

    /** The process may die between two operations or inside a write. */
    method WriteAll(id: string, patch: Patch) returns (r: Outcome)
      requires Valid() && Writing(Now(), id, patch, 0)
      modifies this`disk
      ensures Valid() && r in {Applied, Died, WriteFailed}
      ensures r == Applied ==> Writing(Now(), id, patch, |patch|) && ApplyAll(old(disk), patch) == Some(disk)
      ensures r == Died ==> mortal
      ensures r == WriteFailed ==> ApplyAll(old(disk), patch).None?
    {
      hide Inv, Writing, ApplyOp, ApplyAll, EffectOf, Succeeds;
      NothingApplied(disk, patch);
      for k := 0 to |patch|
        invariant Valid() && Writing(Now(), id, patch, k) && ApplyAll(old(disk), patch[..k]) == Some(disk)
      {
        var alive := Alive();
        if !alive {
          Tear(id, patch, k);
          return Died;
        }
        ApplySnoc(old(disk), patch, k);
        var next := ApplyOp(disk, patch[k]);
        if next.None? {
          FailureStays(old(disk), patch, k + 1);
          LeftoverFiles(disk, patch[k]);
          disk := Leftover(disk, patch[k]);
          return WriteFailed;
        }
        OpIsEffect(disk, patch[k]);
        WriteKeeps(graph, Now(), id, patch, k);
        disk := next.value;
      }
      assert patch[..|patch|] == patch;
      return Applied;
    }

    /** A process that dies inside a write leaves any content in the file, or only some of the
        directories on the way to it. */
    method Tear(id: string, patch: Patch, k: nat)
      requires Valid() && Writing(Now(), id, patch, k) && k < |patch|
      modifies this`disk
      ensures Valid()
    {
      hide Inv, Writing, Succeeds;
      if !patch[k].delete && !FileOnWay(disk, Place(patch[k])) {
        var made: int := *;
        if 0 <= made <= |Place(patch[k])| {
          disk := disk.(dirs := disk.dirs + Above(Place(patch[k])[..made]));
        }
      }
      if !patch[k].delete && ApplyOp(disk, patch[k]).Some? {
        if * {
          var data: seq<bv8>, mode: bv32 := *, *;
          TearKeeps(graph, Now(), id, patch, k, data, mode);
          disk := Disk(disk.files[Place(patch[k]) := Regular(data, mode)], disk.dirs + Above(Place(patch[k])));
        }
      }
    }

    method Intend(id: string, patch: Patch)
      requires Valid() && Live(Now(), id)
      modifies this`operations, this`sent, this`resent
      ensures Now() == IntendStep(old(Now()), id, patch)
    {
      if id !in operations {
        operations := operations[id := Operation(attempts[id].basis, None, Intended)];
      } else if operations[id].status == Mutated {
        resent := resent + {id};
      }
      sent := sent[id := Sending(disk.files, patch)];
    }

    method Record(id: string, ghost patch: Patch)
      requires Valid() && Writing(Now(), id, patch, |patch|)
      modifies this`operations, this`kept
      ensures Now() == RecordStep(old(Now()), id)
    {
      if operations[id].status == Intended {
        operations := operations[id := operations[id].(post := Some(Freeze()), status := Mutated)];
        kept := kept[id := sent[id]];
      }
    }

    method Retire(id: string, ghost patch: Patch)
      requires Valid() && Written(Now(), id, patch)
      modifies this`operations, this`attempts, this`log
      ensures Now() == RetireStep(old(Now()), id)
    {
      log := log + [Entry(id, attempts[id].basis, sent[id], Freeze())];
      operations := operations[id := operations[id].(status := Finished)];
      attempts := attempts[id := attempts[id].(live := false)];
    }

    /** A patch is written only on the tree its attempt and its worker both started
        from, and only if it passes validation; otherwise nothing changes at all. */
    method Apply(answer: Answer) returns (r: Outcome)
      requires Valid() && answer.Answer?
      requires !edited && answer.slice in operations && Live(Now(), answer.slice) ==> operations[answer.slice].status == Intended
      modifies this`operations, this`attempts, this`disk, this`log, this`sent, this`kept, this`resent
      ensures Valid() && r in {Applied, Died, Stale, Forbidden, WriteFailed}
      ensures r != Stale <==>
        && answer.fenced && answer.slice in old(attempts) && old(attempts)[answer.slice].live
        && answer.basis == old(attempts)[answer.slice].basis == old(Freeze())
      ensures r == Forbidden <==>
        r != Stale && !Validated(answer.patch, if answer.slice in allowed then allowed[answer.slice] else [], old(disk).files)
      ensures r == WriteFailed ==> ApplyAll(old(disk), answer.patch).None?
      ensures r == Died ==> mortal
      ensures r in {Stale, Forbidden} ==> Now() == old(Now()) && disk == old(disk)
      ensures r == Applied ==>
        && Live(old(Now()), answer.slice) && Retired(Now(), answer.slice) && G.Is(status, answer.slice, G.Active)
        && answer.basis == old(Freeze()) && ApplyAll(old(disk), answer.patch) == Some(disk)
        && log == old(log) + [Entry(answer.slice, answer.basis, Sending(old(disk).files, answer.patch), Freeze())]
    {
      hide Inv, Writing, Written, ApplyAll, Validated;
      var id := answer.slice;
      if id !in attempts || !attempts[id].live || !answer.fenced || attempts[id].basis != answer.basis {
        return Stale;
      }
      if Freeze() != attempts[id].basis {
        return Stale;
      }
      var sound := ValidatePatch(answer.patch, Allowance(id), disk.files);
      if !sound {
        return Forbidden;
      }
      r := ApplySound(id, answer.patch);
    }

    method ApplySound(id: string, patch: Patch) returns (r: Outcome)
      requires Valid() && Live(Now(), id) && Freeze() == attempts[id].basis
      requires !edited && id in operations ==> operations[id].status == Intended
      modifies this`operations, this`attempts, this`disk, this`log, this`sent, this`kept, this`resent
      ensures Valid() && r in {Applied, Died, WriteFailed}
      ensures r == WriteFailed ==> ApplyAll(old(disk), patch).None?
      ensures r == Died ==> mortal
      ensures r == Applied ==>
        && Retired(Now(), id) && G.Is(status, id, G.Active)
        && ApplyAll(old(disk), patch) == Some(disk)
        && log == old(log) + [Entry(id, old(attempts)[id].basis, Sending(old(disk).files, patch), Freeze())]
    {
      hide Inv, Writing, ApplyAll;
      var alive := Alive();
      if !alive {
        return Died;
      }
      IntendKeeps(graph, Now(), id, patch);
      Intend(id, patch);
      r := WriteAll(id, patch);
      if r != Applied {
        return;
      }
      alive := Alive();
      if !alive {
        return Died;
      }
      RecordKeeps(graph, Now(), id, patch);
      Record(id, patch);
      alive := Alive();
      if !alive {
        return Died;
      }
      RetireKeeps(graph, Now(), id, patch);
      Retire(id, patch);
    }

    function Allowance(id: string): seq<string> {
      if id in allowed then allowed[id] else []
    }

    // ----------------------------------------------------------------- recovery

    /** Does what recovery decides from the row and the tree. */
    method ResumeAttempt(id: string) returns (r: Outcome)
      requires Valid() && Live(Now(), id)
      modifies this`operations, this`attempts, this`status, this`phase, this`log
      ensures Valid() && r in {Adopted, Redispatched, Unrecognized, Died}
      ensures r == Adopted ==>
        && id in old(operations) && old(operations)[id].post == Some(Freeze()) && id in old(kept)
        && Now() == AdoptStep(old(Now()), id)
        && Now() == old(Now()).(status := old(status)[id := G.Completed], phase := Later(old(phase), status),
                                attempts := old(attempts)[id := old(attempts)[id].(live := false)],
                                operations := old(operations)[id := old(operations)[id].(status := Finished)],
                                log := old(log) + [Entry(id, old(attempts)[id].basis, old(kept)[id], Freeze())])
      ensures r == Redispatched <==>
        id !in old(operations) || (old(operations)[id].post != Some(Freeze()) && old(operations)[id].pre == Freeze())
      ensures r == Redispatched ==> Now() == old(Now())
      ensures r == Unrecognized ==>
        && id in old(operations) && old(operations)[id].post != Some(Freeze()) && old(operations)[id].pre != Freeze()
        && Now() == old(Now()).(phase := Conflict)
      ensures Decide(old(Now()), id) == Adopts ==> r in {Adopted, Died}
      ensures Decide(old(Now()), id) == Resends <==> r == Redispatched
      ensures Decide(old(Now()), id) == Refuses ==> r in {Unrecognized, Died}
      ensures r == Died ==> Now() == old(Now()) && mortal
    {
      hide Inv, AllCompleted;
      if id !in operations {
        return Redispatched;
      }
      if operations[id].post == Some(Freeze()) {
        var alive := Alive();
        if !alive {
          return Died;
        }
        AdoptKeeps(graph, Now(), id);
        AdoptSays(Now(), id);
        Adopt(id);
        return Adopted;
      }
      if operations[id].pre == Freeze() {
        return Redispatched;
      }
      if phase == Executing {
        var alive := Alive();
        if !alive {
          return Died;
        }
        ConflictKeeps(graph, Now());
        phase := Conflict;
      } else {
        assert phase == Conflict by {
          Opened(graph, Now());
          LiveRow(graph, Now(), id);
        }
      }
      return Unrecognized;
    }

    method Adopt(id: string)
      requires Valid() && Live(Now(), id) && id in operations && operations[id].post == Some(Freeze()) && id in kept
      modifies this`operations, this`attempts, this`status, this`phase, this`log
      ensures Now() == AdoptStep(old(Now()), id)
    {
      log := log + [Entry(id, attempts[id].basis, kept[id], Freeze())];
      operations := operations[id := operations[id].(status := Finished)];
      attempts := attempts[id := attempts[id].(live := false)];
      Complete(id);
    }

    method Complete(id: string)
      modifies this`status, this`phase
      ensures Now() == CompleteStep(old(Now()), id)
    {
      status := status[id := G.Completed];
      FinishIfDone();
    }

    method FinishIfDone()
      modifies this`phase
      ensures Now() == Advance(old(Now()))
    {
      if phase == Executing && forall id :: id in status ==> status[id] == G.Completed {
        phase := Verifying;
      }
    }

    method Reconcile()
      requires Valid()
      modifies this`status, this`phase
      ensures Now() == ReconcileStep(old(Now()))
    {
      ghost var was := Now();
      status := map id | id in status ::
        if status[id] == G.Active && id in attempts && !attempts[id].live && id in operations && operations[id].status == Finished
        then G.Completed else status[id];
      assert status == Reconciled(was);
      FinishIfDone();
    }

    // ----------------------------------------------------------------- the pass

    ghost predicate Inherited()
      reads this
    {
      forall id :: G.Is(status, id, G.Active) ==> Live(Now(), id)
    }

    /** Between two slices: whatever is active is live, and a finished graph is verifying. */
    ghost predicate Between()
      reads this
    {
      && Valid() && Inherited()
      && (phase == Ready || phase == Executing || phase == Verifying)
      && (AllCompleted(status) ==> phase == Verifying)
    }

    /** The live attempt, or a new one for the slice that is next. */
    method Claim() returns (r: Outcome, id: string, inherited: bool)
      requires Between() && G.UniqueIds(graph)
      modifies this
      ensures mortal == old(mortal)
      ensures Valid() && status.Keys == old(status).Keys && Undone(status) == Undone(old(status))
      ensures r in {Applied, Died, NothingReady}
      ensures r == Died ==> mortal
      ensures r == NothingReady ==> Now() == old(Now()) && NoneLive(Now()) && forall x :: !G.ReadyNow(graph, status, x)
      ensures inherited ==> r == Applied && Now() == old(Now())
      ensures r == Applied ==> phase == Executing && Live(Now(), id) && (forall x :: Live(Now(), x) ==> x == id) && (!inherited ==> id !in operations)
      ensures r == Applied && !inherited && !edited ==> Freeze() == attempts[id].basis
    {
      id, inherited := "", false;
      if live :| live in attempts && attempts[live].live {
        OnlyLive(live);
        LiveRow(graph, Now(), live);
        return Applied, live, true;
      }
      assert NoneLive(Now());
      var next := G.NextReady(graph, status);
      if next.None? {
        assert forall x :: !G.Is(status, x, G.Active);
        return NothingReady, id, inherited;
      }
      id := next.value.id;
      var basis := Freeze();
      Interfere();
      var alive := Alive();
      if !alive {
        return Died, id, inherited;
      }
      Activate(id, basis);
      r := Applied;
    }

    lemma OnlyLive(id: string)
      requires Valid() && Live(Now(), id)
      ensures forall x :: Live(Now(), x) ==> x == id
    {
      hide TablesOk, LogOk, TreesOk;
      forall x | Live(Now(), x)
        ensures x == id
      {
        OneLive(graph, Now(), x, id);
      }
    }

    method Activate(id: string, basis: Tree)
      requires Valid() && NoneLive(Now()) && G.ReadyNow(graph, status, id) && (edited || basis == Freeze())
      requires forall a :: a in status ==> status[a] != G.Active
      requires forall x :: G.ReadyNow(graph, status, x) && x != id ==> Less(id, x)
      requires phase == Ready || phase == Executing
      modifies this`status, this`attempts, this`phase
      ensures Valid() && Now() == ActivateStep(old(Now()), id, basis)
      ensures Live(Now(), id) && (forall x :: Live(Now(), x) ==> x == id) && id !in operations
      ensures Undone(status) == Undone(old(status)) && status.Keys == old(status).Keys
    {
      hide Inv, G.ReadyNow, Less;
      ActivateKeeps(graph, Now(), id, basis);
      NewSlice(graph, Now(), id);
      ReadyIsPending(graph, status, id);
      status := status[id := G.Active];
      attempts := attempts[id := Attempt(basis, true)];
      if phase == Ready {
        phase := Executing;
      }
      OnlyLive(id);
    }

    /** One turn of the loop: it ends with one slice more completed, or with a reason. */
    method OneSlice(worker: Worker) returns (r: Outcome)
      requires Between() && G.UniqueIds(graph) && G.Acyclic(graph)
      modifies this
      ensures mortal == old(mortal)
      ensures Valid() && r in {Applied, NothingReady, Died, WorkerFailed, Stale, Forbidden, WriteFailed, Unrecognized}
      ensures r == Died ==> mortal
      ensures r == Unrecognized ==> phase == Conflict && !NoneLive(old(Now()))
      ensures r == Applied ==> NoneLive(Now())
      ensures Helpful(worker) && !edited ==> r in {Applied, NothingReady, Died, Unrecognized}
      ensures r == Applied ==> Between() && exists id :: id in Undone(old(status)) && Undone(status) == Undone(old(status)) - {id}
      ensures r == NothingReady ==> phase == Verifying
    {
      hide Inv, G.Acyclic, G.ReadyNow, AllCompleted, Undone, AdoptStep;
      var claimed, id, inherited := Claim();
      if claimed == Died {
        return Died;
      }
      if claimed == NothingReady {
        NothingReadyMeansDone(graph, Now());
        return NothingReady;
      }
      if inherited {
        r := Inherit(id);
        if r != Redispatched {
          NoneActiveNoneLive(graph, Now());
          return;
        }
        RedispatchOnBasis(graph, Now(), id);
      }
      r := Dispatch(id, worker);
      NoneActiveNoneLive(graph, Now());
    }

    method Inherit(id: string) returns (r: Outcome)
      requires Valid() && Live(Now(), id) && phase == Executing
      modifies this
      ensures mortal == old(mortal)
      ensures Valid() && r in {Applied, Redispatched, Unrecognized, Died}
      ensures r == Applied ==> Between() && id in Undone(old(status)) && Undone(status) == Undone(old(status)) - {id}
      ensures r == Died ==> mortal
      ensures r == Unrecognized ==> phase == Conflict
      ensures r == Applied ==> NoneActive(status)
      ensures r == Redispatched ==>
        Now() == old(Now()) && (id in operations ==> Freeze() == operations[id].pre && operations[id].post != Some(Freeze()))
    {
      hide TablesOk, LogOk, TreesOk, AllCompleted, Undone, RowOk, NoneActive, G.Is;
      LiveRow(graph, Now(), id);
      OneActive(graph, Now(), id);
      r := ResumeAttempt(id);
      if r == Adopted {
        AdoptCompletes(old(Now()), id);
        AfterCompletion(Retiring(old(Now()), Entry(id, old(attempts)[id].basis, old(kept)[id], old(operations)[id].post.value)), id);
        r := Applied;
      }
    }

    /** A worker that always answers, for the worktree it finds, with an allowed patch that can
        be written there. What git sees of the worktree does not tell it all: an empty
        directory or an ignored file may be in the way. */
    ghost predicate Helpful(worker: Worker)
    {
      forall id, d :: Helps(id, d, worker(id, d))
    }

    ghost predicate Able(process: Process) {
      !process.mortal && Helpful(process.worker)
    }

    ghost predicate Helps(id: string, d: Disk, a: Answer)
    {
      && a.Answer? && a.slice == id && a.fenced && a.basis == Frozen(hidden, d.files)
      && Validated(a.patch, Allowance(id), d.files) && ApplyAll(d, a.patch).Some?
    }

    method Dispatch(id: string, worker: Worker) returns (r: Outcome)
      requires Valid() && Live(Now(), id) && (forall x :: Live(Now(), x) ==> x == id) && phase == Executing
      requires id in operations ==> operations[id].post != Some(Freeze())
      requires !edited ==> Freeze() == attempts[id].basis
      modifies this
      ensures mortal == old(mortal)
      ensures Valid() && r in {Applied, Died, WorkerFailed, Stale, Forbidden, WriteFailed}
      ensures r == Applied ==> Between() && id in Undone(old(status)) && Undone(status) == Undone(old(status)) - {id}
      ensures r == Died ==> mortal
      ensures r == Applied ==> NoneActive(status)
      ensures Helpful(worker) && !edited ==> r in {Applied, Died}
    {
      hide Inv, AllCompleted, Undone, RowOk, ApplyAll, Validated;
      var answer := worker(id, disk);
      assert Helpful(worker) ==> Helps(id, disk, answer);
      Interfere();
      if !answer.Answer? {
        return WorkerFailed;
      }
      if !edited && id in operations {
        RedispatchIsIntended(graph, Now(), id);
      }
      assert Live(Now(), answer.slice) <==> Live(old(Now()), answer.slice);
      r := Apply(answer);
      if r != Applied {
        return;
      }
      assert answer.slice == id;
      r := Conclude(id);
    }

    method Conclude(id: string) returns (r: Outcome)
      requires Valid() && Retired(Now(), id) && G.Is(status, id, G.Active) && phase == Executing
      modifies this`status, this`phase
      ensures Valid() && r in {Applied, Died} && (r == Died ==> mortal)
      ensures r == Applied ==> Between() && id in Undone(old(status)) && Undone(status) == Undone(old(status)) - {id}
      ensures r == Applied ==> NoneActive(status)
    {
      hide Inv, AllCompleted, Undone, RowOk;
      var alive := Alive();
      if !alive {
        return Died;
      }
      Opened(graph, Now());
      OneActive(graph, Now(), id);
      AfterCompletion(Now(), id);
      CompleteKeeps(graph, Now(), id);
      Complete(id);
      r := Applied;
    }

    /** One process: it goes on from whatever the last one left. With nobody dying and
        every worker answering it can only stop in verification, never half way. */
    method RunPass(worker: Worker) returns (r: Outcome)
      requires Valid()
      modifies this
      ensures mortal == old(mortal)
      ensures Valid() && r != StoppedEarly
      ensures r == Died ==> mortal
      ensures r == WrongPhase <==> old(phase) == Conflict
      ensures r == WrongPhase ==> phase == Conflict
      ensures r == Unrecognized ==> phase == Conflict && !NoneLive(old(Now()))
      ensures Helpful(worker) && !edited ==> r in {ReachedVerification, WrongPhase, InvalidGraph, Unrecognized, Died}
      ensures r == ReachedVerification ==> phase == Verifying
      ensures r == InvalidGraph <==> (old(phase) == Ready || old(phase) == Executing) && !(G.FieldsOk(graph) && G.Acyclic(graph))
    {
      if phase == Verifying {
        return ReachedVerification;
      }
      if phase == Conflict {
        return WrongPhase;
      }
      var accepted := G.Validate(graph);
      if !accepted {
        return InvalidGraph;
      }
      var alive := Alive();
      if !alive {
        return Died;
      }
      Begin();
      r := RunSlices(worker);
      if r == NothingReady {
        r := if phase == Verifying then ReachedVerification else StoppedEarly;
      }
    }

    method RunSlices(worker: Worker) returns (r: Outcome)
      requires Between() && G.UniqueIds(graph) && G.Acyclic(graph)
      modifies this
      ensures mortal == old(mortal)
      ensures Valid() && r in {NothingReady, Died, WorkerFailed, Stale, Forbidden, WriteFailed, Unrecognized}
      ensures r == NothingReady ==> phase == Verifying
      ensures r == Died ==> mortal
      ensures r == Unrecognized ==> phase == Conflict && !NoneLive(old(Now()))
      ensures Helpful(worker) && !edited ==> r in {NothingReady, Died, Unrecognized}
    {
      hide Inv, AllCompleted, Undone, G.Acyclic, G.Ids, NoneLive;
      r := Applied;
      while r == Applied
        invariant Valid() && r in {Applied, NothingReady, Died, WorkerFailed, Stale, Forbidden, WriteFailed, Unrecognized}
        invariant mortal == old(mortal)
        invariant r == Applied ==> Between()
        invariant r == NothingReady ==> phase == Verifying
        invariant r == Died ==> mortal
        invariant r == Unrecognized ==> phase == Conflict && !NoneLive(old(Now()))
        invariant r == Applied && NoneLive(old(Now())) ==> NoneLive(Now())
        invariant Helpful(worker) && !edited ==> r in {Applied, NothingReady, Died, Unrecognized}
        decreases r == Applied, Undone(status)
      {
        r := OneSlice(worker);
      }
    }

    /** Any number of processes one after the other, each dying before whichever effect
        it does not live to make, with the worktree edited by others in between or not.
        Whenever the workflow gets to verification, every slice was mutated exactly once
        in the graph's own order, and unedited every slice started from the post tree of the
        one before it, the last one is what the worktree freezes to, and it is what the
        patches fold to if freezing traces them all. A last process that does not die and
        has a helpful worker gets an accepted, unedited graph there or leaves a conflict. */
    method Restarts(processes: seq<Process>)
      requires Valid()
      modifies this
      ensures Valid()
      ensures phase == Verifying ==> forall other :: G.Topological(graph, other) ==>
        G.Topological(graph, Slices(log)) && (Slices(log) == other || G.Before(Slices(log), other))
      ensures phase == Verifying && !edited ==>
        && Freeze() == (if log == [] then origin else log[|log| - 1].post)
        && (forall i :: 0 <= i < |log| ==> Link(origin, log, i) && TrueEntry(hidden, log[i]))
      ensures phase == Verifying && !edited && (forall i :: 0 <= i < |log| ==> EntryTraced(hidden, log[i])) ==>
        Fold(origin, log) == Freeze()
      ensures processes != [] && Able(processes[|processes| - 1]) && !edited && G.FieldsOk(graph) && G.Acyclic(graph) ==>
        phase == Verifying || phase == Conflict
    {
      hide Inv, G.Topological, G.Before, G.Acyclic, G.FieldsOk, Fold, Slices, Frozen, Link, TrueEntry, EntryTraced, Helpful;
      for i := 0 to |processes|
        invariant Valid()
        invariant i > 0 && Able(processes[i - 1]) && !edited && G.FieldsOk(graph) && G.Acyclic(graph) ==>
          phase == Verifying || phase == Conflict
      {
        Interfere();
        mortal := processes[i].mortal;
        var outcome := RunPass(processes[i].worker);
      }
      if phase == Verifying {
        forall other | G.Topological(graph, other)
          ensures G.Topological(graph, Slices(log)) && (Slices(log) == other || G.Before(Slices(log), other))
        {
          FinishedOrder(graph, Now(), other);
        }
        VerifyingIsSettled(graph, Now());
        if !edited {
          SettledTree(graph, Now());
        }
      }
    }

    method Begin()
      requires Valid() && (phase == Ready || phase == Executing) && G.FieldsOk(graph)
      modifies this`status, this`phase
      ensures Between() && NoneLive(Now()) == NoneLive(old(Now()))
    {
      hide Inv;
      ReconcileKeeps(graph, Now());
      ReadyIsPendingAll(graph, Now());
      Reconcile();
      SameLive(old(Now()), Now());
    }
  }

  lemma SameLive(s: State, t: State)
    requires s.attempts == t.attempts
    ensures NoneLive(s) <==> NoneLive(t)
  {
    if NoneLive(s) {
      assert forall id :: !Live(s, id);
    }
    assert forall id :: Live(s, id) <==> Live(t, id);
  }

  lemma AdoptCompletes(s: State, id: string)
    requires id in s.operations && id in s.attempts && id in s.kept && s.operations[id].post.Some?
    ensures AdoptStep(s, id) ==
      CompleteStep(Retiring(s, Entry(id, s.attempts[id].basis, s.kept[id], s.operations[id].post.value)), id)
  {
  }

  lemma ReadyIsPendingAll(g: G.Graph, s: State)
    requires Inv(g, s) && G.FieldsOk(g) && (s.phase == Ready || s.phase == Executing)
    ensures AllCompleted(ReconcileStep(s).status) ==> ReconcileStep(s).phase == Verifying
    ensures var t := ReconcileStep(s); t.phase == Ready || t.phase == Executing || t.phase == Verifying
  {
    if s.phase == Ready {
      assert g[0] in g && g[0].id in s.status;
      EveryRow(g, s, g[0].id);
      assert ReconcileStep(s).status[g[0].id] == G.Pending;
    }
  }

  /** Completing the only active slice. */
  lemma AfterCompletion(s: State, id: string)
    requires G.Is(s.status, id, G.Active) && (forall x :: G.Is(s.status, x, G.Active) ==> x == id) && s.phase == Executing
    ensures var t := CompleteStep(s, id);
      && (t.phase == Executing || t.phase == Verifying) && (AllCompleted(t.status) ==> t.phase == Verifying)
      && (forall x :: !G.Is(t.status, x, G.Active)) && NoneActive(t.status)
      && id in Undone(s.status) && Undone(t.status) == Undone(s.status) - {id}
  {
    var t := CompleteStep(s, id);
    forall x
      ensures !G.Is(t.status, x, G.Active)
    {
      assert x != id ==> !G.Is(s.status, x, G.Active);
    }
  }

  lemma OneActive(g: G.Graph, s: State, id: string)
    requires TablesOk(g, s) && G.Is(s.status, id, G.Active)
    ensures forall x :: G.Is(s.status, x, G.Active) ==> x == id
  {
    hide RowOk, G.Ids;
  }

  ghost predicate NoneActive(status: map<string, G.Status>) {
    forall x :: !G.Is(status, x, G.Active)
  }

  lemma NoneActiveNoneLive(g: G.Graph, s: State)
    requires Inv(g, s)
    ensures NoneActive(s.status) ==> NoneLive(s)
  {
    hide TablesOk, LogOk, TreesOk;
    forall x
      ensures NoneActive(s.status) ==> !Live(s, x)
    {
      if Live(s, x) {
        LiveRow(g, s, x);
      }
    }
  }

  lemma NothingApplied(d: Disk, patch: Patch)
    ensures ApplyAll(d, patch[..0]) == Some(d)
  {
    assert patch[..0] == [];
  }

  lemma LeftoverFiles(d: Disk, op: FileOperation)
    ensures Leftover(d, op).files == d.files
  {
  }

  lemma NewSlice(g: G.Graph, s: State, id: string)
    requires Inv(g, s) && G.ReadyNow(g, s.status, id)
    ensures id !in s.operations && id !in s.attempts
  {
    hide LogOk, TreesOk, ApplyAll, G.Ids;
    assert RowOk(s, id);
  }
}
