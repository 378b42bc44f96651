/** The delivery gate: an intent log, a commit object and a compare-and-swap of the
    destination ref. Any number of callers run the gate at once, each of them may
    die between two of its effects or lose the reply to its last one, and other people
    may push anything to the same refs, backwards too. */
module Delivery {
  import opened Joining

  // ---------------------------------------------------------------- data model

  /** A commit id stands for the commit's content, so two different commits never
      share an id. `stamp` is the commit time: the same content twice in one second
      is the same commit. */
  datatype Oid =
    | Root(n: nat)
    | Commit(tree: string, parent: Oid, message: string, author: string, email: string, stamp: nat)

  datatype Seal = Seal(detached: bool, symbolicHead: string, baseRef: string, baseCommit: Oid)

  /** A candidate id is the digest of what the candidate fixes, seal included. */
  datatype CandidateId =
    CandidateId(workflow: string, tree: string, policyHash: string, candidatePolicyHash: string, engine: string, seal: Seal)

  datatype Candidate =
    Candidate(id: CandidateId, workflow: string, tree: string, policyHash: string, candidatePolicyHash: string,
              engine: string, seal: Seal)

  datatype Receipt =
    Receipt(id: string, workflow: string, candidate: CandidateId, tree: string, policyHash: string, engine: string)

  datatype Request =
    Request(workflow: string, candidate: Candidate, policy: string, receipt: string, policyHash: string,
            engine: string, message: string, key: string, author: string, email: string)

  datatype Intent =
    Intent(workflow: string, key: string, candidate: CandidateId, receipt: string, ref: string, base: Oid,
           commit: Oid, tree: string, message: string, author: string, email: string)

  datatype Option<T> = None | Some(value: T)

  datatype Delivered = Delivered(commit: Oid, tree: string, ref: string, receipt: string, recovered: bool)

  datatype Error =
    | Incomplete | InvalidAuthority | Compatibility | ContextDrift | RefConflict | IdempotencyReuse | CorruptIntent | Io

  datatype Outcome = Ok(value: Delivered) | Err(error: Error)

  type Key = (string, string)
  type IntentLog = map<Key, Intent>

  function KeyOf(i: Intent): Key {
    (i.workflow, i.key)
  }

  function Generation(o: Oid): nat {
    match o
    case Root(_) => 0
    case Commit(_, p, _, _, _, _) => Generation(p) + 1
  }

  predicate Descends(o: Oid, from: Oid) {
    o.Commit? && (o.parent == from || Descends(o.parent, from))
  }

  // -------------------------------------------------------------- intent stores

  /** What a store does with an intent: the first one written under a key stays. */
  function PutSpec(log: IntentLog, i: Intent, writable: bool, rereadMisses: bool): (r: (IntentLog, bool, Error))
    ensures forall k :: k in log ==> k in r.0 && r.0[k] == log[k]
    ensures r.1 ==> KeyOf(i) in r.0 && r.0[KeyOf(i)] == i
    ensures !r.1 ==> r.0 == log
  {
    if !writable then (log, false, Io)
    else if KeyOf(i) !in log then (log[KeyOf(i) := i], true, Io)
    else if rereadMisses then (log, false, CorruptIntent)
    else if log[KeyOf(i)] == i then (log, true, Io)
    else (log, false, IdempotencyReuse)
  }

  /** What the memory store answers and does, over its joined keys. */
  function MemoryGet(intents: map<string, Intent>, key: Key): Option<Intent> {
    if Join2(key.0, key.1) in intents then Some(intents[Join2(key.0, key.1)]) else None
  }

  function MemoryPut(intents: map<string, Intent>, i: Intent): (map<string, Intent>, bool) {
    var k := Join2(i.workflow, i.key);
    if k in intents then (intents, intents[k] == i) else (intents[k := i], true)
  }

  /** Every entry sits under its own joined key, and the entries are those of the log, which
      names no workflow with a NUL. */
  ghost predicate Represents(intents: map<string, Intent>, log: IntentLog) {
    && (forall k :: k in log ==> KeyOf(log[k]) == k && NulFree(k.0))
    && (forall w: string, k: string :: NulFree(w) ==>
          MemoryGet(intents, (w, k)) == if (w, k) in log then Some(log[(w, k)]) else None)
  }

  /** For workflow ids without NUL the joined keys are as good as the pairs. */
  lemma MemoryKeepsLog(intents: map<string, Intent>, log: IntentLog, i: Intent)
    requires Represents(intents, log) && NulFree(i.workflow)
    ensures Represents(MemoryPut(intents, i).0, PutSpec(log, i, true, false).0)
    ensures MemoryPut(intents, i).1 == PutSpec(log, i, true, false).1
  {
    var after := MemoryPut(intents, i).0;
    assert MemoryGet(intents, KeyOf(i)) == if KeyOf(i) in log then Some(log[KeyOf(i)]) else None;
    forall w: string, k: string | NulFree(w)
      ensures MemoryGet(after, (w, k)) == if (w, k) == KeyOf(i) && KeyOf(i) !in log then Some(i) else MemoryGet(intents, (w, k))
    {
      if Join2(w, k) == Join2(i.workflow, i.key) {
        Join2Injective(w, k, i.workflow, i.key);
      }
    }
  }

  class MemoryIntentStore {
    var intents: map<string, Intent>

    constructor ()
      ensures intents == map[] && Represents(intents, map[])
    {
      intents := map[];
    }

    method Get(workflow: string, key: string) returns (found: bool, i: Intent)
      ensures found <==> MemoryGet(intents, (workflow, key)).Some?
      ensures found ==> MemoryGet(intents, (workflow, key)) == Some(i)
    {
      var k := Join2(workflow, key);
      found := k in intents;
      i := if found then intents[k] else NO_INTENT;
    }

    method Put(i: Intent) returns (ok: bool)
      modifies this
      ensures (intents, ok) == MemoryPut(old(intents), i)
    {
      var k := Join2(i.workflow, i.key);
      if k in intents {
        return intents[k] == i;
      }
      intents := intents[k := i];
      ok := true;
    }
  }

  const NO_INTENT :=
    Intent("", "", CandidateId("", "", "", "", "", Seal(true, "", "", Root(0))), "", "", Root(0), Root(0), "", "", "", "")

  class SqliteIntentStore {
    var rows: map<Key, Intent>

    /** `rowUnreadable`: the query or the decoding failed and the store reports a miss. */
    method Get(workflow: string, key: string, rowUnreadable: bool) returns (found: bool, i: Intent)
      ensures found <==> (workflow, key) in rows && !rowUnreadable
      ensures found ==> i == rows[(workflow, key)]
    {
      found := (workflow, key) in rows && !rowUnreadable;
      i := if found then rows[(workflow, key)] else NO_INTENT;
    }

    method Put(i: Intent, writable: bool, rowUnreadable: bool) returns (ok: bool, e: Error)
      modifies this
      ensures (rows, ok, e) == PutSpec(old(rows), i, writable, rowUnreadable)
    {
      if !writable {
        return false, Io;
      }
      if KeyOf(i) !in rows {
        rows := rows[KeyOf(i) := i];
        return true, Io;
      }
      var found, previous := Get(i.workflow, i.key, rowUnreadable);
      if !found {
        return false, CorruptIntent;
      }
      if previous == i {
        return true, Io;
      }
      return false, IdempotencyReuse;
    }
  }

  /** Two keys meet in one joined key exactly when one workflow id goes on with a NUL where
      the other one's key does. */
  lemma MemoryKeysCollide(w: string, k: string, w': string, k': string)
    ensures Join2(w, k) == Join2(w', k') && (w, k) != (w', k') <==>
      (exists x :: w' == Join2(w, x) && k == Join2(x, k')) || (exists x :: w == Join2(w', x) && k' == Join2(x, k))
  {
    Join2Exactly(w, k, w', k');
  }

  /** What that does to a caller: under the second key the store finds the intent of the
      first one and refuses to record the second. */
  lemma CollisionShadows(first: Intent, second: Intent)
    requires KeyOf(first) != KeyOf(second)
    ensures var after := MemoryPut(map[], first).0;
      && (MemoryGet(after, KeyOf(second)) == Some(first) <==> Join2(first.workflow, first.key) == Join2(second.workflow, second.key))
      && (!MemoryPut(after, second).1 <==> Join2(first.workflow, first.key) == Join2(second.workflow, second.key))
  {
    hide Join2;
  }

  // ------------------------------------------------------- the protocol's steps

  /** Who moved a ref. */
  datatype Mover = Deliverer(caller: nat, key: Key, receipt: Receipt) | Others

  /** A ref that is not there has no value. */
  datatype Move = Move(ref: string, from: Option<Oid>, dest: Option<Oid>, mover: Mover)

  datatype Caller =
    | Looking(req: Request, auth: Receipt)
    | Drifting(req: Request, auth: Receipt)
    | Building(req: Request, auth: Receipt)
    | Recording(req: Request, auth: Receipt, oid: Oid)
    | Gating(req: Request, auth: Receipt, intent: Intent)
    | Updating(req: Request, auth: Receipt, intent: Intent, recovered: bool)
    | Reading(req: Request, auth: Receipt, intent: Intent)
    | Done(req: Request, outcome: Outcome)
    | Crashed(req: Request)

  /** `origin` are the refs at the start, `moves` every change of a ref since, oldest first,
      and `intents` the durable log. */
  datatype State = State(origin: map<string, Oid>, intents: IntentLog, callers: map<nat, Caller>, moves: seq<Move>)

  function ValueIn(refs: map<string, Oid>, ref: string): Option<Oid> {
    if ref in refs then Some(refs[ref]) else None
  }

  /** Where a ref stands after the moves. */
  function ValueAfter(origin: map<string, Oid>, moves: seq<Move>, ref: string): Option<Oid> {
    if moves == [] then ValueIn(origin, ref)
    else if moves[|moves| - 1].ref == ref then moves[|moves| - 1].dest
    else ValueAfter(origin, moves[..|moves| - 1], ref)
  }

  function Stands(s: State, ref: string): Option<Oid> {
    ValueAfter(s.origin, s.moves, ref)
  }

  /** How a ref update ends: without effect; done and answered; done, but git is killed or
      fails afterwards, so the caller sees an error; done, and the caller dies. */
  datatype Reply = Refused | Answered | Lost | Died

  datatype Action =
    | Begin(caller: nat, req: Request, authority: Receipt, authorityKnown: bool)
    | Lookup(caller: nat, misses: bool)
    | CheckDrift(caller: nat, clean: bool, io: bool)
    | CommitTree(caller: nat, stamp: nat, io: bool)
    | PutIntent(caller: nat, writable: bool, rereadMisses: bool)
    | BeforeUpdate(caller: nat, pass: bool)
    | UpdateRef(caller: nat, reply: Reply)
    | ReadRef(caller: nat, io: bool, treeIo: bool)
    | Crash(caller: nat)
    | Push(ref: string, dest: Option<Oid>)

  predicate SealUsable(s: Seal) {
    !s.detached && s.symbolicHead != "" && s.baseRef != "" && s.symbolicHead == s.baseRef
  }

  predicate CandidateRecordValid(c: Candidate) {
    && c.workflow != "" && c.tree != "" && c.policyHash != "" && c.candidatePolicyHash != "" && c.engine != ""
    && c.id == CandidateId(c.workflow, c.tree, c.policyHash, c.candidatePolicyHash, c.engine, c.seal)
  }

  /** The checks a request passes before the intent log is consulted, in order. */
  function Admit(req: Request, a: Receipt, authorityKnown: bool): Caller {
    var c := req.candidate;
    if req.key == "" || req.message == "" then Done(req, Err(Incomplete))
    else if !authorityKnown then Done(req, Err(InvalidAuthority))
    else if a.id != req.receipt || a.workflow != req.workflow || a.candidate != c.id || a.tree != c.tree then
      Done(req, Err(InvalidAuthority))
    else if a.policyHash != req.policyHash || c.policyHash != req.policyHash || a.engine != req.engine || c.engine != req.engine then
      Done(req, Err(Compatibility))
    else if !SealUsable(c.seal) then Done(req, Err(ContextDrift))
    else if !CandidateRecordValid(c) then Done(req, Err(InvalidAuthority))
    else if c.candidatePolicyHash != req.policy then Done(req, Err(Compatibility))
    else Looking(req, a)
  }

  predicate IntentMatches(i: Intent, req: Request, a: Receipt) {
    && i.candidate == req.candidate.id && i.receipt == a.id && i.tree == req.candidate.tree
    && i.message == req.message && i.author == req.author && i.email == req.email
  }

  function NewIntent(req: Request, a: Receipt, oid: Oid): Intent {
    Intent(req.workflow, req.key, req.candidate.id, a.id, req.candidate.seal.baseRef, req.candidate.seal.baseCommit,
           oid, req.candidate.tree, req.message, req.author, req.email)
  }

  function BuildCommit(req: Request, stamp: nat): Oid {
    Commit(req.candidate.tree, req.candidate.seal.baseCommit, req.message, req.author, req.email, stamp)
  }

  function ResultOf(i: Intent, recovered: bool): Outcome {
    Ok(Delivered(i.commit, i.tree, i.ref, i.receipt, recovered))
  }

  function At(s: State, c: nat, pc: Caller): State {
    s.(callers := s.callers[c := pc])
  }

  function Fail(s: State, c: nat, req: Request, e: Error): State {
    At(s, c, Done(req, Err(e)))
  }

  /** git update-ref with an expected old value. */
  function SwapRef(s: State, c: nat, pc: Caller, reply: Reply): (r: State)
    requires pc.Updating?
    ensures c in r.callers && r.callers == s.callers[c := r.callers[c]]
  {
    var i := pc.intent;
    if reply == Refused || Stands(s, i.ref) != Some(i.base) then
      if reply == Died then At(s, c, Crashed(pc.req)) else Fail(s, c, pc.req, RefConflict)
    else
      var moved := s.(moves := s.moves + [Move(i.ref, Some(i.base), Some(i.commit), Deliverer(c, KeyOf(i), pc.auth))]);
      match reply
      case Answered => At(moved, c, Done(pc.req, ResultOf(i, pc.recovered)))
      case Died => At(moved, c, Crashed(pc.req))
      case _ => Fail(moved, c, pc.req, RefConflict)
  }

  function DriftStep(s: State, c: nat, pc: Caller, clean: bool, io: bool): (r: State)
    requires pc.Drifting?
    ensures c in r.callers && r.callers == s.callers[c := r.callers[c]]
  {
    var seal := pc.req.candidate.seal;
    if !io then Fail(s, c, pc.req, Io)
    else if !clean || Stands(s, seal.baseRef) != Some(seal.baseCommit) then Fail(s, c, pc.req, ContextDrift)
    else At(s, c, Building(pc.req, pc.auth))
  }

  function PutStep(s: State, c: nat, pc: Caller, writable: bool, rereadMisses: bool): (r: State)
    requires pc.Recording?
    ensures c in r.callers && r.callers == s.callers[c := r.callers[c]]
  {
    var i := NewIntent(pc.req, pc.auth, pc.oid);
    var r := PutSpec(s.intents, i, writable, rereadMisses);
    if r.1 then At(s, c, Gating(pc.req, pc.auth, i)).(intents := r.0)
    else Fail(s, c, pc.req, r.2)
  }

  function ReadStep(s: State, c: nat, pc: Caller, io: bool, treeIo: bool): (r: State)
    requires pc.Reading?
    ensures c in r.callers && r.callers == s.callers[c := r.callers[c]]
  {
    var i := pc.intent;
    if !IntentMatches(i, pc.req, pc.auth) then Fail(s, c, pc.req, IdempotencyReuse)
    else if !io || Stands(s, i.ref).None? then Fail(s, c, pc.req, Io)
    else if Stands(s, i.ref) == Some(i.commit) then
      if treeIo && i.commit.Commit? && i.commit.tree == i.tree then At(s, c, Done(pc.req, ResultOf(i, true)))
      else Fail(s, c, pc.req, RefConflict)
    else if Stands(s, i.ref) != Some(i.base) then Fail(s, c, pc.req, RefConflict)
    else At(s, c, Updating(pc.req, pc.auth, i, true))
  }

  function LookupStep(s: State, c: nat, pc: Caller, misses: bool): (r: State)
    requires pc.Looking?
    ensures c in r.callers && r.callers == s.callers[c := r.callers[c]]
  {
    var k := (pc.req.workflow, pc.req.key);
    if k in s.intents && !misses then At(s, c, Reading(pc.req, pc.auth, s.intents[k]))
    else At(s, c, Drifting(pc.req, pc.auth))
  }

  /** One atomic effect. An action that does not fit the caller's position changes nothing. */
  function Step(s: State, a: Action): State {
    match a
    case Push(ref, dest) => s.(moves := s.moves + [Move(ref, Stands(s, ref), dest, Others)])
    case Begin(c, req, auth, known) => if c in s.callers then s else At(s, c, Admit(req, auth, known))
    case Lookup(c, misses) =>
      if c in s.callers && s.callers[c].Looking? then LookupStep(s, c, s.callers[c], misses) else s
    case CheckDrift(c, clean, io) =>
      if c in s.callers && s.callers[c].Drifting? then DriftStep(s, c, s.callers[c], clean, io) else s
    case CommitTree(c, stamp, io) =>
      if c in s.callers && s.callers[c].Building? then
        var pc := s.callers[c];
        if io then At(s, c, Recording(pc.req, pc.auth, BuildCommit(pc.req, stamp))) else Fail(s, c, pc.req, Io)
      else s
    case PutIntent(c, writable, rereadMisses) =>
      if c in s.callers && s.callers[c].Recording? then PutStep(s, c, s.callers[c], writable, rereadMisses) else s
    case BeforeUpdate(c, pass) =>
      if c in s.callers && s.callers[c].Gating? then
        var pc := s.callers[c];
        if pass then At(s, c, Updating(pc.req, pc.auth, pc.intent, false)) else Fail(s, c, pc.req, Io)
      else s
    case UpdateRef(c, reply) =>
      if c in s.callers && s.callers[c].Updating? then SwapRef(s, c, s.callers[c], reply) else s
    case ReadRef(c, io, treeIo) =>
      if c in s.callers && s.callers[c].Reading? then ReadStep(s, c, s.callers[c], io, treeIo) else s
    case Crash(c) =>
      if c in s.callers && !s.callers[c].Done? then At(s, c, Crashed(s.callers[c].req)) else s
  }

  function Run(s: State, trace: seq<Action>): State {
    if trace == [] then s else Step(Run(s, trace[..|trace| - 1]), trace[|trace| - 1])
  }

  // ----------------------------------------------------------------- invariant

  predicate Fits(req: Request, a: Receipt) {
    Admit(req, a, true) == Looking(req, a)
  }

  ghost predicate Recorded(s: State, i: Intent) {
    KeyOf(i) in s.intents && s.intents[KeyOf(i)] == i
  }

  ghost predicate IntentOk(s: State, k: Key)
    requires k in s.intents
  {
    var i := s.intents[k];
    && KeyOf(i) == k
    && i.commit.Commit? && i.commit.tree == i.tree && i.commit.parent == i.base
    && i.commit.message == i.message && i.commit.author == i.author && i.commit.email == i.email
    && i.ref == i.candidate.seal.baseRef && i.base == i.candidate.seal.baseCommit && i.tree == i.candidate.tree
    && Stood(s, i.ref, i.base)
  }

  /** What was asked for: a commit of the candidate's tree on the sealed base with the message,
      author and email of the request, on the sealed ref, by the receipt that was named. */
  predicate Delivers(d: Delivered, req: Request) {
    && d.commit.Commit? && d.commit.tree == d.tree == req.candidate.tree
    && d.commit.parent == req.candidate.seal.baseCommit && d.ref == req.candidate.seal.baseRef
    && d.commit.message == req.message && d.commit.author == req.author && d.commit.email == req.email
    && d.receipt == req.receipt
  }

  /** The receipt on record is the one that was named, for this very candidate. */
  predicate AuthorityFits(req: Request, a: Receipt) {
    a.id == req.receipt && a.workflow == req.workflow && a.candidate == req.candidate.id && a.tree == req.candidate.tree
  }

  predicate VersionsFit(req: Request, a: Receipt) {
    && a.policyHash == req.policyHash == req.candidate.policyHash
    && a.engine == req.engine == req.candidate.engine
  }

  /** All that a request has to meet before anything is looked up. */
  predicate Admissible(req: Request, a: Receipt) {
    && req.key != "" && req.message != "" && AuthorityFits(req, a) && VersionsFit(req, a)
    && SealUsable(req.candidate.seal) && CandidateRecordValid(req.candidate)
    && req.candidate.candidatePolicyHash == req.policy
  }

  /** Admission lets exactly the admissible requests through, and a refusal names the first
      condition that fails. */
  lemma AdmissionDecides(req: Request, a: Receipt, authorityKnown: bool)
    ensures var pc := Admit(req, a, authorityKnown);
      && (pc == Looking(req, a) <==> authorityKnown && Admissible(req, a))
      && (pc != Looking(req, a) ==> pc.Done? && pc.req == req && pc.outcome.Err?)
      && (pc == Done(req, Err(Incomplete)) <==> req.key == "" || req.message == "")
      && (pc == Done(req, Err(ContextDrift)) <==>
            && req.key != "" && req.message != "" && authorityKnown && AuthorityFits(req, a) && VersionsFit(req, a)
            && !SealUsable(req.candidate.seal))
      && (pc == Done(req, Err(Compatibility)) <==>
            && req.key != "" && req.message != "" && authorityKnown && AuthorityFits(req, a)
            && (!VersionsFit(req, a)
                || (SealUsable(req.candidate.seal) && CandidateRecordValid(req.candidate)
                    && req.candidate.candidatePolicyHash != req.policy)))
      && (pc == Done(req, Err(InvalidAuthority)) <==>
            && req.key != "" && req.message != ""
            && (!authorityKnown || !AuthorityFits(req, a)
                || (VersionsFit(req, a) && SealUsable(req.candidate.seal) && !CandidateRecordValid(req.candidate))))
  {
  }

  /** At some time the ref stood at `o`. */
  ghost predicate Stood(s: State, ref: string, o: Oid) {
    exists n :: 0 <= n <= |s.moves| && ValueAfter(s.origin, s.moves[..n], ref) == Some(o)
  }

  ghost predicate CallerOk(s: State, c: Caller) {
    match c
    case Looking(req, a) => Fits(req, a)
    case Drifting(req, a) => Fits(req, a)
    case Building(req, a) => Fits(req, a) && Stood(s, req.candidate.seal.baseRef, req.candidate.seal.baseCommit)
    case Recording(req, a, oid) =>
      && Fits(req, a) && oid.Commit? && oid == BuildCommit(req, oid.stamp)
      && Stood(s, req.candidate.seal.baseRef, req.candidate.seal.baseCommit)
    case Gating(req, a, i) => Fits(req, a) && Recorded(s, i) && KeyOf(i) == (req.workflow, req.key) && IntentMatches(i, req, a)
    case Updating(req, a, i, _) => Fits(req, a) && Recorded(s, i) && KeyOf(i) == (req.workflow, req.key) && IntentMatches(i, req, a)
    case Reading(req, a, i) => Fits(req, a) && Recorded(s, i) && KeyOf(i) == (req.workflow, req.key)
    case Done(req, o) =>
      o.Ok? ==>
        var k := (req.workflow, req.key);
        && k in s.intents && s.intents[k].candidate == req.candidate.id
        && req.candidate.id.seal == req.candidate.seal
        && o == ResultOf(s.intents[k], o.value.recovered) && Delivers(o.value, req)
        && Stood(s, o.value.ref, o.value.commit)
    case Crashed(_) => true
  }

  /** What the gate moves it moves from the sealed base to the commit of the intent, and the
      mover is finished: it succeeded, died, or was told of a conflict. */
  ghost predicate MoveOk(s: State, m: Move) {
    m.mover.Deliverer? ==>
      && m.dest.Some? && m.dest.value.Commit? && m.from == Some(m.dest.value.parent)
      && m.dest.value.tree == m.mover.receipt.tree
      && m.mover.key in s.intents && s.intents[m.mover.key].commit == m.dest.value && s.intents[m.mover.key].ref == m.ref
      && m.mover.caller in s.callers && Finished(s.callers[m.mover.caller], m)
  }

  predicate Finished(c: Caller, m: Move)
    requires m.mover.Deliverer?
  {
    && (c.Done? || c.Crashed?) && (c.req.workflow, c.req.key) == m.mover.key
    && (c.Done? && c.outcome.Ok? ==> m.dest == Some(c.outcome.value.commit))
    && (c.Done? && c.outcome.Err? ==> c.outcome.error == RefConflict)
  }

  /** Every move leaves the value the moves before it had led to. */
  ghost predicate Chained(s: State) {
    forall k :: 0 <= k < |s.moves| ==> s.moves[k].from == ValueAfter(s.origin, s.moves[..k], s.moves[k].ref)
  }

  ghost predicate Inv(s: State) {
    && (forall k :: k in s.intents ==> IntentOk(s, k))
    && (forall c :: c in s.callers ==> CallerOk(s, s.callers[c]))
    && (forall k :: 0 <= k < |s.moves| ==> MoveOk(s, s.moves[k]))
    && Chained(s)
  }

  function Initial(refs: map<string, Oid>): State {
    State(refs, map[], map[], [])
  }

  lemma InitialHolds(refs: map<string, Oid>)
    ensures Inv(Initial(refs))
  {
  }

  lemma FitFacts(req: Request, a: Receipt)
    requires Fits(req, a)
    ensures a.tree == req.candidate.tree && req.candidate.id.seal == req.candidate.seal
    ensures a.id == req.receipt && a.workflow == req.workflow && req.candidate.id.tree == req.candidate.tree
  {
  }

  /** Adding one move keeps the history. */
  lemma MoveAdded(s: State, t: State, m: Move)
    requires t.origin == s.origin && t.moves == s.moves + [m]
    ensures forall ref, o :: Stood(s, ref, o) ==> Stood(t, ref, o)
    ensures Stands(t, m.ref) == m.dest
    ensures m.dest.Some? ==> Stood(t, m.ref, m.dest.value)
    ensures Chained(s) && m.from == Stands(s, m.ref) ==> Chained(t)
  {
    var n := |s.moves|;
    assert t.moves[..n] == s.moves && t.moves[..n + 1] == t.moves;
    forall k | 0 <= k <= n
      ensures t.moves[..k] == s.moves[..k]
    {
    }
    forall ref, o | Stood(s, ref, o)
      ensures Stood(t, ref, o)
    {
      var k :| 0 <= k <= n && ValueAfter(s.origin, s.moves[..k], ref) == Some(o);
      assert t.moves[..k] == s.moves[..k];
    }
    hide ValueAfter;
    if Chained(s) && m.from == Stands(s, m.ref) {
      forall k | 0 <= k < |t.moves|
        ensures t.moves[k].from == ValueAfter(t.origin, t.moves[..k], t.moves[k].ref)
      {
        assert k < n ==> t.moves[k] == s.moves[k] && t.moves[..k] == s.moves[..k];
      }
    }
  }

  lemma NowStood(s: State, ref: string)
    ensures Stands(s, ref).Some? ==> Stood(s, ref, Stands(s, ref).value)
  {
    assert s.moves[..|s.moves|] == s.moves;
  }

  /** A step that moves no ref and only adds intents keeps the invariant as soon as the
      stepping caller's new position is sound. */
  lemma QuietKeeps(s: State, s': State, c: nat)
    requires Inv(s) && s'.origin == s.origin && s'.moves == s.moves
    requires forall k :: k in s.intents ==> k in s'.intents && s'.intents[k] == s.intents[k]
    requires forall k :: k in s'.intents && k !in s.intents ==> IntentOk(s', k)
    requires c in s'.callers && s'.callers == s.callers[c := s'.callers[c]]
    requires c in s.callers ==> !s.callers[c].Done? && !s.callers[c].Crashed?
    requires CallerOk(s', s'.callers[c])
    ensures Inv(s')
  {
    hide IntentMatches, Admit, ValueAfter;
    forall k | k in s'.intents
      ensures IntentOk(s', k)
    {
      if k in s.intents {
        assert IntentOk(s, k);
      }
    }
    forall d | d in s'.callers
      ensures CallerOk(s', s'.callers[d])
    {
      if d != c {
        CallerStays(s, s', s.callers[d]);
      }
    }
    forall k | 0 <= k < |s'.moves|
      ensures MoveOk(s', s'.moves[k])
    {
      assert MoveOk(s, s.moves[k]);
    }
  }

  lemma CallerStays(s: State, t: State, pc: Caller)
    requires CallerOk(s, pc)
    requires forall k :: k in s.intents ==> k in t.intents && t.intents[k] == s.intents[k]
    requires forall ref, o :: Stood(s, ref, o) ==> Stood(t, ref, o)
    ensures CallerOk(t, pc)
  {
    hide IntentMatches, Admit, Stood;
  }

  lemma PushKeeps(s: State, ref: string, dest: Option<Oid>)
    requires Inv(s)
    ensures Inv(Step(s, Push(ref, dest)))
  {
    var t := Step(s, Push(ref, dest));
    MoveAdded(s, t, Move(ref, Stands(s, ref), dest, Others));
    hide IntentMatches, Admit, ValueAfter, Stood;
    forall k | k in t.intents
      ensures IntentOk(t, k)
    {
      assert IntentOk(s, k);
    }
    forall c | c in t.callers
      ensures CallerOk(t, t.callers[c])
    {
      CallerStays(s, t, s.callers[c]);
    }
    forall k | 0 <= k < |t.moves|
      ensures MoveOk(t, t.moves[k])
    {
      if k < |s.moves| {
        assert t.moves[k] == s.moves[k] && MoveOk(s, s.moves[k]);
      }
    }
  }

  /** The caller may move the ref: it is at its last step and the ref at the sealed base. */
  ghost predicate CanSwap(s: State, c: nat) {
    c in s.callers && s.callers[c].Updating? && Stands(s, s.callers[c].intent.ref) == Some(s.callers[c].intent.base)
  }

  function SwapMove(s: State, c: nat): Move
    requires c in s.callers && s.callers[c].Updating?
  {
    var i := s.callers[c].intent;
    Move(i.ref, Some(i.base), Some(i.commit), Deliverer(c, KeyOf(i), s.callers[c].auth))
  }

  lemma SwapMoves(s: State, c: nat, reply: Reply)
    requires Inv(s) && CanSwap(s, c) && reply != Refused
    ensures var t := Step(s, UpdateRef(c, reply));
      && t.moves == s.moves + [SwapMove(s, c)] && t.origin == s.origin && t.intents == s.intents
      && MoveOk(t, SwapMove(s, c)) && CallerOk(t, t.callers[c])
  {
    hide Admit, ValueAfter, Stood, IntentMatches, MoveOk, CallerOk, Inv;
    var t := Step(s, UpdateRef(c, reply));
    SwapResult(s, c, reply);
    SwapIsSound(s, t, c);
  }

  lemma SwapResult(s: State, c: nat, reply: Reply)
    requires CanSwap(s, c) && reply != Refused
    ensures var t, pc := Step(s, UpdateRef(c, reply)), s.callers[c];
      && t.moves == s.moves + [SwapMove(s, c)] && t.origin == s.origin && t.intents == s.intents && c in t.callers
      && t.callers[c] in {Done(pc.req, ResultOf(pc.intent, pc.recovered)), Done(pc.req, Err(RefConflict)), Crashed(pc.req)}
  {
    hide ValueAfter;
  }

  lemma SwapIsSound(s: State, t: State, c: nat)
    requires Inv(s) && c in s.callers && s.callers[c].Updating? && c in t.callers
    requires t.moves == s.moves + [SwapMove(s, c)] && t.origin == s.origin && t.intents == s.intents
    requires var pc := s.callers[c];
      t.callers[c] in {Done(pc.req, ResultOf(pc.intent, pc.recovered)), Done(pc.req, Err(RefConflict)), Crashed(pc.req)}
    ensures MoveOk(t, SwapMove(s, c)) && CallerOk(t, t.callers[c])
  {
    hide Admit, ValueAfter, Stood;
    var pc := s.callers[c];
    assert CallerOk(s, pc) && IntentOk(s, KeyOf(pc.intent));
    FitFacts(pc.req, pc.auth);
    MoveAdded(s, t, SwapMove(s, c));
    hide Inv;
    assert IntentOk(t, KeyOf(pc.intent));
    if t.callers[c].Done? && t.callers[c].outcome.Ok? {
      ResultIsSound(t, pc.req, pc.auth, pc.intent, pc.recovered);
    }
    hide Delivers, IntentMatches;
  }

  lemma SwapKeeps(s: State, c: nat, reply: Reply)
    requires Inv(s) && c in s.callers && s.callers[c].Updating?
    ensures Inv(Step(s, UpdateRef(c, reply)))
  {
    hide Admit, IntentMatches, ValueAfter, Stood, MoveOk, CallerOk;
    var t := Step(s, UpdateRef(c, reply));
    if CanSwap(s, c) && reply != Refused {
      SwapMoves(s, c, reply);
      MoveAdded(s, t, SwapMove(s, c));
      SwappedKeeps(s, t, c);
    } else {
      IdleCaller(t, t.callers[c]);
      QuietKeeps(s, t, c);
    }
  }

  lemma IdleCaller(s: State, pc: Caller)
    requires pc.Crashed? || (pc.Done? && pc.outcome.Err?)
    ensures CallerOk(s, pc)
  {
  }

  lemma SwappedKeeps(s: State, t: State, c: nat)
    requires Inv(s) && c in s.callers && s.callers[c].Updating?
    requires t.origin == s.origin && t.intents == s.intents && t.moves == s.moves + [SwapMove(s, c)] && Chained(t)
    requires c in t.callers && t.callers == s.callers[c := t.callers[c]]
    requires MoveOk(t, SwapMove(s, c)) && CallerOk(t, t.callers[c])
    requires forall ref, o :: Stood(s, ref, o) ==> Stood(t, ref, o)
    ensures Inv(t)
  {
    hide Admit, IntentMatches, ValueAfter, Stood, CallerOk;
    forall k | k in t.intents
      ensures IntentOk(t, k)
    {
      assert IntentOk(s, k);
    }
    forall d | d in t.callers
      ensures CallerOk(t, t.callers[d])
    {
      if d != c {
        CallerStays(s, t, s.callers[d]);
      }
    }
    forall k | 0 <= k < |t.moves|
      ensures MoveOk(t, t.moves[k])
    {
      if k < |s.moves| {
        assert t.moves[k] == s.moves[k] && MoveOk(s, s.moves[k]);
      }
    }
  }

  lemma CallerOf(s: State, c: nat)
    requires Inv(s) && c in s.callers
    ensures CallerOk(s, s.callers[c])
  {
  }

  lemma LookupKeeps(s: State, c: nat, misses: bool)
    requires Inv(s) && c in s.callers && s.callers[c].Looking?
    ensures Inv(Step(s, Lookup(c, misses)))
  {
    hide Admit, IntentMatches, Stood;
    var pc := s.callers[c];
    var k := (pc.req.workflow, pc.req.key);
    assert CallerOk(s, pc);
    if k in s.intents {
      assert IntentOk(s, k);
    }
    QuietKeeps(s, Step(s, Lookup(c, misses)), c);
  }

  lemma DriftKeeps(s: State, c: nat, clean: bool, io: bool)
    requires Inv(s) && c in s.callers && s.callers[c].Drifting?
    ensures Inv(Step(s, CheckDrift(c, clean, io)))
  {
    hide Admit, IntentMatches, Stood, ValueAfter;
    assert CallerOk(s, s.callers[c]);
    NowStood(s, s.callers[c].req.candidate.seal.baseRef);
    StoodSame(s, Step(s, CheckDrift(c, clean, io)));
    QuietKeeps(s, Step(s, CheckDrift(c, clean, io)), c);
  }

  lemma NewIntentOk(s: State, t: State, req: Request, a: Receipt, oid: Oid)
    requires CallerOk(s, Recording(req, a, oid)) && t.origin == s.origin && t.moves == s.moves
    requires Recorded(t, NewIntent(req, a, oid))
    ensures IntentOk(t, (req.workflow, req.key)) && CallerOk(t, Gating(req, a, NewIntent(req, a, oid)))
  {
    FitFacts(req, a);
    StoodSame(s, t);
    hide Stood, Admit;
  }

  lemma PutKeeps(s: State, c: nat, writable: bool, rereadMisses: bool)
    requires Inv(s) && c in s.callers && s.callers[c].Recording?
    ensures Inv(Step(s, PutIntent(c, writable, rereadMisses)))
  {
    hide Inv, Admit;
    CallerOf(s, c);
    var pc, t := s.callers[c], PutStep(s, c, s.callers[c], writable, rereadMisses);
    hide CallerOk, IntentOk;
    if t.callers[c].Gating? {
      NewIntentOk(s, t, pc.req, pc.auth, pc.oid);
    } else {
      IdleCaller(t, t.callers[c]);
    }
    QuietKeeps(s, t, c);
  }

  lemma ReadKeeps(s: State, c: nat, io: bool, treeIo: bool)
    requires Inv(s) && c in s.callers && s.callers[c].Reading?
    ensures Inv(Step(s, ReadRef(c, io, treeIo)))
  {
    ReadLeaves(s, c, s.callers[c], io, treeIo);
    ReadCaller(s, c, io, treeIo);
    StepReads(s, c, io, treeIo);
    hide *;
    QuietKeeps(s, ReadStep(s, c, s.callers[c], io, treeIo), c);
  }

  lemma StepReads(s: State, c: nat, io: bool, treeIo: bool)
    requires c in s.callers && s.callers[c].Reading?
    ensures Step(s, ReadRef(c, io, treeIo)) == ReadStep(s, c, s.callers[c], io, treeIo)
  {
    hide ReadStep;
  }

  lemma ReadCaller(s: State, c: nat, io: bool, treeIo: bool)
    requires Inv(s) && c in s.callers && s.callers[c].Reading?
    ensures var t := ReadStep(s, c, s.callers[c], io, treeIo); CallerOk(t, t.callers[c])
  {
    var pc := s.callers[c];
    CallerOf(s, c);
    assert Recorded(s, pc.intent) && Fits(pc.req, pc.auth) && KeyOf(pc.intent) == (pc.req.workflow, pc.req.key);
    IntentOf(s, KeyOf(pc.intent));
    ReadLeaves(s, c, pc, io, treeIo);
    var t := ReadStep(s, c, pc, io, treeIo);
    NowStood(s, pc.intent.ref);
    StoodSame(s, t);
    hide Inv, CallerOk, IntentOk, Stood, ValueAfter, IntentMatches, Step, ReadStep, Fits;
    if t.callers[c].Done? && t.callers[c].outcome.Ok? {
      ResultIsSound(s, pc.req, pc.auth, pc.intent, true);
    } else if t.callers[c].Done? {
      IdleCaller(s, t.callers[c]);
    } else {
      ReadIsSound(s, pc);
    }
    CallerStays(s, t, t.callers[c]);
  }

  /** Where reading the ref leaves a caller. */
  lemma ReadLeaves(s: State, c: nat, pc: Caller, io: bool, treeIo: bool)
    requires pc.Reading?
    ensures var t := ReadStep(s, c, pc, io, treeIo);
      && t == s.(callers := s.callers[c := t.callers[c]])
      && (t.callers[c].Done? || t.callers[c] == Updating(pc.req, pc.auth, pc.intent, true))
      && (t.callers[c].Done? && t.callers[c].outcome.Ok? ==>
            t.callers[c] == Done(pc.req, ResultOf(pc.intent, true)) && Stands(s, pc.intent.ref) == Some(pc.intent.commit))
      && (!(t.callers[c].Done? && t.callers[c].outcome.Err?) ==> IntentMatches(pc.intent, pc.req, pc.auth))
  {
    hide ValueAfter, IntentMatches;
  }

  lemma ReadIsSound(s: State, pc: Caller)
    requires pc.Reading? && CallerOk(s, pc) && IntentMatches(pc.intent, pc.req, pc.auth)
    ensures CallerOk(s, Updating(pc.req, pc.auth, pc.intent, true))
  {
    hide Stood, IntentMatches, Admit;
  }

  lemma IntentOf(s: State, k: Key)
    requires Inv(s) && k in s.intents
    ensures IntentOk(s, k)
  {
  }

  /** What the recorded intent of a matching request names is what was asked for. */
  lemma ResultIsSound(s: State, req: Request, a: Receipt, i: Intent, recovered: bool)
    requires Fits(req, a) && Recorded(s, i) && KeyOf(i) == (req.workflow, req.key) && IntentMatches(i, req, a)
    requires IntentOk(s, KeyOf(i)) && Stood(s, i.ref, i.commit)
    ensures CallerOk(s, Done(req, ResultOf(i, recovered)))
  {
    FitFacts(req, a);
    hide Stood, Admit;
  }

  lemma StoodSame(s: State, t: State)
    requires t.origin == s.origin && t.moves == s.moves
    ensures forall ref, o :: Stood(s, ref, o) <==> Stood(t, ref, o)
  {
    hide ValueAfter;
  }

  lemma LocalKeeps(s: State, a: Action, pc: Caller)
    requires Inv(s) && (a.CommitTree? || a.BeforeUpdate? || a.Crash?)
    requires Step(s, a) == At(s, a.caller, pc) && a.caller in s.callers
    requires !s.callers[a.caller].Done? && !s.callers[a.caller].Crashed?
    requires CallerOk(s, s.callers[a.caller]) ==> CallerOk(s, pc)
    ensures Inv(Step(s, a))
  {
    hide Inv, Admit, CallerOk, Step, Stood;
    CallerOf(s, a.caller);
    StoodSame(s, At(s, a.caller, pc));
    CallerStays(s, At(s, a.caller, pc), pc);
    QuietKeeps(s, At(s, a.caller, pc), a.caller);
  }

  lemma BeginKeeps(s: State, c: nat, req: Request, auth: Receipt, known: bool)
    requires Inv(s) && c !in s.callers
    ensures Inv(Step(s, Begin(c, req, auth, known)))
  {
    hide Inv, Stood;
    QuietKeeps(s, At(s, c, Admit(req, auth, known)), c);
  }

  lemma CrashKeeps(s: State, c: nat)
    requires Inv(s) && c in s.callers && !s.callers[c].Done? && !s.callers[c].Crashed?
    ensures Inv(Step(s, Crash(c)))
  {
    hide Inv, Admit, IntentMatches, Stood;
    LocalKeeps(s, Crash(c), Crashed(s.callers[c].req));
  }

  lemma BuildKeeps(s: State, c: nat, stamp: nat, io: bool)
    requires Inv(s) && c in s.callers && s.callers[c].Building?
    ensures Inv(Step(s, CommitTree(c, stamp, io)))
  {
    hide Inv, Admit, IntentMatches, Stood;
    LocalKeeps(s, CommitTree(c, stamp, io), Step(s, CommitTree(c, stamp, io)).callers[c]);
  }

  lemma HookKeeps(s: State, c: nat, pass: bool)
    requires Inv(s) && c in s.callers && s.callers[c].Gating?
    ensures Inv(Step(s, BeforeUpdate(c, pass)))
  {
    hide Inv, Admit, IntentMatches, Stood;
    LocalKeeps(s, BeforeUpdate(c, pass), Step(s, BeforeUpdate(c, pass)).callers[c]);
  }

  lemma StepKeeps(s: State, a: Action)
    requires Inv(s)
    ensures Inv(Step(s, a))
  {
    hide Inv, CallerOk, Admit;
    if Step(s, a) != s {
      match a
      case Push(ref, dest) => PushKeeps(s, ref, dest);
      case UpdateRef(c, reply) => SwapKeeps(s, c, reply);
      case Begin(c, req, auth, known) => BeginKeeps(s, c, req, auth, known);
      case Lookup(c, misses) => LookupKeeps(s, c, misses);
      case CheckDrift(c, clean, io) => DriftKeeps(s, c, clean, io);
      case PutIntent(c, writable, rereadMisses) => PutKeeps(s, c, writable, rereadMisses);
      case ReadRef(c, io, treeIo) => ReadKeeps(s, c, io, treeIo);
      case CommitTree(c, stamp, io) => BuildKeeps(s, c, stamp, io);
      case BeforeUpdate(c, pass) => HookKeeps(s, c, pass);
      case Crash(c) => CrashKeeps(s, c);
    }
  }

  lemma {:induction false} RunKeeps(s: State, trace: seq<Action>)
    requires Inv(s)
    ensures Inv(Run(s, trace))
  {
    if trace != [] {
      RunKeeps(s, trace[..|trace| - 1]);
      StepKeeps(Run(s, trace[..|trace| - 1]), trace[|trace| - 1]);
    }
  }

  // ------------------------------------------------------------------ theorems

  predicate Over(c: Caller) {
    c.Done? || c.Crashed?
  }

  /** What time can do to a state: the log and the history only grow and a call that is
      over stays as it is. */
  ghost predicate Later(s: State, t: State) {
    && s.origin == t.origin
    && (forall k :: k in s.intents ==> k in t.intents && t.intents[k] == s.intents[k])
    && s.moves <= t.moves
    && (forall c :: c in s.callers ==> c in t.callers)
    && (forall c :: c in s.callers && Over(s.callers[c]) ==> t.callers[c] == s.callers[c])
  }

  lemma CallerLater(s: State, t: State, c: nat)
    requires t.origin == s.origin && s.moves <= t.moves
    requires forall k :: k in s.intents ==> k in t.intents && t.intents[k] == s.intents[k]
    requires c in t.callers && t.callers == s.callers[c := t.callers[c]] && (c in s.callers ==> !Over(s.callers[c]))
    ensures Later(s, t)
  {
  }

  lemma {:induction false} PutLater(s: State, c: nat, writable: bool, rereadMisses: bool)
    requires c in s.callers && s.callers[c].Recording?
    ensures Later(s, Step(s, PutIntent(c, writable, rereadMisses)))
  {
    CallerLater(s, PutStep(s, c, s.callers[c], writable, rereadMisses), c);
  }

  lemma {:induction false} ReadLater(s: State, c: nat, io: bool, treeIo: bool)
    requires c in s.callers && s.callers[c].Reading?
    ensures Later(s, Step(s, ReadRef(c, io, treeIo)))
  {
    hide IntentMatches;
    CallerLater(s, ReadStep(s, c, s.callers[c], io, treeIo), c);
  }

  lemma {:induction false} SwapLater(s: State, c: nat, reply: Reply)
    requires c in s.callers && s.callers[c].Updating?
    ensures Later(s, Step(s, UpdateRef(c, reply)))
  {
    CallerLater(s, SwapRef(s, c, s.callers[c], reply), c);
  }

  lemma {:induction false} LookLater(s: State, c: nat, misses: bool)
    requires c in s.callers && s.callers[c].Looking?
    ensures Later(s, Step(s, Lookup(c, misses)))
  {
    CallerLater(s, LookupStep(s, c, s.callers[c], misses), c);
  }

  lemma {:induction false} DriftLater(s: State, c: nat, clean: bool, io: bool)
    requires c in s.callers && s.callers[c].Drifting?
    ensures Later(s, Step(s, CheckDrift(c, clean, io)))
  {
    CallerLater(s, DriftStep(s, c, s.callers[c], clean, io), c);
  }

  lemma {:induction false} LocalLater(s: State, a: Action)
    requires a.Begin? || a.CommitTree? || a.BeforeUpdate? || a.Crash?
    ensures Later(s, Step(s, a))
  {
    hide Admit;
  }

  lemma {:induction false} StepLater(s: State, a: Action)
    ensures Later(s, Step(s, a))
  {
    hide Admit, IntentMatches, PutSpec;
    match a
    case Push(_, _) =>
    case PutIntent(c, writable, misses) => if c in s.callers && s.callers[c].Recording? { PutLater(s, c, writable, misses); }
    case ReadRef(c, io, treeIo) => if c in s.callers && s.callers[c].Reading? { ReadLater(s, c, io, treeIo); }
    case UpdateRef(c, reply) => if c in s.callers && s.callers[c].Updating? { SwapLater(s, c, reply); }
    case Lookup(c, misses) => if c in s.callers && s.callers[c].Looking? { LookLater(s, c, misses); }
    case CheckDrift(c, clean, io) => if c in s.callers && s.callers[c].Drifting? { DriftLater(s, c, clean, io); }
    case _ => LocalLater(s, a);
  }

  lemma {:induction false} RunLater(s: State, trace: seq<Action>)
    ensures Later(s, Run(s, trace))
  {
    if trace != [] {
      RunLater(s, trace[..|trace| - 1]);
      StepLater(Run(s, trace[..|trace| - 1]), trace[|trace| - 1]);
    }
  }

  ghost predicate Succeeded(s: State, c: nat) {
    c in s.callers && s.callers[c].Done? && s.callers[c].outcome.Ok?
  }

  function Value(s: State, c: nat): Delivered
    requires Succeeded(s, c)
  {
    s.callers[c].outcome.value
  }

  function CallKey(s: State, c: nat): Key
    requires c in s.callers
  {
    (s.callers[c].req.workflow, s.callers[c].req.key)
  }

  lemma SuccessFacts(s: State, c: nat)
    requires Inv(s) && Succeeded(s, c)
    ensures CallKey(s, c) in s.intents
    ensures Value(s, c).commit.Commit? && Value(s, c).commit.parent == s.callers[c].req.candidate.seal.baseCommit
    ensures s.callers[c].outcome == ResultOf(s.intents[CallKey(s, c)], Value(s, c).recovered)
    ensures Stood(s, Value(s, c).ref, Value(s, c).commit) && Delivers(Value(s, c), s.callers[c].req)
  {
    hide Stood;
    assert CallerOk(s, s.callers[c]) && IntentOk(s, CallKey(s, c));
  }

  /** A (workflow, key) pair names one commit forever: whatever happens between two
      successful calls under the same key, both return the same commit, tree, ref
      and receipt. */
  lemma KeyNamesOneCommit(refs: map<string, Oid>, before: seq<Action>, between: seq<Action>, c: nat, d: nat)
    requires Succeeded(Run(Initial(refs), before), c)
    requires Succeeded(Run(Run(Initial(refs), before), between), d)
    requires CallKey(Run(Initial(refs), before), c) == CallKey(Run(Run(Initial(refs), before), between), d)
    ensures Value(Run(Initial(refs), before), c).(recovered := true)
         == Value(Run(Run(Initial(refs), before), between), d).(recovered := true)
  {
    var s := Run(Initial(refs), before);
    var t := Run(s, between);
    InitialHolds(refs);
    RunKeeps(Initial(refs), before);
    RunKeeps(s, between);
    RunLater(s, between);
    SuccessFacts(s, c);
    SuccessFacts(t, d);
  }

  /** The gate moves a ref only from the sealed base to a commit on top of it that carries the
      tree of the receipt the caller held and that the intent under the caller's key names. */
  lemma GateMovesToChild(refs: map<string, Oid>, trace: seq<Action>, i: nat)
    requires i < |Run(Initial(refs), trace).moves| && Run(Initial(refs), trace).moves[i].mover.Deliverer?
    ensures var s := Run(Initial(refs), trace);
      var m := s.moves[i];
      && m.mover.key in s.intents && m.ref == s.intents[m.mover.key].ref
      && m.from == Some(s.intents[m.mover.key].base) && m.dest == Some(s.intents[m.mover.key].commit)
      && m.dest.value.Commit? && m.dest.value.parent == m.from.value && m.dest.value.tree == m.mover.receipt.tree
  {
    var s := Run(Initial(refs), trace);
    InitialHolds(refs);
    RunKeeps(Initial(refs), trace);
    assert MoveOk(s, s.moves[i]) && IntentOk(s, s.moves[i].mover.key);
  }

  // ---------------------------------------------------- when a ref is left again

  /** A move by others that does not take the ref back. */
  predicate Forward(m: Move) {
    m.dest.Some? && (m.from.None? || m.dest == m.from || Descends(m.dest.value, m.from.value))
  }

  /** Between `i` and `j` somebody else took the ref back. */
  ghost predicate Rewound(moves: seq<Move>, ref: string, i: nat, j: nat) {
    exists k :: i <= k < j && k < |moves| && moves[k].ref == ref && moves[k].mover.Others? && !Forward(moves[k])
  }

  /** Between `i` and `j` a move put the ref at `v`. */
  ghost predicate PutAt(moves: seq<Move>, ref: string, v: Option<Oid>, i: nat, j: nat) {
    exists k :: i <= k < j && k < |moves| && moves[k].ref == ref && moves[k].dest == v
  }

  function Rank(o: Option<Oid>): nat {
    if o.None? then 0 else Generation(o.value) + 1
  }

  lemma DescendsGrows(o: Oid, from: Oid)
    requires Descends(o, from)
    ensures Generation(from) < Generation(o)
  {
  }

  lemma OneMoveGrows(s: State, k: nat)
    requires Inv(s) && k < |s.moves| && (s.moves[k].mover.Others? ==> Forward(s.moves[k]))
    ensures Rank(s.moves[k].from) <= Rank(s.moves[k].dest)
    ensures Rank(s.moves[k].from) == Rank(s.moves[k].dest) ==> s.moves[k].from == s.moves[k].dest
    ensures s.moves[k].mover.Deliverer? ==> Rank(s.moves[k].from) < Rank(s.moves[k].dest)
  {
    var m := s.moves[k];
    assert MoveOk(s, m);
    if m.mover.Others? && m.from.Some? && m.dest != m.from {
      DescendsGrows(m.dest.value, m.from.value);
    }
  }

  lemma ValueSnoc(origin: map<string, Oid>, moves: seq<Move>, ref: string, j: nat)
    requires j < |moves|
    ensures ValueAfter(origin, moves[..j + 1], ref) == if moves[j].ref == ref then moves[j].dest else ValueAfter(origin, moves[..j], ref)
  {
    assert moves[..j + 1][..j] == moves[..j];
  }

  /** While nobody takes the ref back it only climbs. */
  lemma {:induction false} OnlyClimbs(s: State, ref: string, i: nat, j: nat)
    requires Inv(s) && i <= j <= |s.moves| && !Rewound(s.moves, ref, i, j)
    ensures var v, w := ValueAfter(s.origin, s.moves[..i], ref), ValueAfter(s.origin, s.moves[..j], ref);
      Rank(v) <= Rank(w) && (Rank(v) == Rank(w) ==> v == w)
    decreases j - i
  {
    hide MoveOk, IntentOk, CallerOk, Forward, Rank;
    if i < j {
      assert !Rewound(s.moves, ref, i, j - 1);
      OnlyClimbs(s, ref, i, j - 1);
      ValueSnoc(s.origin, s.moves, ref, j - 1);
      if s.moves[j - 1].ref == ref {
        OneMoveGrows(s, j - 1);
      }
    }
  }

  lemma {:induction false} ArrivesByAMove(s: State, ref: string, v: Option<Oid>, i: nat, j: nat)
    requires i <= j <= |s.moves| && ValueAfter(s.origin, s.moves[..i], ref) != v && !PutAt(s.moves, ref, v, i, j)
    ensures ValueAfter(s.origin, s.moves[..j], ref) != v
    decreases j - i
  {
    if i < j {
      assert !PutAt(s.moves, ref, v, i, j - 1);
      ArrivesByAMove(s, ref, v, i, j - 1);
      ValueSnoc(s.origin, s.moves, ref, j - 1);
    }
  }

  /** The gate leaves a sealed base that it has left before only after the ref was put back
      there, and that took somebody else to take the ref back. */
  lemma BaseIsLeftAgain(refs: map<string, Oid>, trace: seq<Action>, i: nat, j: nat)
    requires var moves := Run(Initial(refs), trace).moves;
      i < j < |moves| && moves[i].mover.Deliverer? && moves[i].ref == moves[j].ref && moves[i].from == moves[j].from
    ensures var moves := Run(Initial(refs), trace).moves;
      PutAt(moves, moves[i].ref, moves[i].from, i + 1, j) && Rewound(moves, moves[i].ref, i + 1, j)
  {
    var s := Run(Initial(refs), trace);
    InitialHolds(refs);
    RunKeeps(Initial(refs), trace);
    var m := s.moves[i];
    ValueSnoc(s.origin, s.moves, m.ref, i);
    OneMoveGrows(s, i);
    hide MoveOk, IntentOk, CallerOk, Rank;
    if !PutAt(s.moves, m.ref, m.from, i + 1, j) {
      ArrivesByAMove(s, m.ref, m.from, i + 1, j);
    }
    if !Rewound(s.moves, m.ref, i + 1, j) {
      OnlyClimbs(s, m.ref, i + 1, j);
    }
  }

  /** Under one key the gate moves a ref a second time only after somebody else has taken the
      ref back and it stands at the sealed base again. */
  lemma KeyMovesAgain(refs: map<string, Oid>, trace: seq<Action>, i: nat, j: nat)
    requires var moves := Run(Initial(refs), trace).moves;
      && i < j < |moves| && moves[i].mover.Deliverer? && moves[j].mover.Deliverer? && moves[i].mover.key == moves[j].mover.key
    ensures var moves := Run(Initial(refs), trace).moves;
      PutAt(moves, moves[i].ref, moves[i].from, i + 1, j) && Rewound(moves, moves[i].ref, i + 1, j)
  {
    GateMovesToChild(refs, trace, i);
    GateMovesToChild(refs, trace, j);
    BaseIsLeftAgain(refs, trace, i, j);
  }

  lemma BothStood(s: State, ref: string, i: nat, j: nat, a: Oid, b: Oid)
    requires Inv(s) && i <= j <= |s.moves| && Generation(a) == Generation(b)
    requires ValueAfter(s.origin, s.moves[..i], ref) == Some(a) && ValueAfter(s.origin, s.moves[..j], ref) == Some(b)
    ensures a == b || Rewound(s.moves, ref, i, j)
  {
    if !Rewound(s.moves, ref, i, j) {
      OnlyClimbs(s, ref, i, j);
    }
  }

  /** Calls with equal or different keys sealed on the same base of the same ref deliver the
      same commit, unless somebody else took the ref back. */
  lemma OneDeliveryPerBase(refs: map<string, Oid>, trace: seq<Action>, c: nat, d: nat)
    requires Succeeded(Run(Initial(refs), trace), c) && Succeeded(Run(Initial(refs), trace), d)
    requires Value(Run(Initial(refs), trace), c).ref == Value(Run(Initial(refs), trace), d).ref
    requires Run(Initial(refs), trace).callers[c].req.candidate.seal.baseCommit
          == Run(Initial(refs), trace).callers[d].req.candidate.seal.baseCommit
    ensures var s := Run(Initial(refs), trace);
      Value(s, c).commit == Value(s, d).commit || Rewound(s.moves, Value(s, c).ref, 0, |s.moves|)
  {
    var s := Run(Initial(refs), trace);
    InitialHolds(refs);
    RunKeeps(Initial(refs), trace);
    SuccessFacts(s, c);
    SuccessFacts(s, d);
    hide Inv, ValueAfter, Run, Forward;
    var a, b, ref := Value(s, c).commit, Value(s, d).commit, Value(s, c).ref;
    assert Generation(a) == Generation(b);
    hide Generation;
    var i :| 0 <= i <= |s.moves| && ValueAfter(s.origin, s.moves[..i], ref) == Some(a);
    var j :| 0 <= j <= |s.moves| && ValueAfter(s.origin, s.moves[..j], ref) == Some(b);
    if i <= j {
      BothStood(s, ref, i, j, a, b);
    } else {
      BothStood(s, ref, j, i, b, a);
    }
  }

  // ------------------------------------------------------------- what a retry does

  /** One call by itself under a key that has an intent, everything readable. */
  function RetryTrace(c: nat, req: Request, a: Receipt): seq<Action> {
    [Begin(c, req, a, true), Lookup(c, false), ReadRef(c, true, true), UpdateRef(c, Answered)]
  }

  lemma RunSnoc(s: State, trace: seq<Action>, a: Action)
    ensures Run(s, trace + [a]) == Step(Run(s, trace), a)
  {
    assert (trace + [a])[..|trace|] == trace;
  }

  lemma RunFour(s: State, a: Action, b: Action, c: Action, d: Action)
    ensures Run(s, [a, b, c, d]) == Step(Step(Step(Step(s, a), b), c), d)
  {
    hide Step;
    RunSnoc(s, [], a);
    RunSnoc(s, [a], b);
    RunSnoc(s, [a, b], c);
    RunSnoc(s, [a, b, c], d);
    assert [] + [a] == [a] && [a] + [b] == [a, b] && [a, b] + [c] == [a, b, c] && [a, b, c] + [d] == [a, b, c, d];
  }

  lemma RunThree(s: State, a: Action, b: Action, c: Action)
    ensures Run(s, [a, b, c]) == Step(Step(Step(s, a), b), c)
  {
    hide Step;
    RunSnoc(s, [], a);
    RunSnoc(s, [a], b);
    RunSnoc(s, [a, b], c);
    assert [] + [a] == [a] && [a] + [b] == [a, b] && [a, b] + [c] == [a, b, c];
  }

  lemma RetryLooks(s: State, c: nat, req: Request, a: Receipt)
    requires c !in s.callers && Fits(req, a) && (req.workflow, req.key) in s.intents
    ensures Step(Step(s, Begin(c, req, a, true)), Lookup(c, false))
         == At(s, c, Reading(req, a, s.intents[(req.workflow, req.key)]))
  {
    hide Admit;
    var t := Step(s, Begin(c, req, a, true));
    assert Admit(req, a, true) == Looking(req, a);
    assert t.callers[c] == Looking(req, a);
    assert Step(t, Lookup(c, false)).callers == At(s, c, Reading(req, a, s.intents[(req.workflow, req.key)])).callers;
  }

  /** A retry that matches the recorded intent returns that very commit, and it moves the ref
      exactly if the ref stands at the sealed base; anywhere else it fails and changes nothing. */
  lemma RetryDecides(s: State, c: nat, req: Request, a: Receipt)
    requires Inv(s) && c !in s.callers && Admissible(req, a)
    requires (req.workflow, req.key) in s.intents && SameIntent(s.intents[(req.workflow, req.key)], req, a)
    ensures var i, t := s.intents[(req.workflow, req.key)], Run(s, RetryTrace(c, req, a));
      && (t.moves != s.moves <==> Stands(s, i.ref) == Some(i.base))
      && (t.moves != s.moves ==> t.moves == s.moves + [Move(i.ref, Some(i.base), Some(i.commit), Deliverer(c, KeyOf(i), a))])
      && c in t.callers && t.callers[c].Done?
      && (t.callers[c].outcome.Ok? <==> Stands(s, i.ref) == Some(i.base) || Stands(s, i.ref) == Some(i.commit))
      && (t.callers[c].outcome.Ok? ==>
            t.callers[c].outcome == Ok(Delivered(i.commit, i.tree, i.ref, i.receipt, true)) && Delivers(t.callers[c].outcome.value, req))
  {
    AdmissionDecides(req, a, true);
    var i := s.intents[(req.workflow, req.key)];
    assert IntentOk(s, (req.workflow, req.key));
    hide Inv, Admit, IntentMatches, Run, ValueAfter, Step, ReadStep, SwapRef;
    RunFour(s, Begin(c, req, a, true), Lookup(c, false), ReadRef(c, true, true), UpdateRef(c, Answered));
    RetryLooks(s, c, req, a);
    var u := At(s, c, Reading(req, a, i));
    SameStands(s, u);
    ReadDecides(u, c, req, a, i);
    hide RetryTrace;
  }

  lemma ReadDecides(s: State, c: nat, req: Request, a: Receipt, i: Intent)
    requires c in s.callers && s.callers[c] == Reading(req, a, i) && IntentMatches(i, req, a)
    requires i.commit.Commit? && i.commit.tree == i.tree && i.commit.parent == i.base
    ensures var t := Step(Step(s, ReadRef(c, true, true)), UpdateRef(c, Answered));
      && (t.moves != s.moves <==> Stands(s, i.ref) == Some(i.base))
      && (t.moves != s.moves ==> t.moves == s.moves + [Move(i.ref, Some(i.base), Some(i.commit), Deliverer(c, KeyOf(i), a))])
      && c in t.callers && t.callers[c].Done?
      && (t.callers[c].outcome.Ok? <==> Stands(s, i.ref) == Some(i.base) || Stands(s, i.ref) == Some(i.commit))
      && (t.callers[c].outcome.Ok? ==> t.callers[c].outcome == ResultOf(i, true))
  {
    hide IntentMatches, ValueAfter;
    var v := Step(s, ReadRef(c, true, true));
    SameStands(s, v);
  }

  lemma SameStands(s: State, t: State)
    requires t.origin == s.origin && t.moves == s.moves
    ensures forall ref :: Stands(s, ref) == Stands(t, ref)
  {
  }

  /** One call by itself under a new key on a clean worktree. */
  function FirstTrace(c: nat, req: Request, a: Receipt, stamp: nat): seq<Action> {
    [Begin(c, req, a, true), Lookup(c, false), CheckDrift(c, true, true), CommitTree(c, stamp, true)]
  }

  function LastTrace(c: nat): seq<Action> {
    [PutIntent(c, true, false), BeforeUpdate(c, true), UpdateRef(c, Answered)]
  }

  lemma AtTwice(s: State, c: nat, before: Caller, after: Caller)
    ensures At(At(s, c, before), c, after) == At(s, c, after)
  {
    assert s.callers[c := before][c := after] == s.callers[c := after];
  }

  lemma FirstLooks(s: State, c: nat, req: Request, a: Receipt)
    requires c !in s.callers && Fits(req, a) && (req.workflow, req.key) !in s.intents
    ensures Step(Step(s, Begin(c, req, a, true)), Lookup(c, false)) == At(s, c, Drifting(req, a))
  {
    hide Admit;
    assert Admit(req, a, true) == Looking(req, a);
    AtTwice(s, c, Looking(req, a), Drifting(req, a));
  }

  lemma FirstBuilds(s: State, c: nat, req: Request, a: Receipt, stamp: nat)
    requires c !in s.callers && Fits(req, a) && (req.workflow, req.key) !in s.intents
    requires Stands(s, req.candidate.seal.baseRef) == Some(req.candidate.seal.baseCommit)
    ensures Run(s, FirstTrace(c, req, a, stamp)) == At(s, c, Recording(req, a, BuildCommit(req, stamp)))
  {
    hide Admit, ValueAfter, Run, Fits;
    RunFour(s, Begin(c, req, a, true), Lookup(c, false), CheckDrift(c, true, true), CommitTree(c, stamp, true));
    FirstLooks(s, c, req, a);
    var u := At(s, c, Drifting(req, a));
    SameStands(s, u);
    AtTwice(s, c, Drifting(req, a), Building(req, a));
    AtTwice(s, c, Building(req, a), Recording(req, a, BuildCommit(req, stamp)));
  }

  lemma LastMoves(s: State, c: nat, req: Request, a: Receipt, oid: Oid)
    requires c in s.callers && s.callers[c] == Recording(req, a, oid) && (req.workflow, req.key) !in s.intents
    requires Stands(s, req.candidate.seal.baseRef) == Some(req.candidate.seal.baseCommit)
    ensures var i, t := NewIntent(req, a, oid), Run(s, LastTrace(c));
      && t.intents == s.intents[KeyOf(i) := i] && t.callers.Keys == s.callers.Keys
      && t.moves == s.moves + [Move(i.ref, Some(i.base), Some(i.commit), Deliverer(c, KeyOf(i), a))]
  {
    hide ValueAfter, Run;
    var i := NewIntent(req, a, oid);
    RunThree(s, PutIntent(c, true, false), BeforeUpdate(c, true), UpdateRef(c, Answered));
    var t := Step(s, PutIntent(c, true, false));
    assert t == At(s, c, Gating(req, a, i)).(intents := s.intents[KeyOf(i) := i]);
    var u := Step(t, BeforeUpdate(c, true));
    assert u == At(s, c, Updating(req, a, i, false)).(intents := s.intents[KeyOf(i) := i]);
    SameStands(s, u);
  }

  lemma {:induction false} RunTwice(s: State, first: seq<Action>, second: seq<Action>)
    ensures Run(s, first + second) == Run(Run(s, first), second)
  {
    if second == [] {
      assert first + second == first;
    } else {
      var n := |second| - 1;
      RunTwice(s, first, second[..n]);
      assert (first + second)[..|first + second| - 1] == first + second[..n];
    }
  }

  /** Without the provision the promise fails, for every admissible request: deliver, let
      somebody put the ref back at the sealed base, retry, and the gate has moved the ref
      twice under one key. */
  lemma ResetDeliversTwice(refs: map<string, Oid>, req: Request, a: Receipt, stamp: nat)
    requires Fits(req, a) && ValueIn(refs, req.candidate.seal.baseRef) == Some(req.candidate.seal.baseCommit)
    ensures exists trace :: MovedTwice(Run(Initial(refs), trace).moves, (req.workflow, req.key))
  {
    var seal := req.candidate.seal;
    var first := FirstTrace(0, req, a, stamp) + LastTrace(0) + [Push(seal.baseRef, Some(seal.baseCommit))];
    DeliverAndReset(refs, req, a, stamp);
    RunKeeps(Initial(refs), first);
    RunTwice(Initial(refs), first, RetryTrace(1, req, a));
    FitFacts(req, a);
    hide Run, Step, Admit, ValueAfter, Inv, RetryTrace, FirstTrace, LastTrace;
    var v := Run(Initial(refs), first);
    RetryDecides(v, 1, req, a);
    var w := Run(v, RetryTrace(1, req, a));
    assert w.moves[0] == v.moves[0] && MovedBy(w.moves[0], (req.workflow, req.key)) && MovedBy(w.moves[2], (req.workflow, req.key));
  }

  lemma DeliverAndReset(refs: map<string, Oid>, req: Request, a: Receipt, stamp: nat)
    requires Fits(req, a) && ValueIn(refs, req.candidate.seal.baseRef) == Some(req.candidate.seal.baseCommit)
    ensures var seal := req.candidate.seal;
      var v := Run(Initial(refs), FirstTrace(0, req, a, stamp) + LastTrace(0) + [Push(seal.baseRef, Some(seal.baseCommit))]);
      && v.callers.Keys == {0} && Inv(Initial(refs))
      && v.intents == map[(req.workflow, req.key) := NewIntent(req, a, BuildCommit(req, stamp))]
      && |v.moves| == 2 && MovedBy(v.moves[0], (req.workflow, req.key))
      && Stands(v, seal.baseRef) == Some(seal.baseCommit)
      && IntentMatches(NewIntent(req, a, BuildCommit(req, stamp)), req, a)
  {
    var s, seal := Initial(refs), req.candidate.seal;
    InitialHolds(refs);
    FitFacts(req, a);
    FirstBuilds(s, 0, req, a, stamp);
    hide Run, Step, Admit, ValueAfter, Inv, FirstTrace, LastTrace;
    var t := Run(s, FirstTrace(0, req, a, stamp));
    SameStands(s, t);
    LastMoves(t, 0, req, a, BuildCommit(req, stamp));
    var u := Run(t, LastTrace(0));
    RunTwice(s, FirstTrace(0, req, a, stamp), LastTrace(0));
    RunSnoc(s, FirstTrace(0, req, a, stamp) + LastTrace(0), Push(seal.baseRef, Some(seal.baseCommit)));
    PushedBack(u, Step(u, Push(seal.baseRef, Some(seal.baseCommit))), seal.baseRef, Some(seal.baseCommit));
  }

  ghost predicate MovedTwice(moves: seq<Move>, key: Key) {
    exists i, j :: 0 <= i < j < |moves| && MovedBy(moves[i], key) && MovedBy(moves[j], key)
  }

  predicate MovedBy(m: Move, key: Key) {
    m.mover.Deliverer? && m.mover.key == key
  }

  lemma PushedBack(u: State, v: State, ref: string, dest: Option<Oid>)
    requires v == Step(u, Push(ref, dest))
    ensures Stands(v, ref) == dest && v.intents == u.intents && v.callers == u.callers
    ensures |v.moves| == |u.moves| + 1 && u.moves <= v.moves
  {
    MoveAdded(u, v, Move(ref, Stands(u, ref), dest, Others));
  }

  // ------------------------------------------------- what a failed call has done

  ghost predicate Moved(s: State, c: nat) {
    exists k :: 0 <= k < |s.moves| && s.moves[k].mover.Deliverer? && s.moves[k].mover.caller == c
  }

  /** At step `n` caller `c` swapped the ref, whatever it was told about it. */
  ghost predicate SwappedAt(s: State, trace: seq<Action>, c: nat, n: nat, reply: Reply) {
    n < |trace| && trace[n] == UpdateRef(c, reply) && reply != Refused && CanSwap(Run(s, trace[..n]), c)
  }

  lemma StepMoves(s: State, a: Action, c: nat)
    ensures Moved(Step(s, a), c) <==> Moved(s, c) || exists reply :: a == UpdateRef(c, reply) && reply != Refused && CanSwap(s, c)
  {
    hide Admit, IntentMatches, PutSpec, ValueAfter;
    var t := Step(s, a);
    assert s.moves <= t.moves && |t.moves| <= |s.moves| + 1 by {
      StepGrows(s, a);
    }
    forall k | 0 <= k < |s.moves|
      ensures t.moves[k] == s.moves[k]
    {
    }
    if a.UpdateRef? && a.caller == c && a.reply != Refused && CanSwap(s, c) {
      assert t.moves[|s.moves|] == SwapMove(s, c);
    }
    if t.moves != s.moves && t.moves[|s.moves|].mover.Deliverer? {
      NewMoveIsASwap(s, a);
    }
  }

  lemma StepGrows(s: State, a: Action)
    ensures s.moves <= Step(s, a).moves && |Step(s, a).moves| <= |s.moves| + 1
  {
    hide Admit, IntentMatches, PutSpec, ValueAfter;
  }

  lemma NewMoveIsASwap(s: State, a: Action)
    requires Step(s, a).moves != s.moves && |Step(s, a).moves| == |s.moves| + 1 && Step(s, a).moves[|s.moves|].mover.Deliverer?
    ensures a.UpdateRef? && a.reply != Refused && CanSwap(s, a.caller) && Step(s, a).moves[|s.moves|].mover.caller == a.caller
  {
    hide Admit, IntentMatches, PutSpec, ValueAfter;
  }

  /** A call has moved a ref exactly if it made the swap while the ref stood at its base. */
  lemma {:induction false} MovedBySwap(s: State, trace: seq<Action>, c: nat)
    requires s.moves == []
    ensures Moved(Run(s, trace), c) <==> exists n, reply :: SwappedAt(s, trace, c, n, reply)
  {
    if trace != [] {
      var n := |trace| - 1;
      MovedBySwap(s, trace[..n], c);
      StepMoves(Run(s, trace[..n]), trace[n], c);
      hide *;
      SwappedSnoc(s, trace, c);
      LastRun(s, trace);
    }
  }

  lemma LastRun(s: State, trace: seq<Action>)
    requires trace != []
    ensures Run(s, trace) == Step(Run(s, trace[..|trace| - 1]), trace[|trace| - 1])
  {
  }

  lemma SwappedSnoc(s: State, trace: seq<Action>, c: nat)
    requires trace != []
    ensures var n := |trace| - 1;
      (exists k, reply :: SwappedAt(s, trace, c, k, reply)) <==>
        (exists k, reply :: SwappedAt(s, trace[..n], c, k, reply))
        || exists reply :: trace[n] == UpdateRef(c, reply) && reply != Refused && CanSwap(Run(s, trace[..n]), c)
  {
    hide Run, CanSwap;
    var n := |trace| - 1;
    var before := trace[..n];
    forall k: nat, reply
      ensures SwappedAt(s, before, c, k, reply) <==> SwappedAt(s, trace, c, k, reply) && k < n
    {
      if k < n {
        assert before[..k] == trace[..k];
      }
    }
    if reply :| trace[n] == UpdateRef(c, reply) && reply != Refused && CanSwap(Run(s, before), c) {
      assert SwappedAt(s, trace, c, n, reply);
    }
  }

  lemma SwapEnds(s: State, trace: seq<Action>, c: nat, n: nat, reply: Reply)
    requires SwappedAt(s, trace, c, n, reply)
    ensures var t := Run(s, trace);
      c in t.callers && Over(t.callers[c]) && (t.callers[c].Done? && t.callers[c].outcome.Err? ==> reply == Lost)
  {
    hide Run, Admit, IntentMatches, ValueAfter;
    var u := Run(s, trace[..n]);
    var v := Step(u, trace[n]);
    RunSnoc(s, trace[..n], trace[n]);
    assert trace[..n] + [trace[n]] == trace[..n + 1];
    RunTwice(s, trace[..n + 1], trace[n + 1..]);
    assert trace[..n + 1] + trace[n + 1..] == trace;
    RunLater(v, trace[n + 1..]);
    assert Over(v.callers[c]);
  }

  /** A call that reported an error has moved a ref exactly if it made the swap and lost the
      reply; then the commit of its key is in place and a retry returns it. */
  lemma FailedCallMoved(refs: map<string, Oid>, trace: seq<Action>, c: nat)
    requires var s := Run(Initial(refs), trace); c in s.callers && s.callers[c].Done? && s.callers[c].outcome.Err?
    ensures Moved(Run(Initial(refs), trace), c) <==> exists n :: SwappedAt(Initial(refs), trace, c, n, Lost)
  {
    MovedBySwap(Initial(refs), trace, c);
    hide Run, SwappedAt;
    if n, reply :| SwappedAt(Initial(refs), trace, c, n, reply) {
      SwapEnds(Initial(refs), trace, c, n, reply);
    }
  }

  /** Wherever a call can swap, the reply can be lost: the ref is at the new commit and the
      caller is told of a conflict. */
  lemma LostReplyMoves(s: State, c: nat)
    requires Inv(s) && CanSwap(s, c)
    ensures var t := Step(s, UpdateRef(c, Lost));
      && Stands(t, s.callers[c].intent.ref) == Some(s.callers[c].intent.commit)
      && t.callers[c] == Done(s.callers[c].req, Err(RefConflict)) && Moved(t, c)
  {
    hide ValueAfter, Inv;
    SwapMoves(s, c, Lost);
    var t := Step(s, UpdateRef(c, Lost));
    MoveAdded(s, t, SwapMove(s, c));
    assert t.moves[|s.moves|] == SwapMove(s, c);
  }

  // ------------------------------------------------------------------ the gate

  /** How the outside world answers one call: reads and writes that fail, the commit
      clock, the worktree check and the hook before the ref update. */
  datatype World =
    World(getMisses: bool, driftReadable: bool, worktreeClean: bool, stamp: nat, commitBuilt: bool, intentWritable: bool,
          rereadMisses: bool, hookPasses: bool, refReadable: bool, treeReadable: bool, reply: Reply)

  /** Where a call stands that returned, or that died in its last step. */
  function Ended(req: Request, r: Outcome, died: bool): Caller {
    if died then Crashed(req) else Done(req, r)
  }

  /** Nothing stopped a call that delivers for the first time. */
  predicate AllPassed(w: World) {
    && w.driftReadable && w.worktreeClean && w.commitBuilt && w.intentWritable && w.hookPasses && w.reply == Answered
  }

  /** A retry has read the ref, and either found the commit there or been told of the swap. */
  predicate Confirmed(w: World) {
    w.refReadable && (w.treeReadable || w.reply == Answered)
  }

  /** The intent on record was written for just this request. */
  predicate SameIntent(i: Intent, req: Request, a: Receipt) {
    && i.candidate == req.candidate.id && i.tree == req.candidate.tree && i.receipt == a.id
    && i.message == req.message && i.author == req.author && i.email == req.email
  }

  predicate By(a: Action, c: nat) {
    !a.Push? && a.caller == c
  }

  /** What call `c` does after it was admitted, with the answers of `w`. */
  predicate Replies(a: Action, c: nat, w: World) {
    By(a, c) ==>
      || a == Lookup(c, w.getMisses)
      || a == CheckDrift(c, w.worktreeClean, w.driftReadable)
      || a == CommitTree(c, w.stamp, w.commitBuilt)
      || a == PutIntent(c, w.intentWritable, w.rereadMisses)
      || a == BeforeUpdate(c, w.hookPasses)
      || a == ReadRef(c, w.refReadable, w.treeReadable)
      || a == UpdateRef(c, w.reply)
  }

  lemma RepliesToRead(c: nat, w: World)
    ensures Replies(ReadRef(c, w.refReadable, w.treeReadable), c, w)
  {
  }

  lemma OthersLeaveAlone(s: State, a: Action, c: nat)
    requires !By(a, c)
    ensures c in Step(s, a).callers <==> c in s.callers
    ensures c in s.callers ==> Step(s, a).callers[c] == s.callers[c]
  {
    hide Admit, IntentMatches, PutSpec, SwapRef, DriftStep, PutStep, ReadStep, LookupStep;
  }

  lemma StepRefs(s: State, a: Action)
    ensures Step(s, a).origin == s.origin
    ensures |Step(s, a).moves| == |s.moves| ==> Step(s, a).moves == s.moves
    ensures |Step(s, a).moves| > |s.moves| ==> Step(s, a).moves == s.moves + [Step(s, a).moves[|s.moves|]]
  {
    StepGrows(s, a);
    hide Admit, IntentMatches, PutSpec, ValueAfter;
  }

  lemma OtherRefsStay(s: State, t: State, m: Move)
    requires t.origin == s.origin && t.moves == s.moves + [m]
    ensures forall ref :: Stands(t, ref) == if ref == m.ref then m.dest else Stands(s, ref)
  {
    assert t.moves[..|s.moves|] == s.moves;
  }

  /** One repository with its intent log. `model` follows every effect on them as a
      step of the protocol, so a call of `Commit` is one caller of a run. */
  class Gate {
    const store: SqliteIntentStore
    var refs: map<string, Oid>
    const origin: map<string, Oid>
    var model: State
    var trace: seq<Action>

    ghost predicate Valid()
      reads this, store
    {
      && model == Run(Initial(origin), trace)
      && (forall ref :: ValueIn(refs, ref) == Stands(model, ref)) && model.intents == store.rows
    }

    /** Since position `n` of the trace call `c` acted as the world answered it. */
    ghost predicate Honest(n: nat, c: nat, w: World)
      reads this
    {
      n <= |trace| && forall k :: n <= k < |trace| ==> Replies(trace[k], c, w)
    }

    constructor (refs: map<string, Oid>)
      ensures Valid() && trace == [] && this.refs == refs && fresh(store)
    {
      var s := new SqliteIntentStore;
      s.rows := map[];
      store := s;
      this.refs := refs;
      origin := refs;
      model := Initial(refs);
      trace := [];
    }

    method Act(a: Action)
      requires model == Run(Initial(origin), trace)
      modifies this`model, this`trace
      ensures model == Step(old(model), a) && trace == old(trace) + [a] && model == Run(Initial(origin), trace)
    {
      trace := trace + [a];
      model := Step(model, a);
      assert trace[..|trace| - 1] == old(trace);
    }

    /** Somebody else's effect happens to the refs and to the store. */
    method Follow(a: Action)
      requires Valid()
      modifies this, store
      ensures Valid() && model == Step(old(model), a) && trace == old(trace) + [a]
    {
      hide Run, Step, ValueAfter;
      var n := |model.moves|;
      ghost var before := model;
      StepGrows(model, a);
      StepRefs(model, a);
      Act(a);
      if |model.moves| > n {
        var m := model.moves[n];
        refs := if m.dest.Some? then refs[m.ref := m.dest.value] else refs - {m.ref};
        MoveAdded(before, model, m);
        OtherRefsStay(before, model, m);
      } else {
        SameStands(before, model);
      }
      store.rows := model.intents;
    }

    /** Between two effects of call `c` the other callers and pushers take any number
        of steps. Call `c` stands afterwards where it stood. */
    method Interfere(c: nat, ghost w: World)
      requires Valid()
      modifies this, store
      ensures Valid() && old(trace) <= trace && Honest(|old(trace)|, c, w)
      ensures c in old(model).callers <==> c in model.callers
      ensures c in model.callers ==> model.callers[c] == old(model).callers[c]
    {
      var others: seq<Action> := *;
      for i := 0 to |others|
        invariant Valid() && old(trace) <= trace && Honest(|old(trace)|, c, w)
        invariant c in old(model).callers <==> c in model.callers
        invariant c in model.callers ==> model.callers[c] == old(model).callers[c]
      {
        if !By(others[i], c) {
          OthersLeaveAlone(model, others[i], c);
          Follow(others[i]);
        }
      }
    }

    method Commit(c: nat, req: Request, authority: Receipt, authorityKnown: bool, world: World)
      returns (r: Outcome, died: bool)
      requires Valid() && c !in model.callers
      modifies this, store
      ensures Valid() && old(trace) + [Begin(c, req, authority, authorityKnown)] <= trace
      ensures Honest(|old(trace)| + 1, c, world)
      ensures c in model.callers && model.callers[c] == Ended(req, r, died)
      ensures !died && r.Ok? ==>
        (req.workflow, req.key) in store.rows && r == ResultOf(store.rows[(req.workflow, req.key)], r.value.recovered)
      ensures !died && r.Ok? ==> Delivers(r.value, req) && authorityKnown && Admissible(req, authority)
      ensures died ==> world.reply == Died
      ensures !died && r.Ok? ==> if r.value.recovered then !world.getMisses && Confirmed(world) else AllPassed(world)
      ensures !authorityKnown || !Admissible(req, authority) ==>
        !died && r.Err? && Admit(req, authority, authorityKnown) == Done(req, r)
    {
      hide Run, Admit, ResultOf, Delivers, Admissible, AllPassed, Confirmed, Replies;
      var refused, why := Refuse(req, authority, authorityKnown);
      Act(Begin(c, req, authority, authorityKnown));
      if refused {
        return Err(why), false;
      }
      Interfere(c, world);
      var found, previous := LookUp(c, req, authority, world);
      Interfere(c, world);
      if found {
        r, died := Recover(c, req, authority, previous, world);
      } else {
        r, died := Deliver(c, req, authority, world);
      }
      if !died {
        NameTheCommit(c, req, r);
      }
    }

    lemma NameTheCommit(c: nat, req: Request, r: Outcome)
      requires Valid() && c in model.callers && model.callers[c] == Done(req, r)
      ensures r.Ok? ==> (req.workflow, req.key) in store.rows
                        && r == ResultOf(store.rows[(req.workflow, req.key)], r.value.recovered)
                        && Delivers(r.value, req)
    {
      InitialHolds(origin);
      RunKeeps(Initial(origin), trace);
      if r.Ok? {
        SuccessFacts(model, c);
      }
    }

    method LookUp(c: nat, req: Request, ghost a: Receipt, world: World) returns (found: bool, i: Intent)
      requires Valid() && c in model.callers && model.callers[c] == Looking(req, a)
      modifies this`model, this`trace
      ensures Valid() && old(trace) <= trace && Honest(|old(trace)|, c, world) && c in model.callers
      ensures model.callers[c] == if found then Reading(req, a, i) else Drifting(req, a)
      ensures found ==> !world.getMisses
    {
      found, i := store.Get(req.workflow, req.key, world.getMisses);
      Act(Lookup(c, world.getMisses));
    }

    method Refuse(req: Request, a: Receipt, authorityKnown: bool) returns (refused: bool, why: Error)
      ensures refused ==> Admit(req, a, authorityKnown) == Done(req, Err(why))
      ensures !refused ==> Admit(req, a, authorityKnown) == Looking(req, a)
      ensures refused <==> !authorityKnown || !Admissible(req, a)
    {
      var candidate := req.candidate;
      if req.key == "" || req.message == "" {
        return true, Incomplete;
      }
      if !authorityKnown {
        return true, InvalidAuthority;
      }
      if a.id != req.receipt || a.workflow != req.workflow || a.candidate != candidate.id || a.tree != candidate.tree {
        return true, InvalidAuthority;
      }
      if a.policyHash != req.policyHash || candidate.policyHash != req.policyHash || a.engine != req.engine || candidate.engine != req.engine {
        return true, Compatibility;
      }
      if !SealUsable(candidate.seal) {
        return true, ContextDrift;
      }
      if !CandidateRecordValid(candidate) {
        return true, InvalidAuthority;
      }
      if candidate.candidatePolicyHash != req.policy {
        return true, Compatibility;
      }
      return false, Io;
    }

    method Deliver(c: nat, req: Request, a: Receipt, world: World) returns (r: Outcome, died: bool)
      requires Valid() && c in model.callers && model.callers[c] == Drifting(req, a)
      modifies this, store
      ensures Valid() && old(trace) <= trace && Honest(|old(trace)|, c, world)
      ensures c in model.callers && model.callers[c] == Ended(req, r, died) && (died ==> world.reply == Died)
      ensures !died && r.Ok? ==> !r.value.recovered && AllPassed(world)
      ensures !world.driftReadable ==> r == Err(Io)
      ensures world.driftReadable && !world.worktreeClean ==> r == Err(ContextDrift)
    {
      hide Run, Step, Admit, NewIntent, BuildCommit, ResultOf, Replies;
      var drifted, why := DetectDrift(c, req, a, world);
      if drifted {
        return Err(why), false;
      }
      Interfere(c, world);
      var oid := Build(c, req, a, world);
      if !world.commitBuilt {
        return Err(Io), false;
      }
      Interfere(c, world);
      r, died := Publish(c, req, a, oid, world);
    }

    /** From the built commit on: intent, hook, ref. */
    method Publish(c: nat, req: Request, a: Receipt, oid: Oid, world: World) returns (r: Outcome, died: bool)
      requires Valid() && c in model.callers && model.callers[c] == Recording(req, a, oid)
      modifies this, store
      ensures Valid() && old(trace) <= trace && Honest(|old(trace)|, c, world)
      ensures c in model.callers && model.callers[c] == Ended(req, r, died) && (died ==> world.reply == Died)
      ensures !died && r.Ok? ==> !r.value.recovered && world.intentWritable && world.hookPasses && world.reply == Answered
    {
      hide Run, Step, Admit, NewIntent, Replies;
      var intent, recorded, refusal := Record(c, req, a, oid, world);
      if !recorded {
        return Err(refusal), false;
      }
      Interfere(c, world);
      RunHook(c, req, a, intent, world);
      if !world.hookPasses {
        return Err(Io), false;
      }
      Interfere(c, world);
      var moved := Swap(c, req, a, intent, false, world);
      r, died := if moved then ResultOf(intent, false) else Err(RefConflict), world.reply == Died;
    }

    method DetectDrift(c: nat, req: Request, ghost a: Receipt, world: World) returns (stop: bool, why: Error)
      requires Valid() && c in model.callers && model.callers[c] == Drifting(req, a)
      modifies this`model, this`trace
      ensures Valid() && old(trace) <= trace && Honest(|old(trace)|, c, world) && c in model.callers
      ensures model.callers[c] == if stop then Done(req, Err(why)) else Building(req, a)
      ensures stop <==>
        !world.driftReadable || !world.worktreeClean || ValueIn(old(refs), req.candidate.seal.baseRef) != Some(req.candidate.seal.baseCommit)
      ensures stop ==> why == if world.driftReadable then ContextDrift else Io
    {
      var seal := req.candidate.seal;
      Act(CheckDrift(c, world.worktreeClean, world.driftReadable));
      if !world.driftReadable {
        return true, Io;
      }
      stop := !world.worktreeClean || seal.baseRef !in refs || refs[seal.baseRef] != seal.baseCommit;
      why := ContextDrift;
    }

    method Build(c: nat, req: Request, ghost a: Receipt, world: World) returns (oid: Oid)
      requires Valid() && c in model.callers && model.callers[c] == Building(req, a)
      modifies this`model, this`trace
      ensures Valid() && old(trace) <= trace && Honest(|old(trace)|, c, world) && c in model.callers
      ensures oid == BuildCommit(req, world.stamp)
      ensures model.callers[c] == if world.commitBuilt then Recording(req, a, oid) else Done(req, Err(Io))
    {
      oid := BuildCommit(req, world.stamp);
      Act(CommitTree(c, world.stamp, world.commitBuilt));
    }

    method RunHook(c: nat, ghost req: Request, ghost a: Receipt, ghost intent: Intent, world: World)
      requires Valid() && c in model.callers && model.callers[c] == Gating(req, a, intent)
      modifies this`model, this`trace
      ensures Valid() && old(trace) <= trace && Honest(|old(trace)|, c, world) && c in model.callers
      ensures model.callers[c] == if world.hookPasses then Updating(req, a, intent, false) else Done(req, Err(Io))
    {
      Act(BeforeUpdate(c, world.hookPasses));
    }

    method Record(c: nat, req: Request, a: Receipt, oid: Oid, world: World)
      returns (intent: Intent, recorded: bool, why: Error)
      requires Valid() && c in model.callers && model.callers[c] == Recording(req, a, oid)
      modifies this`model, this`trace, store
      ensures Valid() && old(trace) <= trace && Honest(|old(trace)|, c, world) && c in model.callers
      ensures intent == NewIntent(req, a, oid)
      ensures model.callers[c] == if recorded then Gating(req, a, intent) else Done(req, Err(why))
      ensures recorded ==> world.intentWritable
    {
      intent := NewIntent(req, a, oid);
      recorded, why := store.Put(intent, world.intentWritable, world.rereadMisses);
      Act(PutIntent(c, world.intentWritable, world.rereadMisses));
    }

    method Recover(c: nat, req: Request, a: Receipt, intent: Intent, world: World) returns (r: Outcome, died: bool)
      requires Valid() && c in model.callers && model.callers[c] == Reading(req, a, intent)
      modifies this, store
      ensures Valid() && old(trace) <= trace && Honest(|old(trace)|, c, world)
      ensures c in model.callers && model.callers[c] == Ended(req, r, died) && (died ==> world.reply == Died)
      ensures !died && r.Ok? ==> r.value.recovered && Confirmed(world)
      ensures r == Err(IdempotencyReuse) <==> !SameIntent(intent, req, a)
    {
      hide ValueAfter, Run, Replies;
      RepliesToRead(c, world);
      var readable := world.refReadable && intent.ref in refs;
      var current := if intent.ref in refs then refs[intent.ref] else intent.base;
      Act(ReadRef(c, world.refReadable, world.treeReadable));
      if !IntentMatches(intent, req, a) {
        return Err(IdempotencyReuse), false;
      }
      if !readable {
        return Err(Io), false;
      }
      if current == intent.commit {
        if !world.treeReadable || !current.Commit? || current.tree != intent.tree {
          return Err(RefConflict), false;
        }
        return ResultOf(intent, true), false;
      }
      if current != intent.base {
        return Err(RefConflict), false;
      }
      Interfere(c, world);
      var moved := Swap(c, req, a, intent, true, world);
      r, died := if moved then ResultOf(intent, true) else Err(RefConflict), world.reply == Died;
    }

    /** The ref is swapped if it stands at the sealed base and git gets that far; the caller
        learns of it only if the reply arrives. */
    method Swap(c: nat, ghost req: Request, ghost a: Receipt, intent: Intent, ghost recovered: bool, world: World)
      returns (answered: bool)
      requires Valid() && c in model.callers && model.callers[c] == Updating(req, a, intent, recovered)
      modifies this
      ensures Valid() && old(trace) <= trace && Honest(|old(trace)|, c, world) && c in model.callers
      ensures model.callers[c] ==
        Ended(req, if answered then ResultOf(intent, recovered) else Err(RefConflict), world.reply == Died)
      ensures refs == if world.reply != Refused && ValueIn(old(refs), intent.ref) == Some(intent.base)
                      then old(refs)[intent.ref := intent.commit] else old(refs)
      ensures answered <==> world.reply == Answered && ValueIn(old(refs), intent.ref) == Some(intent.base)
    {
      hide Run, ValueAfter;
      var swaps := world.reply != Refused && intent.ref in refs && refs[intent.ref] == intent.base;
      ghost var before := model;
      if swaps {
        refs := refs[intent.ref := intent.commit];
      }
      Act(UpdateRef(c, world.reply));
      if swaps {
        OtherRefsStay(before, model, SwapMove(before, c));
      } else {
        SameStands(before, model);
      }
      answered := swaps && world.reply == Answered;
    }
  }
}
