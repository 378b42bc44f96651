/** Loading a checkpoint: the strict validation a published artifact passes before a
    later process goes on from it, and exactly when it does pass. */
module Resume {
  import opened Joining
  import opened Naming
  import opened Holdout
  import opened Checkpoint

  function PublishAll(refs: References, ss: seq<Sample>): (r: seq<Sample>)
    ensures |r| == |ss| && forall i :: 0 <= i < |ss| ==> r[i] == Publish(refs, ss[i])
  {
    seq(|ss|, i requires 0 <= i < |ss| => Publish(refs, ss[i]))
  }

  function RestoreAll(refs: References, ss: seq<Sample>): (r: seq<Sample>)
    ensures |r| == |ss| && forall i :: 0 <= i < |ss| ==> r[i] == Restore(refs, ss[i])
  {
    seq(|ss|, i requires 0 <= i < |ss| => Restore(refs, ss[i]))
  }

  function Published(refs: References, m: Memory): Artifact {
    Artifact(PublishAll(refs, m.control), PublishAll(refs, m.candidate))
  }

  /** Each published sample stands for the sample at its place. */
  ghost predicate Faithful(refs: References, ps: seq<Sample>, ss: seq<Sample>) {
    |ps| == |ss| && forall i :: 0 <= i < |ss| ==> StandsFor(refs, ps[i], ss[i])
  }

  lemma PublishedIsFaithful(refs: References, ss: seq<Sample>)
    ensures Faithful(refs, PublishAll(refs, ss), ss)
  {
  }

  /** The memory `r` reports what `m` reports, sample by sample. */
  ghost predicate Recalls(r: Memory, m: Memory) {
    forall v :: |Arm(r, v)| == |Arm(m, v)| && forall i :: 0 <= i < |Arm(m, v)| ==> ResultOf(Arm(r, v)[i]) == ResultOf(Arm(m, v)[i])
  }

  lemma {:induction false} RecalledResults(r: Memory, m: Memory)
    requires Recalls(r, m)
    ensures Results(r) == Results(m)
  {
    hide ResultOf;
    assert |Arm(r, Control)| == |Arm(m, Control)| && |Arm(r, Candidate)| == |Arm(m, Candidate)|;
    forall x | x in Results(r)
      ensures x in Results(m)
    {
      var s :| s in r.control + r.candidate && ResultOf(s) == x;
      var v, i := Locate(r, s);
      assert ResultOf(Arm(m, v)[i]) == x && Arm(m, v)[i] in m.control + m.candidate;
    }
    forall x | x in Results(m)
      ensures x in Results(r)
    {
      var s :| s in m.control + m.candidate && ResultOf(s) == x;
      var v, i := Locate(m, s);
      assert ResultOf(Arm(r, v)[i]) == x && Arm(r, v)[i] in r.control + r.candidate;
    }
  }

  function IdsOf(ss: seq<Sample>): set<RunId> {
    set s | s in ss :: s.runId
  }

  function Restored(refs: References, m: Memory): Memory {
    Memory(RestoreAll(refs, m.control), RestoreAll(refs, m.candidate), m.completed,
           IdsOf(PublishAll(refs, m.control)) + IdsOf(PublishAll(refs, m.candidate)))
  }

  // ------------------------------------------------------------- inverse renaming

  ghost predicate Inverse(refs: References, byRef: map<string, string>) {
    && (forall id :: id in refs ==> refs[id] in byRef && byRef[refs[id]] == id)
    && (forall r :: r in byRef ==> byRef[r] in refs && refs[byRef[r]] == r)
  }

  /** No case, public or private, is named like a reference. */
  predicate ConflictFree(refs: References, cases: set<string>) {
    forall id :: id in refs ==> refs[id] !in cases
  }

  method InvertReferences(refs: References, cases: set<string>) returns (ok: bool, byRef: map<string, string>)
    requires Injective(refs)
    ensures ok <==> ConflictFree(refs, cases)
    ensures ok ==> Inverse(refs, byRef)
  {
    byRef := map[];
    var rest := refs.Keys;
    while rest != {}
      invariant rest <= refs.Keys
      invariant forall id :: id in refs.Keys - rest ==> refs[id] !in cases && refs[id] in byRef && byRef[refs[id]] == id
      invariant forall r :: r in byRef ==> byRef[r] in refs.Keys - rest && refs[byRef[r]] == r
      decreases rest
    {
      var id :| id in rest;
      if refs[id] in cases {
        return false, byRef;
      }
      byRef := byRef[refs[id] := id];
      rest := rest - {id};
    }
    ok := true;
  }

  // ------------------------------------------------------------------ validation

  datatype Loaded = Loaded(samples: seq<Sample>, completed: set<Coordinate>, runIds: set<RunId>)

  function ActualCase(byRef: map<string, string>, c: string): string {
    if c in byRef then byRef[c] else c
  }

  function ActualOf(byRef: map<string, string>, p: Sample): Coordinate {
    Coordinate(ActualCase(byRef, p.caseId), p.variant, p.repetition)
  }

  predicate Admissible(cfg: Config, byRef: map<string, string>, v: Variant, l: Loaded, p: Sample)
    requires PlanOk(cfg.plan)
  {
    && cfg.valid(p) && p.variant == v && p.runId !in l.runIds
    && (if p.caseId in byRef then Canonical(p) else p.caseId in cfg.cases && cfg.stamped(p))
    && ActualOf(byRef, p) in Elements(Flat(cfg.plan)) && ActualOf(byRef, p) !in l.completed
  }

  function Admit(byRef: map<string, string>, l: Loaded, p: Sample): Loaded {
    Loaded(l.samples + [p.(caseId := ActualCase(byRef, p.caseId))], l.completed + {ActualOf(byRef, p)}, l.runIds + {p.runId})
  }

  function Accept(cfg: Config, byRef: map<string, string>, v: Variant, ps: seq<Sample>, l: Loaded): Option<Loaded>
    requires PlanOk(cfg.plan)
  {
    if ps == [] then Some(l) else
      var before := Accept(cfg, byRef, v, ps[..|ps| - 1], l);
      if before.Some? && Admissible(cfg, byRef, v, before.value, ps[|ps| - 1])
      then Some(Admit(byRef, before.value, ps[|ps| - 1])) else None
  }

  lemma AcceptSnoc(cfg: Config, byRef: map<string, string>, v: Variant, ps: seq<Sample>, k: nat, l: Loaded)
    requires PlanOk(cfg.plan) && k < |ps|
    ensures var before := Accept(cfg, byRef, v, ps[..k], l);
      Accept(cfg, byRef, v, ps[..k + 1], l) ==
        if before.Some? && Admissible(cfg, byRef, v, before.value, ps[k]) then Some(Admit(byRef, before.value, ps[k])) else None
  {
    assert ps[..k + 1][..k] == ps[..k];
  }

  lemma {:induction false} AcceptFails(cfg: Config, byRef: map<string, string>, v: Variant, ps: seq<Sample>, k: nat, l: Loaded)
    requires PlanOk(cfg.plan) && k <= |ps| && Accept(cfg, byRef, v, ps[..k], l).None?
    ensures Accept(cfg, byRef, v, ps, l).None?
    decreases |ps| - k
  {
    if k == |ps| {
      assert ps[..k] == ps;
    } else {
      AcceptSnoc(cfg, byRef, v, ps, k, l);
      AcceptFails(cfg, byRef, v, ps, k + 1, l);
    }
  }

  method ValidateArm(cfg: Config, byRef: map<string, string>, v: Variant, ps: seq<Sample>, l: Loaded)
    returns (r: Option<Loaded>)
    requires PlanOk(cfg.plan)
    ensures r == Accept(cfg, byRef, v, ps, l)
  {
    hide Accept, PlanOk, Flat, Canonical;
    var expected := Elements(Flat(cfg.plan));
    var samples, completed, runIds := l.samples, l.completed, l.runIds;
    AcceptNothing(cfg, byRef, v, ps, l);
    for i := 0 to |ps|
      invariant Accept(cfg, byRef, v, ps[..i], l) == Some(Loaded(samples, completed, runIds))
    {
      var p := ps[i];
      AcceptSnoc(cfg, byRef, v, ps, i, l);
      if !cfg.valid(p) || p.variant != v || p.runId in runIds {
        AcceptFails(cfg, byRef, v, ps, i + 1, l);
        return None;
      }
      var actual := p.caseId;
      if p.caseId in byRef {
        if !Canonical(p) {
          AcceptFails(cfg, byRef, v, ps, i + 1, l);
          return None;
        }
        actual := byRef[p.caseId];
      } else if p.caseId !in cfg.cases || !cfg.stamped(p) {
        AcceptFails(cfg, byRef, v, ps, i + 1, l);
        return None;
      }
      var key := Coordinate(actual, v, p.repetition);
      if key !in expected || key in completed {
        AcceptFails(cfg, byRef, v, ps, i + 1, l);
        return None;
      }
      completed := completed + {key};
      runIds := runIds + {p.runId};
      samples := samples + [p.(caseId := actual)];
    }
    assert ps[..|ps|] == ps;
    r := Some(Loaded(samples, completed, runIds));
  }

  lemma AcceptNothing(cfg: Config, byRef: map<string, string>, v: Variant, ps: seq<Sample>, l: Loaded)
    requires PlanOk(cfg.plan)
    ensures Accept(cfg, byRef, v, ps[..0], l) == Some(l)
  {
    assert ps[..0] == [];
  }

  /** The published sample is what the validator may take, whatever else the artifact holds. */
  predicate Sound(cfg: Config, byRef: map<string, string>, v: Variant, p: Sample)
    requires PlanOk(cfg.plan)
  {
    && cfg.valid(p) && p.variant == v && ActualOf(byRef, p) in Flat(cfg.plan)
    && (p.caseId in byRef ==> Sanitize(p, p.caseId) == p)
    && (p.caseId !in byRef ==> p.caseId in cfg.cases && cfg.stamped(p))
  }

  function ActualsOf(byRef: map<string, string>, ps: seq<Sample>): set<Coordinate> {
    set p | p in ps :: ActualOf(byRef, p)
  }

  lemma ActualsSnoc(byRef: map<string, string>, rest: seq<Sample>, p: Sample)
    ensures ActualsOf(byRef, rest + [p]) == ActualsOf(byRef, rest) + {ActualOf(byRef, p)}
  {
    hide ActualOf;
    var all := rest + [p];
    assert all[|rest|] == p;
    forall c | c in ActualsOf(byRef, rest)
      ensures c in ActualsOf(byRef, all)
    {
      var q :| q in rest && ActualOf(byRef, q) == c;
      assert q in all;
    }
  }

  /** What is loaded once an arm was taken: its samples under the names of their own cases. */
  ghost predicate Took(byRef: map<string, string>, ps: seq<Sample>, l: Loaded, r: Loaded) {
    && r.completed == l.completed + ActualsOf(byRef, ps) && r.runIds == l.runIds + IdsOf(ps)
    && |r.samples| == |l.samples| + |ps| && r.samples[..|l.samples|] == l.samples
    && forall i :: 0 <= i < |ps| ==> r.samples[|l.samples| + i] == ps[i].(caseId := ActualCase(byRef, ps[i].caseId))
  }

  lemma TookNothing(byRef: map<string, string>, l: Loaded)
    ensures Took(byRef, [], l, l)
  {
  }

  lemma TookOneMore(byRef: map<string, string>, rest: seq<Sample>, p: Sample, l: Loaded, r: Loaded)
    requires Took(byRef, rest, l, r)
    ensures Took(byRef, rest + [p], l, Admit(byRef, r, p))
  {
    ActualsSnoc(byRef, rest, p);
    IdsSnoc(rest, p);
    hide ActualsOf, IdsOf, ActualOf, ActualCase;
  }

  lemma {:induction false} AcceptedHolds(cfg: Config, byRef: map<string, string>, v: Variant, ps: seq<Sample>, l: Loaded)
    requires PlanOk(cfg.plan) && Accept(cfg, byRef, v, ps, l).Some?
    ensures Took(byRef, ps, l, Accept(cfg, byRef, v, ps, l).value)
  {
    hide PlanOk, Flat, Admissible, Took, Admit;
    TookNothing(byRef, l);
    if ps != [] {
      var n := |ps| - 1;
      AcceptedHolds(cfg, byRef, v, ps[..n], l);
      assert ps == ps[..n] + [ps[n]];
      TookOneMore(byRef, ps[..n], ps[n], l, Accept(cfg, byRef, v, ps[..n], l).value);
    }
  }

  /** Neither a run id nor a coordinate is known already or comes twice. */
  ghost predicate Fresh(byRef: map<string, string>, ps: seq<Sample>, l: Loaded) {
    && (forall i :: 0 <= i < |ps| ==> ps[i].runId !in l.runIds && ActualOf(byRef, ps[i]) !in l.completed)
    && (forall i, j :: 0 <= i < j < |ps| ==> ps[i].runId != ps[j].runId && ActualOf(byRef, ps[i]) != ActualOf(byRef, ps[j]))
  }

  lemma FreshSnoc(byRef: map<string, string>, rest: seq<Sample>, p: Sample, l: Loaded)
    ensures Fresh(byRef, rest + [p], l) <==>
      && Fresh(byRef, rest, l)
      && p.runId !in l.runIds + IdsOf(rest) && ActualOf(byRef, p) !in l.completed + ActualsOf(byRef, rest)
  {
    hide ActualOf;
    var ps := rest + [p];
    assert ps[|rest|] == p && forall i :: 0 <= i < |rest| ==> ps[i] == rest[i];
    if Fresh(byRef, ps, l) {
      forall i | 0 <= i < |rest|
        ensures rest[i].runId != p.runId && ActualOf(byRef, rest[i]) != ActualOf(byRef, p)
        ensures rest[i].runId !in l.runIds && ActualOf(byRef, rest[i]) !in l.completed
      {
        assert ps[i].runId != ps[|rest|].runId;
      }
      forall i, j | 0 <= i < j < |rest|
        ensures rest[i].runId != rest[j].runId && ActualOf(byRef, rest[i]) != ActualOf(byRef, rest[j])
      {
        assert ps[i].runId != ps[j].runId;
      }
    }
  }

  predicate AllSound(cfg: Config, byRef: map<string, string>, v: Variant, ps: seq<Sample>)
    requires PlanOk(cfg.plan)
  {
    forall i :: 0 <= i < |ps| ==> Sound(cfg, byRef, v, ps[i])
  }

  lemma SoundSnoc(cfg: Config, byRef: map<string, string>, v: Variant, rest: seq<Sample>, p: Sample)
    requires PlanOk(cfg.plan)
    ensures AllSound(cfg, byRef, v, rest + [p]) <==> AllSound(cfg, byRef, v, rest) && Sound(cfg, byRef, v, p)
  {
    hide PlanOk, Flat, Sound;
    var ps := rest + [p];
    assert ps[|rest|] == p && forall i :: 0 <= i < |rest| ==> ps[i] == rest[i];
  }

  /** An arm of any artifact at all is accepted exactly if each of its samples is sound and
      neither a run id nor a coordinate comes twice or is known already. */
  lemma {:induction false} AcceptExactly(cfg: Config, byRef: map<string, string>, v: Variant, ps: seq<Sample>, l: Loaded)
    requires PlanOk(cfg.plan)
    ensures Accept(cfg, byRef, v, ps, l).Some? <==> AllSound(cfg, byRef, v, ps) && Fresh(byRef, ps, l)
  {
    hide PlanOk, Flat, Sound, Admissible, ActualOf, ActualsOf, IdsOf, Admit;
    if ps != [] {
      var n := |ps| - 1;
      var rest, p := ps[..n], ps[n];
      AcceptExactly(cfg, byRef, v, rest, l);
      hide AllSound, Fresh;
      assert ps == rest + [p];
      FreshSnoc(byRef, rest, p, l);
      SoundSnoc(cfg, byRef, v, rest, p);
      var before := Accept(cfg, byRef, v, rest, l);
      if before.Some? {
        AcceptedHolds(cfg, byRef, v, rest, l);
        assert before.value.runIds == l.runIds + IdsOf(rest) && before.value.completed == l.completed + ActualsOf(byRef, rest);
        AdmissibleIs(cfg, byRef, v, before.value, p);
      }
    }
  }

  lemma AdmissibleIs(cfg: Config, byRef: map<string, string>, v: Variant, l: Loaded, p: Sample)
    requires PlanOk(cfg.plan)
    ensures Admissible(cfg, byRef, v, l, p) <==>
      Sound(cfg, byRef, v, p) && p.runId !in l.runIds && ActualOf(byRef, p) !in l.completed
  {
    hide PlanOk, Flat, Sanitize, ActualOf;
  }

  // ----------------------------------------------- which checkpoints load again

  /** No run id is known already or comes twice. */
  predicate FreshIds(ps: seq<Sample>, ids: set<RunId>) {
    ps == [] || (FreshIds(ps[..|ps| - 1], ids) && ps[|ps| - 1].runId !in ids + IdsOf(ps[..|ps| - 1]))
  }

  predicate StampedAll(cfg: Config, ss: seq<Sample>) {
    forall i :: 0 <= i < |ss| ==> ss[i].caseId !in cfg.refs ==> cfg.stamped(ss[i])
  }

  ghost predicate ArmReady(cfg: Config, byRef: map<string, string>, v: Variant, ss: seq<Sample>, done: set<Coordinate>) {
    && ConfigOk(cfg) && ConflictFree(cfg.refs, cfg.cases) && Inverse(cfg.refs, byRef)
    && Distinct(Coordinates(ss)) && Elements(Coordinates(ss)) !! done
    && forall i :: 0 <= i < |ss| ==>
      ss[i].variant == v && CoordinateOf(ss[i]) in Elements(Flat(cfg.plan)) && cfg.valid(Publish(cfg.refs, ss[i]))
  }

  lemma PlannedCase(cfg: Config, c: Coordinate)
    requires ConfigOk(cfg) && c in Elements(Flat(cfg.plan))
    ensures c.caseId in cfg.cases
  {
    var k :| 0 <= k < |Flat(cfg.plan)| && Flat(cfg.plan)[k] == c;
    assert c == PlannedAt(cfg.plan, k);
  }

  /** Loading one published sample: it is taken exactly when its id is new and, if it
      is public, it is stamped; then it is the restored sample. */
  lemma AdmitOne(cfg: Config, byRef: map<string, string>, v: Variant, l: Loaded, s: Sample)
    requires ConfigOk(cfg) && ConflictFree(cfg.refs, cfg.cases) && Inverse(cfg.refs, byRef)
    requires s.variant == v && CoordinateOf(s) in Elements(Flat(cfg.plan)) && cfg.valid(Publish(cfg.refs, s))
    requires CoordinateOf(s) !in l.completed
    ensures var p := Publish(cfg.refs, s);
      && (Admissible(cfg, byRef, v, l, p) <==> p.runId !in l.runIds && (s.caseId !in cfg.refs ==> cfg.stamped(s)))
      && Admit(byRef, l, p) == Loaded(l.samples + [Restore(cfg.refs, s)], l.completed + {CoordinateOf(s)}, l.runIds + {p.runId})
  {
    PlannedCase(cfg, CoordinateOf(s));
    hide Flat, Elements;
    var p := Publish(cfg.refs, s);
    if s.caseId in cfg.refs {
      RedactionIsStable(cfg.refs, s, s);
      assert p.caseId == cfg.refs[s.caseId] && p.caseId in byRef;
    } else {
      assert s.caseId !in byRef;
      assert s.(caseId := s.caseId) == s;
    }
  }

  lemma {:induction false} AcceptPublished(cfg: Config, byRef: map<string, string>, v: Variant, ss: seq<Sample>, done: set<Coordinate>, ids: set<RunId>)
    requires ArmReady(cfg, byRef, v, ss, done)
    ensures ArmAccepted(cfg, byRef, v, ss, done, ids)
  {
    if ss == [] {
      assert Coordinates(ss) == [];
    } else {
      ReadyShorter(cfg, byRef, v, ss, done);
      AcceptPublished(cfg, byRef, v, ss[..|ss| - 1], done, ids);
      AcceptLast(cfg, byRef, v, ss, done, ids);
    }
  }

  ghost predicate ArmAccepted(cfg: Config, byRef: map<string, string>, v: Variant, ss: seq<Sample>, done: set<Coordinate>, ids: set<RunId>)
    requires PlanOk(cfg.plan)
  {
    var r := Accept(cfg, byRef, v, PublishAll(cfg.refs, ss), Loaded([], done, ids));
    && (r.Some? <==> StampedAll(cfg, ss) && FreshIds(PublishAll(cfg.refs, ss), ids))
    && (r.Some? ==> r.value == Loaded(RestoreAll(cfg.refs, ss), done + Elements(Coordinates(ss)),
                                      ids + IdsOf(PublishAll(cfg.refs, ss))))
  }

  lemma LastReady(cfg: Config, byRef: map<string, string>, v: Variant, ss: seq<Sample>, done: set<Coordinate>)
    requires ss != [] && ArmReady(cfg, byRef, v, ss, done)
    ensures var s := ss[|ss| - 1];
      && ConfigOk(cfg) && ConflictFree(cfg.refs, cfg.cases) && Inverse(cfg.refs, byRef)
      && s.variant == v && CoordinateOf(s) in Elements(Flat(cfg.plan)) && cfg.valid(Publish(cfg.refs, s))
      && CoordinateOf(s) !in done + Elements(Coordinates(ss[..|ss| - 1]))
  {
    hide Flat, ConfigOk, ConflictFree, Inverse, Publish;
    LastIsNew(ss);
    assert Coordinates(ss)[|ss| - 1] in Elements(Coordinates(ss));
  }

  /** What the last published sample does to an accepted prefix. */
  lemma AcceptOneMore(cfg: Config, byRef: map<string, string>, v: Variant, ss: seq<Sample>, done: set<Coordinate>, ids: set<RunId>)
    requires ss != [] && ArmReady(cfg, byRef, v, ss, done) && ArmAccepted(cfg, byRef, v, ss[..|ss| - 1], done, ids)
    ensures PlanOk(cfg.plan)
    ensures var rest, s := ss[..|ss| - 1], ss[|ss| - 1];
      var before, p := Accept(cfg, byRef, v, PublishAll(cfg.refs, rest), Loaded([], done, ids)), Publish(cfg.refs, s);
      Accept(cfg, byRef, v, PublishAll(cfg.refs, ss), Loaded([], done, ids)) ==
        if before.Some? && p.runId !in before.value.runIds && (s.caseId !in cfg.refs ==> cfg.stamped(s)) then
          Some(Loaded(before.value.samples + [Restore(cfg.refs, s)], before.value.completed + {CoordinateOf(s)},
                      before.value.runIds + {p.runId}))
        else None
  {
    var n := |ss| - 1;
    var rest, s, all := ss[..n], ss[n], PublishAll(cfg.refs, ss);
    assert all[..n] == PublishAll(cfg.refs, rest) && all[..n + 1] == all && all[n] == Publish(cfg.refs, s);
    LastReady(cfg, byRef, v, ss, done);
    var l := Loaded([], done, ids);
    AcceptSnoc(cfg, byRef, v, all, n, l);
    hide ArmReady, ConfigOk, ConflictFree, Inverse, Accept, Admissible, Admit, IdsOf, Elements, Restore, Publish, FreshIds,
         StampedAll, RestoreAll, PublishAll, Coordinates, Flat, CoordinateOf;
    var r := Accept(cfg, byRef, v, all[..n], l);
    if r.Some? {
      AdmitOne(cfg, byRef, v, r.value, s);
    }
  }

  lemma AcceptLast(cfg: Config, byRef: map<string, string>, v: Variant, ss: seq<Sample>, done: set<Coordinate>, ids: set<RunId>)
    requires ss != [] && ArmReady(cfg, byRef, v, ss, done) && ArmAccepted(cfg, byRef, v, ss[..|ss| - 1], done, ids)
    ensures ArmAccepted(cfg, byRef, v, ss, done, ids)
  {
    var n := |ss| - 1;
    var rest, s, all := ss[..n], ss[n], PublishAll(cfg.refs, ss);
    assert all[..n] == PublishAll(cfg.refs, rest) && all[n] == Publish(cfg.refs, s);
    Prefixes(cfg, ss, ids);
    AcceptOneMore(cfg, byRef, v, ss, done, ids);
    AssociateSets(done, Elements(Coordinates(rest)), {CoordinateOf(s)});
    AssociateSets(ids, IdsOf(all[..n]), {all[n].runId});
    hide ArmReady, ConfigOk, Accept, IdsOf, Elements, Restore, Publish, FreshIds, StampedAll, RestoreAll, PublishAll,
         Coordinates, CoordinateOf;
  }

  lemma AssociateSets<T>(a: set<T>, b: set<T>, c: set<T>)
    ensures a + b + c == a + (b + c)
  {
  }

  lemma ReadyShorter(cfg: Config, byRef: map<string, string>, v: Variant, ss: seq<Sample>, done: set<Coordinate>)
    requires ss != [] && ArmReady(cfg, byRef, v, ss, done)
    ensures ArmReady(cfg, byRef, v, ss[..|ss| - 1], done)
  {
    var n := |ss| - 1;
    hide Flat, ConfigOk, ConflictFree, Inverse, Publish;
    assert Coordinates(ss[..n]) == Coordinates(ss)[..n];
    hide Coordinates;
    assert Elements(Coordinates(ss)[..n]) <= Elements(Coordinates(ss));
  }

  lemma LastIsNew(ss: seq<Sample>)
    requires ss != [] && Distinct(Coordinates(ss))
    ensures CoordinateOf(ss[|ss| - 1]) !in Elements(Coordinates(ss[..|ss| - 1]))
  {
    var n := |ss| - 1;
    forall i | 0 <= i < n
      ensures Coordinates(ss[..n])[i] != CoordinateOf(ss[n])
    {
      assert Coordinates(ss)[i] != Coordinates(ss)[n];
    }
  }

  lemma StampedSnoc(cfg: Config, rest: seq<Sample>, s: Sample)
    ensures StampedAll(cfg, rest + [s]) <==> StampedAll(cfg, rest) && (s.caseId !in cfg.refs ==> cfg.stamped(s))
  {
    var ss := rest + [s];
    assert ss[|rest|] == s;
    assert forall i :: 0 <= i < |rest| ==> ss[i] == rest[i];
  }

  lemma IdsSnoc(rest: seq<Sample>, p: Sample)
    ensures IdsOf(rest + [p]) == IdsOf(rest) + {p.runId}
  {
    var all := rest + [p];
    assert all[|rest|] == p;
    forall id | id in IdsOf(rest)
      ensures id in IdsOf(all)
    {
      var q :| q in rest && q.runId == id;
      assert q in all;
    }
  }

  lemma Prefixes(cfg: Config, ss: seq<Sample>, ids: set<RunId>)
    requires ss != []
    ensures var n := |ss| - 1; var rest, all := ss[..n], PublishAll(cfg.refs, ss);
      && (StampedAll(cfg, ss) <==> StampedAll(cfg, rest) && (ss[n].caseId !in cfg.refs ==> cfg.stamped(ss[n])))
      && (FreshIds(all, ids) <==> FreshIds(all[..n], ids) && all[n].runId !in ids + IdsOf(all[..n]))
      && RestoreAll(cfg.refs, ss) == RestoreAll(cfg.refs, rest) + [Restore(cfg.refs, ss[n])]
      && IdsOf(all) == IdsOf(all[..n]) + {all[n].runId}
      && Elements(Coordinates(ss)) == Elements(Coordinates(rest)) + {CoordinateOf(ss[n])}
  {
    var n := |ss| - 1;
    var rest, all := ss[..n], PublishAll(cfg.refs, ss);
    assert ss == rest + [ss[n]] && all == all[..n] + [all[n]];
    hide Publish, Restore, Elements, IdsOf, StampedAll;
    CoordinatesSnoc(rest, ss[n]);
    ElementsSnoc(Coordinates(rest), CoordinateOf(ss[n]));
    StampedSnoc(cfg, rest, ss[n]);
    IdsSnoc(all[..n], all[n]);
  }

  lemma IdsAt(ps: seq<Sample>, id: RunId)
    ensures id in IdsOf(ps) <==> exists j :: 0 <= j < |ps| && ps[j].runId == id
  {
    if j :| 0 <= j < |ps| && ps[j].runId == id {
      assert ps[j] in ps;
    }
  }

  lemma {:induction false} FreshPairs(ps: seq<Sample>, ids: set<RunId>)
    ensures FreshIds(ps, ids) <==>
      (forall i :: 0 <= i < |ps| ==> ps[i].runId !in ids) && (forall i, j :: 0 <= j < i < |ps| ==> ps[j].runId != ps[i].runId)
  {
    if ps != [] {
      var rest := ps[..|ps| - 1];
      FreshPairs(rest, ids);
      IdsAt(rest, ps[|ps| - 1].runId);
      hide IdsOf;
      assert forall j :: 0 <= j < |rest| ==> rest[j] == ps[j];
    }
  }

  /** No public sample carries a run id that redaction gives to a holdout sample. */
  ghost predicate NoCollision(cfg: Config, m: Memory) {
    forall a, b :: InMemory(m, a) && InMemory(m, b) && a.caseId !in cfg.refs && b.caseId in cfg.refs ==>
      a.runId != Publish(cfg.refs, b).runId
  }

  lemma ArmFacts(cfg: Config, m: Memory, n: nat, v: Variant)
    requires MemoryOk(cfg, m, n)
    ensures Distinct(Coordinates(Arm(m, v)))
    ensures forall c :: c in Coordinates(Arm(m, v)) <==> c in m.completed && c.variant == v
    ensures forall c :: c in m.completed ==> c in Elements(Flat(cfg.plan))
  {
    var prefix := Flat(cfg.plan)[..n];
    FlatDistinct(cfg.plan);
    hide Flat, PlanOk, ArmOf, SampleOk, SameIdSameSample, ConfigOk;
    assert Distinct(prefix);
    ArmDistinct(prefix, v);
    ArmElements(prefix, v);
  }

  lemma ArmSample(m: Memory, v: Variant, i: nat)
    requires i < |Arm(m, v)|
    ensures InMemory(m, Arm(m, v)[i]) && Coordinates(Arm(m, v))[i] == CoordinateOf(Arm(m, v)[i])
  {
  }

  lemma MemoryIsReady(cfg: Config, byRef: map<string, string>, m: Memory, n: nat, v: Variant, done: set<Coordinate>)
    requires MemoryOk(cfg, m, n) && ConflictFree(cfg.refs, cfg.cases) && Inverse(cfg.refs, byRef)
    requires forall c :: c in done ==> c.variant != v
    ensures ArmReady(cfg, byRef, v, Arm(m, v), done)
  {
    ArmFacts(cfg, m, n, v);
    hide Flat, PlanOk, ConfigOk, ConflictFree, Inverse, Holds, Publish, Coordinates;
    var ss := Arm(m, v);
    forall i | 0 <= i < |ss|
      ensures ss[i].variant == v && CoordinateOf(ss[i]) in Elements(Flat(cfg.plan)) && cfg.valid(Publish(cfg.refs, ss[i]))
    {
      ArmSample(m, v, i);
      assert Coordinates(ss)[i] in Coordinates(ss);
      assert SampleOk(cfg, m, ss[i]);
    }
  }

  lemma PairDistinct(cfg: Config, m: Memory, n: nat, a: Sample, b: Sample)
    requires MemoryOk(cfg, m, n) && NoCollision(cfg, m) && InMemory(m, a) && InMemory(m, b) && CoordinateOf(a) != CoordinateOf(b)
    ensures Publish(cfg.refs, a).runId != Publish(cfg.refs, b).runId
  {
    hide Holds;
    assert SameIdSameSample(cfg, a, b);
    if a.caseId in cfg.refs && b.caseId in cfg.refs && Publish(cfg.refs, a).runId == Publish(cfg.refs, b).runId {
      HoldoutRunIds(cfg.refs, a, b);
    }
  }

  predicate BothFresh(cfg: Config, m: Memory) {
    var control, candidate := PublishAll(cfg.refs, m.control), PublishAll(cfg.refs, m.candidate);
    FreshIds(control, {}) && FreshIds(candidate, IdsOf(control))
  }

  lemma NoCollisionIsFresh(cfg: Config, m: Memory, n: nat)
    requires MemoryOk(cfg, m, n) && NoCollision(cfg, m)
    ensures BothFresh(cfg, m)
  {
    var control, candidate := PublishAll(cfg.refs, m.control), PublishAll(cfg.refs, m.candidate);
    FreshPairs(control, {});
    FreshPairs(candidate, IdsOf(control));
    ArmFacts(cfg, m, n, Control);
    ArmFacts(cfg, m, n, Candidate);
    hide MemoryOk, NoCollision, FreshIds, Publish, Distinct, PlanOk, Flat;
    forall i, j | 0 <= j < i < |control|
      ensures control[j].runId != control[i].runId
    {
      SamplesDiffer(m, Control, i, j);
      PairDistinct(cfg, m, n, m.control[j], m.control[i]);
    }
    forall i, j | 0 <= j < i < |candidate|
      ensures candidate[j].runId != candidate[i].runId
    {
      SamplesDiffer(m, Candidate, i, j);
      PairDistinct(cfg, m, n, m.candidate[j], m.candidate[i]);
    }
    forall i, j | 0 <= i < |candidate| && 0 <= j < |control|
      ensures candidate[i].runId != control[j].runId
    {
      ArmSample(m, Candidate, i);
      ArmSample(m, Control, j);
      assert Coordinates(m.control)[j] in Coordinates(m.control) && Coordinates(m.candidate)[i] in Coordinates(m.candidate);
      PairDistinct(cfg, m, n, m.candidate[i], m.control[j]);
    }
  }

  lemma SamplesDiffer(m: Memory, v: Variant, i: nat, j: nat)
    requires j < i < |Arm(m, v)| && Distinct(Coordinates(Arm(m, v)))
    ensures InMemory(m, Arm(m, v)[i]) && InMemory(m, Arm(m, v)[j])
    ensures CoordinateOf(Arm(m, v)[i]) != CoordinateOf(Arm(m, v)[j])
  {
    assert Coordinates(Arm(m, v))[i] != Coordinates(Arm(m, v))[j];
  }

  lemma FreshHasNoCollision(cfg: Config, m: Memory)
    requires BothFresh(cfg, m)
    ensures NoCollision(cfg, m)
  {
    var control, candidate := PublishAll(cfg.refs, m.control), PublishAll(cfg.refs, m.candidate);
    FreshPairs(control, {});
    FreshPairs(candidate, IdsOf(control));
    hide FreshIds, Sanitize;
    forall a, b | InMemory(m, a) && InMemory(m, b) && a.caseId !in cfg.refs && b.caseId in cfg.refs
      ensures a.runId != Publish(cfg.refs, b).runId
    {
      var va, i := Locate(m, a);
      var vb, j := Locate(m, b);
      assert Publish(cfg.refs, a) == a;
      if va != vb {
        assert control[if va == Control then i else j] in control;
      }
    }
  }

  lemma Locate(m: Memory, s: Sample) returns (v: Variant, i: nat)
    requires InMemory(m, s)
    ensures i < |Arm(m, v)| && Arm(m, v)[i] == s
  {
    if s in m.control {
      v := Control;
    } else {
      v := Candidate;
    }
    i :| 0 <= i < |Arm(m, v)| && Arm(m, v)[i] == s;
  }

  /** Both arms of an artifact, validated one after the other. */
  function Load(cfg: Config, byRef: map<string, string>, a: Artifact): Option<Memory>
    requires PlanOk(cfg.plan)
  {
    var c := Accept(cfg, byRef, Control, a.control, Loaded([], {}, {}));
    if c.None? then None else
      var d := Accept(cfg, byRef, Candidate, a.candidate, Loaded([], c.value.completed, c.value.runIds));
      if d.None? then None else Some(Memory(c.value.samples, d.value.samples, d.value.completed, d.value.runIds))
  }

  lemma CompletedIsBothArms(cfg: Config, m: Memory, n: nat)
    requires MemoryOk(cfg, m, n)
    ensures m.completed == Elements(Coordinates(m.control)) + Elements(Coordinates(m.candidate))
    ensures forall c :: c in Elements(Coordinates(m.control)) ==> c.variant == Control
  {
    ArmFacts(cfg, m, n, Control);
    ArmFacts(cfg, m, n, Candidate);
    hide MemoryOk, Coordinates, Flat;
  }

  /** Every public sample is stamped with the frozen experiment, no case is named like a
      reference, and no public run id is one that redaction gives to a holdout sample. */
  ghost predicate Resumable(cfg: Config, m: Memory) {
    && ConflictFree(cfg.refs, cfg.cases) && NoCollision(cfg, m)
    && StampedAll(cfg, m.control) && StampedAll(cfg, m.candidate)
  }

  lemma LoadIfFresh(cfg: Config, byRef: map<string, string>, m: Memory, n: nat)
    requires MemoryOk(cfg, m, n) && ConflictFree(cfg.refs, cfg.cases) && Inverse(cfg.refs, byRef)
    ensures var r := Load(cfg, byRef, Published(cfg.refs, m));
      && (r.Some? <==> StampedAll(cfg, m.control) && StampedAll(cfg, m.candidate) && BothFresh(cfg, m))
      && (r.Some? ==> r.value == Restored(cfg.refs, m))
  {
    CompletedIsBothArms(cfg, m, n);
    var first := Elements(Coordinates(m.control));
    var ids := IdsOf(PublishAll(cfg.refs, m.control));
    MemoryIsReady(cfg, byRef, m, n, Control, {});
    MemoryIsReady(cfg, byRef, m, n, Candidate, first);
    AcceptPublished(cfg, byRef, Control, m.control, {}, {});
    AcceptPublished(cfg, byRef, Candidate, m.candidate, first, ids);
    hide MemoryOk, ConfigOk, StampedAll, FreshIds, Accept, PublishAll, RestoreAll, Elements, IdsOf, Coordinates, ArmReady,
         ConflictFree, Inverse;
    assert {} + first == first && {} + ids == ids;
  }

  /** A checkpoint whose references can be inverted loads again exactly when it is
      resumable, and then the loaded memory is the saved one, holdout samples redacted. */
  lemma LoadExactly(cfg: Config, byRef: map<string, string>, m: Memory, n: nat)
    requires MemoryOk(cfg, m, n) && ConflictFree(cfg.refs, cfg.cases) && Inverse(cfg.refs, byRef)
    ensures var r := Load(cfg, byRef, Published(cfg.refs, m));
      (r.Some? <==> Resumable(cfg, m)) && (r.Some? ==> r.value == Restored(cfg.refs, m))
  {
    hide *;
    LoadIfFresh(cfg, byRef, m, n);
    if NoCollision(cfg, m) {
      NoCollisionIsFresh(cfg, m, n);
    }
    if BothFresh(cfg, m) {
      FreshHasNoCollision(cfg, m);
    }
    ResumableParts(cfg, m);
  }

  lemma ResumableParts(cfg: Config, m: Memory)
    ensures Resumable(cfg, m) <==>
      && ConflictFree(cfg.refs, cfg.cases) && NoCollision(cfg, m)
      && StampedAll(cfg, m.control) && StampedAll(cfg, m.candidate)
  {
  }

  lemma RestoredSample(cfg: Config, m: Memory, s: Sample)
    requires forall x :: InMemory(m, x) ==> SampleOk(cfg, m, x)
    requires InMemory(m, s)
    ensures Publish(cfg.refs, Restore(cfg.refs, s)) == Publish(cfg.refs, s)
    ensures CoordinateOf(Restore(cfg.refs, s)) == CoordinateOf(s)
    ensures SampleOk(cfg, Restored(cfg.refs, m), Restore(cfg.refs, s))
  {
    if s.caseId in cfg.refs {
      RedactionIsStable(cfg.refs, s, s);
    } else {
      var v, i := Locate(m, s);
      assert SampleOk(cfg, m, s);
      assert PublishAll(cfg.refs, Arm(m, v))[i] == s;
      IdsAt(PublishAll(cfg.refs, Arm(m, v)), s.runId);
    }
  }

  lemma FromRestored(refs: References, m: Memory, r: Sample) returns (s: Sample)
    requires InMemory(Restored(refs, m), r)
    ensures InMemory(m, s) && Restore(refs, s) == r
  {
    hide Restore, IdsOf;
    var v, i := Locate(Restored(refs, m), r);
    s := Arm(m, v)[i];
  }

  /** Saving what was loaded writes the same artifact, and the loaded memory stands at the
      same place of the plan and reports the same at every coordinate. */
  lemma RestoredKeeps(cfg: Config, m: Memory, n: nat)
    requires MemoryOk(cfg, m, n)
    ensures MemoryOk(cfg, Restored(cfg.refs, m), n)
    ensures Published(cfg.refs, Restored(cfg.refs, m)) == Published(cfg.refs, m)
    ensures Recalls(Restored(cfg.refs, m), m)
  {
    var r := Restored(cfg.refs, m);
    RestoredReports(cfg.refs, m);
    RestoredArm(cfg, m, Control);
    RestoredArm(cfg, m, Candidate);
    hide Publish, Restore, Restored, PublishAll, Flat, ConfigOk, Coordinates, SampleOk, ArmOf;
    assert Holds(cfg.plan, r, n) by {
      RestoredCompleted(cfg.refs, m);
    }
    forall x | InMemory(r, x)
      ensures SampleOk(cfg, r, x)
    {
      var s := FromRestored(cfg.refs, m, x);
      RestoredSample(cfg, m, s);
    }
    forall a, b | InMemory(r, a) && InMemory(r, b)
      ensures SameIdSameSample(cfg, a, b)
    {
      var s := FromRestored(cfg.refs, m, a);
      var t := FromRestored(cfg.refs, m, b);
      RestoredSample(cfg, m, s);
      RestoredSample(cfg, m, t);
      assert SameIdSameSample(cfg, s, t);
      RestorePublic(cfg.refs, s);
      RestorePublic(cfg.refs, t);
    }
  }

  lemma RestoredReports(refs: References, m: Memory)
    ensures Recalls(Restored(refs, m), m)
  {
    forall v, i | 0 <= i < |Arm(m, v)|
      ensures ResultOf(Arm(Restored(refs, m), v)[i]) == ResultOf(Arm(m, v)[i])
    {
      assert Arm(Restored(refs, m), v)[i] == Restore(refs, Arm(m, v)[i]);
    }
  }

  lemma RestorePublic(refs: References, s: Sample)
    ensures s.caseId !in refs ==> Restore(refs, s) == s
    ensures Restore(refs, s).caseId == s.caseId
  {
  }

  lemma RestoredCompleted(refs: References, m: Memory)
    ensures Restored(refs, m).completed == m.completed
  {
  }

  lemma RestoredArm(cfg: Config, m: Memory, v: Variant)
    requires forall s :: InMemory(m, s) ==> SampleOk(cfg, m, s)
    ensures var r := Restored(cfg.refs, m);
      && Coordinates(Arm(r, v)) == Coordinates(Arm(m, v))
      && PublishAll(cfg.refs, Arm(r, v)) == PublishAll(cfg.refs, Arm(m, v))
  {
    hide Publish, Restore, IdsOf, SampleOk;
    var r := Restored(cfg.refs, m);
    forall i | 0 <= i < |Arm(m, v)|
      ensures CoordinateOf(Arm(r, v)[i]) == CoordinateOf(Arm(m, v)[i])
      ensures Publish(cfg.refs, Arm(r, v)[i]) == Publish(cfg.refs, Arm(m, v)[i])
    {
      RestoredSample(cfg, m, Arm(m, v)[i]);
    }
  }

  lemma CollisionSteps(cfg: Config, a: Sample, b: Sample, c: Sample)
    requires ConfigOk(cfg) && |cfg.plan| >= 2 && (forall s :: cfg.valid(s) && cfg.stamped(s))
    requires Flat(cfg.plan)[..3] == [CoordinateOf(a), CoordinateOf(b), CoordinateOf(c)]
    requires a.runId != b.runId && a.runId != c.runId && b.runId != c.runId
    ensures MemoryOk(cfg, Record(Record(Record(EMPTY, a), b), c), 3)
  {
    FlatDistinct(cfg.plan);
    var flat := Flat(cfg.plan);
    assert flat[0] == flat[..3][0] && flat[1] == flat[..3][1] && flat[2] == flat[..3][2];
    hide Flat, Sanitize, MemoryOk, ConfigOk, Publish;
    EmptyOk(cfg);
    RecordKeeps(cfg, EMPTY, 0, a);
    RecordKeeps(cfg, Record(EMPTY, a), 1, b);
    RecordKeeps(cfg, Record(Record(EMPTY, a), b), 2, c);
  }

  lemma CollisionStays(cfg: Config, m: Memory, a: Sample, c: Sample)
    requires (forall s :: cfg.stamped(s)) && InMemory(m, a) && InMemory(m, c)
    requires a.caseId in cfg.refs && c.caseId !in cfg.refs && c.runId == Publish(cfg.refs, a).runId
    ensures StampedAll(cfg, m.control) && StampedAll(cfg, m.candidate) && !Resumable(cfg, m)
  {
    hide Publish;
    assert !NoCollision(cfg, m);
  }

  lemma FirstThree(plan: Plan)
    requires PlanOk(plan) && |plan| >= 2 && plan[0].order == [Control, Candidate] == plan[1].order
    ensures Flat(plan)[..3] ==
      [Coordinate(plan[0].caseId, Control, plan[0].repetition), Coordinate(plan[0].caseId, Candidate, plan[0].repetition),
       Coordinate(plan[1].caseId, Control, plan[1].repetition)]
  {
    assert Flat(plan)[0] == PlannedAt(plan, 0) && Flat(plan)[1] == PlannedAt(plan, 1) && Flat(plan)[2] == PlannedAt(plan, 2);
  }

  /** One holdout case and one public case, once each. */
  function SmallConfig(): (cfg: Config)
    ensures ConfigOk(cfg) && ConflictFree(cfg.refs, cfg.cases) && |cfg.plan| == 2
    ensures cfg.plan[0].order == [Control, Candidate] == cfg.plan[1].order
    ensures cfg.plan[0].caseId in cfg.refs && cfg.plan[1].caseId !in cfg.refs
  {
    var h, p, r := ['h'], ['p'], ['r'];
    assert h[0] == 'h' && p[0] == 'p' && r[0] == 'r';
    Config([Block([], h, 1, [Control, Candidate]), Block([], p, 1, [Control, Candidate])],
           map[h := r], {h, p}, (s: Sample) => true, (s: Sample) => true)
  }

  /** Recording lets the collision through: a holdout sample is kept under the id its runner
      gave it, so a later public sample may carry the id that only the file gives to the first
      one. Every recorded sample passed its checks, and the checkpoint never loads again. */
  lemma CollisionIsRecorded()
    ensures exists cfg: Config, m: Memory ::
      && MemoryOk(cfg, m, 3) && ConflictFree(cfg.refs, cfg.cases)
      && StampedAll(cfg, m.control) && StampedAll(cfg, m.candidate) && !Resumable(cfg, m)
  {
    var cfg := SmallConfig().(valid := (s: Sample) => true, stamped := (s: Sample) => true);
    var holdout, public := cfg.plan[0], cfg.plan[1];
    FirstThree(cfg.plan);
    hide Flat, PlanOk, SmallConfig, ConflictFree, RunReference, MemoryOk, Resumable, StampedAll, NoCollision;
    var a := Sample(Native([]), holdout.caseId, Control, holdout.repetition, Pass, Hidden(true), []);
    var b := Sample(Native(['b']), holdout.caseId, Candidate, holdout.repetition, Pass, Hidden(true), []);
    var c := Sample(Publish(cfg.refs, a).runId, public.caseId, Control, public.repetition, Pass, Hidden(true), []);
    CollisionSteps(cfg, a, b, c);
    var m := Record(Record(Record(EMPTY, a), b), c);
    assert m.control == [a, c];
    CollisionStays(cfg, m, a, c);
  }
}
