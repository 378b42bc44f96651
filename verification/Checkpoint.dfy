/** What an A/B campaign keeps in memory and on disk: the samples of both arms are
    always a prefix of the flattened plan, and a checkpoint can be loaded again. */
module Checkpoint {
  import opened Joining
  import opened Holdout

  datatype Option<T> = None | Some(value: T)

  // ---------------------------------------------------------------------- plan

  predicate BlockOk(b: Block) {
    b.order == [Control, Candidate] || b.order == [Candidate, Control]
  }

  /** One block for each case and repetition, each with both variants. */
  predicate PlanOk(plan: Plan) {
    && (forall i :: 0 <= i < |plan| ==> BlockOk(plan[i]))
    && forall i, j :: 0 <= i < j < |plan| ==> (plan[i].caseId, plan[i].repetition) != (plan[j].caseId, plan[j].repetition)
  }

  function PlannedAt(plan: Plan, k: nat): Coordinate
    requires PlanOk(plan) && k < 2 * |plan|
  {
    var b := plan[k / 2];
    assert BlockOk(b);
    Coordinate(b.caseId, b.order[k % 2], b.repetition)
  }

  /** The plan in the order an uninterrupted campaign runs it. */
  function Flat(plan: Plan): (r: seq<Coordinate>)
    requires PlanOk(plan)
    ensures |r| == 2 * |plan|
  {
    seq(2 * |plan|, k requires 0 <= k < 2 * |plan| => PlannedAt(plan, k))
  }

  lemma FlatDistinct(plan: Plan)
    requires PlanOk(plan)
    ensures forall i, j :: 0 <= i < j < |Flat(plan)| ==> Flat(plan)[i] != Flat(plan)[j]
  {
    forall i, j | 0 <= i < j < |Flat(plan)|
      ensures Flat(plan)[i] != Flat(plan)[j]
    {
      assert Flat(plan)[i] == PlannedAt(plan, i) && Flat(plan)[j] == PlannedAt(plan, j);
      assert BlockOk(plan[i / 2]) && BlockOk(plan[j / 2]);
      if i / 2 == j / 2 {
        assert i % 2 == 0 && j % 2 == 1;
      }
    }
  }

  function Elements<T>(xs: seq<T>): set<T> {
    set x | x in xs
  }

  function ArmOf(cs: seq<Coordinate>, v: Variant): seq<Coordinate> {
    if cs == [] then [] else
      ArmOf(cs[..|cs| - 1], v) + if cs[|cs| - 1].variant == v then [cs[|cs| - 1]] else []
  }

  lemma ArmSnoc(cs: seq<Coordinate>, c: Coordinate, v: Variant)
    ensures ArmOf(cs + [c], v) == ArmOf(cs, v) + if c.variant == v then [c] else []
  {
    assert (cs + [c])[..|cs|] == cs;
  }

  lemma {:induction false} ArmElements(cs: seq<Coordinate>, v: Variant)
    ensures forall c :: c in ArmOf(cs, v) <==> c in cs && c.variant == v
  {
    if cs != [] {
      ArmElements(cs[..|cs| - 1], v);
      assert cs == cs[..|cs| - 1] + [cs[|cs| - 1]];
    }
  }

  predicate Distinct<T(==)>(xs: seq<T>) {
    forall i, j :: 0 <= i < j < |xs| ==> xs[i] != xs[j]
  }

  lemma {:induction false} ArmDistinct(cs: seq<Coordinate>, v: Variant)
    requires Distinct(cs)
    ensures Distinct(ArmOf(cs, v))
  {
    if cs != [] {
      ArmDistinct(cs[..|cs| - 1], v);
      ArmElements(cs[..|cs| - 1], v);
    }
  }

  // -------------------------------------------------------------------- memory

  datatype Memory = Memory(control: seq<Sample>, candidate: seq<Sample>, completed: set<Coordinate>, runIds: set<RunId>)

  const EMPTY := Memory([], [], {}, {})

  datatype Artifact = Artifact(control: seq<Sample>, candidate: seq<Sample>)

  /** What one campaign is fixed to. `valid` is the result contract, `stamped` says that a
      public sample carries the provenance of the frozen experiment, `cases` are the ids of
      all cases, holdouts included. */
  datatype Config = Config(plan: Plan, refs: References, cases: set<string>, valid: Sample -> bool, stamped: Sample -> bool)

  predicate ConfigOk(cfg: Config) {
    && PlanOk(cfg.plan) && Injective(cfg.refs)
    && (forall id :: id in cfg.refs ==> NulFree(cfg.refs[id]))
    && (forall i :: 0 <= i < |cfg.plan| ==> cfg.plan[i].caseId in cfg.cases)
  }

  function Arm(m: Memory, v: Variant): seq<Sample> {
    if v == Control then m.control else m.candidate
  }

  predicate InMemory(m: Memory, s: Sample) {
    s in m.control || s in m.candidate
  }

  function Coordinates(ss: seq<Sample>): (r: seq<Coordinate>)
    ensures |r| == |ss| && forall i :: 0 <= i < |ss| ==> r[i] == CoordinateOf(ss[i])
  {
    seq(|ss|, i requires 0 <= i < |ss| => CoordinateOf(ss[i]))
  }

  /** Everything the kept samples report. */
  function Results(m: Memory): set<Result> {
    set s | s in m.control + m.candidate :: ResultOf(s)
  }

  lemma RecordResults(m: Memory, s: Sample)
    ensures Results(Record(m, s)) == Results(m) + {ResultOf(s)}
  {
    var r := Record(m, s);
    assert s.variant == Control ==> r.control[|m.control|] == s;
    assert s.variant == Candidate ==> r.candidate[|m.candidate|] == s;
    forall x
      ensures x in r.control + r.candidate <==> x in m.control + m.candidate || x == s
    {
    }
  }

  /** The first `n` planned samples are the ones completed, each arm has its own of
      them in plan order, and nothing is kept twice. */
  ghost predicate Holds(plan: Plan, m: Memory, n: nat) {
    && PlanOk(plan) && n <= 2 * |plan|
    && m.completed == Elements(Flat(plan)[..n])
    && Coordinates(m.control) == ArmOf(Flat(plan)[..n], Control)
    && Coordinates(m.candidate) == ArmOf(Flat(plan)[..n], Candidate)
  }

  ghost predicate SampleOk(cfg: Config, m: Memory, s: Sample) {
    cfg.valid(Publish(cfg.refs, s)) && (s.caseId !in cfg.refs ==> s.runId in m.runIds)
  }

  ghost predicate SameIdSameSample(cfg: Config, a: Sample, b: Sample) {
    a.caseId !in cfg.refs && b.caseId !in cfg.refs && a.runId == b.runId ==> CoordinateOf(a) == CoordinateOf(b)
  }

  ghost predicate MemoryOk(cfg: Config, m: Memory, n: nat) {
    && ConfigOk(cfg) && Holds(cfg.plan, m, n)
    && (forall s :: InMemory(m, s) ==> SampleOk(cfg, m, s))
    && (forall a, b :: InMemory(m, a) && InMemory(m, b) ==> SameIdSameSample(cfg, a, b))
  }

  lemma EmptyOk(cfg: Config)
    requires ConfigOk(cfg)
    ensures MemoryOk(cfg, EMPTY, 0)
  {
  }

  function Record(m: Memory, s: Sample): Memory {
    Memory(if s.variant == Control then m.control + [s] else m.control,
           if s.variant == Candidate then m.candidate + [s] else m.candidate,
           m.completed + {CoordinateOf(s)}, m.runIds + {s.runId})
  }

  predicate Acceptable(cfg: Config, m: Memory, s: Sample, expected: Coordinate) {
    && cfg.valid(if expected.caseId in cfg.refs then Sanitize(s, cfg.refs[expected.caseId]) else s)
    && CoordinateOf(s) == expected && expected !in m.completed && s.runId !in m.runIds
  }

  lemma CoordinatesSnoc(ss: seq<Sample>, s: Sample)
    ensures Coordinates(ss + [s]) == Coordinates(ss) + [CoordinateOf(s)]
  {
  }

  lemma ElementsSnoc<T>(xs: seq<T>, x: T)
    ensures Elements(xs + [x]) == Elements(xs) + {x}
  {
  }

  lemma RecordHolds(plan: Plan, m: Memory, n: nat, s: Sample)
    requires Holds(plan, m, n) && n < 2 * |plan| && CoordinateOf(s) == Flat(plan)[n]
    ensures Holds(plan, Record(m, s), n + 1)
  {
    var before, c := Flat(plan)[..n], CoordinateOf(s);
    assert Flat(plan)[..n + 1] == before + [c];
    ElementsSnoc(before, c);
    hide Flat, ArmOf, Coordinates, PlanOk, Elements;
    ArmSnoc(before, c, Control);
    ArmSnoc(before, c, Candidate);
    CoordinatesSnoc(m.control, s);
    CoordinatesSnoc(m.candidate, s);
  }

  /** Recording the next planned sample extends the prefix by one. */
  lemma RecordKeeps(cfg: Config, m: Memory, n: nat, s: Sample)
    requires MemoryOk(cfg, m, n) && n < 2 * |cfg.plan| && Acceptable(cfg, m, s, Flat(cfg.plan)[n])
    ensures MemoryOk(cfg, Record(m, s), n + 1)
  {
    RecordHolds(cfg.plan, m, n, s);
    hide Holds, Flat, Sanitize;
    var r := Record(m, s);
    assert forall x :: InMemory(r, x) <==> InMemory(m, x) || x == s;
    forall x | InMemory(r, x)
      ensures SampleOk(cfg, r, x)
    {
      assert x != s ==> SampleOk(cfg, m, x);
    }
    forall a, b | InMemory(r, a) && InMemory(r, b)
      ensures SameIdSameSample(cfg, a, b)
    {
      assert a != s ==> SampleOk(cfg, m, a);
      assert b != s ==> SampleOk(cfg, m, b);
    }
  }

  /** A coordinate of the plan is complete exactly when the prefix has passed it. */
  lemma CompletedUpTo(plan: Plan, m: Memory, n: nat, k: nat)
    requires Holds(plan, m, n) && k < 2 * |plan|
    ensures Flat(plan)[k] in m.completed <==> k < n
  {
    FlatDistinct(plan);
    hide PlanOk, ArmOf;
    hide Flat;
    var done := Flat(plan)[..n];
    assert k < n ==> done[k] == Flat(plan)[k];
    forall i | 0 <= i < n && i != k
      ensures done[i] != Flat(plan)[k]
    {
      assert done[i] == Flat(plan)[i];
    }
  }

  lemma {:induction false} DistinctSize<T>(xs: seq<T>)
    requires Distinct(xs)
    ensures |Elements(xs)| == |xs|
  {
    if xs != [] {
      var rest := xs[..|xs| - 1];
      DistinctSize(rest);
      assert xs == rest + [xs[|xs| - 1]];
      assert Elements(xs) == Elements(rest) + {xs[|xs| - 1]};
    }
  }

  /** Completeness by counting: as many completed samples as planned ones, every planned
      one among them, is the same as the whole plan and nothing else. */
  lemma CompletePopulation(plan: Plan, completed: set<Coordinate>)
    requires PlanOk(plan)
    ensures (|completed| == 2 * |plan| && forall k :: 0 <= k < 2 * |plan| ==> Flat(plan)[k] in completed)
            <==> completed == Elements(Flat(plan))
  {
    FlatDistinct(plan);
    DistinctSize(Flat(plan));
    var all := Elements(Flat(plan));
    hide Flat, PlanOk;
    if |completed| == 2 * |plan| && forall k :: 0 <= k < 2 * |plan| ==> Flat(plan)[k] in completed {
      assert all <= completed;
      SubsetSize(all, completed);
    }
  }

  lemma {:induction false} SubsetSize<T>(a: set<T>, b: set<T>)
    requires a <= b && |a| == |b|
    ensures a == b
  {
    if x :| x in a {
      SubsetSize(a - {x}, b - {x});
    } else {
      assert a == {};
    }
  }
}
