/** The experiment plan as it is drawn up and the gate that judges the finished
    population by the keys of its blocks. */
module Population {
  import opened Naming
  import opened Holdout
  import opened Checkpoint
  import opened Resume

  const MAX_RUNS := 100

  type BlockName = (string, nat)

  function NameOf(s: Sample): BlockName {
    (s.caseId, s.repetition)
  }

  function Names(runs: seq<Sample>): set<BlockName> {
    set s | s in runs :: NameOf(s)
  }

  function Cases(runs: seq<Sample>): set<string> {
    set s | s in runs :: s.caseId
  }

  function Repetitions(runs: seq<Sample>, c: string): set<nat> {
    set s | s in runs && s.caseId == c :: s.repetition
  }

  /** All repetitions 1 to `runs` of every case. */
  function Grid(cases: set<string>, runs: nat): set<BlockName> {
    set c, r | c in cases && 1 <= r <= runs :: (c, r)
  }

  predicate DistinctNames(runs: seq<Sample>) {
    forall i, j :: 0 <= i < j < |runs| ==> NameOf(runs[i]) != NameOf(runs[j])
  }

  // ------------------------------------------------------------------ the gate

  function KeyOf(s: Sample): string {
    BlockKey(s.caseId, s.repetition)
  }

  function Keys(runs: seq<Sample>): set<string> {
    set s | s in runs :: KeyOf(s)
  }

  /** Block keys are as good as block names. */
  lemma KeyNamesBlock(runs: seq<Sample>, s: Sample)
    ensures KeyOf(s) in Keys(runs) <==> NameOf(s) in Names(runs)
  {
    hide BlockKey;
    if KeyOf(s) in Keys(runs) {
      var t :| t in runs && KeyOf(t) == KeyOf(s);
      BlockKeyInjective(s.caseId, s.repetition, t.caseId, t.repetition);
    }
  }

  lemma SameKeysSameNames(control: seq<Sample>, candidate: seq<Sample>)
    ensures Keys(control) == Keys(candidate) <==> Names(control) == Names(candidate)
  {
    forall s: Sample
      ensures KeyOf(s) in Keys(control) <==> NameOf(s) in Names(control)
      ensures KeyOf(s) in Keys(candidate) <==> NameOf(s) in Names(candidate)
    {
      KeyNamesBlock(control, s);
      KeyNamesBlock(candidate, s);
    }
    hide KeyOf;
    if Names(control) == Names(candidate) {
      forall k
        ensures k in Keys(control) <==> k in Keys(candidate)
      {
        if s :| s in control + candidate && KeyOf(s) == k {
          assert KeyOf(s) in Keys(control) <==> NameOf(s) in Names(control);
        } else {
          assert forall s :: s in control ==> s in control + candidate;
          assert forall s :: s in candidate ==> s in control + candidate;
        }
      }
    }
    if Keys(control) == Keys(candidate) {
      forall n
        ensures n in Names(control) <==> n in Names(candidate)
      {
        if s :| s in control + candidate && NameOf(s) == n {
          assert KeyOf(s) in Keys(control) <==> NameOf(s) in Names(control);
        } else {
          assert forall s :: s in control ==> s in control + candidate;
          assert forall s :: s in candidate ==> s in control + candidate;
        }
      }
    }
  }

  lemma DistinctSnoc(runs: seq<Sample>, s: Sample)
    ensures DistinctNames(runs + [s]) <==> DistinctNames(runs) && NameOf(s) !in Names(runs)
    ensures Keys(runs + [s]) == Keys(runs) + {KeyOf(s)}
  {
    hide KeyOf;
    var all := runs + [s];
    assert all[|runs|] == s;
    assert forall i :: 0 <= i < |runs| ==> all[i] == runs[i];
    if DistinctNames(all) {
      forall i, j | 0 <= i < j < |runs|
        ensures NameOf(runs[i]) != NameOf(runs[j])
      {
        assert NameOf(all[i]) != NameOf(all[j]);
      }
    }
    forall x
      ensures x in all <==> x in runs || x == s
    {
    }
  }

  lemma {:induction false} DistinctPrefix(runs: seq<Sample>, k: nat)
    requires k <= |runs| && !DistinctNames(runs[..k])
    ensures !DistinctNames(runs)
  {
    var i, j :| 0 <= i < j < k && NameOf(runs[..k][i]) == NameOf(runs[..k][j]);
    assert NameOf(runs[i]) == NameOf(runs[j]);
  }

  method IndexRuns(runs: seq<Sample>) returns (ok: bool, index: map<string, Sample>)
    ensures ok <==> DistinctNames(runs)
    ensures ok ==> index.Keys == Keys(runs) && forall k :: k in index ==> KeyOf(index[k]) == k && index[k] in runs
  {
    hide KeyOf, DistinctNames, Keys;
    index := map[];
    IndexNothing(runs);
    for i := 0 to |runs|
      invariant DistinctNames(runs[..i]) && index.Keys == Keys(runs[..i])
      invariant forall k :: k in index ==> KeyOf(index[k]) == k && index[k] in runs
    {
      assert runs[..i + 1] == runs[..i] + [runs[i]];
      DistinctSnoc(runs[..i], runs[i]);
      KeyNamesBlock(runs[..i], runs[i]);
      var key := KeyOf(runs[i]);
      if key in index {
        DistinctPrefix(runs, i + 1);
        return false, index;
      }
      index := index[key := runs[i]];
    }
    assert runs[..|runs|] == runs;
    ok := true;
  }

  lemma IndexNothing(runs: seq<Sample>)
    ensures DistinctNames(runs[..0]) && Keys(runs[..0]) == {}
  {
  }

  /** What the gate asks of a finished experiment, in terms of blocks. */
  predicate GatePasses(control: seq<Sample>, candidate: seq<Sample>, runsPerCase: int, expectedCases: int) {
    && runsPerCase >= 1 && expectedCases >= 1
    && DistinctNames(control) && DistinctNames(candidate)
    && (forall s :: s in control ==> s.variant == Control) && (forall s :: s in candidate ==> s.variant == Candidate)
    && |Cases(control)| == expectedCases
    && Names(control) == Names(candidate) == Grid(Cases(control), runsPerCase)
  }

  function UpTo(n: nat): (r: set<nat>)
    ensures |r| == n && forall i :: i in r <==> 1 <= i <= n
  {
    if n == 0 then {} else UpTo(n - 1) + {n}
  }

  method CheckRepetitions(repetitions: set<nat>, runsPerCase: nat) returns (ok: bool)
    ensures ok <==> repetitions == UpTo(runsPerCase)
  {
    if |repetitions| != runsPerCase {
      return false;
    }
    for r := 1 to runsPerCase + 1
      invariant UpTo(r - 1) <= repetitions
    {
      if r !in repetitions {
        assert r in UpTo(runsPerCase);
        return false;
      }
    }
    SubsetSize(UpTo(runsPerCase), repetitions);
    ok := true;
  }

  method GroupByCase(control: seq<Sample>) returns (ok: bool, byCase: map<string, set<nat>>)
    ensures ok <==> forall s :: s in control ==> s.variant == Control
    ensures ok ==> byCase.Keys == Cases(control) && forall c :: c in byCase ==> byCase[c] == Repetitions(control, c)
  {
    byCase := map[];
    for i := 0 to |control|
      invariant forall s :: s in control[..i] ==> s.variant == Control
      invariant byCase.Keys == Cases(control[..i]) && forall c :: c in byCase ==> byCase[c] == Repetitions(control[..i], c)
    {
      var run := control[i];
      assert run in control;
      if run.variant != Control {
        return false, byCase;
      }
      assert control[..i + 1] == control[..i] + [run];
      RepetitionsSnoc(control[..i], run);
      var before := if run.caseId in byCase then byCase[run.caseId] else {};
      byCase := byCase[run.caseId := before + {run.repetition}];
    }
    assert control[..|control|] == control;
    ok := true;
  }

  lemma RepetitionsSnoc(runs: seq<Sample>, s: Sample)
    ensures Cases(runs + [s]) == Cases(runs) + {s.caseId}
    ensures forall c :: Repetitions(runs + [s], c) == Repetitions(runs, c) + if c == s.caseId then {s.repetition} else {}
    ensures s.caseId !in Cases(runs) ==> Repetitions(runs, s.caseId) == {}
  {
    forall c
      ensures Repetitions(runs + [s], c) == Repetitions(runs, c) + if c == s.caseId then {s.repetition} else {}
    {
      forall r | r in Repetitions(runs, c)
        ensures r in Repetitions(runs + [s], c)
      {
        var x :| x in runs && x.caseId == c && x.repetition == r;
        assert x in runs + [s];
      }
    }
    forall c | c in Cases(runs)
      ensures c in Cases(runs + [s])
    {
      var x :| x in runs && x.caseId == c;
      assert x in runs + [s];
    }
    assert s in runs + [s];
  }

  method SameKeys(a: map<string, Sample>, b: map<string, Sample>) returns (same: bool)
    ensures same <==> a.Keys == b.Keys
  {
    var rest := a.Keys;
    while rest != {}
      invariant rest <= a.Keys && a.Keys - rest <= b.Keys
      decreases rest
    {
      var k :| k in rest;
      if k !in b {
        return false;
      }
      rest := rest - {k};
    }
    rest := b.Keys;
    while rest != {}
      invariant rest <= b.Keys && b.Keys - rest <= a.Keys
      decreases rest
    {
      var k :| k in rest;
      if k !in a {
        return false;
      }
      rest := rest - {k};
    }
    same := true;
  }

  method AllRepetitions(byCase: map<string, set<nat>>, runsPerCase: nat) returns (ok: bool)
    ensures ok <==> forall c :: c in byCase ==> byCase[c] == UpTo(runsPerCase)
  {
    var rest := byCase.Keys;
    while rest != {}
      invariant rest <= byCase.Keys && forall c :: c in byCase.Keys - rest ==> byCase[c] == UpTo(runsPerCase)
      decreases rest
    {
      var c :| c in rest;
      ok := CheckRepetitions(byCase[c], runsPerCase);
      if !ok {
        return;
      }
      rest := rest - {c};
    }
    ok := true;
  }

  lemma GridByCase(runs: seq<Sample>, runsPerCase: nat)
    ensures (forall c :: c in Cases(runs) ==> Repetitions(runs, c) == UpTo(runsPerCase))
            <==> Names(runs) == Grid(Cases(runs), runsPerCase)
  {
    if forall c :: c in Cases(runs) ==> Repetitions(runs, c) == UpTo(runsPerCase) {
      forall n
        ensures n in Names(runs) <==> n in Grid(Cases(runs), runsPerCase)
      {
        if n in Names(runs) {
          assert n.0 in Cases(runs) && n.1 in Repetitions(runs, n.0);
        }
        if n in Grid(Cases(runs), runsPerCase) {
          assert n.1 in UpTo(runsPerCase) && n.1 in Repetitions(runs, n.0);
        }
      }
    }
    if Names(runs) == Grid(Cases(runs), runsPerCase) {
      forall c, r: nat | c in Cases(runs)
        ensures r in Repetitions(runs, c) <==> r in UpTo(runsPerCase)
      {
        assert r in Repetitions(runs, c) <==> (c, r) in Names(runs);
        assert (c, r) in Grid(Cases(runs), runsPerCase) <==> 1 <= r <= runsPerCase;
      }
    }
  }

  method AllCandidate(runs: seq<Sample>) returns (ok: bool)
    ensures ok <==> forall s :: s in runs ==> s.variant == Candidate
  {
    for i := 0 to |runs|
      invariant forall j :: 0 <= j < i ==> runs[j].variant == Candidate
    {
      if runs[i].variant != Candidate {
        return false;
      }
    }
    ok := true;
  }

  method IndexesAgree(control: seq<Sample>, candidate: seq<Sample>) returns (agree: bool)
    ensures agree <==> DistinctNames(control) && DistinctNames(candidate) && Names(control) == Names(candidate) && control != []
  {
    hide Names, Keys, DistinctNames, KeyOf;
    var distinct, controlIndex := IndexRuns(control);
    if !distinct {
      return false;
    }
    var alsoDistinct, candidateIndex := IndexRuns(candidate);
    if !alsoDistinct {
      return false;
    }
    SameKeysSameNames(control, candidate);
    NoRuns(control);
    if |controlIndex| == 0 || |controlIndex| != |candidateIndex| {
      assert controlIndex.Keys != candidateIndex.Keys || controlIndex.Keys == {};
      return false;
    }
    assert controlIndex.Keys != {};
    agree := SameKeys(controlIndex, candidateIndex);
  }

  method PopulationGate(control: seq<Sample>, candidate: seq<Sample>, runsPerCase: int, expectedCases: int)
    returns (pass: bool)
    ensures pass <==> GatePasses(control, candidate, runsPerCase, expectedCases)
  {
    hide Names, DistinctNames, Grid, Cases, Repetitions, UpTo;
    if runsPerCase < 1 || expectedCases < 1 {
      return false;
    }
    NoCases(control);
    var agree := IndexesAgree(control, candidate);
    if !agree {
      return false;
    }
    var onlyControl, byCase := GroupByCase(control);
    if !onlyControl {
      return false;
    }
    var onlyCandidate := AllCandidate(candidate);
    if !onlyCandidate {
      return false;
    }
    assert |byCase.Keys| == |byCase|;
    if |byCase| != expectedCases {
      return false;
    }
    GridByCase(control, runsPerCase);
    pass := AllRepetitions(byCase, runsPerCase);
  }

  lemma NoRuns(control: seq<Sample>)
    ensures Keys(control) == {} <==> control == []
  {
    if control != [] {
      assert control[0] in control && KeyOf(control[0]) in Keys(control);
    }
  }

  lemma NoCases(control: seq<Sample>)
    ensures control == [] ==> Cases(control) == {}
  {
  }

  // ------------------------------------------------------------------ the plan

  function PlanNames(plan: Plan): set<BlockName> {
    set b | b in plan :: (b.caseId, b.repetition)
  }

  function NamesInOrder(plan: Plan): seq<BlockName> {
    seq(|plan|, i requires 0 <= i < |plan| => (plan[i].caseId, plan[i].repetition))
  }

  /** The repetitions 1 to `k` of a case. */
  function Repeated(c: string, k: nat): seq<BlockName> {
    if k == 0 then [] else Repeated(c, k - 1) + [(c, k)]
  }

  /** Case by case in the order of the list, repetition by repetition. */
  function CaseByCase(caseIds: seq<string>, runs: nat): seq<BlockName> {
    if caseIds == [] then [] else CaseByCase(caseIds[..|caseIds| - 1], runs) + Repeated(caseIds[|caseIds| - 1], runs)
  }

  lemma OrderSnoc(plan: Plan, b: Block)
    ensures NamesInOrder(plan + [b]) == NamesInOrder(plan) + [(b.caseId, b.repetition)]
  {
  }

  /** In how many blocks of case `c` the control runs first. */
  function ControlFirst(plan: Plan, c: string): nat {
    if plan == [] then 0 else
      var b := plan[|plan| - 1];
      ControlFirst(plan[..|plan| - 1], c) + if b.caseId == c && b.order == [Control, Candidate] then 1 else 0
  }

  lemma ControlFirstSnoc(plan: Plan, b: Block, c: string)
    ensures ControlFirst(plan + [b], c) ==
      ControlFirst(plan, c) + if b.caseId == c && b.order == [Control, Candidate] then 1 else 0
  {
    assert (plan + [b])[..|plan|] == plan;
  }

  predicate Drawable(caseIds: seq<string>, runs: int) {
    caseIds != [] && 2 <= runs <= 100 && Distinct(caseIds) && "" !in caseIds
  }

  predicate Balanced(plan: Plan, c: string, runs: nat) {
    ControlFirst(plan, c) == runs / 2 || (runs % 2 == 1 && ControlFirst(plan, c) == runs / 2 + 1)
  }

  method Shuffle(a: array<bool>)
    modifies a
    ensures multiset(a[..]) == multiset(old(a[..]))
  {
    var i := a.Length;
    while i > 1
      invariant multiset(a[..]) == multiset(old(a[..]))
    {
      i := i - 1;
      var j: int := *;
      j := if 0 <= j <= i then j else i;
      ghost var before := a[..];
      a[i], a[j] := a[j], a[i];
      assert a[..] == before[i := before[j]][j := before[i]];
      SwapKeeps(before, i, j);
    }
  }

  lemma SwapKeeps(s: seq<bool>, i: nat, j: nat)
    requires i < |s| && j < |s|
    ensures multiset(s[i := s[j]][j := s[i]]) == multiset(s)
  {
  }

  function Trues(a: seq<bool>): nat {
    if a == [] then 0 else Trues(a[..|a| - 1]) + if a[|a| - 1] then 1 else 0
  }

  lemma {:induction false} TruesCount(a: seq<bool>)
    ensures Trues(a) == multiset(a)[true]
  {
    if a != [] {
      TruesCount(a[..|a| - 1]);
      assert a == a[..|a| - 1] + [a[|a| - 1]];
    }
  }

  lemma TruesSnoc(a: seq<bool>, k: nat)
    requires k < |a|
    ensures Trues(a[..k + 1]) == Trues(a[..k]) + if a[k] then 1 else 0
  {
    assert a[..k + 1][..k] == a[..k];
  }

  method FirstHalf(runs: nat) returns (orders: array<bool>)
    ensures fresh(orders) && orders.Length == runs
    ensures Trues(orders[..]) == runs / 2 && (runs % 2 == 1 ==> !orders[runs - 1])
  {
    hide Trues;
    orders := new bool[runs](_ => false);
    ghost var all := orders[..];
    AllFalse(all);
    for i := 0 to runs / 2
      invariant all == orders[..] && Trues(all) == i && forall k :: i <= k < runs ==> !orders[k]
    {
      SetOne(all, i);
      orders[i] := true;
      all := all[i := true];
    }
  }

  lemma {:induction false} SetOne(a: seq<bool>, k: nat)
    requires k < |a| && !a[k]
    ensures Trues(a[k := true]) == Trues(a) + 1
  {
    TruesCount(a);
    TruesCount(a[k := true]);
    assert a == a[..k] + [a[k]] + a[k + 1..] && a[k := true] == a[..k] + [true] + a[k + 1..];
  }

  /** Which repetitions of a case run the control first: half of them, at random places. */
  method DrawOrders(runs: nat) returns (orders: array<bool>)
    ensures fresh(orders) && orders.Length == runs
    ensures Trues(orders[..]) == runs / 2 || (runs % 2 == 1 && Trues(orders[..]) == runs / 2 + 1)
  {
    hide Trues;
    orders := FirstHalf(runs);
    ghost var half := orders[..];
    if runs % 2 == 1 {
      SetOne(half, runs - 1);
      var extra: bool := *;
      orders[runs - 1] := extra;
      assert orders[..] == if extra then half[runs - 1 := true] else half;
    }
    TruesCount(orders[..]);
    Shuffle(orders);
    TruesCount(orders[..]);
  }

  lemma {:induction false} AllFalse(a: seq<bool>)
    requires forall i :: 0 <= i < |a| ==> !a[i]
    ensures Trues(a) == 0
  {
    if a != [] {
      AllFalse(a[..|a| - 1]);
    }
  }

  /** A plan in the making: all of the cases drawn so far and repetitions up to `k` of `c`. */
  ghost predicate Drawing(plan: Plan, cases: set<string>, runs: nat, c: string, k: nat) {
    && PlanOk(plan) && PlanNames(plan) == Grid(cases, runs) + Grid({c}, k)
    && (forall b :: b in plan ==> b.id == BlockKey(b.caseId, b.repetition))
    && (forall d :: d in cases && d != c ==> Balanced(plan, d, runs))
    && (forall d :: d !in cases && d != c ==> ControlFirst(plan, d) == 0)
  }

  lemma DrawOne(plan: Plan, cases: set<string>, runs: nat, c: string, k: nat, b: Block)
    requires Drawing(plan, cases, runs, c, k) && c !in cases
    requires b.caseId == c && b.repetition == k + 1 && b.id == BlockKey(c, k + 1) && BlockOk(b)
    ensures Drawing(plan + [b], cases, runs, c, k + 1)
    ensures ControlFirst(plan + [b], c) == ControlFirst(plan, c) + if b.order == [Control, Candidate] then 1 else 0
  {
    hide BlockKey, ControlFirst;
    var longer := plan + [b];
    forall d
      ensures ControlFirst(longer, d) == ControlFirst(plan, d) + if b.caseId == d && b.order == [Control, Candidate] then 1 else 0
    {
      ControlFirstSnoc(plan, b, d);
    }
    NamesSnoc(plan, b);
    assert (c, k + 1) !in PlanNames(plan);
    PlanSnoc(plan, b);
    assert Grid({c}, k + 1) == Grid({c}, k) + {(c, k + 1)};
    assert forall x :: x in longer ==> x in plan || x == b;
    hide PlanOk, Grid, PlanNames;
  }

  lemma NamesSnoc(plan: Plan, b: Block)
    ensures PlanNames(plan + [b]) == PlanNames(plan) + {(b.caseId, b.repetition)}
  {
    forall x
      ensures x in plan + [b] <==> x in plan || x == b
    {
    }
  }

  lemma PlanSnoc(plan: Plan, b: Block)
    requires PlanOk(plan) && BlockOk(b) && (b.caseId, b.repetition) !in PlanNames(plan)
    ensures PlanOk(plan + [b])
  {
    hide BlockOk;
    forall i | 0 <= i < |plan|
      ensures (plan[i].caseId, plan[i].repetition) != (b.caseId, b.repetition)
    {
      assert plan[i] in plan;
    }
  }

  /** Every case with all its repetitions, once each, under keys that name them, with the
      control first in half of them. */
  ghost predicate Drawn(plan: Plan, cases: set<string>, runs: nat) {
    && PlanOk(plan) && PlanNames(plan) == Grid(cases, runs)
    && (forall b :: b in plan ==> b.id == BlockKey(b.caseId, b.repetition))
    && (forall c :: c in cases ==> Balanced(plan, c, runs))
    && (forall c :: c !in cases ==> ControlFirst(plan, c) == 0)
  }

  lemma StartCase(plan: Plan, cases: set<string>, runs: nat, c: string)
    requires Drawn(plan, cases, runs) && c !in cases
    ensures Drawing(plan, cases, runs, c, 0) && ControlFirst(plan, c) == 0
  {
    hide BlockKey, ControlFirst, PlanOk;
    assert Grid({c}, 0) == {};
  }

  lemma EndCase(plan: Plan, cases: set<string>, runs: nat, c: string)
    requires Drawing(plan, cases, runs, c, runs) && c !in cases && Balanced(plan, c, runs)
    ensures Drawn(plan, cases + {c}, runs)
  {
    hide BlockKey, ControlFirst, PlanOk;
    assert Grid(cases + {c}, runs) == Grid(cases, runs) + Grid({c}, runs);
  }

  method DrawCase(drawn: Plan, ghost cases: set<string>, runs: nat, c: string) returns (plan: Plan)
    requires Drawn(drawn, cases, runs) && c !in cases
    ensures Drawn(plan, cases + {c}, runs) && NamesInOrder(plan) == NamesInOrder(drawn) + Repeated(c, runs)
  {
    hide Drawn, Drawing, BlockKey, ControlFirst, NamesInOrder;
    plan := drawn;
    StartCase(plan, cases, runs, c);
    var orders := DrawOrders(runs);
    ghost var first := orders[..];
    for k := 0 to runs
      invariant orders[..] == first && NamesInOrder(plan) == NamesInOrder(drawn) + Repeated(c, k)
      invariant Drawing(plan, cases, runs, c, k) && ControlFirst(plan, c) == Trues(orders[..k])
    {
      var order := if orders[k] then [Control, Candidate] else [Candidate, Control];
      var b := Block(BlockKey(c, k + 1), c, k + 1, order);
      DrawOne(plan, cases, runs, c, k, b);
      OrderSnoc(plan, b);
      TruesSnoc(orders[..], k);
      assert orders[..][..k + 1] == orders[..k + 1] && orders[..][..k] == orders[..k];
      assert order[0] == Control <==> orders[k];
      plan := plan + [b];
    }
    assert orders[..runs] == orders[..];
    EndCase(plan, cases, runs, c);
  }

  method CheckCases(caseIds: seq<string>) returns (ok: bool)
    ensures ok <==> Distinct(caseIds) && "" !in caseIds
  {
    var seen: set<string> := {};
    for i := 0 to |caseIds|
      invariant seen == Elements(caseIds[..i]) && Distinct(caseIds[..i]) && "" !in caseIds[..i]
    {
      assert caseIds[..i + 1] == caseIds[..i] + [caseIds[i]];
      if caseIds[i] == "" || caseIds[i] in seen {
        if caseIds[i] in seen {
          var j :| 0 <= j < i && caseIds[..i][j] == caseIds[i];
          assert caseIds[j] == caseIds[i];
        }
        return false;
      }
      ElementsSnoc(caseIds[..i], caseIds[i]);
      seen := seen + {caseIds[i]};
    }
    assert caseIds[..|caseIds|] == caseIds;
    ok := true;
  }

  method DrawPlan(caseIds: seq<string>, runs: int) returns (ok: bool, plan: Plan)
    ensures ok <==> Drawable(caseIds, runs)
    ensures ok ==> Drawn(plan, Elements(caseIds), runs) && NamesInOrder(plan) == CaseByCase(caseIds, runs)
  {
    hide Drawn;
    plan := [];
    if caseIds == [] || runs < 2 || runs > MAX_RUNS {
      return false, plan;
    }
    ok := CheckCases(caseIds);
    if !ok {
      return;
    }
    NothingDrawn(runs);
    assert caseIds[..0] == [];
    for i := 0 to |caseIds|
      invariant Drawn(plan, Elements(caseIds[..i]), runs) && NamesInOrder(plan) == CaseByCase(caseIds[..i], runs)
    {
      assert caseIds[..i + 1] == caseIds[..i] + [caseIds[i]] && caseIds[..i + 1][..i] == caseIds[..i];
      ElementsSnoc(caseIds[..i], caseIds[i]);
      plan := DrawCase(plan, Elements(caseIds[..i]), runs, caseIds[i]);
    }
    assert caseIds[..|caseIds|] == caseIds;
  }

  lemma NothingDrawn(runs: nat)
    ensures Drawn([], Elements([]), runs)
  {
    assert Grid(Elements([]), runs) == {};
  }

  // ------------------------------------------------ finished campaigns pass the gate

  lemma PlannedIsNamed(plan: Plan, c: Coordinate)
    requires PlanOk(plan) && c in Elements(Flat(plan))
    ensures (c.caseId, c.repetition) in PlanNames(plan)
  {
    var k :| 0 <= k < |Flat(plan)| && Flat(plan)[k] == c;
    assert Flat(plan)[k] == PlannedAt(plan, k);
    hide Flat, PlanOk;
    assert plan[k / 2] in plan;
  }

  lemma NamedIsPlanned(plan: Plan, n: BlockName, v: Variant)
    requires PlanOk(plan) && n in PlanNames(plan)
    ensures Coordinate(n.0, v, n.1) in Elements(Flat(plan))
  {
    var b :| b in plan && (b.caseId, b.repetition) == n;
    var i :| 0 <= i < |plan| && plan[i] == b;
    assert BlockOk(plan[i]);
    var j := if b.order[0] == v then 0 else 1;
    assert Flat(plan)[2 * i + j] == PlannedAt(plan, 2 * i + j);
    hide Flat;
    assert Flat(plan)[2 * i + j] == Coordinate(n.0, v, n.1);
  }

  lemma PlannedNames(plan: Plan, v: Variant)
    requires PlanOk(plan)
    ensures forall c, r: nat :: Coordinate(c, v, r) in Elements(Flat(plan)) <==> (c, r) in PlanNames(plan)
  {
    hide Flat, PlanOk, PlanNames;
    forall c, r: nat
      ensures Coordinate(c, v, r) in Elements(Flat(plan)) <==> (c, r) in PlanNames(plan)
    {
      if Coordinate(c, v, r) in Elements(Flat(plan)) {
        PlannedIsNamed(plan, Coordinate(c, v, r));
      }
      if (c, r) in PlanNames(plan) {
        NamedIsPlanned(plan, (c, r), v);
      }
    }
  }

  /** A finished arm: one sample for each planned block and nothing else. */
  lemma FinishedArm(cfg: Config, m: Memory, v: Variant)
    requires MemoryOk(cfg, m, 2 * |cfg.plan|)
    ensures DistinctNames(Arm(m, v)) && Names(Arm(m, v)) == PlanNames(cfg.plan)
    ensures forall s :: s in Arm(m, v) ==> s.variant == v
  {
    ArmFacts(cfg, m, 2 * |cfg.plan|, v);
    PlannedNames(cfg.plan, v);
    assert m.completed == Elements(Flat(cfg.plan)) by {
      assert Flat(cfg.plan)[..2 * |cfg.plan|] == Flat(cfg.plan);
    }
    hide MemoryOk, Flat, PlanOk, PlanNames;
    var ss := Arm(m, v);
    forall s | s in ss
      ensures s.variant == v && NameOf(s) in PlanNames(cfg.plan)
    {
      var i :| 0 <= i < |ss| && ss[i] == s;
      assert Coordinates(ss)[i] in Coordinates(ss);
      assert CoordinateOf(s) in m.completed;
      assert Coordinate(s.caseId, v, s.repetition) == CoordinateOf(s);
    }
    forall i, j | 0 <= i < j < |ss|
      ensures NameOf(ss[i]) != NameOf(ss[j])
    {
      assert Coordinates(ss)[i] != Coordinates(ss)[j];
      assert ss[i] in ss && ss[j] in ss;
    }
    forall n | n in PlanNames(cfg.plan)
      ensures n in Names(ss)
    {
      assert Coordinate(n.0, v, n.1) in Coordinates(ss);
      var i :| 0 <= i < |ss| && Coordinates(ss)[i] == Coordinate(n.0, v, n.1);
      assert ss[i] in ss && NameOf(ss[i]) == n;
    }
  }

  /** The case as the file names it. */
  function Renamed(refs: References, c: string): string {
    if c in refs then refs[c] else c
  }

  function RenamedAll(refs: References, cases: set<string>): set<string> {
    set c | c in cases :: Renamed(refs, c)
  }

  lemma RenamedOnce(refs: References, cases: set<string>, c: string, d: string)
    requires Injective(refs) && ConflictFree(refs, cases) && c in cases && d in cases && Renamed(refs, c) == Renamed(refs, d)
    ensures c == d
  {
  }

  lemma {:induction false} RenamedSize(refs: References, all: set<string>, cases: set<string>)
    requires Injective(refs) && ConflictFree(refs, all) && cases <= all
    ensures |RenamedAll(refs, cases)| == |cases|
  {
    if c :| c in cases {
      var rest := cases - {c};
      RenamedSize(refs, all, rest);
      assert RenamedAll(refs, cases) == RenamedAll(refs, rest) + {Renamed(refs, c)};
      if Renamed(refs, c) in RenamedAll(refs, rest) {
        var d :| d in rest && Renamed(refs, d) == Renamed(refs, c);
        RenamedOnce(refs, all, c, d);
        assert false;
      }
    } else {
      assert RenamedAll(refs, cases) == {};
    }
  }

  lemma PublishedName(refs: References, s: Sample)
    ensures NameOf(Publish(refs, s)) == (Renamed(refs, s.caseId), s.repetition) && Publish(refs, s).variant == s.variant
  {
  }

  lemma CasesOfGrid(runs: seq<Sample>, cases: set<string>, n: nat)
    requires Names(runs) == Grid(cases, n) && n >= 1
    ensures Cases(runs) == cases
  {
    forall c
      ensures c in Cases(runs) <==> c in cases
    {
      if c in cases {
        assert (c, 1) in Grid(cases, n);
        var s :| s in runs && NameOf(s) == (c, 1);
      }
      if c in Cases(runs) {
        var s :| s in runs && s.caseId == c;
        assert NameOf(s) in Names(runs);
      }
    }
  }

  /** Publishing an arm that covers a grid covers the renamed grid. */
  lemma PublishedArm(refs: References, ss: seq<Sample>, v: Variant, all: set<string>, cases: set<string>, runs: nat)
    requires Injective(refs) && ConflictFree(refs, all) && cases <= all
    requires DistinctNames(ss) && Names(ss) == Grid(cases, runs) && forall s :: s in ss ==> s.variant == v
    ensures DistinctNames(PublishAll(refs, ss)) && Names(PublishAll(refs, ss)) == Grid(RenamedAll(refs, cases), runs)
    ensures forall p :: p in PublishAll(refs, ss) ==> p.variant == v
  {
    var ps := PublishAll(refs, ss);
    forall i | 0 <= i < |ss|
      ensures NameOf(ps[i]) == (Renamed(refs, ss[i].caseId), ss[i].repetition) && ps[i].variant == v && NameOf(ss[i]) in Names(ss)
    {
      PublishedName(refs, ss[i]);
      assert ss[i] in ss;
    }
    hide Publish, Renamed, Injective, ConflictFree;
    forall i, j | 0 <= i < j < |ps|
      ensures NameOf(ps[i]) != NameOf(ps[j])
    {
      assert NameOf(ss[i]) != NameOf(ss[j]);
      assert NameOf(ss[i]) in Grid(cases, runs) && NameOf(ss[j]) in Grid(cases, runs);
      if Renamed(refs, ss[i].caseId) == Renamed(refs, ss[j].caseId) {
        RenamedOnce(refs, all, ss[i].caseId, ss[j].caseId);
      }
    }
    forall n
      ensures n in Names(ps) <==> n in Grid(RenamedAll(refs, cases), runs)
    {
      if n in Names(ps) {
        var i :| 0 <= i < |ps| && NameOf(ps[i]) == n;
        assert NameOf(ss[i]) in Grid(cases, runs);
        assert Renamed(refs, ss[i].caseId) in RenamedAll(refs, cases);
      }
      if n in Grid(RenamedAll(refs, cases), runs) {
        var c :| c in cases && Renamed(refs, c) == n.0;
        assert (c, n.1) in Names(ss);
        var s :| s in ss && NameOf(s) == (c, n.1);
        var i :| 0 <= i < |ss| && ss[i] == s;
        assert ps[i] in ps && NameOf(ps[i]) == n;
      }
    }
  }

  /** A campaign that finished a full grid passes the population gate, on the samples in
      memory and, unless a case is named like a reference, on the published ones too. */
  lemma FinishedPassesTheGate(cfg: Config, m: Memory, cases: set<string>, runs: nat)
    requires MemoryOk(cfg, m, 2 * |cfg.plan|) && PlanNames(cfg.plan) == Grid(cases, runs) && runs >= 1 && cases != {}
    ensures GatePasses(m.control, m.candidate, runs, |cases|)
    ensures ConflictFree(cfg.refs, cfg.cases) ==>
      GatePasses(Published(cfg.refs, m).control, Published(cfg.refs, m).candidate, runs, |cases|)
  {
    FinishedArm(cfg, m, Control);
    FinishedArm(cfg, m, Candidate);
    CasesOfGrid(m.control, cases, runs);
    var c :| c in cases;
    assert |cases| >= 1;
    if ConflictFree(cfg.refs, cfg.cases) {
      PlannedCases(cfg, cases, runs);
      PublishedArm(cfg.refs, m.control, Control, cfg.cases, cases, runs);
      PublishedArm(cfg.refs, m.candidate, Candidate, cfg.cases, cases, runs);
      RenamedSize(cfg.refs, cfg.cases, cases);
      CasesOfGrid(PublishAll(cfg.refs, m.control), RenamedAll(cfg.refs, cases), runs);
    }
    hide MemoryOk, PlanNames, Names, DistinctNames, Grid, Cases, RenamedAll, PublishAll, ConflictFree;
  }

  lemma PlannedCases(cfg: Config, cases: set<string>, runs: nat)
    requires ConfigOk(cfg) && PlanNames(cfg.plan) == Grid(cases, runs) && runs >= 1
    ensures cases <= cfg.cases
  {
    forall c | c in cases
      ensures c in cfg.cases
    {
      assert (c, 1) in PlanNames(cfg.plan);
      var b :| b in cfg.plan && (b.caseId, b.repetition) == (c, 1);
      var i :| 0 <= i < |cfg.plan| && cfg.plan[i] == b;
    }
  }
}
