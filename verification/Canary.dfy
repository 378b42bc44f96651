/** The workflow canary: an executor that stops at the first sample that does not pass, a
    validator that trusts nothing the executor says, and the gate that promotes. */
module Canary {
  import opened Holdout
  import opened Checkpoint

  const MAX_SAMPLES := 6
  const MAX_INPUT_RATIO := 1.15

  /** What the provenance says about the runtime of a sample; a digest that is not canonical is None. */
  datatype Runtime =
    Runtime(toolset: Option<string>, provider: string, model: string, mode: string, network: string,
            catalog: Option<string>, authorized: bool, authorization: Option<string>)

  /** `valid`: the result contract holds. `bound`: the provenance names the frozen bundles and
      case. `checked`: every required hard check passed. `attested`: the runtime was cleaned up. */
  datatype RunSample =
    RunSample(runId: string, at: Coordinate, status: Status, valid: bool, bound: bool, checked: bool, attested: bool,
              telemetry: bool, tokens: int, sessions: int, runtime: Runtime)

  datatype Failure = NoFailure | DeadlineExceeded | Canceled | Infrastructure

  /** A time that was never set is None. */
  datatype Execution = Execution(samples: seq<RunSample>, cleanupComplete: bool, started: Option<int>, ended: Option<int>)

  /** `error`: what the run failed with. `context`: why its time is over, if it is. */
  datatype Answer = Answer(samples: seq<RunSample>, error: Failure, context: Failure)

  /** What the model runner answers for a coordinate; each is asked for at most once. */
  type Runner = Coordinate -> Answer

  // ------------------------------------------------------------------ properties

  /** Sample by sample the coordinates of the plan, in order. */
  predicate Ordered(samples: seq<RunSample>, plan: Plan)
    requires PlanOk(plan)
  {
    |samples| <= |Flat(plan)| && forall i :: 0 <= i < |samples| ==> samples[i].at == Flat(plan)[i]
  }

  /** Nothing ran after a sample that did not pass. */
  predicate FailFast(samples: seq<RunSample>) {
    forall i :: 0 <= i < |samples| - 1 ==> samples[i].status == Pass
  }

  predicate AllAttested(samples: seq<RunSample>) {
    forall i :: 0 <= i < |samples| ==> samples[i].attested
  }

  predicate SoundSamples(samples: seq<RunSample>) {
    forall i :: 0 <= i < |samples| ==> samples[i].valid && (samples[i].status == Pass ==> samples[i].attested)
  }

  /** The part of a result that no executor has to be trusted for. */
  predicate WellExecuted(r: Execution, plan: Plan)
    requires PlanOk(plan)
  {
    Ordered(r.samples, plan) && FailFast(r.samples) && SoundSamples(r.samples) && (r.cleanupComplete ==> AllAttested(r.samples))
  }

  predicate DistinctRunIds(samples: seq<RunSample>) {
    forall i, j :: 0 <= i < j < |samples| ==> samples[i].runId != samples[j].runId
  }

  /** What the validator accepts. */
  predicate Validated(r: Execution, plan: Plan)
    requires PlanOk(plan)
  {
    && |Flat(plan)| == MAX_SAMPLES && WellExecuted(r, plan) && DistinctRunIds(r.samples) && Bound(r.samples)
    && TimesOk(r)
  }

  /** Bound to the frozen inputs, and those that passed were checked. */
  predicate Bound(samples: seq<RunSample>) {
    forall i :: 0 <= i < |samples| ==> samples[i].bound && (samples[i].status == Pass ==> samples[i].checked)
  }

  predicate TimesOk(r: Execution) {
    r.started.Some? && r.ended.Some? ==> r.started.value <= r.ended.value
  }

  // -------------------------------------------------------------------- executor

  /** The runner answered with one sound sample of the coordinate, in time. */
  predicate Answers(runner: Runner, known: set<string>, c: Coordinate) {
    && c.caseId in known && runner(c).error == runner(c).context == NoFailure && |runner(c).samples| == 1
    && runner(c).samples[0].at == c && runner(c).samples[0].valid && runner(c).samples[0].attested
  }

  /** The samples are what the runner answered for the first coordinates of the plan. */
  predicate FromRunner(samples: seq<RunSample>, plan: Plan, runner: Runner)
    requires PlanOk(plan)
  {
    |samples| <= |Flat(plan)| && forall i :: 0 <= i < |samples| ==> runner(Flat(plan)[i]).samples == [samples[i]]
  }

  /** Every coordinate that has a sample was known, its runner did not fail, and all but the last
      one passed in time. */
  predicate RanOn(samples: seq<RunSample>, plan: Plan, known: set<string>, runner: Runner)
    requires PlanOk(plan) && |samples| <= |Flat(plan)|
  {
    forall i :: 0 <= i < |samples| ==>
      && Flat(plan)[i].caseId in known && runner(Flat(plan)[i]).error == NoFailure
      && (i < |samples| - 1 ==> samples[i].status == Pass && runner(Flat(plan)[i]).context == NoFailure)
  }

  /** What the last sample ended, if it did: it did not pass, or its time was over. */
  predicate EndedBySample(samples: seq<RunSample>, plan: Plan, runner: Runner)
    requires PlanOk(plan) && |samples| <= |Flat(plan)|
  {
    var last := |samples| - 1;
    samples != [] && (samples[last].status != Pass || runner(Flat(plan)[last]).context != NoFailure)
  }

  /** How a run ends that nothing but its runner disturbs: with its last sample, with the whole
      plan, or at the coordinate `c` that is next. A runner that fails takes the claim of a
      complete cleanup with it, and so does a pass that is not attested; a time that is over
      is reported before any other failure. */
  predicate Ends(r: Execution, plan: Plan, known: set<string>, runner: Runner, failure: Failure)
    requires PlanOk(plan) && |r.samples| <= |Flat(plan)|
  {
    var n := |r.samples|;
    if EndedBySample(r.samples, plan, runner) then
      failure == runner(Flat(plan)[n - 1]).context && (r.cleanupComplete <==> AllAttested(r.samples))
    else if n == |Flat(plan)| then failure == NoFailure && (r.cleanupComplete <==> AllAttested(r.samples))
    else
      var c, a := Flat(plan)[n], runner(Flat(plan)[n]);
      if c.caseId !in known then failure == Infrastructure && (r.cleanupComplete <==> AllAttested(r.samples))
      else if a.error != NoFailure then
        !r.cleanupComplete && failure == if a.context != NoFailure then a.context else a.error
      else
        && failure == Infrastructure
        && (|a.samples| == 1 && a.samples[0].at == c && a.samples[0].valid ==>
              a.samples[0].status == Pass && !a.samples[0].attested)
        && (r.cleanupComplete <==> AllAttested(r.samples) && !(|a.samples| == 1 && a.samples[0].at == c && a.samples[0].valid))
  }

  /** Runs the plan coordinate by coordinate. Time runs out, the run is cancelled and authority
      fails at any point, and then it is not `calm` any more; the runner answers whatever it
      likes. The validator refuses the result only for its run ids or for what the samples are
      bound to, never for order, fail-fast or cleanup. */
  method Execute(plan: Plan, known: set<string>, runner: Runner, started: Option<int>, ended: Option<int>)
    returns (r: Execution, failure: Failure, ghost calm: bool)
    requires PlanOk(plan)
    ensures WellExecuted(r, plan) && FromRunner(r.samples, plan, runner) && r.started == started && r.ended == ended
    ensures failure == NoFailure ==>
      && (|r.samples| == |Flat(plan)| || (r.samples != [] && r.samples[|r.samples| - 1].status != Pass))
      && (r.cleanupComplete <==> AllAttested(r.samples))
    ensures RanOn(r.samples, plan, known, runner)
    ensures if calm then Ends(r, plan, known, runner, failure)
      else failure in {DeadlineExceeded, Canceled, Infrastructure} && (r.cleanupComplete <==> AllAttested(r.samples))
    ensures calm && (forall i :: 0 <= i < |Flat(plan)| ==> Answers(runner, known, Flat(plan)[i])) ==> failure == NoFailure
    ensures |Flat(plan)| == MAX_SAMPLES && TimesOk(r) ==> (Validated(r, plan) <==> DistinctRunIds(r.samples) && Bound(r.samples))
  {
    hide PlanOk, Flat;
    var coordinates := Flat(plan);
    var samples: seq<RunSample>, cleanup := [], true;
    failure, calm := NoFailure, true;
    for i := 0 to |coordinates|
      invariant |samples| == i && WellExecuted(Execution(samples, cleanup, started, ended), plan)
      invariant FromRunner(samples, plan, runner) && (cleanup <==> AllAttested(samples))
      invariant RanOn(samples, plan, known, runner) && !EndedBySample(samples, plan, runner)
      invariant forall j :: 0 <= j < i ==> samples[j].status == Pass
    {
      r := Execution(samples, cleanup, started, ended);
      if * {
        var late := *;
        return r, if late then DeadlineExceeded else Canceled, false;
      }
      if coordinates[i].caseId !in known {
        return r, Infrastructure, calm;
      }
      if * {
        return r, Infrastructure, false;
      }
      var answer := runner(coordinates[i]);
      if answer.error != NoFailure {
        r := r.(cleanupComplete := false);
        return r, if answer.context != NoFailure then answer.context else answer.error, calm;
      }
      if * {
        return r, Infrastructure, false;
      }
      if |answer.samples| != 1 || answer.samples[0].at != coordinates[i] || !answer.samples[0].valid {
        return r, Infrastructure, calm;
      }
      var sample := answer.samples[0];
      if !sample.attested {
        cleanup := false;
      }
      r := Execution(samples, cleanup, started, ended);
      if sample.status == Pass && !sample.attested {
        return r, Infrastructure, calm;
      }
      samples := samples + [sample];
      assert answer.samples == [sample];
      r := Execution(samples, cleanup, started, ended);
      if answer.context != NoFailure {
        return r, answer.context, calm;
      }
      if sample.status != Pass {
        return r, NoFailure, calm;
      }
    }
    r := Execution(samples, cleanup, started, ended);
  }

  // ------------------------------------------------------------------- validator

  method Validate(r: Execution, plan: Plan) returns (ok: bool)
    requires PlanOk(plan)
    ensures ok <==> Validated(r, plan)
  {
    hide PlanOk, Flat;
    var expected := Flat(plan);
    if |expected| != MAX_SAMPLES || |r.samples| > |expected| {
      return false;
    }
    AcceptedSamples(r, plan);
    hide Validated;
    var seen: set<string> := {};
    for i := 0 to |r.samples|
      invariant forall j :: 0 <= j < i ==> SampleAccepted(r.samples, expected, j)
      invariant seen == set j | 0 <= j < i :: r.samples[j].runId
      invariant forall j, k :: 0 <= j < k < i ==> r.samples[j].runId != r.samples[k].runId
    {
      var sample := r.samples[i];
      if !sample.valid || sample.at != expected[i] || sample.runId in seen {
        assert sample.runId !in seen ==> !SampleAccepted(r.samples, expected, i);
        return false;
      }
      seen := seen + {sample.runId};
      if i + 1 < |r.samples| && sample.status != Pass {
        assert !SampleAccepted(r.samples, expected, i);
        return false;
      }
      if !sample.bound {
        assert !SampleAccepted(r.samples, expected, i);
        return false;
      }
      if sample.status == Pass {
        if !sample.attested || !sample.checked {
          assert !SampleAccepted(r.samples, expected, i);
          return false;
        }
      }
    }
    if r.cleanupComplete {
      var attested := CheckAttested(r.samples);
      if !attested {
        return false;
      }
    }
    ok := r.started.None? || r.ended.None? || r.started.value <= r.ended.value;
  }

  lemma AcceptedSamples(r: Execution, plan: Plan)
    requires PlanOk(plan) && |r.samples| <= |Flat(plan)| == MAX_SAMPLES
    ensures Validated(r, plan) <==>
      && (forall j :: 0 <= j < |r.samples| ==> SampleAccepted(r.samples, Flat(plan), j))
      && DistinctRunIds(r.samples) && (r.cleanupComplete ==> AllAttested(r.samples)) && TimesOk(r)
  {
    hide PlanOk, Flat, AllAttested, DistinctRunIds;
    if Validated(r, plan) {
      forall j | 0 <= j < |r.samples|
        ensures SampleAccepted(r.samples, Flat(plan), j)
      {
      }
    }
    if forall j :: 0 <= j < |r.samples| ==> SampleAccepted(r.samples, Flat(plan), j) {
      forall j | 0 <= j < |r.samples|
        ensures r.samples[j].valid && r.samples[j].at == Flat(plan)[j] && r.samples[j].bound
        ensures j < |r.samples| - 1 ==> r.samples[j].status == Pass
        ensures r.samples[j].status == Pass ==> r.samples[j].attested && r.samples[j].checked
      {
        assert SampleAccepted(r.samples, Flat(plan), j);
      }
    }
  }

  predicate SampleAccepted(samples: seq<RunSample>, expected: seq<Coordinate>, j: nat)
    requires j < |samples| <= |expected|
  {
    && samples[j].valid && samples[j].at == expected[j] && samples[j].bound
    && (j + 1 < |samples| ==> samples[j].status == Pass)
    && (samples[j].status == Pass ==> samples[j].attested && samples[j].checked)
  }

  method CheckAttested(samples: seq<RunSample>) returns (ok: bool)
    ensures ok <==> AllAttested(samples)
  {
    for i := 0 to |samples|
      invariant forall j :: 0 <= j < i ==> samples[j].attested
    {
      if !samples[i].attested {
        return false;
      }
    }
    ok := true;
  }

  // ------------------------------------------------------------------------ gate

  /** The last sample of a case and variant. */
  function LastOf(samples: seq<RunSample>, c: string, v: Variant): Option<RunSample> {
    if samples == [] then None else
      var s := samples[|samples| - 1];
      if s.at.caseId == c && s.at.variant == v then Some(s) else LastOf(samples[..|samples| - 1], c, v)
  }

  lemma {:induction false} LastOfIs(samples: seq<RunSample>, c: string, v: Variant)
    ensures LastOf(samples, c, v).None? ==> forall i :: 0 <= i < |samples| ==> (samples[i].at.caseId, samples[i].at.variant) != (c, v)
    ensures LastOf(samples, c, v).Some? ==> exists i :: 0 <= i < |samples| && IsLast(samples, i, c, v) && LastOf(samples, c, v).value == samples[i]
  {
    if samples != [] {
      var n := |samples| - 1;
      var rest, s := samples[..n], samples[n];
      if s.at.caseId == c && s.at.variant == v {
        assert IsLast(samples, n, c, v);
      } else {
        LastOfIs(rest, c, v);
        assert forall j :: 0 <= j < n ==> rest[j] == samples[j];
        if LastOf(rest, c, v).Some? {
          var i :| 0 <= i < n && IsLast(rest, i, c, v) && LastOf(rest, c, v).value == rest[i];
          assert IsLast(samples, i, c, v);
        }
      }
    }
  }

  predicate IsLast(samples: seq<RunSample>, i: nat, c: string, v: Variant)
    requires i < |samples|
  {
    && samples[i].at.caseId == c && samples[i].at.variant == v
    && forall j :: i < j < |samples| ==> (samples[j].at.caseId, samples[j].at.variant) != (c, v)
  }

  function CasesOf(samples: seq<RunSample>): set<string> {
    set s | s in samples :: s.at.caseId
  }

  /** The runtimes are named and do not differ in anything, except in authorization digests
      that neither of them carries. */
  predicate SameRuntime(a: Runtime, b: Runtime) {
    && a.toolset.Some? && a.provider != "" && a.model != "" && a.catalog.Some?
    && a == b.(authorization := if a.authorized then b.authorization else a.authorization)
    && (a.authorized ==> a.authorization.Some?)
  }

  method CompareRuntimes(a: Runtime, b: Runtime) returns (same: bool)
    ensures same <==> SameRuntime(a, b)
  {
    if a.toolset.None? || a.toolset != b.toolset || a.provider == "" || a.provider != b.provider
       || a.model == "" || a.model != b.model || a.mode != b.mode || a.network != b.network
       || a.catalog.None? || a.catalog != b.catalog {
      return false;
    }
    if a.authorized || b.authorized {
      if !a.authorized || !b.authorized || a.authorization.None? || a.authorization != b.authorization {
        return false;
      }
    }
    same := true;
  }

  predicate Complete(samples: seq<RunSample>, c: string) {
    LastOf(samples, c, Control).Some? && LastOf(samples, c, Candidate).Some?
  }

  predicate PairCompatible(samples: seq<RunSample>, c: string) {
    Complete(samples, c) ==>
      SameRuntime(LastOf(samples, c, Control).value.runtime, LastOf(samples, c, Candidate).value.runtime)
  }

  datatype Pair = Pair(control: Option<RunSample>, candidate: Option<RunSample>)

  method Pairs(samples: seq<RunSample>) returns (pairs: map<string, Pair>)
    ensures pairs.Keys == CasesOf(samples)
    ensures forall c :: c in pairs ==> pairs[c] == Pair(LastOf(samples, c, Control), LastOf(samples, c, Candidate))
  {
    pairs := map[];
    for i := 0 to |samples|
      invariant pairs.Keys == CasesOf(samples[..i])
      invariant forall c :: c in pairs ==> pairs[c] == Pair(LastOf(samples[..i], c, Control), LastOf(samples[..i], c, Candidate))
    {
      var s := samples[i];
      assert samples[..i + 1] == samples[..i] + [s] && samples[..i + 1][..i] == samples[..i];
      NoneBefore(samples[..i], s.at.caseId);
      var before := if s.at.caseId in pairs then pairs[s.at.caseId] else Pair(None, None);
      pairs := pairs[s.at.caseId := if s.at.variant == Control then before.(control := Some(s)) else before.(candidate := Some(s))];
    }
    assert samples[..|samples|] == samples;
  }

  lemma {:induction false} NoneBefore(samples: seq<RunSample>, c: string)
    ensures c !in CasesOf(samples) ==> LastOf(samples, c, Control).None? && LastOf(samples, c, Candidate).None?
  {
    if samples != [] {
      NoneBefore(samples[..|samples| - 1], c);
      assert samples[|samples| - 1] in samples;
    }
  }

  method RuntimeCompatible(samples: seq<RunSample>) returns (compatible: bool, complete: nat)
    ensures compatible <==> forall c :: c in CasesOf(samples) ==> PairCompatible(samples, c)
    ensures compatible ==> complete == |set c | c in CasesOf(samples) && Complete(samples, c)|
  {
    hide LastOf, CasesOf, SameRuntime;
    var pairs := Pairs(samples);
    var rest := pairs.Keys;
    ghost var counted: set<string> := {};
    complete := 0;
    while rest != {}
      invariant rest <= pairs.Keys && counted == set c | c in pairs.Keys - rest && Complete(samples, c)
      invariant complete == |counted|
      invariant forall c :: c in pairs.Keys - rest ==> PairCompatible(samples, c)
      decreases rest
    {
      var c :| c in rest;
      rest := rest - {c};
      var pair := pairs[c];
      if pair.control.Some? && pair.candidate.Some? {
        counted := counted + {c};
        complete := complete + 1;
        var same := CompareRuntimes(pair.control.value.runtime, pair.candidate.value.runtime);
        if !same {
          assert !PairCompatible(samples, c);
          return false, complete;
        }
      }
    }
    assert pairs.Keys - rest == CasesOf(samples);
    compatible := true;
  }

  function Tokens(samples: seq<RunSample>, v: Variant): int {
    if samples == [] then 0 else
      Tokens(samples[..|samples| - 1], v) + if samples[|samples| - 1].at.variant == v then samples[|samples| - 1].tokens else 0
  }

  /** A sample counts for its own side, and the counts of two lists add up. */
  lemma {:induction false} TokensTogether(a: seq<RunSample>, b: seq<RunSample>, v: Variant)
    ensures Tokens(a + b, v) == Tokens(a, v) + Tokens(b, v)
    ensures |b| == 1 ==> Tokens(b, v) == if b[0].at.variant == v then b[0].tokens else 0
  {
    if b == [] {
      assert a + b == a;
    } else {
      var n := |b| - 1;
      TokensTogether(a, b[..n], v);
      assert (a + b)[..|a + b| - 1] == a + b[..n];
      assert |b| == 1 ==> b[..n] == [];
    }
  }

  predicate TelemetryComplete(samples: seq<RunSample>) {
    forall i :: 0 <= i < |samples| ==> samples[i].telemetry && samples[i].tokens > 0 && samples[i].sessions > 0
  }

  datatype Decision = Promote | Reject | Undecided

  /** The whole plan passed, cleanly, comparably and measured: only the ratio is left to ask. */
  predicate Measured(r: Execution, plan: Plan, failure: Failure)
    requires PlanOk(plan)
  {
    && failure == NoFailure
    && |r.samples| == |Flat(plan)| == MAX_SAMPLES && (forall i :: 0 <= i < |r.samples| ==> r.samples[i].status == Pass)
    && (forall c :: c in CasesOf(r.samples) ==> PairCompatible(r.samples, c))
    && r.cleanupComplete && AllAttested(r.samples) && TelemetryComplete(r.samples)
    && Tokens(r.samples, Control) > 0 && Tokens(r.samples, Candidate) > 0
  }

  /** What promotion asks for, all of it. */
  predicate MayPromote(r: Execution, plan: Plan, failure: Failure)
    requires PlanOk(plan)
  {
    Measured(r, plan, failure) && WithinRatio(r)
  }

  predicate WithinRatio(r: Execution) {
    Tokens(r.samples, Candidate) as real <= MAX_INPUT_RATIO * Tokens(r.samples, Control) as real
  }

  /** Evidence against the candidate: time ran out, a sample failed, or it read too much. */
  predicate MustReject(r: Execution, plan: Plan, failure: Failure)
    requires PlanOk(plan)
  {
    || failure == DeadlineExceeded
    || (exists i :: 0 <= i < |r.samples| && r.samples[i].status in {BudgetExhausted, Fail})
    || (Measured(r, plan, failure) && !WithinRatio(r))
  }

  /** The counters of the summary that the decision reads. */
  method Summarize(samples: seq<RunSample>) returns (timeouts: nat, telemetry: bool, control: int, candidate: int)
    ensures timeouts > 0 <==> exists i :: 0 <= i < |samples| && samples[i].status == BudgetExhausted
    ensures telemetry <==> TelemetryComplete(samples)
    ensures control == Tokens(samples, Control) && candidate == Tokens(samples, Candidate)
  {
    timeouts, telemetry, control, candidate := 0, true, 0, 0;
    for i := 0 to |samples|
      invariant timeouts > 0 <==> exists j :: 0 <= j < i && samples[j].status == BudgetExhausted
      invariant telemetry <==> TelemetryComplete(samples[..i])
      invariant control == Tokens(samples[..i], Control) && candidate == Tokens(samples[..i], Candidate)
    {
      var s := samples[i];
      assert samples[..i + 1][..i] == samples[..i];
      if s.status == BudgetExhausted {
        timeouts := timeouts + 1;
      }
      if !s.telemetry {
        telemetry := false;
      }
      if s.tokens <= 0 || s.sessions <= 0 {
        telemetry := false;
      }
      if s.at.variant == Control {
        control := control + s.tokens;
      } else {
        candidate := candidate + s.tokens;
      }
    }
    assert samples[..|samples|] == samples;
  }

  method HasStatus(samples: seq<RunSample>, statuses: set<Status>) returns (found: bool)
    ensures found <==> exists i :: 0 <= i < |samples| && samples[i].status in statuses
  {
    for i := 0 to |samples|
      invariant forall j :: 0 <= j < i ==> samples[j].status !in statuses
    {
      if samples[i].status in statuses {
        return true;
      }
    }
    found := false;
  }

  /** Promotes exactly when everything promotion asks for holds, rejects exactly on evidence,
      and is undecided about everything else. A validated promotion compared both runs of every
      planned case in one runtime. */
  method Evaluate(r: Execution, plan: Plan, failure: Failure) returns (decision: Decision)
    requires PlanOk(plan)
    ensures decision == Promote <==> MayPromote(r, plan, failure)
    ensures decision == Reject <==> MustReject(r, plan, failure)
    ensures decision == Promote ==> |r.samples| == 6 && 100 * Tokens(r.samples, Candidate) <= 115 * Tokens(r.samples, Control)
    ensures decision == Promote && Validated(r, plan) ==>
      forall b :: b in plan ==> Complete(r.samples, b.caseId) && PairCompatible(r.samples, b.caseId)
  {
    hide PlanOk, Flat, TelemetryComplete, AllAttested, CasesOf, PairCompatible, Tokens;
    var timeouts, telemetry, control, candidate := Summarize(r.samples);
    if failure == DeadlineExceeded || timeouts > 0 {
      return Reject;
    }
    var failed := HasStatus(r.samples, {Fail});
    if failed {
      return Reject;
    }
    var compatible, complete := RuntimeCompatible(r.samples);
    if !compatible {
      return Undecided;
    }
    if failure != NoFailure {
      return Undecided;
    }
    var stopped := HasStatus(r.samples, {Invalid, InfraError, Aborted, Inconclusive});
    if stopped {
      return Undecided;
    }
    assert forall i :: 0 <= i < |r.samples| ==> r.samples[i].status == Pass;
    var attested := CheckAttested(r.samples);
    if !r.cleanupComplete || !attested {
      return Undecided;
    }
    if |r.samples| != |Flat(plan)| || |r.samples| != MAX_SAMPLES {
      return Undecided;
    }
    if !telemetry || control <= 0 || candidate <= 0 {
      return Undecided;
    }
    RatioIsProduct(candidate as real, control as real);
    var ratio := candidate as real / control as real;
    decision := if ratio > MAX_INPUT_RATIO then Reject else Promote;
    if Validated(r, plan) {
      EveryCaseRan(r, plan);
    }
  }

  /** A run of the whole plan ran every case on both sides. */
  lemma EveryCaseRan(r: Execution, plan: Plan)
    requires PlanOk(plan) && Ordered(r.samples, plan) && |r.samples| == |Flat(plan)|
    ensures forall b :: b in plan ==> Complete(r.samples, b.caseId) && b.caseId in CasesOf(r.samples)
  {
    forall b | b in plan
      ensures Complete(r.samples, b.caseId) && b.caseId in CasesOf(r.samples)
    {
      var i :| 0 <= i < |plan| && plan[i] == b;
      BothRuns(r, plan, i);
    }
  }

  lemma RatioIsProduct(a: real, b: real)
    requires b > 0.0
    ensures a / b > MAX_INPUT_RATIO <==> a > MAX_INPUT_RATIO * b
  {
    assert a / b * b == a;
  }

  // ------------------------------------------------------------- what a promotion means

  lemma {:induction false} LastIsThere(samples: seq<RunSample>, c: string, v: Variant, i: nat)
    requires i < |samples| && samples[i].at.caseId == c && samples[i].at.variant == v
    ensures LastOf(samples, c, v).Some?
  {
    if i < |samples| - 1 {
      LastIsThere(samples[..|samples| - 1], c, v, i);
    }
  }

  lemma BothRuns(r: Execution, plan: Plan, i: nat)
    requires PlanOk(plan) && i < |plan| && Ordered(r.samples, plan) && |r.samples| == |Flat(plan)|
    ensures Complete(r.samples, plan[i].caseId) && plan[i].caseId in CasesOf(r.samples)
  {
    var b := plan[i];
    assert BlockOk(b);
    assert Flat(plan)[2 * i] == PlannedAt(plan, 2 * i) && Flat(plan)[2 * i + 1] == PlannedAt(plan, 2 * i + 1);
    assert r.samples[2 * i].at == Flat(plan)[2 * i] && r.samples[2 * i + 1].at == Flat(plan)[2 * i + 1];
    assert r.samples[2 * i] in r.samples;
    hide Flat, PlanOk;
    LastIsThere(r.samples, b.caseId, b.order[0], 2 * i);
    LastIsThere(r.samples, b.caseId, b.order[1], 2 * i + 1);
  }
}

