/** The campaign as processes run it: block by block, sample by sample, each sample
    checkpointed, a drifted block rolled back, any process killed at any time and the
    next one going on from the file. */
module Campaign {
  import opened Holdout
  import opened Checkpoint
  import opened Resume

  datatype Outcome =
    | Killed | NotResumable | SaveFailed | SampleFailed | ClosureDrifted | Drifted | Interrupted | Incomplete | Finished | Continue

  /** One answer of the model runner: its samples, whether it also reported an error and
      whether its exit code ends the campaign. */
  datatype Answer = Answer(samples: seq<Sample>, failed: bool, stop: bool)

  /** What the runner answers for a coordinate, knowing the run ids in use. A process asks
      for each coordinate at most once, so this is any sequence of answers at all. */
  type Runner = (Coordinate, set<RunId>) -> Answer

  const DEFERRED := Revealed("runner reported an error after producing this sample")

  /** A sample that was produced before its runner failed is no pass. */
  function Deferred(s: Sample): (r: Sample)
    ensures CoordinateOf(r) == CoordinateOf(s) && r.runId == s.runId && r.measured == s.measured
    ensures if s.status.Pass? then r.status.InfraError? && r.detail == DEFERRED else r == s
  {
    if s.status == Pass then s.(status := InfraError, detail := DEFERRED) else s
  }

  method MarkDeferred(samples: seq<Sample>) returns (marked: seq<Sample>)
    ensures |marked| == |samples| && forall i :: 0 <= i < |samples| ==> marked[i] == Deferred(samples[i])
  {
    marked := samples;
    for i := 0 to |samples|
      invariant |marked| == |samples|
      invariant forall j :: 0 <= j < |samples| ==> marked[j] == if j < i then Deferred(samples[j]) else samples[j]
    {
      if marked[i].status != Pass {
        continue;
      }
      marked := marked[i := marked[i].(status := InfraError, detail := DEFERRED)];
    }
  }

  /** The answer says this about its coordinate; where the runner failed, a pass is none. */
  predicate Tells(a: Answer, r: Result) {
    && |a.samples| == 1 && CoordinateOf(a.samples[0]) == r.coordinate && a.samples[0].measured == r.measured
    && r.status == if a.failed && a.samples[0].status.Pass? then InfraError else a.samples[0].status
  }

  ghost predicate Heard(runner: Runner, r: Result) {
    exists ids: set<RunId> :: Tells(runner(r.coordinate, ids), r)
  }

  /** Whatever is reported was reported before or has been heard from the runner. */
  ghost predicate Grown(before: set<Result>, runner: Runner, after: set<Result>) {
    forall r :: r in after ==> r in before || Heard(runner, r)
  }

  ghost predicate HeardFrom(runners: seq<Runner>, r: Result) {
    exists k :: 0 <= k < |runners| && Heard(runners[k], r)
  }

  /** Whatever is reported was reported before or has been heard from one of the runners. */
  ghost predicate AllHeard(before: set<Result>, runners: seq<Runner>, after: set<Result>) {
    forall r :: r in after ==> r in before || HeardFrom(runners, r)
  }

  lemma HeardBefore(before: set<Result>, runners: seq<Runner>)
    ensures AllHeard(before, runners[..0], before) && AllHeard(before, runners, before)
  {
  }

  lemma HeardNext(before: set<Result>, runners: seq<Runner>, i: nat, mid: set<Result>, after: set<Result>)
    requires i < |runners| && AllHeard(before, runners[..i], mid) && Grown(mid, runners[i], after)
    ensures AllHeard(before, runners[..i + 1], after) && AllHeard(before, runners, after)
  {
    hide Heard;
    forall r | r in after && r !in before
      ensures HeardFrom(runners[..i + 1], r) && HeardFrom(runners, r)
    {
      if r in mid {
        var k :| 0 <= k < i && Heard(runners[..i][k], r);
        assert Heard(runners[..i + 1][k], r) && Heard(runners[k], r);
      } else {
        assert Heard(runners[..i + 1][i], r);
      }
    }
  }

  lemma NothingNew(before: set<Result>, runner: Runner)
    ensures Grown(before, runner, before) && Grown(before, runner, {})
  {
  }

  lemma OneHeard(before: set<Result>, runner: Runner, m: Memory, s: Sample, ids: set<RunId>)
    requires Grown(before, runner, Results(m)) && Tells(runner(CoordinateOf(s), ids), ResultOf(s))
    ensures Grown(before, runner, Results(Record(m, s)))
  {
    RecordResults(m, s);
    hide Results, Record, Tells;
    assert Heard(runner, ResultOf(s));
  }

  /** A runner that always answers with one sound new sample. */
  ghost predicate Good(cfg: Config, runner: Runner) {
    forall c, ids :: GoodAnswer(cfg, runner(c, ids), c, ids)
  }

  ghost predicate GoodAnswer(cfg: Config, a: Answer, c: Coordinate, ids: set<RunId>) {
    && !a.failed && !a.stop && |a.samples| == 1
    && CoordinateOf(a.samples[0]) == c && a.samples[0].runId !in ids
    && cfg.valid(if c.caseId in cfg.refs then Sanitize(a.samples[0], cfg.refs[c.caseId]) else a.samples[0])
  }

  class ABCampaign {
    const cfg: Config
    var control: seq<Sample>
    var candidate: seq<Sample>
    var completed: set<Coordinate>
    var runIds: set<RunId>
    /** The checkpoint file. */
    var saved: Option<Artifact>
    /** How far memory and file have got, and the memory the file was written from. */
    ghost var done: nat
    ghost var kept: nat
    ghost var source: Memory
    /** No kill, interruption, drift or failed write has happened to this process. */
    ghost var calm: bool

    ghost function Now(): Memory
      reads this
    {
      Memory(control, candidate, completed, runIds)
    }

    /** The file holds a prefix of the plan, redacted. */
    ghost predicate FileOk()
      reads this
    {
      && ConfigOk(cfg)
      && (saved.Some? ==> MemoryOk(cfg, source, kept) && saved.value == Published(cfg.refs, source))
    }

    ghost predicate Valid()
      reads this
    {
      FileOk() && MemoryOk(cfg, Now(), done)
    }

    /** Neither memory nor file is behind the first `floor` samples. */
    ghost predicate AtLeast(floor: nat)
      reads this
    {
      saved.Some? && floor <= done && floor <= kept
    }

    constructor (cfg: Config)
      requires ConfigOk(cfg)
      ensures FileOk() && saved.None? && this.cfg == cfg
    {
      this.cfg := cfg;
      control, candidate, completed, runIds := [], [], {}, {};
      saved := None;
      done, kept, source, calm := 0, 0, EMPTY, true;
    }

    method PublishSamples(ss: seq<Sample>) returns (ps: seq<Sample>)
      ensures ps == PublishAll(cfg.refs, ss)
    {
      hide Publish, Sanitize;
      ps := [];
      for i := 0 to |ss|
        invariant ps == PublishAll(cfg.refs, ss[..i])
      {
        ps := ps + [Publish(cfg.refs, ss[i])];
        assert ss[..i + 1] == ss[..i] + [ss[i]];
      }
      assert ss[..|ss|] == ss;
    }

    /** Writing a checkpoint replaces the file as a whole or leaves it alone. */
    method Save() returns (ok: bool)
      requires Valid()
      modifies this`saved, this`kept, this`source, this`calm
      ensures Valid() && calm == (old(calm) && ok)
      ensures ok ==> saved == Some(Published(cfg.refs, Now())) && kept == done && source == Now()
      ensures ok ==> Faithful(cfg.refs, saved.value.control, control) && Faithful(cfg.refs, saved.value.candidate, candidate)
      ensures !ok ==> saved == old(saved) && kept == old(kept) && source == old(source)
    {
      if * {
        calm := false;
        return false;
      }
      var c := PublishSamples(control);
      var d := PublishSamples(candidate);
      PublishedIsFaithful(cfg.refs, control);
      PublishedIsFaithful(cfg.refs, candidate);
      saved := Some(Artifact(c, d));
      kept, source := done, Now();
      ok := true;
    }

    method ValidateNew(samples: seq<Sample>, expected: Coordinate, required: bool) returns (ok: bool)
      ensures ok <==>
        && |samples| <= 1 && (required ==> |samples| == 1)
        && forall i :: 0 <= i < |samples| ==> Acceptable(cfg, Now(), samples[i], expected)
    {
      if |samples| > 1 || (required && |samples| != 1) {
        return false;
      }
      for i := 0 to |samples|
        invariant forall j :: 0 <= j < i ==> Acceptable(cfg, Now(), samples[j], expected)
      {
        var s := samples[i];
        var validated := if expected.caseId in cfg.refs then Sanitize(s, cfg.refs[expected.caseId]) else s;
        if !cfg.valid(validated) || CoordinateOf(s) != expected || expected in completed || s.runId in runIds {
          return false;
        }
      }
      ok := true;
    }

    method Keep(s: Sample)
      requires Valid() && done < 2 * |cfg.plan| && Acceptable(cfg, Now(), s, Flat(cfg.plan)[done])
      modifies this`control, this`candidate, this`completed, this`runIds, this`done
      ensures Valid() && Now() == Record(old(Now()), s) && done == old(done) + 1
    {
      hide MemoryOk, Published, Flat, Acceptable, ConfigOk;
      RecordKeeps(cfg, Now(), done, s);
      if s.variant == Control {
        control := control + [s];
      } else {
        candidate := candidate + [s];
      }
      completed := completed + {CoordinateOf(s)};
      runIds := runIds + {s.runId};
      done := done + 1;
    }

    method Restore(checkpoint: Memory, ghost at: nat)
      requires FileOk() && MemoryOk(cfg, checkpoint, at)
      modifies this`control, this`candidate, this`completed, this`runIds, this`done
      ensures Valid() && Now() == checkpoint && done == at
    {
      control, candidate := checkpoint.control, checkpoint.candidate;
      completed, runIds := checkpoint.completed, checkpoint.runIds;
      done := at;
    }

    method BlockComplete(b: Block) returns (complete: bool)
      requires BlockOk(b)
      ensures complete <==> forall j :: 0 <= j < 2 ==> Coordinate(b.caseId, b.order[j], b.repetition) in completed
    {
      for j := 0 to |b.order|
        invariant forall k :: 0 <= k < j ==> Coordinate(b.caseId, b.order[k], b.repetition) in completed
      {
        if Coordinate(b.caseId, b.order[j], b.repetition) !in completed {
          return false;
        }
      }
      complete := true;
    }

    lemma AtPlan(i: nat, j: nat)
      requires PlanOk(cfg.plan) && i < |cfg.plan| && j < 2
      ensures BlockOk(cfg.plan[i])
      ensures Coordinate(cfg.plan[i].caseId, cfg.plan[i].order[j], cfg.plan[i].repetition) == Flat(cfg.plan)[2 * i + j]
    {
      assert PlannedAt(cfg.plan, 2 * i + j) == Flat(cfg.plan)[2 * i + j];
    }

    lemma AtBlock(i: nat, j: nat)
      requires Valid() && i < |cfg.plan| && j < 2
      ensures BlockOk(cfg.plan[i])
      ensures Coordinate(cfg.plan[i].caseId, cfg.plan[i].order[j], cfg.plan[i].repetition) == Flat(cfg.plan)[2 * i + j]
      ensures Flat(cfg.plan)[2 * i + j] in completed <==> 2 * i + j < done
    {
      AtPlan(i, j);
      CompletedUpTo(cfg.plan, Now(), done, 2 * i + j);
    }

    /** The file holds what memory holds. */
    ghost predicate InStep()
      reads this
    {
      saved == Some(Published(cfg.refs, Now())) && source == Now() && kept == done
    }

    /** Memory and file report nothing but what was told before and what the runner answered. */
    ghost predicate Reports(told: set<Result>, runner: Runner)
      reads this
    {
      Grown(told, runner, Results(Now())) && (saved.Some? ==> Grown(told, runner, Results(source)))
    }

    /** Keep what the answer says, if it is sound and the closure stayed what it was. */
    method Take(answer: Answer, key: Coordinate) returns (failed: bool, samples: seq<Sample>)
      requires Valid() && done < 2 * |cfg.plan| && key == Flat(cfg.plan)[done]
      modifies this`control, this`candidate, this`completed, this`runIds, this`done, this`calm
      ensures Valid() && |samples| <= 1 && done == old(done) + |samples| && (failed || |samples| == 1)
      ensures if samples == [] then Now() == old(Now()) else
        Now() == Record(old(Now()), samples[0]) && CoordinateOf(samples[0]) == key && Tells(answer, ResultOf(samples[0]))
      ensures calm ==> old(calm) && (GoodAnswer(cfg, answer, key, old(runIds)) ==> !failed)
      ensures !failed ==> !answer.failed
    {
      CompletedUpTo(cfg.plan, Now(), done, done);
      hide MemoryOk, ConfigOk, Published, Sanitize, Record, Flat, Faithful;
      samples, failed := answer.samples, answer.failed;
      if * {
        calm := false;
        samples, failed := [], true;
      }
      if failed {
        samples := MarkDeferred(samples);
      }
      var sound := ValidateNew(samples, key, !failed);
      if !sound {
        failed, samples := true, [];
      }
      if samples != [] {
        Keep(samples[0]);
      }
    }

    /** One sample: run it, check it, keep it, write the checkpoint. A sample whose runner
        failed is kept too, as no pass, but not yet written. */
    method RunSample(i: nat, j: nat, runner: Runner, ghost floor: nat, ghost told: set<Result>) returns (r: Outcome)
      requires Valid() && i < |cfg.plan| && j < 2 && done == 2 * i + j && AtLeast(floor) && Reports(told, runner)
      modifies this
      ensures Valid() && AtLeast(floor) && Reports(told, runner) && old(done) <= done <= old(done) + 1
      ensures var answer := runner(Flat(cfg.plan)[old(done)], old(runIds));
        && (done != old(done) ==> exists s :: Now() == Record(old(Now()), s) && Tells(answer, ResultOf(s)))
        && (r == Continue ==> !answer.failed && !answer.stop) && (r == Interrupted ==> !answer.failed && answer.stop)
      ensures done == old(done) ==> Now() == old(Now())
      ensures r == ClosureDrifted ==> done == old(done) && InStep()
      ensures r in {Killed, SaveFailed, ClosureDrifted, SampleFailed, Interrupted, Continue}
      ensures r in {Interrupted, Continue} ==> done == old(done) + 1 && InStep()
      ensures calm && Good(cfg, runner) ==> r == Continue
      ensures calm ==> old(calm)
    {
      hide MemoryOk, ConfigOk, Published, Results, Grown, Tells, Faithful, Sanitize, Record;
      AtBlock(i, j);
      var b := cfg.plan[i];
      var key := Coordinate(b.caseId, b.order[j], b.repetition);
      if * {
        calm := false;
        var written := Save();
        return if written then ClosureDrifted else SaveFailed;
      }
      if * {
        calm := false;
        return Killed;
      }
      var answer := runner(key, runIds);
      assert Good(cfg, runner) ==> GoodAnswer(cfg, answer, key, runIds);
      ghost var before := Now();
      var failed, samples := Take(answer, key);
      if samples != [] {
        assert Now() == Record(before, samples[0]) && Tells(answer, ResultOf(samples[0]));
        OneHeard(told, runner, before, samples[0], before.runIds);
      }
      if failed {
        return SampleFailed;
      }
      if * {
        calm := false;
        return Killed;
      }
      var written := Save();
      if !written {
        written := Save();
        return SaveFailed;
      }
      r := if answer.stop then Interrupted else Continue;
    }

    /** Back to where the block began, in memory and, if it can be written, in the file. */
    method RollBack(checkpoint: Memory, ghost at: nat, ghost floor: nat) returns (r: Outcome)
      requires Valid() && MemoryOk(cfg, checkpoint, at) && AtLeast(floor) && floor <= at
      modifies this
      ensures Valid() && AtLeast(floor) && done == at && Now() == checkpoint && r in {Drifted, SaveFailed} && !calm
      ensures if r == Drifted then InStep() else saved == old(saved) && source == old(source)
    {
      hide MemoryOk, ConfigOk;
      calm := false;
      Restore(checkpoint, at);
      var written := Save();
      r := if written then Drifted else SaveFailed;
    }

    method RunBlock(i: nat, runner: Runner, ghost floor: nat, ghost told: set<Result>) returns (r: Outcome)
      requires Valid() && i < |cfg.plan| && 2 * i <= done && AtLeast(floor) && Reports(told, runner)
      modifies this
      ensures Valid() && AtLeast(floor) && Reports(told, runner) && old(done) <= done
      ensures r == Drifted ==> Now() == old(Now()) && InStep()
      ensures r in {SampleFailed, ClosureDrifted} ==> InStep()
      ensures r in {Killed, SaveFailed, ClosureDrifted, SampleFailed, Drifted, Interrupted, Continue}
      ensures r == Continue ==> 2 * i + 2 <= done
      ensures calm && Good(cfg, runner) ==> r == Continue
      ensures calm ==> old(calm)
    {
      hide MemoryOk, ConfigOk, Good, Published, Results, Grown, Record, Tells, Coordinates, ArmOf;
      AtBlock(i, 0);
      AtBlock(i, 1);
      var b := cfg.plan[i];
      var complete := BlockComplete(b);
      if complete {
        return Continue;
      }
      var checkpoint := Memory(control, candidate, completed, runIds);
      ghost var at := done;
      r := Continue;
      for j := 0 to 2
        invariant Valid() && AtLeast(floor) && Reports(told, runner) && at <= done && 2 * i + j <= done
        invariant MemoryOk(cfg, checkpoint, at) && Grown(told, runner, Results(checkpoint))
        invariant r == Continue && (calm ==> old(calm))
      {
        AtBlock(i, j);
        if Coordinate(b.caseId, b.order[j], b.repetition) in completed {
          continue;
        }
        if * {
          calm := false;
          r := Interrupted;
          break;
        }
        r := RunSample(i, j, runner, floor, told);
        if r == Killed || r == SaveFailed || r == ClosureDrifted {
          return;
        }
        if r == SampleFailed {
          if * {
            r := RollBack(checkpoint, at, floor);
            return;
          }
          var written := Save();
          return if written then SampleFailed else SaveFailed;
        }
        if r == Interrupted {
          break;
        }
      }
      if * {
        r := RollBack(checkpoint, at, floor);
      }
    }

    method PopulationComplete() returns (complete: bool)
      requires PlanOk(cfg.plan)
      ensures complete <==> completed == Elements(Flat(cfg.plan))
    {
      CompletePopulation(cfg.plan, completed);
      hide PlanOk, BlockOk, Elements, Flat;
      if |completed| != |cfg.plan| * 2 {
        return false;
      }
      for i := 0 to |cfg.plan|
        invariant forall k :: 0 <= k < 2 * i ==> Flat(cfg.plan)[k] in completed
      {
        AtPlan(i, 0);
        AtPlan(i, 1);
        complete := BlockComplete(cfg.plan[i]);
        if !complete {
          return;
        }
        assert Flat(cfg.plan)[2 * i] in completed && Flat(cfg.plan)[2 * i + 1] in completed;
      }
      complete := true;
    }

    /** The file is loaded only if nothing about it could mislead the campaign. */
    method Reload() returns (ok: bool)
      requires FileOk() && saved.Some?
      modifies this`control, this`candidate, this`completed, this`runIds, this`done
      ensures FileOk() && (ok ==> Valid() && done == kept && Now() == Restored(cfg.refs, source) && Recalls(Now(), source))
      ensures ok <==> Resumable(cfg, source)
    {
      hide MemoryOk, NoCollision, StampedAll, Accept, Published, Restored, Recalls;
      var invertible, byRef := InvertReferences(cfg.refs, cfg.cases);
      if !invertible {
        return false;
      }
      LoadExactly(cfg, byRef, source, kept);
      var c := ValidateArm(cfg, byRef, Control, saved.value.control, Loaded([], {}, {}));
      if c.None? {
        return false;
      }
      var d := ValidateArm(cfg, byRef, Candidate, saved.value.candidate, Loaded([], c.value.completed, c.value.runIds));
      if d.None? {
        return false;
      }
      RestoredKeeps(cfg, source, kept);
      control, candidate := c.value.samples, d.value.samples;
      completed, runIds := d.value.completed, d.value.runIds;
      done := kept;
      ok := true;
    }

    /** Everything the file reports. */
    ghost function Told(): set<Result>
      reads this
    {
      if saved.Some? then Results(source) else {}
    }

    lemma NoResults()
      ensures Results(EMPTY) == {}
    {
    }

    method Start() returns (r: Outcome)
      requires FileOk()
      modifies this
      ensures FileOk() && r in {NotResumable, SaveFailed, Continue}
      ensures old(saved).Some? ==> saved.Some? && old(kept) <= kept
      ensures r == Continue ==> Valid() && AtLeast(if old(saved).Some? then old(kept) else 0) && InStep()
      ensures r == Continue ==> Results(Now()) == old(Told())
      ensures r != Continue ==> saved == old(saved) && source == old(source)
      ensures r == NotResumable <==> old(saved).Some? && !Resumable(cfg, old(source))
      ensures calm == (old(calm) && r != SaveFailed)
    {
      hide MemoryOk, Resumable, Published, Restored, Recalls, Results;
      NoResults();
      if saved.Some? {
        var loaded := Reload();
        if !loaded {
          return NotResumable;
        }
        RecalledResults(Now(), source);
      } else {
        EmptyOk(cfg);
        Restore(EMPTY, 0);
      }
      var written := Save();
      r := if written then Continue else SaveFailed;
    }

    /** Block by block until one of them does not go through. */
    method RunBlocks(runner: Runner, ghost floor: nat, ghost told: set<Result>) returns (r: Outcome)
      requires Valid() && AtLeast(floor) && Reports(told, runner)
      modifies this
      ensures Valid() && AtLeast(floor) && Reports(told, runner)
      ensures r in {Killed, SaveFailed, ClosureDrifted, SampleFailed, Drifted, Interrupted, Continue}
      ensures r in {SampleFailed, ClosureDrifted, Drifted} ==> InStep()
      ensures r == Continue ==> 2 * |cfg.plan| <= done
      ensures calm ==> old(calm) && (Good(cfg, runner) ==> r == Continue)
    {
      hide MemoryOk, Good, Published, Results, Grown;
      r := Continue;
      for i := 0 to |cfg.plan|
        invariant Valid() && AtLeast(floor) && Reports(told, runner) && r == Continue && 2 * i <= done
        invariant calm ==> old(calm)
      {
        r := RunBlock(i, runner, floor, told);
        if r != Continue {
          return;
        }
        if * {
          calm := false;
          return Interrupted;
        }
      }
    }

    /** One process: load or start afresh, then run what is missing. It ends with the whole
        plan in plan order or with a file that holds a prefix of it, never with less than the
        file held before, and it never reports a hole in a population it ran to the end. When
        nothing goes wrong around it and the runner is good it does get to the end. */
    method Process(runner: Runner) returns (r: Outcome)
      requires FileOk()
      modifies this
      ensures FileOk() && r != Incomplete && r != Continue
      ensures old(saved).Some? ==> saved.Some? && old(kept) <= kept
      ensures r == NotResumable <==> old(saved).Some? && !Resumable(cfg, old(source))
      ensures r == Finished ==> Valid() && done == 2 * |cfg.plan| && Grown(old(Told()), runner, Results(Now()))
      ensures r in {SampleFailed, ClosureDrifted, Drifted, Interrupted} ==> Valid() && InStep()
      ensures Grown(old(Told()), runner, Told())
      ensures calm && Good(cfg, runner) ==> r in {Finished, NotResumable}
    {
      hide MemoryOk, Resumable, Good, Published, Results, Grown;
      ghost var floor, told := if saved.Some? then kept else 0, Told();
      NothingNew(told, runner);
      calm := true;
      r := Start();
      if r != Continue {
        return;
      }
      r := RunBlocks(runner, floor, told);
      if r != Interrupted && r != Continue {
        return;
      }
      if r == Continue {
        var complete := PopulationComplete();
        AllDone();
        if !complete {
          return Incomplete;
        }
      }
      if * {
        calm := false;
        var written := Save();
        return if written then Drifted else SaveFailed;
      }
      if r == Interrupted {
        var written := Save();
        return if written then Interrupted else SaveFailed;
      }
      r := Finished;
    }

    lemma AllDone()
      requires Valid() && 2 * |cfg.plan| <= done
      ensures done == 2 * |cfg.plan| && completed == Elements(Flat(cfg.plan))
      ensures Coordinates(control) == ArmOf(Flat(cfg.plan), Control) && Coordinates(candidate) == ArmOf(Flat(cfg.plan), Candidate)
    {
      assert Flat(cfg.plan)[..done] == Flat(cfg.plan);
    }

    /** Any number of processes, each of them killed, failing or stopped anywhere: a campaign
        that finishes has, in each arm, the planned coordinates in plan order, once each,
        just as if it had never been interrupted, and reports at each of them what the first
        file held or what one of the runners answered there. */
    method Restarts(runners: seq<Runner>) returns (r: Outcome)
      requires FileOk()
      modifies this
      ensures FileOk()
      ensures r == Finished ==>
        Coordinates(control) == ArmOf(Flat(cfg.plan), Control) && Coordinates(candidate) == ArmOf(Flat(cfg.plan), Candidate)
      ensures AllHeard(old(Told()), runners, if r == Finished then Results(Now()) else Told())
      ensures runners != [] && calm && Good(cfg, runners[|runners| - 1]) ==> r in {Finished, NotResumable}
    {
      hide MemoryOk, Resumable, ArmOf, Flat, Good, AllHeard, Grown, Results;
      r := Killed;
      HeardBefore(Told(), runners);
      for i := 0 to |runners|
        invariant FileOk() && r != Finished
        invariant AllHeard(old(Told()), runners[..i], Told()) && AllHeard(old(Told()), runners, Told())
        invariant i > 0 && calm && Good(cfg, runners[i - 1]) ==> r == NotResumable
      {
        ghost var told := Told();
        r := Process(runners[i]);
        HeardNext(old(Told()), runners, i, told, if r == Finished then Results(Now()) else Told());
        if r == Finished {
          AllDone();
          return;
        }
      }
    }
  }
}
