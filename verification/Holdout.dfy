/** The private part of an experiment: holdout cases get numbered references, their
    samples are redacted before they are written out, and both are undone on load. */
module Holdout {
  import opened Text
  import opened Joining
  import opened Naming

  datatype Variant = Control | Candidate

  datatype Status = Pass | Fail | InfraError | Aborted | BudgetExhausted | Invalid | Inconclusive

  /** A run id is any text, or the digest that redaction puts in its place. */
  datatype RunId = Native(text: string) | Digest(reference: string)

  /** Provenance, checks, evidence and error of a sample, or what redaction leaves of them. */
  datatype Detail = Revealed(text: string) | Hidden(passed: bool)

  datatype Sample =
    Sample(runId: RunId, caseId: string, variant: Variant, repetition: nat, status: Status, detail: Detail, measured: string)

  datatype Coordinate = Coordinate(caseId: string, variant: Variant, repetition: nat)

  datatype Block = Block(id: string, caseId: string, repetition: nat, order: seq<Variant>)

  type Plan = seq<Block>

  type References = map<string, string>

  function CoordinateOf(s: Sample): Coordinate {
    Coordinate(s.caseId, s.variant, s.repetition)
  }

  /** What a campaign is run for: how the run at a coordinate ended and what was measured. */
  datatype Result = Result(coordinate: Coordinate, status: Status, measured: string)

  function ResultOf(s: Sample): Result {
    Result(CoordinateOf(s), s.status, s.measured)
  }

  function VariantText(v: Variant): (s: string)
    ensures NulFree(s)
  {
    if v == Control then "control" else "candidate"
  }

  // ---------------------------------------------------------------- references

  function Insert(id: string, sorted: seq<string>): seq<string> {
    if sorted == [] || !Less(sorted[0], id) then [id] + sorted else [sorted[0]] + Insert(id, sorted[1..])
  }

  function Sort(ids: seq<string>): seq<string> {
    if ids == [] then [] else Insert(ids[0], Sort(ids[1..]))
  }

  predicate Sorted(ids: seq<string>) {
    forall i, j :: 0 <= i < j < |ids| ==> !Less(ids[j], ids[i])
  }

  lemma {:induction false} InsertSame(id: string, sorted: seq<string>)
    ensures multiset(Insert(id, sorted)) == multiset{id} + multiset(sorted)
  {
    hide Less;
    if sorted != [] {
      assert sorted == [sorted[0]] + sorted[1..];
      InsertSame(id, sorted[1..]);
    }
  }

  lemma Smallest(id: string, sorted: seq<string>)
    requires Sorted(sorted) && sorted != [] && !Less(sorted[0], id)
    ensures forall j :: 0 <= j < |sorted| ==> !Less(sorted[j], id)
  {
    hide Less;
    forall j | 0 <= j < |sorted|
      ensures !Less(sorted[j], id)
    {
      LessTotal(sorted[0], id);
      if Less(sorted[j], id) && sorted[0] != id {
        LessTransitive(sorted[j], id, sorted[0]);
      }
    }
  }

  lemma {:induction false} InsertSound(id: string, sorted: seq<string>)
    requires Sorted(sorted)
    ensures Sorted(Insert(id, sorted)) && multiset(Insert(id, sorted)) == multiset{id} + multiset(sorted)
  {
    InsertSame(id, sorted);
    hide Less;
    if sorted == [] {
    } else if Less(sorted[0], id) {
      var rest := Insert(id, sorted[1..]);
      InsertSound(id, sorted[1..]);
      LessTotal(sorted[0], id);
      forall j | 0 <= j < |rest|
        ensures !Less(rest[j], sorted[0])
      {
        assert rest[j] in multiset(rest);
        if rest[j] != id {
          assert rest[j] in sorted[1..];
        }
      }
    } else {
      Smallest(id, sorted);
    }
  }

  lemma {:induction false} SortSound(ids: seq<string>)
    ensures Sorted(Sort(ids)) && multiset(Sort(ids)) == multiset(ids)
  {
    if ids != [] {
      SortSound(ids[1..]);
      InsertSound(ids[0], Sort(ids[1..]));
      assert ids == [ids[0]] + ids[1..];
    }
  }

  lemma SameFirst(a: seq<string>, b: seq<string>)
    requires Sorted(a) && Sorted(b) && multiset(a) == multiset(b) && a != [] && b != []
    ensures a[0] == b[0]
  {
    hide Less;
    assert a[0] in multiset(b) && b[0] in multiset(a);
    var i :| 0 <= i < |b| && b[i] == a[0];
    var j :| 0 <= j < |a| && a[j] == b[0];
    LessTotal(a[0], b[0]);
  }

  lemma {:induction false} SortedUnique(a: seq<string>, b: seq<string>)
    requires Sorted(a) && Sorted(b) && multiset(a) == multiset(b)
    ensures a == b
  {
    hide Less;
    assert |multiset(a)| == |a| && |multiset(b)| == |b|;
    if a != [] {
      SameFirst(a, b);
      assert a == [a[0]] + a[1..] && b == [b[0]] + b[1..];
      assert multiset(a[1..]) == multiset(a) - multiset{a[0]};
      assert multiset(b[1..]) == multiset(b) - multiset{b[0]};
      SortedUnique(a[1..], b[1..]);
    }
  }

  /** The first `k` sorted ids, numbered. */
  function Numbered(sorted: seq<string>, k: nat): References
    requires k <= |sorted|
  {
    if k == 0 then map[] else Numbered(sorted, k - 1)[sorted[k - 1] := HoldoutReference(k - 1)]
  }

  function ReferencesOf(ids: seq<string>): References {
    Numbered(Sort(ids), |Sort(ids)|)
  }

  method BuildReferences(ids: seq<string>) returns (references: References)
    ensures references == ReferencesOf(ids)
  {
    var sorted := Sort(ids);
    references := map[];
    for i := 0 to |sorted|
      invariant references == Numbered(sorted, i)
    {
      references := references[sorted[i] := HoldoutReference(i)];
    }
  }

  predicate NumberedAt(sorted: seq<string>, r: References, id: string, i: nat) {
    i < |sorted| && sorted[i] == id && id in r && r[id] == HoldoutReference(i)
  }

  lemma {:induction false} NumberedFacts(sorted: seq<string>, k: nat)
    requires k <= |sorted|
    ensures forall id :: id in Numbered(sorted, k) <==> id in sorted[..k]
    ensures forall id :: id in Numbered(sorted, k) ==> exists i :: NumberedAt(sorted, Numbered(sorted, k), id, i)
  {
    hide HoldoutReference;
    if k > 0 {
      NumberedFacts(sorted, k - 1);
      assert sorted[..k] == sorted[..k - 1] + [sorted[k - 1]];
      var before, r := Numbered(sorted, k - 1), Numbered(sorted, k);
      forall id | id in r
        ensures exists i :: NumberedAt(sorted, r, id, i)
      {
        if id == sorted[k - 1] {
          assert NumberedAt(sorted, r, id, k - 1);
        } else {
          var i :| NumberedAt(sorted, before, id, i);
          assert NumberedAt(sorted, r, id, i);
        }
      }
    }
  }

  predicate Injective(r: References) {
    forall a, b :: a in r && b in r && r[a] == r[b] ==> a == b
  }

  lemma NumberedIsInjective(sorted: seq<string>)
    ensures Injective(Numbered(sorted, |sorted|))
    ensures forall id :: id in Numbered(sorted, |sorted|) ==> NulFree(Numbered(sorted, |sorted|)[id])
  {
    var r := Numbered(sorted, |sorted|);
    NumberedFacts(sorted, |sorted|);
    hide Numbered, HoldoutReference, NulFree;
    forall a, b | a in r && b in r && r[a] == r[b]
      ensures a == b
    {
      var i :| NumberedAt(sorted, r, a, i);
      var j :| NumberedAt(sorted, r, b, j);
      HoldoutReferenceInjective(i, j);
    }
    forall id | id in r
      ensures NulFree(r[id])
    {
      var i :| NumberedAt(sorted, r, id, i);
      HoldoutReferenceIsText(i);
    }
  }

  predicate Differ(ids: seq<string>) {
    forall i, j :: 0 <= i < j < |ids| ==> ids[i] != ids[j]
  }

  lemma {:induction false} NumberedInPlace(sorted: seq<string>, k: nat)
    requires k <= |sorted| && Differ(sorted)
    ensures forall i :: 0 <= i < k ==> sorted[i] in Numbered(sorted, k) && Numbered(sorted, k)[sorted[i]] == HoldoutReference(i)
  {
    hide HoldoutReference;
    if k > 0 {
      NumberedInPlace(sorted, k - 1);
      assert forall i :: 0 <= i < k - 1 ==> sorted[i] != sorted[k - 1];
    }
  }

  /** Cases are numbered in the order of their ids. */
  lemma ReferencesInOrder(ids: seq<string>)
    requires Differ(Sort(ids))
    ensures Sorted(Sort(ids)) && multiset(Sort(ids)) == multiset(ids)
    ensures forall i :: 0 <= i < |Sort(ids)| ==>
      Sort(ids)[i] in ReferencesOf(ids) && ReferencesOf(ids)[Sort(ids)[i]] == "holdout_" + Padded(i + 1)
  {
    SortSound(ids);
    NumberedInPlace(Sort(ids), |Sort(ids)|);
  }

  /** Every holdout case gets its own reference, whatever order the cases were loaded in. */
  lemma ReferencesOneToOne(ids: seq<string>, other: seq<string>)
    requires multiset(ids) == multiset(other)
    ensures ReferencesOf(ids) == ReferencesOf(other)
    ensures ReferencesOf(ids).Keys == (set id | id in ids) && Injective(ReferencesOf(ids))
    ensures forall id :: id in ReferencesOf(ids) ==> NulFree(ReferencesOf(ids)[id])
  {
    SortSound(ids);
    SortSound(other);
    SortedUnique(Sort(ids), Sort(other));
    var sorted := Sort(ids);
    NumberedFacts(sorted, |sorted|);
    NumberedIsInjective(sorted);
    assert sorted[..|sorted|] == sorted;
    hide Sort, Sorted, Numbered, NulFree, Injective;
    forall id
      ensures id in ids <==> id in sorted
    {
      assert id in multiset(ids) <==> id in multiset(sorted);
    }
  }

  // ----------------------------------------------------------------- redaction

  /** Everything the sample says about the case is replaced by fixed text or by what
      follows from the reference, the coordinate and the status. */
  function Sanitize(s: Sample, reference: string): Sample {
    Sample(Digest(RunReference(reference, VariantText(s.variant), s.repetition)), reference, s.variant, s.repetition,
           s.status, Hidden(s.status == Pass), s.measured)
  }

  function Publish(refs: References, s: Sample): Sample {
    if s.caseId in refs then Sanitize(s, refs[s.caseId]) else s
  }

  /** What a published sample tells about the one it stands for: everything about a public one,
      and of a holdout sample its variant and repetition, how it ended, what was measured and
      under which reference, with a check that passed exactly if the sample did. */
  predicate StandsFor(refs: References, p: Sample, s: Sample) {
    && p.variant == s.variant && p.repetition == s.repetition && p.status == s.status && p.measured == s.measured
    && if s.caseId in refs
       then p.caseId == refs[s.caseId] && p.runId.Digest? && p.detail.Hidden? && (p.detail.passed <==> s.status.Pass?)
       else p == s
  }

  predicate Canonical(s: Sample) {
    Sanitize(s, s.caseId) == s
  }

  /** What is in memory after a published sample has been loaded again. */
  function Restore(refs: References, s: Sample): Sample {
    if s.caseId in refs then Publish(refs, s).(caseId := s.caseId) else s
  }

  /** A published sample stands for its own; two samples that differ only in what redaction
      hides are published alike, the result is canonical, and loading and publishing it again
      changes nothing. */
  lemma RedactionIsStable(refs: References, s: Sample, t: Sample)
    requires s.caseId in refs && ResultOf(s) == ResultOf(t)
    ensures StandsFor(refs, Publish(refs, s), s)
    ensures Publish(refs, s) == Publish(refs, t) && Canonical(Publish(refs, s))
    ensures Publish(refs, Restore(refs, s)) == Publish(refs, s)
    ensures ResultOf(Restore(refs, s)) == ResultOf(s)
  {
  }

  /** Holdout samples with different coordinates are published under different run ids. */
  lemma HoldoutRunIds(refs: References, a: Sample, b: Sample)
    requires Injective(refs) && (forall id :: id in refs ==> NulFree(refs[id]))
    requires a.caseId in refs && b.caseId in refs && Publish(refs, a).runId == Publish(refs, b).runId
    ensures CoordinateOf(a) == CoordinateOf(b)
  {
    RunReferenceInjective(refs[a.caseId], VariantText(a.variant), a.repetition,
                          refs[b.caseId], VariantText(b.variant), b.repetition);
  }

  function RedactBlock(refs: References, b: Block): Block {
    if b.caseId in refs then Block(BlockKey(refs[b.caseId], b.repetition), refs[b.caseId], b.repetition, b.order) else b
  }

  method RedactPlan(plan: Plan, refs: References) returns (redacted: Plan)
    ensures |redacted| == |plan| && forall i :: 0 <= i < |plan| ==> redacted[i] == RedactBlock(refs, plan[i])
  {
    hide BlockKey;
    redacted := plan;
    for i := 0 to |plan|
      invariant |redacted| == |plan| && forall j :: 0 <= j < |plan| ==>
        redacted[j] == if j < i then RedactBlock(refs, plan[j]) else plan[j]
    {
      if plan[i].caseId in refs {
        var token := refs[plan[i].caseId];
        redacted := redacted[i := Block(BlockKey(token, plan[i].repetition), token, plan[i].repetition, plan[i].order)];
      }
    }
  }

  /** The published block still determines the block that is run: comparing published
      plans is comparing plans, unless a case that is no holdout is named like a reference. */
  lemma RedactionDetermines(refs: References, a: Block, b: Block)
    requires Injective(refs) && a.caseId !in refs.Values && b.caseId !in refs.Values
    requires a.id == BlockKey(a.caseId, a.repetition) && b.id == BlockKey(b.caseId, b.repetition)
    requires RedactBlock(refs, a) == RedactBlock(refs, b)
    ensures a == b
  {
  }
}
