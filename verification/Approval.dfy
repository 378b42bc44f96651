/** Approvals: three tables that answer from rows what the history of issues and
    revocations says. */
module Approval {
  import opened Joining

  datatype Option<T> = None | Some(value: T)

  datatype Artifact =
    Artifact(workflow: string, action: string, basis: string, policy: string, actor: string, source: string,
             rationale: string, issued: int, expires: int)

  /** A successful change of the tables. */
  datatype Event = Issued(artifact: Artifact) | Revoked(workflow: string, action: string)

  datatype Revocation = Revocation(workflow: string, action: string, approval: string, actor: string, reason: string)

  type Scope = (string, string)

  /** The text that is digested into the id of an approval. */
  function DigestText(a: Artifact): string {
    Join4(a.workflow, a.action, a.basis, a.policy)
  }

  function ScopeOf(e: Event): Scope {
    match e
    case Issued(a) => (a.workflow, a.action)
    case Revoked(w, c) => (w, c)
  }

  predicate Complete(a: Artifact) {
    && a.workflow != "" && a.action != "" && a.actor != "" && a.source != "" && a.rationale != ""
    && a.basis != "" && a.policy != ""
  }

  // -------------------------------------------------------- what the history says

  predicate LastAbout(h: seq<Event>, i: nat, scope: Scope) {
    && i < |h| && ScopeOf(h[i]) == scope
    && forall k :: i < k < |h| ==> ScopeOf(h[k]) != scope
  }

  predicate IssueOf(h: seq<Event>, i: nat, digest: string) {
    i < |h| && h[i].Issued? && DigestText(h[i].artifact) == digest
  }

  predicate FirstWith(h: seq<Event>, j: nat, digest: string) {
    IssueOf(h, j, digest) && forall k: nat :: k < j ==> !IssueOf(h, k, digest)
  }

  /** The last word about the scope is an issue of that digest, and the time of the first
      issue of that digest has not run out. */
  ghost predicate Authorized(h: seq<Event>, scope: Scope, digest: string, now: int) {
    exists i: nat, j: nat ::
      LastAbout(h, i, scope) && IssueOf(h, i, digest) && FirstWith(h, j, digest) && now < h[j].artifact.expires
  }

  // --------------------------------------------------------- what the tables hold

  function CurrentOf(h: seq<Event>, scope: Scope): Option<string> {
    if h == [] then None else
      var e := h[|h| - 1];
      if ScopeOf(e) != scope then CurrentOf(h[..|h| - 1], scope)
      else if e.Issued? then Some(DigestText(e.artifact)) else None
  }

  function StoredOf(h: seq<Event>, digest: string): Option<Artifact> {
    if h == [] then None else
      var before := StoredOf(h[..|h| - 1], digest);
      var e := h[|h| - 1];
      if before.Some? then before
      else if e.Issued? && DigestText(e.artifact) == digest then Some(e.artifact) else None
  }

  lemma {:induction false} CurrentIsLast(h: seq<Event>, scope: Scope, digest: string)
    ensures CurrentOf(h, scope) == Some(digest) <==>
      exists i: nat :: LastAbout(h, i, scope) && IssueOf(h, i, digest)
  {
    hide DigestText;
    if h != [] {
      var n := |h| - 1;
      var before := h[..n];
      CurrentIsLast(before, scope, digest);
      if ScopeOf(h[n]) == scope {
        assert LastAbout(h, n, scope);
        assert forall i: nat :: LastAbout(h, i, scope) ==> i == n;
      } else {
        forall i: nat
          ensures LastAbout(h, i, scope) && IssueOf(h, i, digest) <==> LastAbout(before, i, scope) && IssueOf(before, i, digest)
        {
          if LastAbout(before, i, scope) {
            assert forall k :: i < k < |before| ==> ScopeOf(before[k]) != scope;
            assert forall k :: i < k < |h| ==> k == n || h[k] == before[k];
          }
        }
        assert forall i :: 0 <= i < n ==> before[i] == h[i];
      }
    }
  }

  lemma {:induction false} StoredIsFirst(h: seq<Event>, digest: string, a: Artifact)
    ensures StoredOf(h, digest) == Some(a) <==> exists j: nat :: FirstWith(h, j, digest) && h[j].artifact == a
    ensures StoredOf(h, digest).None? <==> forall k: nat :: !IssueOf(h, k, digest)
  {
    hide DigestText;
    if h != [] {
      var n := |h| - 1;
      var before := h[..n];
      StoredIsFirst(before, digest, a);
      assert forall i :: 0 <= i < n ==> before[i] == h[i];
      forall j: nat | j < n
        ensures IssueOf(h, j, digest) <==> IssueOf(before, j, digest)
        ensures FirstWith(h, j, digest) <==> FirstWith(before, j, digest)
      {
        assert forall k: nat :: k < j ==> (IssueOf(h, k, digest) <==> IssueOf(before, k, digest));
      }
      forall k: nat
        ensures IssueOf(h, k, digest) <==> IssueOf(before, k, digest) || (k == n && IssueOf(h, n, digest))
      {
      }
      if StoredOf(before, digest).Some? {
        var k: nat :| IssueOf(before, k, digest);
        assert !FirstWith(h, n, digest) && IssueOf(h, k, digest);
      } else {
        assert StoredOf(h, digest).Some? <==> IssueOf(h, n, digest);
        assert forall k: nat :: !IssueOf(before, k, digest);
      }
    }
  }

  /** What the rows answer. */
  predicate RowsAllow(current: map<Scope, string>, approvals: map<string, Artifact>, scope: Scope, digest: string, now: int) {
    && scope in current && current[scope] in approvals
    && DigestText(approvals[current[scope]]) == digest && now < approvals[current[scope]].expires
  }

  ghost predicate Refines(h: seq<Event>, current: map<Scope, string>, approvals: map<string, Artifact>) {
    && (forall s :: (s in current <==> CurrentOf(h, s).Some?) && (s in current ==> Some(current[s]) == CurrentOf(h, s)))
    && (forall d :: (d in approvals <==> StoredOf(h, d).Some?) && (d in approvals ==> Some(approvals[d]) == StoredOf(h, d)))
  }

  /** The rows allow exactly what the history authorizes. */
  lemma RowsAnswerHistory(h: seq<Event>, current: map<Scope, string>, approvals: map<string, Artifact>, scope: Scope, digest: string, now: int)
    requires Refines(h, current, approvals)
    ensures RowsAllow(current, approvals, scope, digest, now) <==> Authorized(h, scope, digest, now)
  {
    hide DigestText, LastAbout;
    CurrentIsLast(h, scope, digest);
    if RowsAllow(current, approvals, scope, digest, now) {
      var d := current[scope];
      StoredIsFirst(h, d, approvals[d]);
      assert CurrentOf(h, scope) == Some(d) && StoredOf(h, d) == Some(approvals[d]);
      var i: nat :| LastAbout(h, i, scope) && IssueOf(h, i, digest);
      var j: nat :| FirstWith(h, j, d) && h[j].artifact == approvals[d];
    }
    if Authorized(h, scope, digest, now) {
      var i: nat, j: nat :|
        LastAbout(h, i, scope) && IssueOf(h, i, digest) && FirstWith(h, j, digest) && now < h[j].artifact.expires;
      StoredIsFirst(h, digest, h[j].artifact);
    }
  }

  /** One more issue: the scope names its digest, and the first artifact of the digest stays. */
  lemma IssueKeeps(h: seq<Event>, current: map<Scope, string>, approvals: map<string, Artifact>, a: Artifact)
    requires Refines(h, current, approvals)
    ensures var id, after := DigestText(a), h + [Issued(a)];
      var kept := if id in approvals then approvals else approvals[id := a];
      Refines(after, current[(a.workflow, a.action) := id], kept) && StoredOf(after, id) == Some(kept[id])
  {
    hide DigestText;
    var after := h + [Issued(a)];
    assert after[..|h|] == h;
    forall s
      ensures CurrentOf(after, s) == if s == (a.workflow, a.action) then Some(DigestText(a)) else CurrentOf(h, s)
    {
    }
    forall d
      ensures StoredOf(after, d) == if d == DigestText(a) && StoredOf(h, d).None? then Some(a) else StoredOf(h, d)
    {
    }
    hide CurrentOf, StoredOf;
  }

  // ------------------------------------------- when a digest is as good as its fields

  predicate GrantAt(h: seq<Event>, i: nat, workflow: string, action: string, basis: string, policy: string) {
    i < |h| && h[i].Issued? && SameGrant(h[i].artifact, workflow, action, basis, policy)
  }

  predicate SameGrant(a: Artifact, workflow: string, action: string, basis: string, policy: string) {
    a.workflow == workflow && a.action == action && a.basis == basis && a.policy == policy
  }

  /** What an approval is for: the last event about the scope is an issue of exactly this basis
      and policy, and the first such issue has not expired. */
  ghost predicate Granted(h: seq<Event>, workflow: string, action: string, basis: string, policy: string, now: int) {
    exists i: nat, j: nat ::
      && LastAbout(h, i, (workflow, action)) && GrantAt(h, i, workflow, action, basis, policy)
      && FirstGrant(h, j, workflow, action, basis, policy) && now < h[j].artifact.expires
  }

  predicate FirstGrant(h: seq<Event>, j: nat, workflow: string, action: string, basis: string, policy: string) {
    GrantAt(h, j, workflow, action, basis, policy) && forall k: nat :: k < j ==> !GrantAt(h, k, workflow, action, basis, policy)
  }

  /** Histories that issuing lets through: complete artifacts with a positive lifetime. */
  predicate Issuable(h: seq<Event>) {
    forall k :: 0 <= k < |h| && h[k].Issued? ==> Complete(h[k].artifact) && h[k].artifact.issued < h[k].artifact.expires
  }

  predicate Filled(workflow: string, action: string, basis: string, policy: string) {
    workflow != "" && action != "" && basis != "" && policy != ""
  }

  /** Where NULs may stand: first in the workflow, last in the policy, and as the whole of
      action or basis. */
  predicate NulsHarmless(workflow: string, action: string, basis: string, policy: string) {
    && (forall i :: 1 <= i < |workflow| ==> workflow[i] != NUL)
    && (NulFree(action) || action == [NUL]) && (NulFree(basis) || basis == [NUL])
    && (forall i :: 0 <= i < |policy| - 1 ==> policy[i] != NUL)
  }

  /** No other four non-empty fields join to the same text. */
  ghost predicate SplitsOnce(workflow: string, action: string, basis: string, policy: string) {
    forall w, a, b, p :: Filled(w, a, b, p) && Join4(w, a, b, p) == Join4(workflow, action, basis, policy) ==>
      w == workflow && a == action && b == basis && p == policy
  }

  lemma Fields(w: string, a: string, b: string, p: string)
    ensures var t := Join4(w, a, b, p);
      var q, r, s := |w|, |w| + 1 + |a|, |w| + |a| + |b| + 2;
      && |t| == s + 1 + |p| && t[q] == NUL && t[r] == NUL && t[s] == NUL
      && w == t[..q] && a == t[q + 1..r] && b == t[r + 1..s] && p == t[s + 1..]
  {
    var t := Join4(w, a, b, p);
    var q, r, s := |w|, |w| + 1 + |a|, |w| + |a| + |b| + 2;
    assert t == w + [NUL] + (a + [NUL] + (b + [NUL] + p));
    assert t == (w + [NUL] + a) + [NUL] + (b + [NUL] + p);
    assert t == (w + [NUL] + a + [NUL] + b) + [NUL] + p;
    assert a == t[q + 1..r] && b == t[r + 1..s];
  }

  /** The only places where a separator could stand. */
  lemma Separators(w: string, a: string, b: string, p: string, i: nat)
    requires Filled(w, a, b, p) && NulsHarmless(w, a, b, p)
    requires 0 < i < |Join4(w, a, b, p)| - 1 && Join4(w, a, b, p)[i] == NUL
    ensures var q, r, s := |w|, |w| + 1 + |a|, |w| + |a| + |b| + 2;
      i == q || i == r || i == s || (i == q + 1 && r == q + 2) || (i == r + 1 && s == r + 2)
  {
    CharAt(w, a, b, p, i);
    hide Join4;
  }

  lemma CharAt(w: string, a: string, b: string, p: string, i: nat)
    requires i < |Join4(w, a, b, p)|
    ensures var t := Join4(w, a, b, p);
      var q, r, s := |w|, |w| + 1 + |a|, |w| + |a| + |b| + 2;
      && |t| == s + 1 + |p| && (i < q ==> t[i] == w[i]) && (q < i < r ==> t[i] == a[i - q - 1])
      && (r < i < s ==> t[i] == b[i - r - 1]) && (s < i ==> t[i] == p[i - s - 1])
  {
    Fields(w, a, b, p);
    hide Join4;
  }

  lemma HarmlessSplitsOnce(workflow: string, action: string, basis: string, policy: string)
    requires Filled(workflow, action, basis, policy) && NulsHarmless(workflow, action, basis, policy)
    ensures SplitsOnce(workflow, action, basis, policy)
  {
    Fields(workflow, action, basis, policy);
    forall w, a, b, p | Filled(w, a, b, p) && Join4(w, a, b, p) == Join4(workflow, action, basis, policy)
      ensures w == workflow && a == action && b == basis && p == policy
    {
      Fields(w, a, b, p);
      Separators(workflow, action, basis, policy, |w|);
      Separators(workflow, action, basis, policy, |w| + 1 + |a|);
      Separators(workflow, action, basis, policy, |w| + |a| + |b| + 2);
      hide Join4, NulsHarmless;
    }
  }

  lemma Shift(x: string, y: string, z: string)
    ensures Join2(Join2(x, y), z) == Join2(x, Join2(y, z))
  {
  }

  lemma Cut(x: string, i: nat)
    requires i < |x| && x[i] == NUL
    ensures x == Join2(x[..i], x[i + 1..])
  {
  }

  lemma HarmfulSplitsAgain(workflow: string, action: string, basis: string, policy: string)
    requires Filled(workflow, action, basis, policy) && !NulsHarmless(workflow, action, basis, policy)
    ensures !SplitsOnce(workflow, action, basis, policy)
  {
    if i :| 1 <= i < |workflow| && workflow[i] == NUL {
      Cut(workflow, i);
      Shift(workflow[..i], workflow[i + 1..], Join2(action, Join2(basis, policy)));
      Shift(workflow[i + 1..], action, Join2(basis, policy));
      assert Filled(workflow[..i], Join2(workflow[i + 1..], action), basis, policy);
    } else if i :| 0 <= i < |policy| - 1 && policy[i] == NUL {
      Cut(policy, i);
      Shift(basis, policy[..i], policy[i + 1..]);
      assert Filled(workflow, action, Join2(basis, policy[..i]), policy[i + 1..]);
    } else if !NulFree(action) && action != [NUL] {
      var i :| 0 <= i < |action| && action[i] == NUL;
      Cut(action, i);
      if i > 0 {
        Shift(action[..i], action[i + 1..], Join2(basis, policy));
        Shift(action[i + 1..], basis, policy);
        assert Filled(workflow, action[..i], Join2(action[i + 1..], basis), policy);
      } else {
        Shift(workflow, action[..i], Join2(action[i + 1..], Join2(basis, policy)));
        Shift(action[..i], action[i + 1..], Join2(basis, policy));
        assert Filled(Join2(workflow, action[..i]), action[i + 1..], basis, policy);
      }
    } else {
      var i :| 0 <= i < |basis| && basis[i] == NUL;
      Cut(basis, i);
      if i > 0 {
        Shift(basis[..i], basis[i + 1..], policy);
        assert Filled(workflow, action, basis[..i], Join2(basis[i + 1..], policy));
      } else {
        Shift(action, basis[..i], Join2(basis[i + 1..], policy));
        Shift(basis[..i], basis[i + 1..], policy);
        assert Filled(workflow, Join2(action, basis[..i]), basis[i + 1..], policy);
      }
    }
  }

  /** What the tables authorize is what was granted, whatever the history. */
  ghost predicate Exact(workflow: string, action: string, basis: string, policy: string) {
    forall h, now :: Issuable(h) ==>
      (Authorized(h, (workflow, action), Join4(workflow, action, basis, policy), now)
       <==> Granted(h, workflow, action, basis, policy, now))
  }

  lemma OnceIsExact(h: seq<Event>, workflow: string, action: string, basis: string, policy: string, now: int)
    requires Issuable(h) && SplitsOnce(workflow, action, basis, policy)
    ensures Authorized(h, (workflow, action), Join4(workflow, action, basis, policy), now)
            <==> Granted(h, workflow, action, basis, policy, now)
  {
    var digest := Join4(workflow, action, basis, policy);
    forall k: nat
      ensures IssueOf(h, k, digest) <==> GrantAt(h, k, workflow, action, basis, policy)
    {
      if IssueOf(h, k, digest) {
        var a := h[k].artifact;
        assert Filled(a.workflow, a.action, a.basis, a.policy);
      }
    }
    hide Join4, DigestText, SameGrant, LastAbout, SplitsOnce, Issuable;
    forall j: nat
      ensures FirstWith(h, j, digest) <==> FirstGrant(h, j, workflow, action, basis, policy)
    {
    }
    hide FirstWith, FirstGrant, IssueOf, GrantAt;
    if Authorized(h, (workflow, action), digest, now) {
      var i: nat, j: nat :| LastAbout(h, i, (workflow, action)) && IssueOf(h, i, digest) && FirstWith(h, j, digest)
                            && now < h[j].artifact.expires;
      assert GrantAt(h, i, workflow, action, basis, policy) && FirstGrant(h, j, workflow, action, basis, policy);
    }
    if Granted(h, workflow, action, basis, policy, now) {
      var i: nat, j: nat :| LastAbout(h, i, (workflow, action)) && GrantAt(h, i, workflow, action, basis, policy)
                            && FirstGrant(h, j, workflow, action, basis, policy) && now < h[j].artifact.expires;
      assert IssueOf(h, i, digest) && FirstWith(h, j, digest);
    }
  }

  function Sample(workflow: string, action: string, basis: string, policy: string, expires: int): Artifact {
    Artifact(workflow, action, basis, policy, "actor", "cli", "why", 0, expires)
  }

  /** Another grant with the same digest lets this one through, or ends it early. */
  lemma TwiceIsNotExact(workflow: string, action: string, basis: string, policy: string, w: string, a: string, b: string, p: string)
    requires Filled(workflow, action, basis, policy) && Filled(w, a, b, p)
    requires Join4(w, a, b, p) == Join4(workflow, action, basis, policy)
    requires (w, a, b, p) != (workflow, action, basis, policy)
    ensures !Exact(workflow, action, basis, policy)
  {
    hide Join4;
    var digest := Join4(workflow, action, basis, policy);
    var other, this' := Issued(Sample(w, a, b, p, 1)), Issued(Sample(workflow, action, basis, policy, 3));
    if (w, a) == (workflow, action) {
      var h := [other];
      assert LastAbout(h, 0, (workflow, action)) && IssueOf(h, 0, digest) && FirstWith(h, 0, digest);
      assert Authorized(h, (workflow, action), digest, 0);
      assert !Granted(h, workflow, action, basis, policy, 0);
      assert Issuable(h);
    } else {
      var h := [other, this'];
      assert LastAbout(h, 1, (workflow, action)) && GrantAt(h, 1, workflow, action, basis, policy);
      assert FirstGrant(h, 1, workflow, action, basis, policy) && !GrantAt(h, 0, workflow, action, basis, policy);
      assert Granted(h, workflow, action, basis, policy, 2);
      assert IssueOf(h, 0, digest);
      assert !Authorized(h, (workflow, action), digest, 2);
      assert Issuable(h);
    }
  }

  /** The digest of a request with four non-empty fields is as good as the fields exactly if
      its NULs are harmless; then re-issuing never moves the expiry of the first issue. */
  lemma ExactlyHarmless(workflow: string, action: string, basis: string, policy: string)
    requires Filled(workflow, action, basis, policy)
    ensures Exact(workflow, action, basis, policy) <==> NulsHarmless(workflow, action, basis, policy)
  {
    if NulsHarmless(workflow, action, basis, policy) {
      HarmlessSplitsOnce(workflow, action, basis, policy);
      forall h, now | Issuable(h)
        ensures Authorized(h, (workflow, action), Join4(workflow, action, basis, policy), now)
                <==> Granted(h, workflow, action, basis, policy, now)
      {
        OnceIsExact(h, workflow, action, basis, policy, now);
      }
    } else {
      HarmfulSplitsAgain(workflow, action, basis, policy);
      var w, a, b, p :| Filled(w, a, b, p) && Join4(w, a, b, p) == Join4(workflow, action, basis, policy)
                        && !(w == workflow && a == action && b == basis && p == policy);
      TwiceIsNotExact(workflow, action, basis, policy, w, a, b, p);
    }
  }

  // ------------------------------------------------------------------ the tables

  class ApprovalTables {
    var approvals: map<string, Artifact>
    var current: map<Scope, string>
    var revocations: seq<Revocation>
    ghost var history: seq<Event>

    ghost predicate Valid()
      reads this
    {
      Refines(history, current, approvals)
    }

    constructor ()
      ensures Valid() && history == []
    {
      approvals, current, revocations, history := map[], map[], [], [];
    }

    /** `issued` is None for a zero time: the clock decides. */
    method Issue(draft: Artifact, issued: Option<int>, clock: int) returns (ok: bool, persisted: Artifact)
      requires Valid()
      modifies this
      ensures Valid() && revocations == old(revocations)
      ensures var a := draft.(issued := if issued.Some? then issued.value else clock);
        && (ok <==> Filled(a.workflow, a.action, a.basis, a.policy) && "" !in [a.actor, a.source, a.rationale] && a.issued < a.expires)
        && history == (if ok then old(history) + [Issued(a)] else old(history))
        && (ok ==> Some(persisted) == StoredOf(history, DigestText(a)))
      ensures !ok ==> approvals == old(approvals) && current == old(current)
    {
      hide DigestText, Refines, StoredOf, CurrentOf;
      var a := draft.(issued := if issued.Some? then issued.value else clock);
      persisted := a;
      if !Complete(a) || a.expires <= a.issued {
        return false, persisted;
      }
      var id := DigestText(a);
      IssueKeeps(history, current, approvals, a);
      if id !in approvals {
        approvals := approvals[id := a];
      }
      persisted := approvals[id];
      current := current[(a.workflow, a.action) := id];
      history := history + [Issued(a)];
      ok := true;
    }

    method Require(workflow: string, action: string, basis: string, policy: string, now: int) returns (ok: bool, a: Option<Artifact>)
      requires Valid()
      ensures ok <==> Authorized(history, (workflow, action), Join4(workflow, action, basis, policy), now)
      ensures a == if ok then StoredOf(history, Join4(workflow, action, basis, policy)) else None
    {
      hide Authorized, Join4, Refines, DigestText, StoredOf;
      RowsAnswerHistory(history, current, approvals, (workflow, action), Join4(workflow, action, basis, policy), now);
      if (workflow, action) !in current || current[(workflow, action)] !in approvals {
        return false, None;
      }
      var found := approvals[current[(workflow, action)]];
      StoredUnderItsDigest(current[(workflow, action)]);
      ok := DigestText(found) == Join4(workflow, action, basis, policy) && found.expires > now;
      a := if ok then Some(found) else None;
    }

    lemma StoredUnderItsDigest(digest: string)
      requires Valid() && digest in approvals
      ensures DigestText(approvals[digest]) == digest && StoredOf(history, digest) == Some(approvals[digest])
    {
      hide DigestText;
      StoredIsFirst(history, digest, approvals[digest]);
    }

    method Revoke(workflow: string, action: string, actor: string, reason: string) returns (ok: bool)
      requires Valid()
      modifies this
      ensures Valid() && approvals == old(approvals)
      ensures ok <==> (workflow, action) in old(current)
      ensures current == old(current) - {(workflow, action)}
      ensures history == if ok then old(history) + [Revoked(workflow, action)] else old(history)
      ensures revocations == if ok
        then old(revocations) + [Revocation(workflow, action, old(current)[(workflow, action)], actor, reason)] else old(revocations)
    {
      hide DigestText;
      if (workflow, action) !in current {
        return false;
      }
      var id := current[(workflow, action)];
      current := current - {(workflow, action)};
      revocations := revocations + [Revocation(workflow, action, id, actor, reason)];
      history := history + [Revoked(workflow, action)];
      assert history[..|history| - 1] == old(history);
      ok := true;
    }

    /** Revokes every current approval of one workflow and no other. */
    method RevokeAll(workflow: string, actor: string, reason: string) returns (ok: bool)
      requires Valid()
      modifies this
      ensures Valid() && ok && approvals == old(approvals) && old(history) <= history
      ensures forall s :: s in current <==> s in old(current) && s.0 != workflow
      ensures old(revocations) <= revocations && (forall s :: s in old(current) && s.0 == workflow ==>
        Revocation(workflow, s.1, old(current)[s], actor, reason) in revocations[|old(revocations)|..])
      ensures |revocations| - |old(revocations)| == |history| - |old(history)| == |old(current)| - |current|
    {
      hide Refines;
      var rest := set s | s in current && s.0 == workflow :: s;
      while rest != {}
        invariant Valid() && approvals == old(approvals) && old(history) <= history
        invariant rest <= current.Keys && forall s :: s in rest ==> s.0 == workflow
        invariant forall s :: s in current ==> s in old(current) && current[s] == old(current)[s]
        invariant old(revocations) <= revocations && (forall s :: s in old(current) && s.0 == workflow && s !in rest ==>
          Revocation(workflow, s.1, old(current)[s], actor, reason) in revocations[|old(revocations)|..])
        invariant |revocations| - |old(revocations)| == |history| - |old(history)| == |old(current)| - |current|
        invariant forall s :: s in current <==> s in old(current) && (s.0 == workflow ==> s in rest)
        decreases rest
      {
        var s :| s in rest;
        rest := rest - {s};
        ghost var done := revocations[|old(revocations)|..];
        ok := Revoke(workflow, s.1, actor, reason);
        assert revocations[|old(revocations)|..] == done + [Revocation(workflow, s.1, old(current)[s], actor, reason)];
        if !ok {
          return;
        }
      }
      ok := true;
    }
  }

  /** Nothing keeps a NUL from being issued: one grant is issued, another one is let through. */
  method NulReachesIssue() returns (tables: ApprovalTables, ok: bool)
    ensures fresh(tables) && tables.Valid() && ok
    ensures |tables.history| == 1 && tables.history[0].Issued?
    ensures exists basis, policy ::
      && Authorized(tables.history, ("w", "a"), Join4("w", "a", basis, policy), 0)
      && !SameGrant(tables.history[0].artifact, "w", "a", basis, policy)
  {
    var x: string, long: string := ['x'], ['x', NUL, 'x'];
    tables := new ApprovalTables();
    var issued, persisted := tables.Issue(Sample("w", "a", x, long, 1), Some(0), 0);
    var a: Option<Artifact>;
    assert Join2(long, x) == Join2(x, long);
    assert |long| != |x|;
    var digest := Join4("w", "a", long, x);
    assert DigestText(tables.history[0].artifact) == digest;
    hide Join4, DigestText;
    assert LastAbout(tables.history, 0, ("w", "a")) && IssueOf(tables.history, 0, digest) && FirstWith(tables.history, 0, digest);
    ok, a := tables.Require("w", "a", long, x, 0);
  }
}
