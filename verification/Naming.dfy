/** Numbers as text, and the names the evaluator builds from them. */
module Naming {
  import opened Joining

  predicate Digit(c: char) {
    '0' <= c <= '9'
  }

  predicate Digits(s: string) {
    forall i :: 0 <= i < |s| ==> Digit(s[i])
  }

  function Number(s: string): (n: nat)
    requires Digits(s)
  {
    if s == [] then 0 else 10 * Number(s[..|s| - 1]) + (s[|s| - 1] - '0') as nat
  }

  /** A number in decimal, the format `%d`. */
  function Decimal(n: nat): (s: string)
    ensures s != [] && Digits(s) && Number(s) == n
  {
    if n < 10 then
      var c := '0' + n as char;
      assert [c][..0] == [] && Number([c]) == n;
      [c]
    else
      var c := '0' + (n % 10) as char;
      var s := Decimal(n / 10) + [c];
      assert s[..|s| - 1] == Decimal(n / 10);
      s
  }

  function Zeros(k: nat): (s: string)
    ensures |s| == k && Digits(s) && Number(s) == 0
  {
    if k == 0 then [] else
      var s := Zeros(k - 1) + ['0'];
      assert s[..|s| - 1] == Zeros(k - 1);
      s
  }

  lemma {:induction false} LeadingZeros(k: nat, s: string)
    requires Digits(s)
    ensures Digits(Zeros(k) + s) && Number(Zeros(k) + s) == Number(s)
  {
    if s == [] {
      assert Zeros(k) + s == Zeros(k);
    } else {
      LeadingZeros(k, s[..|s| - 1]);
      assert (Zeros(k) + s)[..|Zeros(k) + s| - 1] == Zeros(k) + s[..|s| - 1];
    }
  }

  /** A number in at least four digits, the format `%04d`. */
  function Padded(n: nat): string {
    var d := Decimal(n);
    if |d| >= 4 then d else Zeros(4 - |d|) + d
  }

  lemma PaddedNumber(n: nat)
    ensures Padded(n) != [] && Digits(Padded(n)) && Number(Padded(n)) == n
  {
    hide Decimal, Zeros, Number;
    var d := Decimal(n);
    if |d| < 4 {
      LeadingZeros(4 - |d|, d);
    }
  }

  lemma {:induction false} DecimalHead(n: nat)
    ensures n > 0 ==> Decimal(n)[0] != '0'
  {
    if n >= 10 {
      DecimalHead(n / 10);
      assert Decimal(n)[0] == Decimal(n / 10)[0];
    }
  }

  /** Four digits, or as many as the number needs. */
  lemma PaddedShape(n: nat)
    ensures |Padded(n)| >= 4 && Digits(Padded(n)) && Number(Padded(n)) == n
    ensures |Padded(n)| > 4 ==> Padded(n)[0] != '0'
  {
    PaddedNumber(n);
    DecimalHead(n);
    if n < 10 {
      assert |Decimal(n)| == 1;
    }
    hide Decimal, Number, Digits;
  }

  lemma PaddedInjective(m: nat, n: nat)
    requires Padded(m) == Padded(n)
    ensures m == n
  {
    PaddedNumber(m);
    PaddedNumber(n);
    hide *;
  }

  /** The key of a block: its case, a dash and the padded repetition. */
  function BlockKey(caseId: string, repetition: nat): string {
    caseId + "-" + Padded(repetition)
  }

  lemma LastDash(c: string, r: nat)
    ensures |BlockKey(c, r)| > |c| && BlockKey(c, r)[|c|] == '-'
    ensures forall i :: |c| < i < |BlockKey(c, r)| ==> BlockKey(c, r)[i] != '-'
  {
    var key, digits := BlockKey(c, r), Padded(r);
    PaddedNumber(r);
    hide Padded;
    forall i | |c| < i < |key|
      ensures key[i] != '-'
    {
      assert key[i] == digits[i - |c| - 1] && Digit(digits[i - |c| - 1]);
    }
  }

  /** Whatever the case ids contain, dashes and digits included, two blocks share a
      key only when they are the same block. */
  lemma BlockKeyInjective(c: string, r: nat, d: string, q: nat)
    requires BlockKey(c, r) == BlockKey(d, q)
    ensures c == d && r == q
  {
    LastDash(c, r);
    LastDash(d, q);
    PaddedNumber(r);
    PaddedNumber(q);
    hide Padded, Number;
    var key := BlockKey(c, r);
    assert |c| == |d|;
    assert c == key[..|c|] == d;
    assert Padded(r) == key[|c| + 1..] == Padded(q);
    assert Number(Padded(r)) == Number(Padded(q));
  }

  function HoldoutPrefix(): (s: string)
    ensures NulFree(s)
  {
    "holdout_"
  }

  function HoldoutReference(index: nat): string {
    HoldoutPrefix() + Padded(index + 1)
  }

  lemma AppendCancels(p: string, a: string, b: string)
    requires p + a == p + b
    ensures a == b
  {
    assert a == (p + a)[|p|..] && b == (p + b)[|p|..];
  }

  lemma HoldoutReferenceInjective(i: nat, j: nat)
    requires HoldoutReference(i) == HoldoutReference(j)
    ensures i == j
  {
    hide Padded, Number, Digits, HoldoutPrefix, NulFree;
    AppendCancels(HoldoutPrefix(), Padded(i + 1), Padded(j + 1));
    PaddedInjective(i + 1, j + 1);
  }

  lemma HoldoutReferenceIsText(i: nat)
    ensures NulFree(HoldoutReference(i))
  {
    PaddedNumber(i + 1);
    hide Padded, Number;
    var p := Padded(i + 1);
    forall k | 0 <= k < |p|
      ensures p[k] != NUL
    {
      assert Digit(p[k]);
    }
  }

  /** The text that is digested into the run id of a redacted sample. */
  function RunReference(reference: string, variant: string, repetition: nat): string {
    Join2(reference, Join2(variant, Decimal(repetition)))
  }

  lemma RunReferenceInjective(r: string, v: string, n: nat, r': string, v': string, n': nat)
    requires NulFree(r) && NulFree(v) && NulFree(r') && NulFree(v')
    requires RunReference(r, v, n) == RunReference(r', v', n')
    ensures r == r' && v == v' && n == n'
  {
    Join2Injective(r, Join2(v, Decimal(n)), r', Join2(v', Decimal(n')));
    Join2Injective(v, Decimal(n), v', Decimal(n'));
    assert Number(Decimal(n)) == Number(Decimal(n'));
  }
}
