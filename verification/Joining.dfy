/** Text keys built by joining fields with a NUL character, as the intent store,
    the approval digest and the holdout run reference do. */
module Joining {

  const NUL: char := '\0'

  predicate NulFree(s: string) {
    NUL !in s
  }

  function Join2(a: string, b: string): string {
    a + [NUL] + b
  }

  function Join4(a: string, b: string, c: string, d: string): string {
    Join2(a, Join2(b, Join2(c, d)))
  }

  /** Only the field before the separator has to be free of it. */
  lemma Join2Injective(a: string, b: string, c: string, d: string)
    requires NulFree(a) && NulFree(c)
    requires Join2(a, b) == Join2(c, d)
    ensures a == c && b == d
  {
    var s := Join2(a, b);
    assert s[|a|] == NUL && s[|c|] == NUL;
    assert |a| == |c|;
    assert a == s[..|a|] == c;
    assert b == s[|a| + 1..] == d;
  }

  /** Two pairs join to one text exactly if they are the same pair, or one first field goes
      on with a NUL where the other second field does. */
  lemma Join2Exactly(a: string, b: string, c: string, d: string)
    ensures Join2(a, b) == Join2(c, d) <==>
      (a == c && b == d) || (exists x :: c == Join2(a, x) && b == Join2(x, d)) || (exists x :: a == Join2(c, x) && d == Join2(x, b))
    ensures (exists x :: c == Join2(a, x) && b == Join2(x, d)) || (exists x :: a == Join2(c, x) && d == Join2(x, b)) ==> a != c
  {
    if Join2(a, b) == Join2(c, d) {
      if |a| < |c| {
        LaterSplit(a, b, c, d);
      } else if |c| < |a| {
        LaterSplit(c, d, a, b);
      } else {
        assert a == Join2(a, b)[..|a|] == Join2(c, d)[..|c|] == c;
        assert b == Join2(a, b)[|a| + 1..] == Join2(c, d)[|c| + 1..] == d;
      }
    }
    if x :| c == Join2(a, x) && b == Join2(x, d) {
      Join2Associates(a, x, d);
    }
    if x :| a == Join2(c, x) && d == Join2(x, b) {
      Join2Associates(c, x, b);
    }
  }

  lemma Join2Associates(a: string, b: string, c: string)
    ensures Join2(Join2(a, b), c) == Join2(a, Join2(b, c))
  {
  }

  lemma LaterSplit(a: string, b: string, c: string, d: string)
    requires Join2(a, b) == Join2(c, d) && |a| < |c|
    ensures exists x :: c == Join2(a, x) && b == Join2(x, d)
  {
    var s, x := Join2(a, b), c[|a| + 1..];
    assert a == s[..|a|] == c[..|a|];
    assert c[|a|] == s[|a|] == NUL;
    assert c == Join2(a, x);
    assert b == s[|a| + 1..] == Join2(c, d)[|a| + 1..] == Join2(x, d);
  }
}
