/** Strings as the code compares and splits them. */
module Text {

  /** Byte-wise order of two strings. */
  predicate Less(a: string, b: string) {
    b != [] && (a == [] || a[0] < b[0] || (a[0] == b[0] && Less(a[1..], b[1..])))
  }

  lemma {:induction false} LessTotal(a: string, b: string)
    ensures !(Less(a, b) && Less(b, a))
    ensures Less(a, b) || Less(b, a) <==> a != b
  {
    if a == [] || b == [] {
    } else if a[0] == b[0] {
      LessTotal(a[1..], b[1..]);
      assert a == [a[0]] + a[1..] && b == [b[0]] + b[1..];
    }
  }

  lemma {:induction false} LessTransitive(a: string, b: string, c: string)
    requires Less(a, b) && Less(b, c)
    ensures Less(a, c)
  {
    if a != [] && a[0] == b[0] && b[0] == c[0] {
      LessTransitive(a[1..], b[1..], c[1..]);
    }
  }

  /** The first place of `c` in `s`, or the length of `s`. */
  function IndexOf(s: string, c: char): (i: nat)
    ensures i <= |s| && c !in s[..i] && (i < |s| ==> s[i] == c)
  {
    if s == [] || s[0] == c then 0 else
      var k := IndexOf(s[1..], c);
      assert s[..k + 1] == [s[0]] + s[1..][..k];
      k + 1
  }

  lemma {:induction false} IndexOfIs(s: string, c: char, k: nat)
    requires k < |s| && s[k] == c && c !in s[..k]
    ensures IndexOf(s, c) == k
  {
    if k > 0 {
      assert s[0] in s[..k];
      assert s[..k] == [s[0]] + s[1..][..k - 1];
      IndexOfIs(s[1..], c, k - 1);
    }
  }

  function Split(s: string, sep: char): (parts: seq<string>)
    ensures parts != [] && forall p :: p in parts ==> sep !in p
    decreases |s|
  {
    var i := IndexOf(s, sep);
    if i == |s| then
      assert s[..i] == s;
      [s]
    else [s[..i]] + Split(s[i + 1..], sep)
  }

  function Joined(parts: seq<string>, sep: char): string
    requires parts != []
  {
    if |parts| == 1 then parts[0] else parts[0] + [sep] + Joined(parts[1..], sep)
  }

  lemma JoinedCons(p: string, rest: seq<string>, sep: char)
    requires rest != []
    ensures Joined([p] + rest, sep) == p + [sep] + Joined(rest, sep)
  {
    assert ([p] + rest)[1..] == rest;
  }

  lemma SplitCons(p: string, rest: string, sep: char)
    requires sep !in p
    ensures Split(p, sep) == [p] && Split(p + [sep] + rest, sep) == [p] + Split(rest, sep)
  {
    var s := p + [sep] + rest;
    assert s[..|p|] == p && s[|p| + 1..] == rest;
    IndexOfIs(s, sep, |p|);
    assert p[..|p|] == p;
  }

  /** Splitting what was joined gives the parts again. */
  lemma {:induction false} SplitJoined(parts: seq<string>, sep: char)
    requires parts != [] && forall p :: p in parts ==> sep !in p
    ensures Split(Joined(parts, sep), sep) == parts
  {
    if |parts| == 1 {
      SplitCons(parts[0], [], sep);
      assert parts == [parts[0]];
    } else {
      SplitJoined(parts[1..], sep);
      SplitCons(parts[0], Joined(parts[1..], sep), sep);
      assert parts == [parts[0]] + parts[1..];
    }
  }

  lemma {:induction false} JoinedWithout(parts: seq<string>, sep: char, c: char)
    requires parts != [] && c != sep && forall p :: p in parts ==> c !in p
    ensures c !in Joined(parts, sep)
  {
    if |parts| > 1 {
      JoinedWithout(parts[1..], sep, c);
      assert parts[0] in parts;
    }
  }

  lemma {:induction false} JoinedSplit(s: string, sep: char)
    ensures Joined(Split(s, sep), sep) == s
    decreases |s|
  {
    var i := IndexOf(s, sep);
    if i < |s| {
      JoinedSplit(s[i + 1..], sep);
      JoinedCons(s[..i], Split(s[i + 1..], sep), sep);
      assert s == s[..i] + [sep] + s[i + 1..];
    }
  }
}
