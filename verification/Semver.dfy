/** Versions of releases: which texts are accepted, how two of them compare, and what a
    chain of self-upgrades can do. */
module Semver {
  import opened Text
  import opened Naming

  const MAX_UINT64 := 0xFFFF_FFFF_FFFF_FFFF

  /** What strconv.ParseUint reads in base 10 with 64 bits. */
  predicate Fits(p: string) {
    p != "" && Digits(p) && Number(p) <= MAX_UINT64
  }

  predicate DigitsOnly(p: string) {
    p != "" && Digits(p)
  }

  predicate LeadingZero(p: string) {
    |p| > 1 && p[0] == '0'
  }

  predicate CorePart(p: string) {
    Fits(p) && !LeadingZero(p)
  }

  predicate IdentifierChar(c: char) {
    c == '-' || '0' <= c <= '9' || 'A' <= c <= 'Z' || 'a' <= c <= 'z'
  }

  predicate Identifier(p: string, preRelease: bool) {
    && p != "" && (preRelease ==> !(LeadingZero(p) && Digits(p)))
    && forall i :: 0 <= i < |p| ==> IdentifierChar(p[i])
  }

  /** A section is empty or a dotted list of identifiers. */
  predicate Section(s: string, preRelease: bool) {
    s == "" || forall p :: p in Split(s, '.') ==> Identifier(p, preRelease)
  }

  /** What is before the first `sep`, and what is after it if there is one. */
  function Before(s: string, sep: char): string {
    s[..IndexOf(s, sep)]
  }

  predicate Has(s: string, sep: char) {
    IndexOf(s, sep) < |s|
  }

  function After(s: string, sep: char): string
    requires Has(s, sep)
  {
    s[IndexOf(s, sep) + 1..]
  }

  predicate CoreOk(core: string) {
    |Split(core, '.')| == 3 && forall p :: p in Split(core, '.') ==> CorePart(p)
  }

  predicate Valid(v: string) {
    var main := Before(v, '+');
    && CoreOk(Before(main, '-'))
    && (Has(main, '-') ==> Section(After(main, '-'), true))
    && (Has(v, '+') ==> Section(After(v, '+'), false))
  }

  /** The first character that is no digit comes before the number gets too large. */
  ghost predicate BreaksOff(p: string) {
    exists i :: 0 <= i < |p| && Digits(p[..i]) && Number(p[..i]) <= MAX_UINT64 && !Digit(p[i])
  }

  /** A number that breaks off at some other character counts as 0, one that gets too large as
      the largest there is. */
  method ParseUint(p: string) returns (ok: bool, n: nat)
    ensures ok <==> Fits(p)
    ensures ok ==> n == Number(p)
    ensures BreaksOff(p) ==> n == 0
  {
    n := 0;
    if p == "" {
      return false, n;
    }
    for i := 0 to |p|
      invariant Digits(p[..i]) && n == Number(p[..i]) <= MAX_UINT64
    {
      if !Digit(p[i]) {
        assert !Digits(p);
        return false, 0;
      }
      assert p[..i + 1][..i] == p[..i];
      n := 10 * n + (p[i] - '0') as nat;
      if n > MAX_UINT64 {
        TooLarge(p, i + 1);
        return false, MAX_UINT64;
      }
    }
    assert p[..|p|] == p;
    ok := true;
  }

  lemma TooLarge(p: string, i: nat)
    requires i <= |p| && Digits(p[..i]) && Number(p[..i]) > MAX_UINT64
    ensures !Fits(p) && !BreaksOff(p)
  {
    forall j | i <= j <= |p| && Digits(p[..j])
      ensures Number(p[..j]) > MAX_UINT64
    {
      NumberGrows(p[..j], i);
      assert p[..j][..i] == p[..i];
    }
    assert p[..|p|] == p;
    assert forall j :: 0 <= j < i ==> Digit(p[..i][j]);
  }

  lemma {:induction false} NumberGrows(p: string, i: nat)
    requires Digits(p) && i <= |p|
    ensures Number(p[..i]) <= Number(p)
  {
    if i == |p| {
      assert p[..i] == p;
    } else {
      NumberGrows(p[..|p| - 1], i);
      assert p[..|p| - 1][..i] == p[..i];
    }
  }

  method CheckIdentifier(p: string, preRelease: bool) returns (ok: bool)
    ensures ok <==> Identifier(p, preRelease)
  {
    if p == "" {
      return false;
    }
    if preRelease && |p| > 1 && p[0] == '0' {
      var allDigits := true;
      for i := 0 to |p|
        invariant allDigits && Digits(p[..i])
      {
        if !Digit(p[i]) {
          allDigits := false;
          break;
        }
        assert p[..i + 1] == p[..i] + [p[i]];
      }
      if allDigits {
        assert p[..|p|] == p;
        return false;
      }
    }
    for i := 0 to |p|
      invariant forall j :: 0 <= j < i ==> IdentifierChar(p[j])
      invariant preRelease ==> !(LeadingZero(p) && Digits(p))
    {
      if !IdentifierChar(p[i]) {
        return false;
      }
    }
    ok := true;
  }

  method CheckSection(s: string, preRelease: bool) returns (ok: bool)
    ensures ok <==> Section(s, preRelease)
  {
    if s == "" {
      return true;
    }
    var parts := Split(s, '.');
    for i := 0 to |parts|
      invariant forall j :: 0 <= j < i ==> Identifier(parts[j], preRelease)
    {
      ok := CheckIdentifier(parts[i], preRelease);
      if !ok {
        assert parts[i] in parts;
        return;
      }
    }
    ok := true;
  }

  method ValidSemver(v: string) returns (ok: bool)
    ensures ok <==> Valid(v)
  {
    hide Section, Split, CorePart, IndexOf;
    var main := Before(v, '+');
    var core := Split(Before(main, '-'), '.');
    if |core| != 3 {
      return false;
    }
    for i := 0 to 3
      invariant forall j :: 0 <= j < i ==> CorePart(core[j])
    {
      var number, n := ParseUint(core[i]);
      assert CorePart(core[i]) <==> number && !LeadingZero(core[i]) by {
        CorePartIs(core[i]);
      }
      if core[i] == "" || (|core[i]| > 1 && core[i][0] == '0') || !number {
        assert core[i] in core;
        return false;
      }
    }
    if Has(main, '-') {
      ok := CheckSection(After(main, '-'), true);
      if !ok {
        return;
      }
    }
    if Has(v, '+') {
      ok := CheckSection(After(v, '+'), false);
      return;
    }
    ok := true;
  }

  lemma CorePartIs(p: string)
    ensures CorePart(p) <==> Fits(p) && !LeadingZero(p)
    ensures p == "" ==> !CorePart(p)
  {
  }

  // -------------------------------------------------------- numbers and their text

  function Pow10(k: nat): (n: nat)
    ensures n >= 1
  {
    if k == 0 then 1 else 10 * Pow10(k - 1)
  }

  function Value(c: char): (n: nat)
    requires Digit(c)
    ensures n < 10
  {
    (c - '0') as nat
  }

  lemma ShiftLeft(v: nat, m: nat, x: nat, d: nat)
    ensures 10 * (v * m + x) + d == v * (10 * m) + (10 * x + d)
    ensures x < m && d < 10 ==> 10 * x + d < 10 * m
  {
  }

  lemma NumberLast(s: string)
    requires s != [] && Digits(s)
    ensures Number(s) == 10 * Number(s[..|s| - 1]) + Value(s[|s| - 1])
  {
  }

  lemma {:induction false} NumberHead(s: string)
    requires s != [] && Digits(s)
    ensures Number(s) == Value(s[0]) * Pow10(|s| - 1) + Number(s[1..]) && Number(s[1..]) < Pow10(|s| - 1)
  {
    var n := |s| - 1;
    if n == 0 {
      assert s[..0] == [] && s[1..] == [];
    } else {
      var front := s[..n];
      NumberHead(front);
      NumberLast(s);
      NumberLast(s[1..]);
      hide Number, Value;
      assert s[1..][..n - 1] == front[1..] && s[1..][n - 1] == s[n] && front[0] == s[0];
      ShiftLeft(Value(s[0]), Pow10(n - 1), Number(front[1..]), Value(s[n]));
    }
  }

  lemma {:induction false} SameLength(p: string, q: string)
    requires |p| == |q| && Digits(p) && Digits(q)
    ensures Number(p) < Number(q) <==> Less(p, q)
  {
    if p != [] {
      NumberHead(p);
      NumberHead(q);
      SameLength(p[1..], q[1..]);
      HeadDecides(Value(p[0]), Value(q[0]), Pow10(|p| - 1), Number(p[1..]), Number(q[1..]));
    }
  }

  lemma HeadDecides(a: nat, b: nat, m: nat, x: nat, y: nat)
    requires x < m && y < m
    ensures a * m + x < b * m + y <==> a < b || (a == b && x < y)
  {
    if a < b {
      assert (a + 1) * m <= b * m;
    } else if b < a {
      assert (b + 1) * m <= a * m;
    }
  }

  lemma MagnitudeOf(s: string)
    requires DigitsOnly(s) && !LeadingZero(s)
    ensures Number(s) < Pow10(|s|) && (|s| > 1 ==> Number(s) >= Pow10(|s| - 1))
  {
    NumberHead(s);
    assert |s| > 1 ==> Value(s[0]) >= 1;
    hide Number, Value;
    OneDigit(Value(s[0]), Pow10(|s| - 1));
  }

  lemma OneDigit(v: nat, m: nat)
    requires v < 10
    ensures v * m <= 9 * m && (v >= 1 ==> v * m >= m)
  {
  }

  lemma {:induction false} Pow10Grows(a: nat, b: nat)
    requires a <= b
    ensures Pow10(a) <= Pow10(b)
  {
    if a < b {
      Pow10Grows(a, b - 1);
    }
  }

  /** Without leading zeros, numbers are ordered by length first and text second. */
  lemma NumbersAreShortlex(p: string, q: string)
    requires DigitsOnly(p) && DigitsOnly(q) && !LeadingZero(p) && !LeadingZero(q)
    ensures Number(p) < Number(q) <==> |p| < |q| || (|p| == |q| && Less(p, q))
    ensures Number(p) == Number(q) ==> p == q
  {
    hide Number, Digits, Less;
    if |p| == |q| {
      SameLength(p, q);
      SameLength(q, p);
      LessTotal(p, q);
    } else {
      MagnitudeOf(p);
      MagnitudeOf(q);
      if |p| < |q| {
        Pow10Grows(|p|, |q| - 1);
      } else {
        Pow10Grows(|q|, |p| - 1);
      }
    }
  }

  // ------------------------------------------------------------- written versions

  datatype Version = Version(core: seq<nat>, pre: seq<string>)

  /** A version with its numbers in decimal and its identifiers joined by dots. */
  function Written(v: Version): string
    requires |v.core| == 3
  {
    var core := Joined([Decimal(v.core[0]), Decimal(v.core[1]), Decimal(v.core[2])], '.');
    if v.pre == [] then core else core + ['-'] + Joined(v.pre, '.')
  }

  /** Three numbers of 64 bits and identifiers as section 9 of Semantic Versioning 2.0.0 has
      them, or the one empty identifier that a bare dash leaves. */
  predicate Writable(v: Version) {
    && |v.core| == 3 && v.core[0] <= MAX_UINT64 && v.core[1] <= MAX_UINT64 && v.core[2] <= MAX_UINT64
    && (v.pre == [""] || forall p :: p in v.pre ==> Identifier(p, true))
  }

  lemma {:induction false} DecimalIsCore(n: nat)
    ensures !LeadingZero(Decimal(n)) && (n > 0 ==> Decimal(n)[0] != '0')
    ensures '.' !in Decimal(n) && '-' !in Decimal(n) && '+' !in Decimal(n)
  {
    if n >= 10 {
      DecimalIsCore(n / 10);
      assert Decimal(n)[0] == Decimal(n / 10)[0];
    }
    assert Digits(Decimal(n));
  }

  lemma WrittenCore(v: Version)
    requires Writable(v)
    ensures var core := [Decimal(v.core[0]), Decimal(v.core[1]), Decimal(v.core[2])];
      && Split(Joined(core, '.'), '.') == core && CoreOk(Joined(core, '.'))
      && '-' !in Joined(core, '.') && '+' !in Joined(core, '.')
  {
    var core := [Decimal(v.core[0]), Decimal(v.core[1]), Decimal(v.core[2])];
    DecimalIsCore(v.core[0]);
    DecimalIsCore(v.core[1]);
    DecimalIsCore(v.core[2]);
    hide Decimal, Number, Split, Joined;
    SplitJoined(core, '.');
    JoinedWithout(core, '.', '-');
    JoinedWithout(core, '.', '+');
  }

  lemma WrittenSection(pre: seq<string>, preRelease: bool)
    requires pre != [] && (pre == [""] || forall p :: p in pre ==> Identifier(p, preRelease))
    ensures Split(Joined(pre, '.'), '.') == pre && Section(Joined(pre, '.'), preRelease) && '+' !in Joined(pre, '.')
  {
    forall p | p in pre
      ensures '.' !in p && '+' !in p
    {
    }
    hide Identifier, Split, Joined;
    SplitJoined(pre, '.');
    JoinedWithout(pre, '.', '+');
    if pre == [""] {
      OneJoined("");
    }
  }

  lemma OneJoined(p: string)
    ensures Joined([p], '.') == p
  {
  }

  /** A written version, with its build metadata behind a plus if it has any. */
  function Full(v: Version, build: seq<string>): string
    requires |v.core| == 3
  {
    if build == [] then Written(v) else Written(v) + ['+'] + Joined(build, '.')
  }

  predicate BuildOk(build: seq<string>) {
    build == [""] || forall p :: p in build ==> Identifier(p, false)
  }

  lemma WrittenParts(v: Version)
    requires Writable(v)
    ensures var s, core := Written(v), [Decimal(v.core[0]), Decimal(v.core[1]), Decimal(v.core[2])];
      && '+' !in s && Before(s, '+') == s && !Has(s, '+') && Before(s, '-') == Joined(core, '.') && CoreOk(Before(s, '-'))
      && Split(Before(s, '-'), '.') == core && (Has(s, '-') <==> v.pre != [])
      && (Has(s, '-') ==> Split(After(s, '-'), '.') == v.pre && Section(After(s, '-'), true))
  {
    WrittenCore(v);
    var s, text := Written(v), Joined([Decimal(v.core[0]), Decimal(v.core[1]), Decimal(v.core[2])], '.');
    if v.pre == [] {
      NotParted(s, '-');
    } else {
      WrittenSection(v.pre, true);
      Parted(text, '-', Joined(v.pre, '.'));
    }
    NotParted(s, '+');
  }

  lemma FullParts(v: Version, build: seq<string>)
    requires Writable(v) && BuildOk(build)
    ensures var s := Full(v, build);
      && Before(s, '+') == Written(v) && (Has(s, '+') <==> build != [])
      && (Has(s, '+') ==> Split(After(s, '+'), '.') == build && Section(After(s, '+'), false))
  {
    WrittenParts(v);
    if build != [] {
      WrittenSection(build, false);
    }
    hide Writable, Identifier, Written, Section, Joined, Split, CoreOk, Before, After, Has;
    if build == [] {
      assert Full(v, build) == Written(v);
    } else {
      Parted(Written(v), '+', Joined(build, '.'));
    }
  }

  lemma NotParted(s: string, sep: char)
    requires sep !in s
    ensures Before(s, sep) == s && !Has(s, sep)
  {
    assert IndexOf(s, sep) == |s| && s[..|s|] == s;
  }

  lemma Parted(before: string, sep: char, after: string)
    requires sep !in before
    ensures var s := before + [sep] + after; Before(s, sep) == before && Has(s, sep) && After(s, sep) == after
  {
    var s := before + [sep] + after;
    assert s[..|before|] == before && s[|before| + 1..] == after;
    IndexOfIs(s, sep, |before|);
  }

  /** Exactly the written versions are accepted. */
  lemma AcceptedExactly(s: string)
    ensures Valid(s) <==> exists v: Version, build: seq<string> :: Writable(v) && BuildOk(build) && s == Full(v, build)
  {
    hide BuildOk, Full;
    if Valid(s) {
      var v, build := Unwritten(s);
    }
    if v: Version, build: seq<string> :| Writable(v) && BuildOk(build) && s == Full(v, build) {
      FullIsValid(v, build);
    }
  }

  lemma FullIsValid(v: Version, build: seq<string>)
    requires Writable(v) && BuildOk(build)
    ensures Valid(Full(v, build)) && ('+' in Full(v, build) <==> build != [])
  {
    FullParts(v, build);
    WrittenParts(v);
    hide CoreOk, Section, Split, Joined, Identifier, Decimal, Number, Writable, BuildOk, Written;
    var s := Full(v, build);
    assert Has(s, '+') <==> '+' in s by {
      assert IndexOf(s, '+') == |s| ==> s[..|s|] == s;
    }
  }

  /** The numbers and identifiers an accepted text was written from. */
  lemma Unwritten(s: string) returns (v: Version, build: seq<string>)
    requires Valid(s)
    ensures Writable(v) && BuildOk(build) && s == Full(v, build)
  {
    v := UnwrittenMain(Before(s, '+'));
    WholeText(s, '+');
    build := [];
    if Has(s, '+') {
      build := Split(After(s, '+'), '.');
      SectionParts(s, '+', false);
    }
    hide Writable, Written, Split, Joined, Section, Identifier, Before, After, Has;
  }

  lemma UnwrittenMain(main: string) returns (v: Version)
    requires CoreOk(Before(main, '-')) && (Has(main, '-') ==> Section(After(main, '-'), true))
    ensures Writable(v) && Written(v) == main
  {
    var core := Split(Before(main, '-'), '.');
    CoreIsDecimal(core);
    JoinedSplit(Before(main, '-'), '.');
    v := Version([Number(core[0]), Number(core[1]), Number(core[2])], []);
    WholeText(main, '-');
    if Has(main, '-') {
      v := v.(pre := Split(After(main, '-'), '.'));
      SectionParts(main, '-', true);
    }
    hide Number, Decimal, Joined, Split, Section, Identifier, CorePart, IndexOf;
  }

  lemma CoreIsDecimal(core: seq<string>)
    requires |core| == 3 && forall p :: p in core ==> CorePart(p)
    ensures CorePart(core[0]) && CorePart(core[1]) && CorePart(core[2])
    ensures Fits(core[0]) && Fits(core[1]) && Fits(core[2])
    ensures core == [Decimal(Number(core[0])), Decimal(Number(core[1])), Decimal(Number(core[2]))]
  {
    DecimalOfNumber(core[0]);
    DecimalOfNumber(core[1]);
    DecimalOfNumber(core[2]);
    hide Number, Decimal;
  }

  lemma DecimalOfNumber(p: string)
    requires CorePart(p)
    ensures Decimal(Number(p)) == p
  {
    DecimalIsCore(Number(p));
    NumbersAreShortlex(Decimal(Number(p)), p);
  }

  lemma SectionParts(s: string, sep: char, preRelease: bool)
    requires Has(s, sep) && Section(After(s, sep), preRelease)
    ensures var parts := Split(After(s, sep), '.');
      && Joined(parts, '.') == After(s, sep) && (parts == [""] || forall p :: p in parts ==> Identifier(p, preRelease))
  {
    JoinedSplit(After(s, sep), '.');
    if After(s, sep) == "" {
      assert Split("", '.') == [""];
    }
  }

  // ----------------------------------------------------------------- comparison

  /** What the comparison makes of a core part, the error of which it does not look at. */
  function ReadNumber(p: string): nat {
    if Fits(p) then Number(p) else 0
  }

  /** A version as comparison reads it, cut at the first dash wherever that is; without a dash
      it has no identifiers. */
  function Parse(v: string): Version
    requires Valid(v)
  {
    CoreRead(v);
    var core := Split(Before(v, '-'), '.');
    Version([ReadNumber(core[0]), ReadNumber(core[1]), ReadNumber(core[2])], if Has(v, '-') then Split(After(v, '-'), '.') else [])
  }

  lemma CoreRead(v: string)
    requires Valid(v)
    ensures var core := Split(Before(v, '-'), '.');
      |core| >= 3 && forall i :: 0 <= i < 3 ==> Fits(core[i]) || BreaksOff(core[i])
  {
    var w, build := Unwritten(v);
    if build == [] {
      WrittenParts(w);
      DecimalFits(w);
    } else if w.pre != [] {
      FullWithPre(w, build);
      WrittenParts(w.(pre := []));
      DecimalFits(w);
    } else {
      FullWithoutPre(w, build);
    }
  }

  lemma DecimalFits(v: Version)
    requires Writable(v)
    ensures Fits(Decimal(v.core[0])) && Fits(Decimal(v.core[1])) && Fits(Decimal(v.core[2]))
  {
    hide Identifier;
  }

  /** With a pre-release the first dash is the one before it, and the build metadata runs on
      in its last identifier. */
  lemma FullWithPre(v: Version, build: seq<string>)
    requires Writable(v) && BuildOk(build) && v.pre != [] && build != []
    ensures var s := Full(v, build);
      && Before(s, '-') == Written(v.(pre := [])) && Has(s, '-') && Split(After(s, '-'), '.') == Glued(v.pre, '+', build)
  {
    var core, tail := Written(v.(pre := [])), Joined(v.pre, '.') + ['+'] + Joined(build, '.');
    WrittenParts(v.(pre := []));
    GluedParts(v.pre, '+', build);
    hide Writable, BuildOk, Joined, Split, Identifier, Decimal, Before, After, Has, Glued;
    assert Full(v, build) == core + ['-'] + tail;
    assert '-' !in core by {
      WrittenCore(v.(pre := []));
    }
    Parted(core, '-', tail);
  }

  /** Without one the build metadata runs on in the third number, up to its first dash. */
  lemma FullWithoutPre(v: Version, build: seq<string>)
    requires Writable(v) && BuildOk(build) && v.pre == [] && build != []
    ensures var s, tail := Full(v, build), Joined(build, '.');
      (Has(s, '-') <==> Has(tail, '-')) && (Has(s, '-') ==> After(s, '-') == After(tail, '-'))
    ensures var core := Split(Before(Full(v, build), '-'), '.');
      && |core| >= 3 && core[0] == Decimal(v.core[0]) && core[1] == Decimal(v.core[1])
      && !Fits(core[2]) && BreaksOff(core[2]) && Fits(core[0]) && Fits(core[1])
  {
    var s, tail := Full(v, build), Joined(build, '.');
    DecimalFits(v);
    WrittenCore(v);
    assert v.(pre := []) == v;
    hide Writable, BuildOk, Joined, Identifier, Decimal, Number, Digits, IndexOf, Split;
    var head := Written(v) + ['+'];
    assert s == head + tail && '-' !in head;
    BeforeLater(head, tail, '-');
    PlusCore(v, Before(tail, '-'));
    assert Before(s, '-') == Written(v) + ['+'] + Before(tail, '-');
  }

  lemma BeforeLater(head: string, tail: string, sep: char)
    requires sep !in head
    ensures var s := head + tail;
      Before(s, sep) == head + Before(tail, sep) && (Has(s, sep) <==> Has(tail, sep)) && (Has(tail, sep) ==> After(s, sep) == After(tail, sep))
  {
    var s, k := head + tail, IndexOf(tail, sep);
    if k < |tail| {
      assert s[..|head| + k] == head + tail[..k];
      IndexOfIs(s, sep, |head| + k);
    } else {
      assert tail[..k] == tail;
      NotParted(s, sep);
    }
  }

  lemma PlusCore(v: Version, y: string)
    requires Writable(v) && v.pre == []
    ensures var core := Split(Written(v) + ['+'] + y, '.');
      && |core| >= 3 && core[0] == Decimal(v.core[0]) && core[1] == Decimal(v.core[1])
      && !Fits(core[2]) && BreaksOff(core[2])
  {
    var p, q, r := Decimal(v.core[0]), Decimal(v.core[1]), Decimal(v.core[2]);
    DecimalIsCore(v.core[0]);
    DecimalIsCore(v.core[1]);
    DecimalIsCore(v.core[2]);
    DecimalFits(v);
    ThreeJoined(p, q, r);
    hide Writable, Decimal, Number, Digits, Split, Joined;
    var last := r + ['+'] + y;
    assert Written(v) + ['+'] + y == p + ['.'] + (q + ['.'] + last);
    SplitCons(p, q + ['.'] + last, '.');
    SplitCons(q, last, '.');
    var part := Split(last, '.')[0];
    FirstPart(last, '.');
    assert last == (r + ['+']) + y;
    BeforeLater(r + ['+'], y, '.');
    assert part == r + ['+'] + Before(y, '.');
    PlusBreaksOff(r, Before(y, '.'));
  }

  lemma ThreeJoined(p: string, q: string, r: string)
    ensures Joined([p, q, r], '.') == p + ['.'] + (q + ['.'] + r)
  {
    JoinedCons(p, [q, r], '.');
    JoinedCons(q, [r], '.');
    assert [p] + [q, r] == [p, q, r] && [q] + [r] == [q, r];
  }

  lemma FirstPart(s: string, sep: char)
    ensures Split(s, sep)[0] == Before(s, sep)
  {
    assert s[..|s|] == s;
  }

  lemma PlusBreaksOff(r: string, rest: string)
    requires Fits(r)
    ensures !Fits(r + ['+'] + rest) && BreaksOff(r + ['+'] + rest)
  {
    var p := r + ['+'] + rest;
    assert p[..|r|] == r && p[|r|] == '+' && !Digit(p[|r|]);
    assert !Digits(p);
  }

  /** Two dotted lists with `mid` between them make one list: the parts at the seam run together. */
  function Glued(a: seq<string>, mid: char, b: seq<string>): seq<string>
    requires a != [] && b != []
  {
    a[..|a| - 1] + [a[|a| - 1] + [mid] + b[0]] + b[1..]
  }

  lemma GluedParts(a: seq<string>, mid: char, b: seq<string>)
    requires a != [] && b != [] && mid != '.' && (a == [""] || forall p :: p in a ==> Identifier(p, true))
    requires b == [""] || forall p :: p in b ==> Identifier(p, false)
    ensures Split(Joined(a, '.') + [mid] + Joined(b, '.'), '.') == Glued(a, mid, b)
  {
    var g := Glued(a, mid, b);
    assert forall p :: p in a ==> '.' !in p;
    assert forall p :: p in b ==> '.' !in p;
    hide Identifier;
    forall p | p in g
      ensures '.' !in p
    {
      assert a[|a| - 1] in a && b[0] in b;
    }
    GluedJoined(a, mid, b);
    SplitJoined(g, '.');
  }

  lemma {:induction false} GluedJoined(a: seq<string>, mid: char, b: seq<string>)
    requires a != [] && b != []
    ensures Joined(Glued(a, mid, b), '.') == Joined(a, '.') + [mid] + Joined(b, '.')
  {
    var g := Glued(a, mid, b);
    if |a| > 1 {
      assert g == [a[0]] + Glued(a[1..], mid, b);
      GluedJoined(a[1..], mid, b);
      JoinedCons(a[0], Glued(a[1..], mid, b), '.');
      assert a == [a[0]] + a[1..];
    } else if |b| > 1 {
      assert g == [a[0] + [mid] + b[0]] + b[1..];
      JoinedCons(a[0] + [mid] + b[0], b[1..], '.');
      assert b == [b[0]] + b[1..];
    } else {
      assert g == [a[0] + [mid] + b[0]];
    }
  }

  /** Every written version is accepted and read as the version it was written from. */
  lemma WrittenIsRead(v: Version)
    requires Writable(v)
    ensures Valid(Written(v)) && '+' !in Written(v) && Parse(Written(v)) == v
  {
    FullIsValid(v, []);
    WrittenParts(v);
    DecimalFits(v);
    var core := [Decimal(v.core[0]), Decimal(v.core[1]), Decimal(v.core[2])];
    assert v.core == [v.core[0], v.core[1], v.core[2]];
    hide CoreOk, Section, Split, Joined, IndexOf, Identifier, Decimal, Number, Valid, Written, Writable;
    assert Number(core[0]) == v.core[0] && Number(core[1]) == v.core[1] && Number(core[2]) == v.core[2];
  }

  /** Build metadata is not taken off before a version is read: it lengthens the last
      pre-release identifier, and without one it turns the third number into 0 and, if it has
      a dash, gives the version a pre-release. */
  lemma BuildIsRead(v: Version, build: seq<string>)
    requires Writable(v) && BuildOk(build) && build != []
    ensures Valid(Full(v, build))
    ensures var tail := Joined(build, '.');
      Parse(Full(v, build)) ==
        if v.pre != [] then Version(v.core, Glued(v.pre, '+', build))
        else Version([v.core[0], v.core[1], 0], if Has(tail, '-') then Split(After(tail, '-'), '.') else [])
  {
    FullIsValid(v, build);
    DecimalFits(v);
    assert v.core == [v.core[0], v.core[1], v.core[2]];
    if v.pre != [] {
      FullWithPre(v, build);
      WrittenParts(v.(pre := []));
    } else {
      FullWithoutPre(v, build);
    }
    hide CoreOk, Section, Split, Joined, IndexOf, Identifier, Decimal, Number, Valid, Written, Writable, Glued, Full, BuildOk;
  }

  lemma PlainMain(v: string)
    requires Valid(v) && '+' !in v
    ensures Before(v, '+') == v && CoreOk(Before(v, '-')) && (Has(v, '-') ==> Section(After(v, '-'), true))
    ensures var core := Split(Before(v, '-'), '.');
      && |core| == 3 && CorePart(core[0]) && CorePart(core[1]) && CorePart(core[2])
      && Parse(v).core == [Number(core[0]), Number(core[1]), Number(core[2])]
  {
    assert IndexOf(v, '+') == |v|;
    assert v[..|v|] == v;
  }

  /** One pair of different identifiers. */
  function IdOrder(p: string, q: string): int {
    if Fits(p) && Fits(q) then if Number(p) < Number(q) then -1 else 1
    else if Fits(p) then -1
    else if Fits(q) then 1
    else if Less(p, q) then -1 else 1
  }

  function PreOrder(a: seq<string>, b: seq<string>): int {
    if a == [] && b == [] then 0
    else if a == [] then -1
    else if b == [] then 1
    else if a[0] == b[0] then PreOrder(a[1..], b[1..])
    else IdOrder(a[0], b[0])
  }

  function CoreOrder(a: seq<nat>, b: seq<nat>): int
    requires |a| == |b|
  {
    if a == [] then 0
    else if a[0] < b[0] then -1
    else if a[0] > b[0] then 1
    else CoreOrder(a[1..], b[1..])
  }

  function Order(a: Version, b: Version): int
    requires |a.core| == |b.core|
  {
    var c := CoreOrder(a.core, b.core);
    if c != 0 then c
    else if a.pre == [] && b.pre != [] then 1
    else if a.pre != [] && b.pre == [] then -1
    else PreOrder(a.pre, b.pre)
  }

  lemma CoreSuffix(a: seq<nat>, b: seq<nat>, i: nat)
    requires |a| == |b| && i < |a|
    ensures CoreOrder(a[i..], b[i..]) ==
      if a[i] < b[i] then -1 else if a[i] > b[i] then 1 else CoreOrder(a[i + 1..], b[i + 1..])
  {
    assert a[i..][1..] == a[i + 1..] && b[i..][1..] == b[i + 1..];
  }

  method CompareCore(a: seq<nat>, b: seq<nat>) returns (r: int)
    requires |a| == |b|
    ensures r == CoreOrder(a, b)
  {
    assert a[0..] == a && b[0..] == b;
    for i := 0 to |a|
      invariant CoreOrder(a, b) == CoreOrder(a[i..], b[i..])
    {
      CoreSuffix(a, b, i);
      if a[i] < b[i] {
        return -1;
      }
      if a[i] > b[i] {
        return 1;
      }
    }
    r := 0;
  }

  lemma PreSuffix(a: seq<string>, b: seq<string>, i: nat)
    requires i < |a| && i < |b|
    ensures PreOrder(a[i..], b[i..]) == if a[i] == b[i] then PreOrder(a[i + 1..], b[i + 1..]) else IdOrder(a[i], b[i])
  {
    assert a[i..][1..] == a[i + 1..] && b[i..][1..] == b[i + 1..];
  }

  method CompareIdentifiers(p: string, q: string) returns (r: int)
    ensures r == IdOrder(p, q)
  {
    var pn, m := ParseUint(p);
    var qn, n := ParseUint(q);
    if pn && qn {
      return if m < n then -1 else 1;
    }
    if pn {
      return -1;
    }
    if qn {
      return 1;
    }
    r := if Less(p, q) then -1 else 1;
  }

  method ComparePre(a: seq<string>, b: seq<string>) returns (r: int)
    ensures r == PreOrder(a, b)
  {
    hide IdOrder;
    var i := 0;
    assert a[0..] == a && b[0..] == b;
    while i < |a| && i < |b|
      invariant i <= |a| && i <= |b| && PreOrder(a, b) == PreOrder(a[i..], b[i..])
    {
      PreSuffix(a, b, i);
      if a[i] != b[i] {
        r := CompareIdentifiers(a[i], b[i]);
        return;
      }
      i := i + 1;
    }
    if |a| < |b| {
      return -1;
    }
    if |a| > |b| {
      return 1;
    }
    r := 0;
  }

  method ReadVersion(v: string) returns (core: seq<nat>, pre: seq<string>)
    requires Valid(v)
    ensures Version(core, pre) == Parse(v)
  {
    hide Valid, Split, IndexOf, Number, BreaksOff, Digits;
    CoreRead(v);
    var parts := Split(Before(v, '-'), '.');
    core := [];
    for i := 0 to 3
      invariant |core| == i && forall j :: 0 <= j < i ==> core[j] == ReadNumber(parts[j])
    {
      assert Fits(parts[i]) || BreaksOff(parts[i]);
      var ok, n := ParseUint(parts[i]);
      core := core + [n];
    }
    pre := if Has(v, '-') then Split(After(v, '-'), '.') else [];
  }

  /** `ok` is false for the error return. */
  method CompareSemver(a: string, b: string) returns (ok: bool, r: int)
    ensures ok <==> Valid(a) && Valid(b)
    ensures ok ==> r == Compared(a, b)
    ensures forall v: Version, w: Version :: Writable(v) && Writable(w) && a == Written(v) && b == Written(w) ==>
      ok && r == Order(v, w)
  {
    hide Valid, Parse, CoreOrder, PreOrder, Writable, Written;
    r := 0;
    WrittenAreOrdered(a, b);
    ok := ValidSemver(a);
    if !ok {
      return;
    }
    ok := ValidSemver(b);
    if !ok {
      return;
    }
    var ac, ap := ReadVersion(a);
    var bc, bp := ReadVersion(b);
    ParsedCore(a);
    ParsedCore(b);
    r := CompareCore(ac, bc);
    if r != 0 {
      return;
    }
    if |ap| == 0 && |bp| > 0 {
      return true, 1;
    }
    if |ap| > 0 && |bp| == 0 {
      return true, -1;
    }
    r := ComparePre(ap, bp);
  }

  lemma WrittenAreOrdered(a: string, b: string)
    ensures forall v: Version, w: Version :: Writable(v) && Writable(w) && a == Written(v) && b == Written(w) ==>
      Valid(a) && Valid(b) && Compared(a, b) == Order(v, w)
  {
    forall v: Version, w: Version | Writable(v) && Writable(w) && a == Written(v) && b == Written(w)
      ensures Valid(a) && Valid(b) && Compared(a, b) == Order(v, w)
    {
      WrittenIsRead(v);
      WrittenIsRead(w);
      hide Valid, Parse, Order, Written;
    }
  }

  lemma ParsedCore(v: string)
    requires Valid(v)
    ensures |Parse(v).core| == 3
  {
  }

  // -------------------------------------------------------------- a total order

  /** An identifier of an accepted pre-release; the empty one stands alone after a bare dash. */
  predicate IdOk(p: string) {
    !(LeadingZero(p) && Digits(p))
  }

  predicate PreOk(pre: seq<string>) {
    forall p :: p in pre ==> IdOk(p)
  }

  lemma ParsedPre(v: string)
    requires Valid(v) && '+' !in v
    ensures PreOk(Parse(v).pre)
  {
    PlainMain(v);
    if Has(v, '-') {
      var s := After(v, '-');
      if s == "" {
        assert Split(s, '.') == [""];
      }
    }
  }

  lemma IdAntisymmetric(p: string, q: string)
    requires p != q && IdOk(p) && IdOk(q)
    ensures IdOrder(p, q) == -IdOrder(q, p)
  {
    if Fits(p) && Fits(q) {
      NumbersAreShortlex(p, q);
    } else {
      LessTotal(p, q);
    }
  }

  lemma IdTransitive(p: string, q: string, r: string)
    requires p != q && q != r && IdOk(p) && IdOk(q) && IdOk(r) && IdOrder(p, q) == -1 && IdOrder(q, r) == -1
    ensures p != r && IdOrder(p, r) == -1
  {
    hide Less, Number, Digits;
    IdAntisymmetric(p, q);
    if !Fits(p) && !Fits(q) && !Fits(r) {
      LessTransitive(p, q, r);
    }
  }

  lemma {:induction false} PreAntisymmetric(a: seq<string>, b: seq<string>)
    requires PreOk(a) && PreOk(b)
    ensures PreOrder(a, b) == -PreOrder(b, a)
    ensures PreOrder(a, b) == 0 <==> a == b
  {
    hide IdOrder, IdOk;
    if a != [] && b != [] {
      assert a == [a[0]] + a[1..] && b == [b[0]] + b[1..];
      assert IdOk(a[0]) && IdOk(b[0]);
      if a[0] == b[0] {
        PreAntisymmetric(a[1..], b[1..]);
      } else {
        IdAntisymmetric(a[0], b[0]);
        NeverZero(a[0], b[0]);
      }
    }
  }

  lemma NeverZero(p: string, q: string)
    ensures IdOrder(p, q) == -1 || IdOrder(p, q) == 1
  {
  }

  lemma {:induction false} PreTransitive(a: seq<string>, b: seq<string>, c: seq<string>)
    requires PreOk(a) && PreOk(b) && PreOk(c) && PreOrder(a, b) == -1 && PreOrder(b, c) == -1
    ensures PreOrder(a, c) == -1
  {
    hide IdOrder, IdOk;
    if a != [] && b != [] && c != [] {
      assert IdOk(a[0]) && IdOk(b[0]) && IdOk(c[0]);
      assert forall p :: p in a[1..] ==> p in a;
      assert forall p :: p in b[1..] ==> p in b;
      assert forall p :: p in c[1..] ==> p in c;
      if a[0] == b[0] == c[0] {
        PreTransitive(a[1..], b[1..], c[1..]);
      } else if a[0] != b[0] && b[0] != c[0] {
        IdTransitive(a[0], b[0], c[0]);
      }
    }
  }

  lemma {:induction false} CoreFacts(a: seq<nat>, b: seq<nat>)
    requires |a| == |b|
    ensures CoreOrder(a, b) == -CoreOrder(b, a) && -1 <= CoreOrder(a, b) <= 1
    ensures CoreOrder(a, b) == 0 <==> a == b
  {
    if a != [] {
      assert a == [a[0]] + a[1..] && b == [b[0]] + b[1..];
      CoreFacts(a[1..], b[1..]);
    }
  }

  lemma {:induction false} CoreTransitive(a: seq<nat>, b: seq<nat>, c: seq<nat>)
    requires |a| == |b| == |c| && CoreOrder(a, b) <= 0 && CoreOrder(b, c) <= 0
    ensures CoreOrder(a, c) <= 0 && (CoreOrder(a, c) == 0 ==> CoreOrder(a, b) == CoreOrder(b, c) == 0)
  {
    if a != [] && a[0] == b[0] == c[0] {
      CoreTransitive(a[1..], b[1..], c[1..]);
    }
  }

  predicate VersionOk(a: Version) {
    |a.core| == 3 && PreOk(a.pre)
  }

  lemma OrderAntisymmetric(a: Version, b: Version)
    requires VersionOk(a) && VersionOk(b)
    ensures Order(a, b) == -Order(b, a) && (Order(a, b) == 0 <==> a == b)
  {
    hide PreOk, CoreOrder, PreOrder;
    CoreFacts(a.core, b.core);
    PreAntisymmetric(a.pre, b.pre);
  }

  lemma OrderTransitive(a: Version, b: Version, c: Version)
    requires VersionOk(a) && VersionOk(b) && VersionOk(c) && Order(a, b) == -1 && Order(b, c) == -1
    ensures Order(a, c) == -1
  {
    hide PreOk, CoreOrder, PreOrder;
    CoreFacts(a.core, b.core);
    CoreFacts(b.core, c.core);
    CoreFacts(a.core, c.core);
    CoreTransitive(a.core, b.core, c.core);
    if a.core == b.core == c.core {
      EmptyIsGreatest(a.pre, b.pre);
      EmptyIsGreatest(b.pre, c.pre);
      if a.pre != [] && b.pre != [] && c.pre != [] {
        PreTransitive(a.pre, b.pre, c.pre);
      }
    }
  }

  lemma EmptyIsGreatest(a: seq<string>, b: seq<string>)
    ensures a == [] && b == [] ==> PreOrder(a, b) == 0
  {
  }

  /** Only equal texts parse alike. */
  lemma ParseInjective(a: string, b: string)
    requires Valid(a) && Valid(b) && '+' !in a && '+' !in b && Parse(a) == Parse(b)
    ensures a == b
  {
    var v := Plain(a);
    var w := Plain(b);
    WrittenIsRead(v);
    WrittenIsRead(w);
  }

  lemma Plain(s: string) returns (v: Version)
    requires Valid(s) && '+' !in s
    ensures Writable(v) && s == Written(v)
  {
    var build: seq<string>;
    v, build := Unwritten(s);
    FullIsValid(v, build);
  }

  lemma WholeText(v: string, sep: char)
    ensures v == if Has(v, sep) then Before(v, sep) + [sep] + After(v, sep) else Before(v, sep)
  {
  }

  function Compared(a: string, b: string): int
    requires Valid(a) && Valid(b)
  {
    ParsedCore(a);
    ParsedCore(b);
    Order(Parse(a), Parse(b))
  }

  /** On accepted versions without build metadata the comparison is a total order. */
  lemma ComparisonIsTotalOrder(a: string, b: string, c: string)
    requires Valid(a) && Valid(b) && Valid(c) && '+' !in a && '+' !in b && '+' !in c
    ensures Compared(a, b) == -Compared(b, a) && -1 <= Compared(a, b) <= 1
    ensures Compared(a, b) == 0 <==> a == b
    ensures Compared(a, b) == -1 && Compared(b, c) == -1 ==> Compared(a, c) == -1
  {
    ParsedOk(a);
    ParsedOk(b);
    ParsedOk(c);
    hide Valid, Parse, Order, VersionOk;
    OrderAntisymmetric(Parse(a), Parse(b));
    OrderBounds(Parse(a), Parse(b));
    if Parse(a) == Parse(b) {
      ParseInjective(a, b);
    }
    if Compared(a, b) == -1 && Compared(b, c) == -1 {
      OrderTransitive(Parse(a), Parse(b), Parse(c));
    }
  }

  lemma ParsedOk(v: string)
    requires Valid(v) && '+' !in v
    ensures |Parse(v).core| == 3 && VersionOk(Parse(v))
  {
    hide Valid, Parse;
    ParsedCore(v);
    ParsedPre(v);
  }

  lemma ComparedBounds(a: string, b: string)
    requires Valid(a) && Valid(b)
    ensures -1 <= Compared(a, b) <= 1
  {
    hide Valid, Parse, Order;
    ParsedCore(a);
    ParsedCore(b);
    OrderBounds(Parse(a), Parse(b));
  }

  lemma OrderBounds(a: Version, b: Version)
    requires |a.core| == |b.core|
    ensures -1 <= Order(a, b) <= 1
  {
    CoreFacts(a.core, b.core);
    PreBounds(a.pre, b.pre);
  }

  lemma {:induction false} PreBounds(a: seq<string>, b: seq<string>)
    ensures -1 <= PreOrder(a, b) <= 1
  {
    if a != [] && b != [] {
      PreBounds(a[1..], b[1..]);
    }
  }

  // --------------------------------------------------------- the chain of upgrades

  function TrimV(tag: string): string {
    if tag != "" && tag[0] == 'v' then tag[1..] else tag
  }

  /** Installs the tagged version exactly when both versions are valid and it is higher. */
  method SelfUpgrade(current: string, tag: string) returns (installed: string)
    ensures installed == (if current != "dev" && |tag| > 1 && Valid(current) && Valid(TrimV(tag))
                             && Compared(current, TrimV(tag)) == -1 then TrimV(tag) else current)
    ensures forall v: Version, w: Version :: Writable(v) && Writable(w) && current == Written(v) && tag == ['v'] + Written(w) ==>
      installed == if Order(v, w) == -1 then Written(w) else current
  {
    hide Writable, Written, Valid, Order, Compared;
    TaggedAreOrdered(current, tag);
    if current == "dev" {
      return current;
    }
    var latest := TrimV(tag);
    var valid := ValidSemver(latest);
    if |tag| <= 1 || !valid {
      return current;
    }
    valid := ValidSemver(current);
    if !valid {
      return current;
    }
    var ok, r := CompareSemver(current, latest);
    ComparedBounds(current, latest);
    installed := if r >= 0 then current else latest;
  }

  lemma TaggedAreOrdered(current: string, tag: string)
    ensures forall v: Version, w: Version :: Writable(v) && Writable(w) && current == Written(v) && tag == ['v'] + Written(w) ==>
      && current != "dev" && |tag| > 1 && Valid(current) && Valid(TrimV(tag)) && TrimV(tag) == Written(w)
      && Compared(current, TrimV(tag)) == Order(v, w)
  {
    forall v: Version, w: Version | Writable(v) && Writable(w) && current == Written(v) && tag == ['v'] + Written(w)
      ensures current != "dev" && |tag| > 1 && Valid(current) && Valid(TrimV(tag)) && TrimV(tag) == Written(w)
      ensures Compared(current, TrimV(tag)) == Order(v, w)
    {
      WrittenIsRead(v);
      WrittenIsRead(w);
      StartsWithDigit(v);
      StartsWithDigit(w);
      hide Writable, Written, Valid, Order, Parse;
      assert (['v'] + Written(w))[1..] == Written(w);
    }
  }

  lemma StartsWithDigit(v: Version)
    requires Writable(v)
    ensures Written(v) != "" && Digit(Written(v)[0])
  {
    var p, q, r := Decimal(v.core[0]), Decimal(v.core[1]), Decimal(v.core[2]);
    ThreeJoined(p, q, r);
    hide Joined, Identifier;
    assert Digit(p[0]);
    assert (p + ['.'] + (q + ['.'] + r))[0] == p[0];
  }

  ghost predicate UpgradeChain(versions: seq<string>) {
    && (forall i :: 0 <= i < |versions| ==> Valid(versions[i]) && '+' !in versions[i])
    && forall i :: 0 < i < |versions| ==> Compared(versions[i - 1], versions[i]) == -1
  }

  /** Upgrade after upgrade only ever goes up: no version is installed twice. */
  lemma {:induction false} ChainIncreases(versions: seq<string>, i: nat, j: nat)
    requires UpgradeChain(versions) && i < j < |versions|
    ensures Compared(versions[i], versions[j]) == -1 && versions[i] != versions[j]
    decreases j - i
  {
    hide Valid, Compared;
    assert Compared(versions[j - 1], versions[j]) == -1;
    if i + 1 < j {
      ChainIncreases(versions, i, j - 1);
      ComparisonIsTotalOrder(versions[i], versions[j - 1], versions[j]);
    }
    ComparisonIsTotalOrder(versions[i], versions[j], versions[j]);
  }

  // ----------------------------- precedence as the standard defines it, section 11

  /** Digits only: numerically. Otherwise: digits only is lower, and text in ASCII order. */
  predicate IdLower(p: string, q: string) {
    if DigitsOnly(p) && DigitsOnly(q) then Number(p) < Number(q)
    else if DigitsOnly(p) then true
    else if DigitsOnly(q) then false
    else Less(p, q)
  }

  /** The first difference decides; with none, fewer identifiers are lower. */
  ghost predicate PreLower(a: seq<string>, b: seq<string>) {
    exists k :: 0 <= k <= |a| && k < |b| && a[..k] == b[..k] && (k < |a| ==> a[k] != b[k] && IdLower(a[k], b[k]))
  }

  ghost predicate CoreLower(a: seq<nat>, b: seq<nat>)
    requires |a| == |b|
  {
    exists k :: 0 <= k < |a| && a[..k] == b[..k] && a[k] < b[k]
  }

  ghost predicate Lower(a: Version, b: Version)
    requires |a.core| == |b.core|
  {
    || CoreLower(a.core, b.core)
    || (a.core == b.core && a.pre != [] && (b.pre == [] || PreLower(a.pre, b.pre)))
  }

  lemma SameHead(a: seq<nat>, b: seq<nat>, k: nat)
    requires 0 < k <= |a| == |b| && a[..k] == b[..k]
    ensures a[0] == b[0] && a[1..][..k - 1] == b[1..][..k - 1]
  {
    assert a[..k][0] == b[..k][0];
    assert a[1..][..k - 1] == a[..k][1..] && b[1..][..k - 1] == b[..k][1..];
  }

  lemma {:induction false} CoreLowerIs(a: seq<nat>, b: seq<nat>)
    requires |a| == |b|
    ensures CoreOrder(a, b) == -1 <==> CoreLower(a, b)
  {
    if a != [] {
      CoreLowerIs(a[1..], b[1..]);
      if k :| 0 <= k < |a| && a[..k] == b[..k] && a[k] < b[k] {
        if k > 0 {
          SameHead(a, b, k);
          assert a[1..][k - 1] < b[1..][k - 1];
        }
      }
      if a[0] == b[0] && CoreLower(a[1..], b[1..]) {
        var k :| 0 <= k < |a[1..]| && a[1..][..k] == b[1..][..k] && a[1..][k] < b[1..][k];
        assert a[..k + 1] == [a[0]] + a[1..][..k] && b[..k + 1] == [b[0]] + b[1..][..k];
        assert a[k + 1] < b[k + 1];
      }
      if a[0] < b[0] {
        assert a[..0] == b[..0];
      }
    }
  }

  /** Where two lists part. */
  function Part(a: seq<string>, b: seq<string>): (k: nat)
    ensures k <= |a| && k <= |b| && a[..k] == b[..k]
    ensures k < |a| && k < |b| ==> a[k] != b[k]
  {
    if a == [] || b == [] || a[0] != b[0] then 0 else
      var k := Part(a[1..], b[1..]);
      assert a[..k + 1] == [a[0]] + a[1..][..k] && b[..k + 1] == [b[0]] + b[1..][..k];
      k + 1
  }

  lemma {:induction false} PreOrderAtPart(a: seq<string>, b: seq<string>)
    ensures var k := Part(a, b);
      PreOrder(a, b) == if k < |a| && k < |b| then IdOrder(a[k], b[k]) else if |a| < |b| then -1 else if |a| > |b| then 1 else 0
  {
    hide IdOrder;
    if a != [] && b != [] && a[0] == b[0] {
      PreOrderAtPart(a[1..], b[1..]);
    }
  }

  lemma {:induction false} PartUnique(a: seq<string>, b: seq<string>, i: nat)
    requires i <= |a| && i < |b| && a[..i] == b[..i] && (i < |a| ==> a[i] != b[i])
    ensures Part(a, b) == i
  {
    if i > 0 {
      assert a[..i][0] == a[0] && b[..i][0] == b[0];
      assert a[1..][..i - 1] == a[..i][1..] && b[1..][..i - 1] == b[..i][1..];
      PartUnique(a[1..], b[1..], i - 1);
    }
  }

  lemma PreLowerAtPart(a: seq<string>, b: seq<string>)
    ensures var k := Part(a, b);
      PreLower(a, b) <==> if k < |a| && k < |b| then IdLower(a[k], b[k]) else |a| < |b|
  {
    hide IdLower;
    var k := Part(a, b);
    if PreLower(a, b) {
      var i :| 0 <= i <= |a| && i < |b| && a[..i] == b[..i] && (i < |a| ==> a[i] != b[i] && IdLower(a[i], b[i]));
      PartUnique(a, b, i);
    }
    if k < |a| && k < |b| && IdLower(a[k], b[k]) {
      assert a[..k] == b[..k];
    }
  }

  predicate Oversized(p: string) {
    DigitsOnly(p) && !Fits(p)
  }

  /** When a number does not fit 64 bits its text is compared instead. That is right between
      two such numbers if they are equally long or the shorter one is also first as text, and
      against a word if the number is first as text. */
  predicate TextIsRight(p: string, q: string) {
    if Oversized(p) && Oversized(q) then |p| == |q| || (|p| < |q| <==> Less(p, q))
    else if Oversized(p) && !DigitsOnly(q) then Less(p, q)
    else if Oversized(q) && !DigitsOnly(p) then Less(q, p)
    else true
  }

  lemma PairAgrees(p: string, q: string)
    requires p != q && IdOk(p) && IdOk(q)
    ensures (IdOrder(p, q) == -1 <==> IdLower(p, q)) <==> TextIsRight(p, q)
    ensures IdLower(p, q) <==> !IdLower(q, p)
  {
    if DigitsOnly(p) && DigitsOnly(q) {
      NumbersAreShortlex(p, q);
      NumbersAreShortlex(q, p);
    }
    LessTotal(p, q);
    hide Number, Digits, Less;
  }

  /** The identifiers at which the comparison is decided, if it gets that far. */
  predicate Decidable(a: Version, b: Version)
    requires |a.core| == |b.core|
  {
    var k := Part(a.pre, b.pre);
    a.core == b.core && k < |a.pre| && k < |b.pre| ==> TextIsRight(a.pre[k], b.pre[k])
  }

  lemma AgreementOfVersions(a: Version, b: Version)
    requires VersionOk(a) && VersionOk(b)
    ensures ((Order(a, b) == -1 <==> Lower(a, b)) && (Order(a, b) == 1 <==> Lower(b, a))) <==> Decidable(a, b)
  {
    OrderAntisymmetric(a, b);
    CoreLowerIs(a.core, b.core);
    CoreLowerIs(b.core, a.core);
    CoreFacts(a.core, b.core);
    PreOrderAtPart(a.pre, b.pre);
    PreLowerAtPart(a.pre, b.pre);
    PreLowerAtPart(b.pre, a.pre);
    PartSymmetric(a.pre, b.pre);
    var k := Part(a.pre, b.pre);
    if k < |a.pre| && k < |b.pre| {
      assert a.pre[k] in a.pre && b.pre[k] in b.pre;
      PairAgrees(a.pre[k], b.pre[k]);
      NeverZero(a.pre[k], b.pre[k]);
    }
    hide IdLower, IdOrder, TextIsRight, CoreOrder, CoreLower, PreLower, PreOrder, PreOk, Part;
  }

  lemma {:induction false} PartSymmetric(a: seq<string>, b: seq<string>)
    ensures Part(a, b) == Part(b, a)
  {
    if a != [] && b != [] && a[0] == b[0] {
      PartSymmetric(a[1..], b[1..]);
    }
  }

  /** The comparison of two written versions is the precedence of section 11 exactly when the
      identifiers that decide it are not misread for their size; in particular when all numbers
      fit 64 bits. */
  lemma ComparisonIsPrecedence(a: Version, b: Version)
    requires Writable(a) && Writable(b)
    ensures Valid(Written(a)) && Valid(Written(b))
    ensures ((Compared(Written(a), Written(b)) == -1 <==> Lower(a, b)) && (Compared(Written(a), Written(b)) == 1 <==> Lower(b, a)))
            <==> Decidable(a, b)
    ensures (forall p :: p in a.pre + b.pre ==> !Oversized(p)) ==> Decidable(a, b)
  {
    hide Valid, Parse, Order, VersionOk, Lower, Oversized, Identifier;
    WrittenIsRead(a);
    WrittenIsRead(b);
    ParsedOk(Written(a));
    ParsedOk(Written(b));
    AgreementOfVersions(a, b);
    var k := Part(a.pre, b.pre);
    if k < |a.pre| && k < |b.pre| {
      assert a.pre[k] in a.pre + b.pre && b.pre[k] in a.pre + b.pre;
    }
  }

  /** Whether the third numbers of two releases still compare rightly when the one with build
      metadata counts as 0. */
  predicate PatchIsRight(p: nat, dropped: bool, q: nat, droppedToo: bool) {
    if dropped && droppedToo then p == q
    else if dropped then p == 0 || p < q
    else if droppedToo then q == 0 || q < p
    else true
  }

  predicate NoDash(build: seq<string>) {
    forall p :: p in build ==> '-' !in p
  }

  lemma ReleaseIsRead(v: Version, build: seq<string>)
    requires Writable(v) && BuildOk(build) && v.pre == [] && NoDash(build)
    ensures Valid(Full(v, build))
    ensures Parse(Full(v, build)) == Version([v.core[0], v.core[1], if build == [] then v.core[2] else 0], [])
  {
    if build == [] {
      WrittenIsRead(v);
      assert v.core == [v.core[0], v.core[1], v.core[2]];
    } else {
      BuildIsRead(v, build);
      hide BuildOk, Writable, Full, Valid, Parse, Joined;
      JoinedWithout(build, '.', '-');
      NotParted(Joined(build, '.'), '-');
    }
  }

  /** Releases with build metadata, which precedence ignores, compare as the standard has it
      exactly if the first two numbers decide or the third one is right all the same. */
  lemma ReleasesWithBuild(a: Version, x: seq<string>, b: Version, y: seq<string>)
    requires Writable(a) && Writable(b) && a.pre == [] && b.pre == []
    requires BuildOk(x) && BuildOk(y) && NoDash(x) && NoDash(y)
    ensures Valid(Full(a, x)) && Valid(Full(b, y))
    ensures ((Compared(Full(a, x), Full(b, y)) == -1 <==> Lower(a, b)) && (Compared(Full(a, x), Full(b, y)) == 1 <==> Lower(b, a)))
            <==> (a.core[0] == b.core[0] && a.core[1] == b.core[1] ==> PatchIsRight(a.core[2], x != [], b.core[2], y != []))
  {
    ReleaseIsRead(a, x);
    ReleaseIsRead(b, y);
    CoreLowerIs(a.core, b.core);
    CoreLowerIs(b.core, a.core);
    CoreFacts(a.core, b.core);
    var c, d := Parse(Full(a, x)).core, Parse(Full(b, y)).core;
    hide Valid, Writable, BuildOk, NoDash, Full, Parse, CoreLower;
    CoreOfThree(a.core, b.core);
    CoreOfThree(c, d);
  }

  lemma CoreOfThree(a: seq<nat>, b: seq<nat>)
    requires |a| == |b| == 3
    ensures CoreOrder(a, b) ==
      if a[0] != b[0] then if a[0] < b[0] then -1 else 1
      else if a[1] != b[1] then if a[1] < b[1] then -1 else 1
      else if a[2] != b[2] then if a[2] < b[2] then -1 else 1
      else 0
  {
    assert a[0..] == a && b[0..] == b && a[3..] == [] && b[3..] == [];
    CoreSuffix(a, b, 0);
    CoreSuffix(a, b, 1);
    CoreSuffix(a, b, 2);
  }

  /** The release 0.0.2 with build metadata counts as 0.0.0, so that 0.0.1 is installed over it. */
  lemma BuildAllowsDowngrade()
    ensures exists a: Version, x: seq<string>, b: Version ::
      && Writable(a) && BuildOk(x) && Writable(b) && Lower(b, a)
      && Valid(Full(a, x)) && Valid(Written(b)) && Compared(Full(a, x), Written(b)) == -1
  {
    var a, x, b := Version([0, 0, 2], []), [""], Version([0, 0, 1], []);
    assert NoDash(x) && BuildOk(x) && Writable(a) && Writable(b);
    hide *;
    ReleaseIsRead(a, x);
    WrittenIsRead(b);
    ComparedAre(Full(a, x), Written(b));
    OrderOfReleases(2);
    assert Writable(a) && BuildOk(x) && Writable(b) && Lower(b, a)
      && Valid(Full(a, x)) && Valid(Written(b)) && Compared(Full(a, x), Written(b)) == -1;
  }

  lemma ComparedAre(a: string, b: string)
    requires Valid(a) && Valid(b) && |Parse(a).core| == |Parse(b).core|
    ensures Compared(a, b) == Order(Parse(a), Parse(b))
  {
  }

  lemma OrderOfReleases(n: nat)
    requires n > 1
    ensures Order(Version([0, 0, 0], []), Version([0, 0, 1], [])) == -1
    ensures Lower(Version([0, 0, 1], []), Version([0, 0, n], []))
  {
    CoreOfThree([0, 0, 0], [0, 0, 1]);
    var a, b := [0, 0, 1], [0, 0, n];
    assert a[..2] == b[..2] && a[2] < b[2];
    assert CoreLower(a, b);
  }

  lemma {:induction false} Pow10Add(a: nat, b: nat)
    ensures Pow10(a + b) == Pow10(a) * Pow10(b)
  {
    if b > 0 {
      Pow10Add(a, b - 1);
    }
  }

  lemma {:induction false} DigitRun(s: string)
    requires s != [] && Digits(s) && s[0] != '0'
    ensures Number(s) >= Pow10(|s| - 1)
  {
    NumberHead(s);
    OneDigit(Value(s[0]), Pow10(|s| - 1));
  }

  lemma TwentyZeros() returns (p: string)
    ensures Oversized(p) && p[0] == '1'
  {
    p := ['1'] + Zeros(20);
    assert Digits(p) by {
      assert Digits(Zeros(20));
    }
    assert p[0] == '1' && |p| == 21;
    DigitRun(p);
    assert Pow10(5) == 100_000;
    Pow10Add(5, 5);
    Pow10Add(10, 10);
    assert Pow10(20) > MAX_UINT64;
  }

  /** A number of twenty-one digits is read as text: the standard puts the version below one
      whose pre-release is a word, the comparison puts it above one that starts with a dash. */
  lemma OversizedIsMisread()
    ensures exists a: Version, b: Version ::
      && Writable(a) && Writable(b) && Lower(a, b)
      && Valid(Written(a)) && Valid(Written(b)) && Compared(Written(a), Written(b)) == 1
  {
    var p := TwentyZeros();
    var q := ['-'];
    assert !Digit(q[0]) && !Digits(q);
    assert !Less(p, q);
    assert Identifier(p, true) && Identifier(q, true);
    var a, b := Version([0, 0, 0], [p]), Version([0, 0, 0], [q]);
    hide Number, Digits, Less, Valid, Parse, Identifier, Written;
    assert Writable(a) && Writable(b);
    WrittenIsRead(a);
    WrittenIsRead(b);
    assert IdLower(p, q) && IdOrder(p, q) == 1;
    OrderOfZeros(p, q);
    assert Lower(a, b) && Compared(Written(a), Written(b)) == 1;
  }

  lemma OrderOfZeros(p: string, q: string)
    requires p != q && IdLower(p, q) && IdOrder(p, q) == 1
    ensures var a, b := Version([0, 0, 0], [p]), Version([0, 0, 0], [q]); Lower(a, b) && Order(a, b) == 1
  {
    hide IdLower, IdOrder;
    var x, y := [p], [q];
    assert x[..0] == y[..0] && x[0] != y[0] && IdLower(x[0], y[0]);
    assert PreLower(x, y);
    CoreFacts([0, 0, 0], [0, 0, 0]);
  }
}
