/** Merging a marked block into a file that people also edit: the block between its two
    markers is replaced, the text outside stays. */
module MarkedBlock {

  predicate Occurs(s: string, sub: string, i: nat) {
    i + |sub| <= |s| && s[i..i + |sub|] == sub
  }

  ghost predicate Free(s: string, sub: string) {
    forall i: nat :: !Occurs(s, sub, i)
  }

  /** The first place of `sub` in `s`, or -1. */
  function Index(s: string, sub: string): (r: int)
    ensures r < 0 ==> Free(s, sub)
    ensures r >= 0 ==> Occurs(s, sub, r) && forall i: nat :: i < r ==> !Occurs(s, sub, i)
  {
    FirstFrom(s, sub, 0)
  }

  function FirstFrom(s: string, sub: string, k: nat): (r: int)
    requires k <= |s|
    ensures r < 0 ==> forall i: nat :: k <= i ==> !Occurs(s, sub, i)
    ensures r >= 0 ==> k <= r && Occurs(s, sub, r) && forall i: nat :: k <= i < r ==> !Occurs(s, sub, i)
    decreases |s| - k
  {
    if Occurs(s, sub, k) then k
    else if k == |s| then -1
    else FirstFrom(s, sub, k + 1)
  }

  predicate Contains(s: string, sub: string) {
    Index(s, sub) >= 0
  }

  function TrimNewlines(s: string): (t: string)
    ensures t <= s && (t == "" || t[|t| - 1] != '\n') && forall i :: |t| <= i < |s| ==> s[i] == '\n'
  {
    if s == "" || s[|s| - 1] != '\n' then s else TrimNewlines(s[..|s| - 1])
  }

  /** White space as strings.TrimSpace sees it. */
  predicate Space(c: char) {
    || c in {' ', '\t', '\n', '\r', '\U{0B}', '\U{0C}', '\U{85}', '\U{A0}', '\U{1680}', '\U{2028}', '\U{2029}', '\U{202F}', '\U{205F}', '\U{3000}'}
    || '\U{2000}' <= c <= '\U{200A}'
  }

  function TrimLeft(s: string): string {
    if s == "" || !Space(s[0]) then s else TrimLeft(s[1..])
  }

  function TrimRight(s: string): string {
    if s == "" || !Space(s[|s| - 1]) then s else TrimRight(s[..|s| - 1])
  }

  function TrimSpace(s: string): string {
    TrimRight(TrimLeft(s))
  }

  function StartOf(marker: string): string {
    "<!-- BEGIN " + marker + " -->"
  }

  function EndOf(marker: string): string {
    "<!-- END " + marker + " -->"
  }

  function Wrapped(start: string, block: string, end: string): string {
    start + "\n" + TrimNewlines(block) + "\n" + end + "\n"
  }

  function Lead(before: string): string {
    var head := TrimNewlines(before);
    if head != "" then head + "\n\n" else head
  }

  function TailOf(tail: string): string {
    if tail != "" then "\n\n" + tail + "\n" else ""
  }

  /** The merge for given marker lines. */
  function MergeBetween(existing: string, block: string, start: string, end: string): string {
    if Contains(existing, start) && Contains(existing, end) then
      Lead(existing[..Index(existing, start)]) + Wrapped(start, block, end)
        + TailOf(TrimSpace(existing[Index(existing, end) + |end|..]))
    else Lead(existing) + Wrapped(start, block, end)
  }

  method MergeHead(before: string) returns (updated: string)
    ensures updated == Lead(before)
  {
    hide TrimNewlines;
    updated := TrimNewlines(before);
    if updated != "" {
      updated := updated + "\n\n";
    }
  }

  /** A target that does not exist counts as an empty one. */
  method AppendMarkedBlock(existing: string, block: string, marker: string) returns (updated: string)
    ensures updated == MergeBetween(existing, block, StartOf(marker), EndOf(marker))
  {
    hide StartOf, EndOf, TrimNewlines, TrimSpace, Contains, Index, Lead;
    var start, end := StartOf(marker), EndOf(marker);
    var wrapped := start + "\n" + TrimNewlines(block) + "\n" + end + "\n";
    assert wrapped == Wrapped(start, block, end);
    hide Wrapped;
    if Contains(existing, start) && Contains(existing, end) {
      Found(existing, start);
      Found(existing, end);
      hide Free, Occurs;
      updated := MergeHead(existing[..Index(existing, start)]);
      updated := updated + wrapped;
      var tail := TrimSpace(existing[Index(existing, end) + |end|..]);
      if tail != "" {
        updated := updated + ("\n\n" + tail + "\n");
      }
    } else {
      updated := MergeHead(existing);
      updated := updated + wrapped;
    }
  }

  lemma Found(s: string, sub: string)
    requires Contains(s, sub)
    ensures 0 <= Index(s, sub) && Index(s, sub) + |sub| <= |s|
  {
  }

  // --------------------------------------------------- where a marker can occur

  predicate OneLine(s: string) {
    s != "" && '\n' !in s
  }

  /** Two marker lines, neither inside the other. */
  ghost predicate Markers(start: string, end: string) {
    OneLine(start) && OneLine(end) && Free(start, end) && Free(end, start)
  }

  /** A marker lies inside one line. */
  lemma AcrossNewline(a: string, b: string, sub: string, i: nat)
    requires OneLine(sub)
    ensures Occurs(a + "\n" + b, sub, i) <==> Occurs(a, sub, i) || (i > |a| && Occurs(b, sub, i - |a| - 1))
  {
    var s := a + "\n" + b;
    if i + |sub| <= |a| {
      assert s[i..i + |sub|] == a[i..i + |sub|];
    } else if i > |a| && i + |sub| <= |s| {
      assert s[i..i + |sub|] == b[i - |a| - 1..i - |a| - 1 + |sub|];
    } else if i + |sub| <= |s| {
      assert s[i..i + |sub|][|a| - i] == '\n';
    }
  }

  lemma FreeLines(a: string, b: string, sub: string)
    requires OneLine(sub) && Free(a, sub) && Free(b, sub)
    ensures Free(a + "\n" + b, sub)
  {
    forall i: nat
      ensures !Occurs(a + "\n" + b, sub, i)
    {
      AcrossNewline(a, b, sub, i);
    }
  }

  lemma SliceOfSlice(s: string, lo: nat, hi: nat, i: nat, j: nat)
    requires lo <= hi <= |s| && i <= j <= hi - lo
    ensures s[lo..hi][i..j] == s[lo + i..lo + j]
  {
    var whole := s[lo..hi];
    assert forall k :: 0 <= k < |whole| ==> whole[k] == s[lo + k];
    assert whole[i..j] == s[lo + i..lo + j];
  }

  lemma FreeSlice(s: string, lo: nat, hi: nat, sub: string)
    requires lo <= hi <= |s| && Free(s, sub)
    ensures Free(s[lo..hi], sub)
  {
    forall i: nat
      ensures !Occurs(s[lo..hi], sub, i)
    {
      if i + |sub| <= hi - lo {
        SliceOfSlice(s, lo, hi, i, i + |sub|);
        assert !Occurs(s, sub, lo + i);
      }
    }
  }

  lemma OnlyAtStart(sub: string, i: nat)
    ensures Occurs(sub, sub, i) <==> i == 0
  {
    assert sub[0..|sub|] == sub;
  }

  /** Text that ends with a newline, or none: what comes before the block. */
  predicate Above(s: string) {
    s == "" || s[|s| - 1] == '\n'
  }

  predicate Below(s: string) {
    s == "" || s[0] == '\n'
  }

  function Sandwich(above: string, start: string, middle: string, end: string, below: string): string {
    above + (start + "\n" + (middle + "\n" + (end + "\n" + below)))
  }

  function OffsetOf(start: string, middle: string, sub: string): nat {
    if sub == start then 0 else |start| + 1 + |middle| + 1
  }

  lemma LastLine(end: string, below: string, sub: string, k: nat)
    requires OneLine(sub) && OneLine(end) && Free(below, sub) && (sub == end || Free(end, sub))
    ensures Occurs(end + "\n" + below, sub, k) <==> k == 0 && sub == end
  {
    AcrossNewline(end, below, sub, k);
    OnlyAtStart(sub, k);
  }

  lemma InnerLines(middle: string, end: string, below: string, sub: string, k: nat)
    requires OneLine(sub) && OneLine(end) && Free(middle, sub) && Free(below, sub) && (sub == end || Free(end, sub))
    ensures Occurs(middle + "\n" + (end + "\n" + below), sub, k) <==> k == |middle| + 1 && sub == end
  {
    AcrossNewline(middle, end + "\n" + below, sub, k);
    if k > |middle| {
      LastLine(end, below, sub, k - |middle| - 1);
    }
  }

  lemma BodyLines(start: string, middle: string, end: string, below: string, sub: string, k: nat)
    requires Markers(start, end) && (sub == start || sub == end) && Free(middle, sub) && Free(below, sub)
    ensures Occurs(start + "\n" + (middle + "\n" + (end + "\n" + below)), sub, k) <==> k == OffsetOf(start, middle, sub)
  {
    AcrossNewline(start, middle + "\n" + (end + "\n" + below), sub, k);
    OnlyAtStart(sub, k);
    DifferentMarkers(start, end);
    if k > |start| {
      InnerLines(middle, end, below, sub, k - |start| - 1);
    }
    hide Occurs;
  }

  /** In text laid out around the block each marker occurs once, at its own line. */
  lemma MarkersOnce(above: string, start: string, middle: string, end: string, below: string, sub: string)
    requires Markers(start, end) && (sub == start || sub == end) && Above(above)
    requires Free(above, sub) && Free(middle, sub) && Free(below, sub)
    ensures forall i: nat :: Occurs(Sandwich(above, start, middle, end, below), sub, i) <==>
      i == |above| + OffsetOf(start, middle, sub)
  {
    hide Occurs, Free, OffsetOf;
    var body := start + "\n" + (middle + "\n" + (end + "\n" + below));
    forall i: nat
      ensures Occurs(above + body, sub, i) <==> i == |above| + OffsetOf(start, middle, sub)
    {
      AtAbove(above, body, sub, i);
      if i >= |above| {
        BodyLines(start, middle, end, below, sub, i - |above|);
      }
    }
  }

  lemma AtAbove(above: string, body: string, sub: string, i: nat)
    requires Above(above) && OneLine(sub) && Free(above, sub)
    ensures Occurs(above + body, sub, i) <==> i >= |above| && Occurs(body, sub, i - |above|)
  {
    if above == "" {
      assert above + body == body;
    } else {
      var line := above[..|above| - 1];
      assert above + body == line + "\n" + body;
      FreeSlice(above, 0, |above| - 1, sub);
      assert above[0..|above| - 1] == line;
      AcrossNewline(line, body, sub, i);
    }
  }

  lemma IndexIs(s: string, sub: string, i: nat)
    requires Occurs(s, sub, i) && forall k: nat :: k < i ==> !Occurs(s, sub, k)
    ensures Contains(s, sub) && Index(s, sub) == i
  {
  }

  // ------------------------------------------------------------------ trimming

  lemma {:induction false} TrimNewlinesAppend(s: string, k: nat)
    requires s == "" || s[|s| - 1] != '\n'
    ensures TrimNewlines(s + seq(k, _ => '\n')) == s
  {
    var t := s + seq(k, _ => '\n');
    if k == 0 {
      assert t == s;
    } else {
      assert t[..|t| - 1] == s + seq(k - 1, _ => '\n');
      TrimNewlinesAppend(s, k - 1);
    }
  }

  lemma LeadStable(before: string)
    ensures Above(Lead(before)) && TrimNewlines(Lead(before)) == TrimNewlines(before) && Lead(Lead(before)) == Lead(before)
  {
    var head := TrimNewlines(before);
    if head != "" {
      assert "\n\n" == seq(2, _ => '\n');
      TrimNewlinesAppend(head, 2);
    }
  }

  predicate Trimmed(t: string) {
    t == "" || (!Space(t[0]) && !Space(t[|t| - 1]))
  }

  lemma {:induction false} TrimRightFacts(s: string)
    ensures TrimRight(s) <= s && (TrimRight(s) == "" || !Space(TrimRight(s)[|TrimRight(s)| - 1]))
  {
    if s != "" && Space(s[|s| - 1]) {
      TrimRightFacts(s[..|s| - 1]);
    }
  }

  lemma {:induction false} TrimLeftFacts(s: string) returns (lo: nat)
    ensures lo <= |s| && TrimLeft(s) == s[lo..] && (TrimLeft(s) == "" || !Space(TrimLeft(s)[0]))
  {
    if s == "" || !Space(s[0]) {
      lo := 0;
    } else {
      var k := TrimLeftFacts(s[1..]);
      lo := k + 1;
      assert s[1..][k..] == s[k + 1..];
    }
  }

  lemma TrimSpaceFacts(s: string) returns (lo: nat, hi: nat)
    ensures lo <= hi <= |s| && TrimSpace(s) == s[lo..hi] && Trimmed(TrimSpace(s))
  {
    lo := TrimLeftFacts(s);
    TrimRightFacts(TrimLeft(s));
    hi := lo + |TrimSpace(s)|;
  }

  lemma {:induction false} TrimRightNewlines(t: string, k: nat)
    requires t == "" || !Space(t[|t| - 1])
    ensures TrimRight(t + seq(k, _ => '\n')) == t
  {
    var s := t + seq(k, _ => '\n');
    if k == 0 {
      assert s == t;
    } else {
      assert s[..|s| - 1] == t + seq(k - 1, _ => '\n');
      TrimRightNewlines(t, k - 1);
    }
  }

  lemma {:induction false} TrimLeftNewlines(k: nat, t: string)
    ensures TrimLeft(seq(k, _ => '\n') + t) == TrimLeft(t)
  {
    var s := seq(k, _ => '\n') + t;
    if k == 0 {
      assert s == t;
    } else {
      assert s[1..] == seq(k - 1, _ => '\n') + t;
      TrimLeftNewlines(k - 1, t);
    }
  }

  lemma TailStable(tail: string)
    requires Trimmed(tail)
    ensures TrimSpace("\n" + TailOf(tail)) == tail && Below(TailOf(tail))
  {
    if tail == "" {
      assert "\n" + TailOf(tail) == seq(1, _ => '\n') + "";
      TrimLeftNewlines(1, "");
    } else {
      var rest := tail + seq(1, _ => '\n');
      assert "\n" + TailOf(tail) == seq(3, _ => '\n') + rest;
      TrimLeftNewlines(3, rest);
      assert TrimLeft(rest) == rest;
      TrimRightNewlines(tail, 1);
    }
  }

  // ----------------------------------------------------------------- the merge

  ghost predicate OnceAt(s: string, sub: string, i: nat) {
    forall k: nat :: Occurs(s, sub, k) <==> k == i
  }

  /** One well-formed pair: each marker once, the end after the start. */
  ghost predicate PairAt(s: string, start: string, end: string, i: nat, j: nat) {
    OnceAt(s, start, i) && OnceAt(s, end, j) && i + |start| <= j && j + |end| <= |s|
  }

  /** The text before and after the block; all of it if there is none. */
  ghost predicate Outside(s: string, start: string, end: string, before: string, after: string) {
    || (Free(s, start) && Free(s, end) && before == s && after == "")
    || (exists i: nat, j: nat :: PairAt(s, start, end, i, j) && before == s[..i] && after == s[j + |end|..])
  }

  function Laid(before: string, start: string, block: string, end: string, after: string): string {
    Sandwich(Lead(before), start, TrimNewlines(block), end, TailOf(TrimSpace(after)))
  }

  lemma MergeAt(s: string, block: string, start: string, end: string, i: nat, j: nat)
    requires Contains(s, start) && Contains(s, end) && Index(s, start) == i && Index(s, end) == j
    ensures i <= |s| && j + |end| <= |s|
    ensures MergeBetween(s, block, start, end) ==
      Lead(s[..i]) + Wrapped(start, block, end) + TailOf(TrimSpace(s[j + |end|..]))
  {
    hide Lead, Wrapped, TailOf, TrimSpace, Index, Contains;
    Found(s, start);
    Found(s, end);
    hide Occurs, Free;
  }

  lemma MergePair(s: string, block: string, start: string, end: string, i: nat, j: nat)
    requires PairAt(s, start, end, i, j)
    ensures MergeBetween(s, block, start, end) ==
      Lead(s[..i]) + Wrapped(start, block, end) + TailOf(TrimSpace(s[j + |end|..]))
  {
    IndexIs(s, start, i);
    IndexIs(s, end, j);
    hide *;
    MergeAt(s, block, start, end, i, j);
  }

  lemma MergeFresh(s: string, block: string, start: string, end: string)
    requires Free(s, start)
    ensures MergeBetween(s, block, start, end) == Lead(s) + Wrapped(start, block, end) + TailOf(TrimSpace(""))
  {
    EmptyTail();
    assert !Contains(s, start);
    hide Contains, Index, Occurs, Lead, Wrapped, TrimSpace;
  }

  lemma MergeLaysOut(s: string, block: string, start: string, end: string, before: string, after: string)
    requires Markers(start, end) && Outside(s, start, end, before, after)
    ensures MergeBetween(s, block, start, end) == Laid(before, start, block, end, after)
    ensures Free(before, start) && Free(before, end) && Free(after, start) && Free(after, end)
  {
    hide Free, MergeBetween, Lead, TrimNewlines, TrimSpace, TailOf, Sandwich, OneLine, OnceAt;
    if Free(s, start) && Free(s, end) && before == s && after == "" {
      MergeFresh(s, block, start, end);
      NothingIsFree(start);
      NothingIsFree(end);
    } else {
      var i: nat, j: nat :| PairAt(s, start, end, i, j) && before == s[..i] && after == s[j + |end|..];
      MergePair(s, block, start, end, i, j);
      OutsideIsFree(s, start, end, i, j);
    }
    LayoutIsSandwich(Lead(before), start, TrimNewlines(block), end, TailOf(TrimSpace(after)));
  }

  lemma LayoutIsSandwich(above: string, start: string, middle: string, end: string, below: string)
    ensures above + (start + "\n" + middle + "\n" + end + "\n") + below == Sandwich(above, start, middle, end, below)
  {
  }

  lemma EmptyTail()
    ensures TrimSpace("") == "" && TailOf("") == ""
  {
  }

  lemma OutsideIsFree(s: string, start: string, end: string, i: nat, j: nat)
    requires PairAt(s, start, end, i, j) && OneLine(start) && OneLine(end)
    ensures Free(s[..i], start) && Free(s[..i], end) && Free(s[j + |end|..], start) && Free(s[j + |end|..], end)
  {
    forall k: nat
      ensures !Occurs(s[..i], start, k) && !Occurs(s[..i], end, k)
    {
      InPrefix(s, i, start, k);
      InPrefix(s, i, end, k);
    }
    var rest := s[j + |end|..];
    forall k: nat
      ensures !Occurs(rest, start, k) && !Occurs(rest, end, k)
    {
      InSuffix(s, j + |end|, start, k);
      InSuffix(s, j + |end|, end, k);
    }
  }

  lemma InPrefix(s: string, i: nat, sub: string, k: nat)
    requires i <= |s| && OneLine(sub)
    ensures Occurs(s[..i], sub, k) ==> Occurs(s, sub, k) && k + |sub| <= i && k < i
  {
    if k + |sub| <= i {
      assert s[..i][k..k + |sub|] == s[k..k + |sub|];
    }
  }

  lemma InSuffix(s: string, i: nat, sub: string, k: nat)
    requires i <= |s|
    ensures Occurs(s[i..], sub, k) ==> Occurs(s, sub, i + k)
  {
    if i + k + |sub| <= |s| {
      assert s[i..][k..k + |sub|] == s[i + k..i + k + |sub|];
    }
  }

  lemma LeadFree(before: string, sub: string)
    requires OneLine(sub) && Free(before, sub)
    ensures Free(Lead(before), sub) && Free(TrimNewlines(before), sub)
  {
    var head := TrimNewlines(before);
    FreeSlice(before, 0, |head|, sub);
    assert before[0..|head|] == head;
    NothingIsFree(sub);
    hide Free, TrimNewlines;
    FreeLines("", "", sub);
    assert "" + "\n" + "" == "\n";
    FreeLines(head, "\n", sub);
    assert head + "\n" + "\n" == head + "\n\n";
  }

  lemma TailFree(after: string, sub: string)
    requires OneLine(sub) && Free(after, sub)
    ensures Free(TailOf(TrimSpace(after)), sub)
  {
    var lo, hi := TrimSpaceFacts(after);
    var tail := TrimSpace(after);
    FreeSlice(after, lo, hi, sub);
    NothingIsFree(sub);
    hide Free, TrimSpace;
    FreeLines(tail, "", sub);
    assert tail + "\n" + "" == tail + "\n";
    FreeLines("", tail + "\n", sub);
    assert "" + "\n" + (tail + "\n") == "\n" + (tail + "\n");
    FreeLines("", "\n" + (tail + "\n"), sub);
    assert "" + "\n" + ("\n" + (tail + "\n")) == "\n\n" + tail + "\n";
  }

  lemma PiecesAreFree(before: string, block: string, after: string, sub: string)
    requires OneLine(sub) && Free(before, sub) && Free(block, sub) && Free(after, sub)
    ensures Free(Lead(before), sub) && Free(TrimNewlines(block), sub) && Free(TailOf(TrimSpace(after)), sub)
  {
    LeadFree(before, sub);
    LeadFree(block, sub);
    TailFree(after, sub);
    hide Free, Lead, TrimNewlines, TailOf, TrimSpace;
  }

  lemma NothingIsFree(sub: string)
    requires OneLine(sub)
    ensures Free("", sub)
  {
  }

  /** Merging leaves exactly one pair, with the block between, and the text outside it is
      the old one up to the blank space next to the block. */
  lemma MergeKeepsOutside(s: string, block: string, start: string, end: string, before: string, after: string)
    requires Markers(start, end) && Outside(s, start, end, before, after) && Free(block, start) && Free(block, end)
    ensures var merged := MergeBetween(s, block, start, end);
      && Outside(merged, start, end, Lead(before), "\n" + TailOf(TrimSpace(after)))
      && (exists i: nat, j: nat :: PairAt(merged, start, end, i, j) && merged[i + |start|..j] == "\n" + TrimNewlines(block) + "\n")
      && TrimNewlines(Lead(before)) == TrimNewlines(before)
      && TrimSpace("\n" + TailOf(TrimSpace(after))) == TrimSpace(after)
  {
    MergeLaysOut(s, block, start, end, before, after);
    PiecesAreFree(before, block, after, start);
    PiecesAreFree(before, block, after, end);
    LeadStable(before);
    var lo, hi := TrimSpaceFacts(after);
    TailStable(TrimSpace(after));
    SandwichIsPair(Lead(before), start, TrimNewlines(block), end, TailOf(TrimSpace(after)));
    hide Lead, TrimNewlines, TrimSpace, TailOf, MergeBetween, Markers, Free, PairAt, Sandwich;
  }

  lemma SandwichSlices(above: string, start: string, middle: string, end: string, below: string)
    ensures var s := Sandwich(above, start, middle, end, below);
      var i, j := |above|, |above| + |start| + 1 + |middle| + 1;
      && j + |end| <= |s| && s[..i] == above && s[i + |start|..j] == "\n" + middle + "\n" && s[j + |end|..] == "\n" + below
  {
    var body := start + "\n" + (middle + "\n" + (end + "\n" + below));
    assert (above + body)[|above|..] == body;
    assert body == (start + "\n" + middle + "\n" + end) + ("\n" + below);
    var s := above + body;
    var j := |above| + |start| + 1 + |middle| + 1;
    assert s == (above + (start + "\n" + middle + "\n" + end)) + ("\n" + below);
    assert s == (above + start) + ("\n" + middle + "\n") + (end + "\n" + below);
  }

  lemma SandwichIsPair(above: string, start: string, middle: string, end: string, below: string)
    requires Markers(start, end) && Above(above)
    requires Free(above, start) && Free(middle, start) && Free(below, start)
    requires Free(above, end) && Free(middle, end) && Free(below, end)
    ensures var s := Sandwich(above, start, middle, end, below);
      && (exists i: nat, j: nat :: PairAt(s, start, end, i, j) && s[i + |start|..j] == "\n" + middle + "\n")
      && (exists i: nat, j: nat :: PairAt(s, start, end, i, j) && above == s[..i] && "\n" + below == s[j + |end|..])
  {
    MarkersOnce(above, start, middle, end, below, start);
    MarkersOnce(above, start, middle, end, below, end);
    DifferentMarkers(start, end);
    SandwichSlices(above, start, middle, end, below);
    hide Occurs, Free, Sandwich, Markers;
    var s := Sandwich(above, start, middle, end, below);
    var i, j := |above|, |above| + |start| + 1 + |middle| + 1;
    assert PairAt(s, start, end, i, j);
  }

  lemma DifferentMarkers(start: string, end: string)
    requires Markers(start, end)
    ensures start != end
  {
    OnlyAtStart(start, 0);
  }

  /** A later merge replaces only the block: what an earlier one put there makes no
      difference. With the same block twice, merging is idempotent. */
  lemma LaterMergeReplacesBlock(s: string, first: string, second: string, start: string, end: string, before: string, after: string)
    requires Markers(start, end) && Outside(s, start, end, before, after) && Free(first, start) && Free(first, end)
    ensures MergeBetween(MergeBetween(s, first, start, end), second, start, end) == MergeBetween(s, second, start, end)
  {
    MergeKeepsOutside(s, first, start, end, before, after);
    MergeLaysOut(s, second, start, end, before, after);
    MergeLaysOut(MergeBetween(s, first, start, end), second, start, end, Lead(before), "\n" + TailOf(TrimSpace(after)));
    LeadStable(before);
    hide Lead, TrimNewlines, TrimSpace, TailOf, MergeBetween, Markers, Free, PairAt, Sandwich;
  }

  // --------------------------------------------------- exactly when it settles

  /** The begin line starts with ink, and an end line cannot run into a begin line. */
  ghost predicate Apart(start: string, end: string) {
    Markers(start, end) && !Space(start[0]) && start[0] !in end[1..]
  }

  /** No marker at all, or a begin line before the first end line. */
  ghost predicate Settles(s: string, start: string, end: string) {
    (Free(s, start) && Free(s, end)) || (Contains(s, start) && Contains(s, end) && Index(s, start) < Index(s, end))
  }

  /** In text laid out around the block the first place of a marker that does not stand
      above it is its own line, whatever comes below. */
  lemma FirstInSandwich(above: string, start: string, middle: string, end: string, below: string, sub: string)
    requires Markers(start, end) && (sub == start || sub == end) && Above(above) && Free(above, sub) && Free(middle, sub)
    ensures var s := Sandwich(above, start, middle, end, below);
      Contains(s, sub) && Index(s, sub) == |above| + OffsetOf(start, middle, sub)
  {
    var rest := end + "\n" + below;
    var body := start + "\n" + (middle + "\n" + rest);
    var s := Sandwich(above, start, middle, end, below);
    var n := OffsetOf(start, middle, sub);
    DifferentMarkers(start, end);
    SandwichSlices(above, start, middle, end, below);
    forall k: nat | k < |above| + n
      ensures !Occurs(s, sub, k)
    {
      AtAbove(above, body, sub, k);
      if k >= |above| {
        NoneBefore(start, middle, rest, end, sub, k - |above|);
      }
    }
    AtItsLine(above, start, middle, end, below, sub);
    hide Occurs, Free, Sandwich, OffsetOf;
    IndexIs(s, sub, |above| + n);
  }

  lemma NoneBefore(start: string, middle: string, rest: string, end: string, sub: string, k: nat)
    requires Markers(start, end) && sub in {start, end} && start != end && Free(middle, sub) && k < OffsetOf(start, middle, sub)
    ensures !Occurs(start + "\n" + (middle + "\n" + rest), sub, k)
  {
    assert sub == end;
    AcrossNewline(start, middle + "\n" + rest, sub, k);
    if k > |start| {
      AcrossNewline(middle, rest, sub, k - |start| - 1);
    }
  }

  lemma AtItsLine(above: string, start: string, middle: string, end: string, below: string, sub: string)
    requires sub == start || sub == end
    ensures Occurs(Sandwich(above, start, middle, end, below), sub, |above| + OffsetOf(start, middle, sub))
  {
    var s := Sandwich(above, start, middle, end, below);
    if sub == start {
      assert s == above + start + ("\n" + (middle + "\n" + (end + "\n" + below)));
      assert s[|above|..|above| + |start|] == start;
    } else {
      var front := above + (start + "\n" + (middle + "\n"));
      assert s == front + end + ("\n" + below);
      assert s[|front|..|front| + |end|] == end;
    }
  }

  /** What comes first in a part that a text begins with comes first in the text. */
  lemma FirstInPrefix(t: string, s: string, sub: string)
    requires t <= s && Contains(t, sub)
    ensures Contains(s, sub) && Index(s, sub) == Index(t, sub) && Index(s, sub) + |sub| <= |t|
  {
    var i := Index(t, sub);
    forall k: nat | k <= i
      ensures Occurs(s, sub, k) <==> Occurs(t, sub, k)
    {
      assert t[k..k + |sub|] == s[k..k + |sub|];
    }
    IndexIs(s, sub, i);
  }

  /** Trimming newlines away leaves every marker where it is. */
  lemma LeadKeepsMarker(b: string, sub: string)
    requires OneLine(sub) && Contains(b, sub)
    ensures Contains(Lead(b), sub) && Index(Lead(b), sub) == Index(b, sub) && Index(b, sub) + |sub| + 2 <= |Lead(b)|
  {
    var i, t := Index(b, sub), TrimNewlines(b);
    assert b[i + |sub| - 1] == b[i..i + |sub|][|sub| - 1] == sub[|sub| - 1];
    assert i + |sub| <= |t|;
    assert t[i..i + |sub|] == b[i..i + |sub|];
    forall k: nat | k < i
      ensures !Occurs(t, sub, k)
    {
      assert !Occurs(b, sub, k);
      assert k + |sub| <= |t| ==> t[k..k + |sub|] == b[k..k + |sub|];
    }
    IndexIs(t, sub, i);
    FirstInPrefix(t, Lead(b), sub);
  }

  lemma {:induction false} TrimRightSpan(s: string, j: nat)
    requires j < |s| && !Space(s[j])
    ensures |TrimRight(s)| > j
    decreases |s|
  {
    if Space(s[|s| - 1]) {
      TrimRightSpan(s[..|s| - 1], j);
    }
  }

  lemma {:induction false} TrimSpan(s: string, i: nat, j: nat)
    requires i <= j < |s| && !Space(s[i]) && !Space(s[j])
    ensures |TrimSpace(s)| >= j - i + 1
    decreases |s|
  {
    if Space(s[0]) {
      TrimSpan(s[1..], i - 1, j - 1);
    } else {
      TrimRightSpan(s, j);
    }
  }

  lemma SandwichSize(above: string, start: string, middle: string, end: string, below: string)
    ensures |Sandwich(above, start, middle, end, below)| == |above| + |start| + |middle| + |end| + 3 + |below|
  {
  }

  /** The first merge, whatever markers there are. */
  function AboveBlock(s: string, start: string, end: string): string {
    if Contains(s, start) && Contains(s, end) then s[..Index(s, start)] else s
  }

  function BelowBlock(s: string, start: string, end: string): string {
    if Contains(s, start) && Contains(s, end) then TrimSpace(s[Index(s, end) + |end|..]) else ""
  }

  lemma MergeIsLaid(s: string, block: string, start: string, end: string)
    ensures MergeBetween(s, block, start, end)
         == Sandwich(Lead(AboveBlock(s, start, end)), start, TrimNewlines(block), end, TailOf(BelowBlock(s, start, end)))
    ensures Trimmed(BelowBlock(s, start, end))
  {
    var b, tail := AboveBlock(s, start, end), BelowBlock(s, start, end);
    if Contains(s, start) && Contains(s, end) {
      var lo, hi := TrimSpaceFacts(s[Index(s, end) + |end|..]);
    }
    EmptyTail();
    LayoutIsSandwich(Lead(b), start, TrimNewlines(block), end, TailOf(tail));
    hide Lead, TrimNewlines, TrimSpace, Contains, Index, Occurs, Sandwich, Free;
  }

  lemma AgainParts(above: string, middle: string, below: string, start: string, end: string, j: nat)
    requires Markers(start, end) && Above(above) && Free(above, start) && Free(middle, start)
    requires var s := Sandwich(above, start, middle, end, below); Contains(s, end) && Index(s, end) == j && j + |end| <= |s|
    ensures var s := Sandwich(above, start, middle, end, below);
      AboveBlock(s, start, end) == above && BelowBlock(s, start, end) == TrimSpace(s[j + |end|..])
  {
    hide Free, Sandwich, Occurs, Index, Contains, TrimSpace, Above;
    FirstInSandwich(above, start, middle, end, below, start);
    SandwichSlices(above, start, middle, end, below);
  }

  /** A second merge over laid out text in which the begin line is the first one. */
  lemma MergeAgain(above: string, middle: string, below: string, block: string, start: string, end: string, j: nat)
    requires Markers(start, end) && Above(above) && Free(above, start) && Free(middle, start)
    requires var s := Sandwich(above, start, middle, end, below); Contains(s, end) && Index(s, end) == j && j + |end| <= |s|
    ensures var s := Sandwich(above, start, middle, end, below);
      MergeBetween(s, block, start, end)
      == Sandwich(Lead(above), start, TrimNewlines(block), end, TailOf(TrimSpace(s[j + |end|..])))
  {
    hide *;
    AgainParts(above, middle, below, start, end, j);
    MergeIsLaid(Sandwich(above, start, middle, end, below), block, start, end);
  }

  /** With the first end line in place, merging again changes nothing. */
  lemma OrderedSettles(above: string, tail: string, block: string, start: string, end: string)
    requires Markers(start, end) && Free(above, start) && Free(above, end) && Free(block, start) && Free(block, end)
    requires Trimmed(tail)
    ensures var s := Sandwich(Lead(above), start, TrimNewlines(block), end, TailOf(tail)); MergeBetween(s, block, start, end) == s
  {
    hide Lead, TrimNewlines, TrimSpace, Contains, Index, Occurs, Sandwich, Free, TailOf, Above, MergeBetween, Trimmed;
    var lead, middle, below := Lead(above), TrimNewlines(block), TailOf(tail);
    LeadFree(above, start);
    LeadFree(above, end);
    LeadFree(block, start);
    LeadFree(block, end);
    LeadStable(above);
    TailStable(tail);
    DifferentMarkers(start, end);
    FirstInSandwich(lead, start, middle, end, below, end);
    SandwichSlices(lead, start, middle, end, below);
    MergeAgain(lead, middle, below, block, start, end, |lead| + |start| + 1 + |middle| + 1);
  }

  lemma TailGrows(above: string, middle: string, tail: string, start: string, end: string, j: nat)
    requires Apart(start, end) && Trimmed(tail) && j <= |above|
    ensures var s := Sandwich(above, start, middle, end, TailOf(tail)); |TailOf(TrimSpace(s[j..]))| > |TailOf(tail)|
  {
    var s := Sandwich(above, start, middle, end, TailOf(tail));
    SandwichSize(above, start, middle, end, TailOf(tail));
    assert s[|above|] == start[0];
    var rest := s[j..];
    var p := |above| - j;
    assert rest[p] == s[|above|];
    if tail == "" {
      TrimSpan(rest, p, p);
    } else {
      var front := above + (start + "\n" + (middle + "\n" + (end + "\n")));
      assert s == front + ("\n\n" + tail + "\n");
      assert s[|s| - 2] == tail[|tail| - 1];
      assert rest[|rest| - 2] == s[|s| - 2];
      TrimSpan(rest, p, |rest| - 2);
    }
  }

  /** An end line above the block is taken for the end of the block: what follows it is
      copied below the new block, and again each time. */
  lemma StrayEndGrows(above: string, tail: string, block: string, start: string, end: string)
    requires Apart(start, end) && Free(above, start) && Contains(above, end) && Free(block, start) && Trimmed(tail)
    ensures var s := Sandwich(Lead(above), start, TrimNewlines(block), end, TailOf(tail)); MergeBetween(s, block, start, end) != s
  {
    hide Lead, TrimNewlines, TrimSpace, Contains, Index, Occurs, Sandwich, Free, TailOf, Above, MergeBetween, Trimmed;
    var lead, middle, below := Lead(above), TrimNewlines(block), TailOf(tail);
    var s := Sandwich(lead, start, middle, end, below);
    LeadFree(above, start);
    LeadFree(block, start);
    LeadStable(above);
    LeadKeepsMarker(above, end);
    BeginsAbove(lead, start, middle, end, below);
    FirstInPrefix(lead, s, end);
    var j := Index(s, end);
    SandwichSize(lead, start, middle, end, below);
    TailGrows(lead, middle, tail, start, end, j + |end|);
    SandwichSize(lead, start, middle, end, TailOf(TrimSpace(s[j + |end|..])));
    MergeAgain(lead, middle, below, block, start, end, j);
  }

  lemma BeginsAbove(above: string, start: string, middle: string, end: string, below: string)
    ensures above <= Sandwich(above, start, middle, end, below)
  {
  }

  /** With a begin line whose end line is missing the first merge appends a pair, and the
      second one takes everything from the stray line on for the old block: the text from
      there on is lost. */
  lemma StrayBeginLoses(s: string, first: string, second: string, start: string, end: string)
    requires Markers(start, end) && Contains(s, start) && Free(s, end) && Free(first, end)
    ensures MergeBetween(MergeBetween(s, first, start, end), second, start, end)
         == Sandwich(Lead(s[..Index(s, start)]), start, TrimNewlines(second), end, "")
    ensures |Lead(s[..Index(s, start)])| < |Lead(s)|
  {
    hide Lead, TrimNewlines, TrimSpace, Contains, Index, Occurs, Sandwich, Free, TailOf, Above, MergeBetween;
    var lead, middle := Lead(s), TrimNewlines(first);
    var merged := Sandwich(lead, start, middle, end, "");
    MergeIsLaid(s, first, start, end);
    EmptyTail();
    FreeOrThere(s, end);
    LeadFree(s, end);
    LeadFree(first, end);
    LeadStable(s);
    LeadKeepsMarker(s, start);
    BeginsAbove(lead, start, middle, end, "");
    FirstInPrefix(lead, merged, start);
    StrayPrefix(s, merged, start);
    DifferentMarkers(start, end);
    FirstInSandwich(lead, start, middle, end, "", end);
    SandwichSlices(lead, start, middle, end, "");
    NothingLeads();
    MergeIsLaid(merged, second, start, end);
  }

  lemma StrayPrefix(s: string, merged: string, start: string)
    requires OneLine(start) && Contains(s, start) && Lead(s) <= merged && Index(s, start) + |start| + 2 <= |Lead(s)|
    ensures Index(s, start) <= |merged| && merged[..Index(s, start)] == s[..Index(s, start)]
    ensures |Lead(s[..Index(s, start)])| < |Lead(s)|
  {
    var i := Index(s, start);
    assert Lead(s)[..i] == TrimNewlines(s)[..i] == s[..i];
    assert merged[..i] == Lead(s)[..i];
  }

  /** Merging the same block again changes nothing exactly when the file had no marker or
      its first begin line stood before its first end line. */
  lemma IdempotentExactly(s: string, block: string, start: string, end: string)
    requires Apart(start, end) && Free(block, start) && Free(block, end)
    ensures MergeBetween(MergeBetween(s, block, start, end), block, start, end) == MergeBetween(s, block, start, end)
            <==> Settles(s, start, end)
  {
    var above, tail := AboveBlock(s, start, end), BelowBlock(s, start, end);
    MergeIsLaid(s, block, start, end);
    FreeOrThere(s, start);
    FreeOrThere(s, end);
    if Contains(s, start) && Contains(s, end) {
      AboveFirst(s, start, end);
      if Index(s, start) < Index(s, end) {
        OrderedSettles(above, tail, block, start, end);
      } else {
        StrayEndGrows(above, tail, block, start, end);
      }
    } else if Contains(s, start) {
      StrayBeginLoses(s, block, block, start, end);
      SandwichSize(Lead(s), start, TrimNewlines(block), end, TailOf(tail));
      SandwichSize(Lead(s[..Index(s, start)]), start, TrimNewlines(block), end, "");
    } else if Contains(s, end) {
      StrayEndGrows(above, tail, block, start, end);
    } else {
      OrderedSettles(above, tail, block, start, end);
    }
    hide Lead, TrimNewlines, TrimSpace, Contains, Index, Occurs, Sandwich, Free, TailOf, Apart, Trimmed;
  }

  lemma FreeOrThere(s: string, sub: string)
    ensures Free(s, sub) <==> !Contains(s, sub)
  {
    if Contains(s, sub) {
      assert Occurs(s, sub, Index(s, sub));
    }
  }

  lemma AboveFirst(s: string, start: string, end: string)
    requires Apart(start, end) && Contains(s, start) && Contains(s, end)
    ensures var above := AboveBlock(s, start, end);
      && Free(above, start) && Index(s, start) != Index(s, end)
      && (if Index(s, start) < Index(s, end) then Free(above, end) else Contains(above, end))
  {
    var i, e := Index(s, start), Index(s, end);
    var above := s[..i];
    forall k: nat
      ensures !Occurs(above, start, k)
      ensures i < e ==> !Occurs(above, end, k)
    {
      InPrefix(s, i, start, k);
      InPrefix(s, i, end, k);
    }
    NotTogether(s, start, end, i, e);
    if e < i {
      assert above[e..e + |end|] == s[e..e + |end|];
      assert Occurs(above, end, e);
      FreeOrThere(above, end);
    }
  }

  lemma InsideMarker(s: string, end: string, e: nat, i: nat)
    requires Occurs(s, end, e)
    ensures e < i < e + |end| ==> s[i] in end[1..]
  {
    if e < i < e + |end| {
      assert s[i] == s[e..e + |end|][i - e] == end[1..][i - e - 1];
    }
  }

  lemma SameStart(s: string, a: string, b: string, i: nat)
    requires Occurs(s, a, i) && Occurs(s, b, i) && |a| <= |b|
    ensures Occurs(b, a, 0)
  {
    assert b[0..|a|] == s[i..i + |b|][..|a|] == s[i..i + |a|];
  }

  lemma NotTogether(s: string, start: string, end: string, i: nat, e: nat)
    requires Apart(start, end) && Occurs(s, start, i) && Occurs(s, end, e)
    ensures i != e && (e < i ==> e + |end| <= i)
  {
    assert s[i] == s[i..i + |start|][0] == start[0];
    InsideMarker(s, end, e, i);
    if i == e {
      hide Occurs;
      if |start| <= |end| {
        SameStart(s, start, end, i);
      } else {
        SameStart(s, end, start, i);
      }
    }
  }

  lemma NothingLeads()
    ensures Lead("") == "" && TailOf("") == "" && TrimSpace("\n" + "") == ""
  {
    EmptyTail();
    TailStable("");
  }

  // ------------------------------------------------------------ the real markers

  lemma MarkerLines(marker: string)
    requires '\n' !in marker && '<' !in marker
    ensures Apart(StartOf(marker), EndOf(marker))
  {
    var start, end := StartOf(marker), EndOf(marker);
    assert start[0] == '<' == end[0] && start[5] == 'B' && end[5] == 'E' && |start| == |end| + 2;
    assert end[1..] == "!-- END " + marker + " -->";
    forall i: nat
      ensures !Occurs(start, end, i) && !Occurs(end, start, i)
    {
      if i + |end| <= |start| {
        assert start[i..i + |end|][0] == start[i] && start[i..i + |end|][5] == start[i + 5];
      }
    }
  }
}
