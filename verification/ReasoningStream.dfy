/** Reasoning only grows while the input does, exactly when the two tags do not overlap badly. */
module ReasoningStream {
  import opened Results
  import opened Strings
  import opened ChatParser

  /** The reasoning extracted from the start of the input. */
  function Reasoning(input: string, isPartial: bool, syntax: Syntax, startThink: string, endThink: string): string {
    ParsedReasoning(input, isPartial, syntax, 0, startThink, endThink).reasoning
  }

  /** The end of a thought: at the end tag, at the start of it that ends the input, or at the end of the input. */
  function ThoughtEnd(input: string, isPartial: bool, from: nat, endThink: string): (e: nat)
    requires from <= |input|
    ensures from <= e <= |input|
  {
    var found := FoundLiteral(input, isPartial, from, endThink);
    if found.Some? then found.value.begin else |input|
  }

  function Thought(input: string, isPartial: bool, from: nat, endThink: string): string
    requires from <= |input|
  {
    input[from..ThoughtEnd(input, isPartial, from, endThink)]
  }

  predicate Extracts(syntax: Syntax) {
    syntax.reasoningFormat != NoReasoning && !syntax.reasoningInContent
  }

  lemma {:induction false} ReasoningIsThought(input: string, isPartial: bool, syntax: Syntax, startThink: string, endThink: string)
    requires Extracts(syntax)
    ensures Reasoning(input, isPartial, syntax, startThink, endThink) ==
            if syntax.thinkingForcedOpen then Strip(Thought(input, isPartial, 0, endThink))
            else if startThink <= input then Strip(Thought(input, isPartial, |startThink|, endThink))
            else ""
  {
    var start := if syntax.thinkingForcedOpen then 0 else |startThink|;
    assert IsAt(input, startThink, 0) <==> startThink <= input;
    if start <= |input| {
      assert input[start..|input|] == input[start..];
    }
  }

  // ----- thoughts grow

  /** Some tail of the input that starts before `from` is a longer start of the end tag than any that starts later. */
  predicate Hidden(input: string, from: nat, endThink: string) {
    var tail := PartialStop(input, endThink);
    tail.Some? && tail.value < from
  }

  lemma {:induction false} TailOfPrefix(p: string, q: string, stop: string, i: nat)
    requires p <= q && i < |p|
    requires q[i..] <= stop || (IsAt(q, stop, i) && i + |stop| > |p|)
    ensures p[i..] <= stop
  {
    if q[i..] <= stop {
      assert p[i..] == q[i..][..|p| - i];
    } else {
      assert p[i..] == q[i..i + |stop|][..|p| - i];
    }
  }

  /** Where a longer input ends its thought earlier than the end of the shorter one, the shorter one ends with the start of an end tag. */
  lemma {:induction false} EarlyEnd(p: string, q: string, isPartial: bool, from: nat, endThink: string)
    requires p <= q && from <= |p| && Find(p, endThink, from).None?
    ensures var e := ThoughtEnd(q, isPartial, from, endThink);
            e < |p| ==> p[e..] <= endThink
  {
    var e := ThoughtEnd(q, isPartial, from, endThink);
    IsAtInShorter(p, q, endThink, e);
    if e < |p| && !IsAt(p, endThink, e) {
      TailOfPrefix(p, q, endThink, e);
    }
  }

  lemma {:induction false} IsAtInShorter(p: string, q: string, needle: string, i: nat)
    requires p <= q
    ensures IsAt(p, needle, i) <==> IsAt(q, needle, i) && i + |needle| <= |p|
  {
    if i + |needle| <= |p| {
      assert p[i..i + |needle|] == q[i..i + |needle|];
    }
  }

  /** Unless a hidden tail ends it, a thought of a longer input does not end earlier. */
  lemma {:induction false} GrowingThought(p: string, q: string, isPartial: bool, from: nat, endThink: string)
    requires p <= q && from <= |p| && !Hidden(p, from, endThink)
    ensures Thought(p, true, from, endThink) <= Thought(q, isPartial, from, endThink)
  {
    if Find(p, endThink, from).Some? {
      FindInLonger(p, q, endThink, from);
    } else {
      EarlyEnd(p, q, isPartial, from, endThink);
    }
    var e, f := ThoughtEnd(p, true, from, endThink), ThoughtEnd(q, isPartial, from, endThink);
    assert e <= f;
    assert p[from..e] == q[from..f][..e - from];
  }

  // ----- overlapping tags

  /** The last `m` characters. */
  function Last(s: string, m: nat): string
    requires m <= |s|
  {
    s[|s| - m..]
  }

  /** The start tag ends with the first `m` characters of the end tag, the next `n` end with its first `l`,
      and leaving those `l` out changes the stripped text. */
  predicate OverlapAt(startThink: string, endThink: string, m: nat, n: nat, l: nat) {
    && 1 <= m <= |startThink| && 1 <= l <= n && m + n <= |endThink|
    && Last(startThink, m) == endThink[..m]
    && var w := endThink[m..m + n];
       Last(w, l) == endThink[..l] && Strip(w[..n - l]) != Strip(w)
  }

  ghost predicate Overlap(startThink: string, endThink: string) {
    exists m: nat, n: nat, l: nat :: OverlapAt(startThink, endThink, m, n, l)
  }

  lemma {:induction false} SliceOfPrefix(p: string, q: string, k: nat, e: nat)
    requires p <= q && k <= e <= |p|
    ensures q[k..e] == p[k..][..e - k] && Last(p[k..], |p| - e) == p[e..]
  {
  }

  /** What follows the start tag in the presence of a hidden tail is part of the end tag, and all of it is taken for reasoning. */
  lemma {:induction false} HiddenTail(p: string, startThink: string, endThink: string, m: nat)
    requires startThink <= p && Hidden(p, |startThink|, endThink) && m == |startThink| - PartialStop(p, endThink).value
    ensures var k, n := |startThink|, |p| - |startThink|;
            && 1 <= m <= k && m + n <= |endThink|
            && Last(startThink, m) == endThink[..m] && p[k..] == endThink[m..m + n]
            && Find(p, endThink, k).None? && Thought(p, true, k, endThink) == p[k..]
  {
    var k, i := |startThink|, PartialStop(p, endThink).value;
    assert p[i..] == endThink[..|p| - i];
    assert startThink[i..] == p[i..][..m] == endThink[..m];
    assert p[k..] == p[i..][m..];
  }

  lemma {:induction false} NoOverlap(startThink: string, endThink: string, m: nat, n: nat, l: nat)
    requires 1 <= m <= |startThink| && 1 <= l <= n && m + n <= |endThink| && !Overlap(startThink, endThink)
    requires Last(startThink, m) == endThink[..m] && Last(endThink[m..m + n], l) == endThink[..l]
    ensures Strip(endThink[m..m + n][..n - l]) == Strip(endThink[m..m + n])
  {
    if Strip(endThink[m..m + n][..n - l]) != Strip(endThink[m..m + n]) {
      assert OverlapAt(startThink, endThink, m, n, l);
    }
  }

  /** The pieces of an early thought, named by what they are in the end tag. */
  lemma {:induction false} EarlyPieces(p: string, q: string, k: nat, w: string, e: nat, endThink: string)
    requires p <= q && k <= e < |p| && p[e..] <= endThink && p[k..] == w
    ensures |p| - e <= |w| && |p| - e <= |endThink| && Last(w, |p| - e) == endThink[..|p| - e] && q[k..e] == w[..e - k]
  {
    SliceOfPrefix(p, q, k, e);
  }

  lemma {:induction false} EarlyStrip(startThink: string, endThink: string, m: nat, n: nat, l: nat, w: string, x: string)
    requires 1 <= m <= |startThink| && 1 <= l <= n && m + n <= |endThink| && !Overlap(startThink, endThink)
    requires Last(startThink, m) == endThink[..m] && w == endThink[m..m + n] && Last(w, l) == endThink[..l] && x == w[..n - l]
    ensures Strip(x) == Strip(w)
  {
    NoOverlap(startThink, endThink, m, n, l);
  }

  lemma {:induction false} EarlyThought(p: string, q: string, startThink: string, endThink: string, m: nat, e: nat)
    requires startThink <= p <= q && |startThink| <= e < |p| && p[e..] <= endThink && !Overlap(startThink, endThink)
    requires 1 <= m <= |startThink| && m + |p| - |startThink| <= |endThink| && Last(startThink, m) == endThink[..m]
    requires p[|startThink|..] == endThink[m..m + |p| - |startThink|]
    ensures Strip(q[|startThink|..e]) == Strip(p[|startThink|..])
  {
    var k, w := |startThink|, p[|startThink|..];
    EarlyPieces(p, q, k, w, e, endThink);
    EarlyStrip(startThink, endThink, m, |w|, |p| - e, w, q[k..e]);
  }

  lemma {:induction false} LateThought(p: string, q: string, k: nat, e: nat)
    requires p <= q && k <= |p| <= e <= |q|
    ensures Strip(p[k..]) <= Strip(q[k..e])
  {
    assert p[k..] <= q[k..e];
    StripInLonger(p[k..], q[k..e]);
  }

  /** A hidden tail does harm only where the tags overlap. */
  lemma {:induction false} HarmlessTail(p: string, q: string, isPartial: bool, startThink: string, endThink: string)
    requires startThink <= p <= q && Hidden(p, |startThink|, endThink) && !Overlap(startThink, endThink)
    ensures Strip(Thought(p, true, |startThink|, endThink)) <= Strip(Thought(q, isPartial, |startThink|, endThink))
  {
    var k := |startThink|;
    var m := k - PartialStop(p, endThink).value;
    HiddenTail(p, startThink, endThink, m);
    var e := ThoughtEnd(q, isPartial, k, endThink);
    if e < |p| {
      EarlyEnd(p, q, isPartial, k, endThink);
      EarlyThought(p, q, startThink, endThink, m, e);
    } else {
      LateThought(p, q, k, e);
    }
  }

  /** The reasoning extracted from partial input is extended, never revised, by any longer input. */
  lemma {:induction false} ReasoningGrows(p: string, q: string, isPartial: bool, syntax: Syntax, startThink: string, endThink: string)
    requires Extracts(syntax) && p <= q
    requires syntax.thinkingForcedOpen || !Overlap(startThink, endThink)
    ensures Reasoning(p, true, syntax, startThink, endThink) <= Reasoning(q, isPartial, syntax, startThink, endThink)
  {
    ReasoningIsThought(p, true, syntax, startThink, endThink);
    ReasoningIsThought(q, isPartial, syntax, startThink, endThink);
    var from := if syntax.thinkingForcedOpen then 0 else |startThink|;
    if syntax.thinkingForcedOpen || startThink <= p {
      if Hidden(p, from, endThink) {
        HarmlessTail(p, q, isPartial, startThink, endThink);
      } else {
        GrowingThought(p, q, isPartial, from, endThink);
        StripInLonger(Thought(p, true, from, endThink), Thought(q, isPartial, from, endThink));
      }
    }
  }

  // ----- where it does not grow

  /** The shorter input ends inside the end tag; the longer one goes on with another end tag. */
  function Shorter(startThink: string, w: string): string {
    startThink + w
  }

  function Longer(startThink: string, endThink: string, w: string, l: nat): string
    requires l <= |w|
  {
    startThink + w[..|w| - l] + endThink
  }

  lemma {:induction false} LongerExtends(startThink: string, endThink: string, w: string, l: nat)
    requires l <= |w| && l <= |endThink| && Last(w, l) == endThink[..l]
    ensures Shorter(startThink, w) <= Longer(startThink, endThink, w, l)
  {
    assert w == w[..|w| - l] + endThink[..l];
    assert Longer(startThink, endThink, w, l) == startThink + w + endThink[l..];
  }

  lemma {:induction false} LongerThought(startThink: string, endThink: string, w: string, l: nat)
    requires l <= |w|
    ensures Thought(Longer(startThink, endThink, w, l), true, |startThink|, endThink) <= w[..|w| - l]
  {
    var q, k, at := Longer(startThink, endThink, w, l), |startThink|, |startThink| + |w| - l;
    assert IsAt(q, endThink, at);
    var e := ThoughtEnd(q, true, k, endThink);
    assert e <= at;
    assert q[k..at] == w[..|w| - l];
    assert q[k..e] == q[k..at][..e - k];
  }

  lemma {:induction false} ShorterThought(startThink: string, endThink: string, m: nat, n: nat)
    requires 1 <= m <= |startThink| && m + n <= |endThink| && Last(startThink, m) == endThink[..m]
    ensures var w := endThink[m..m + n];
            Thought(Shorter(startThink, w), true, |startThink|, endThink) == w
  {
    var p := Shorter(startThink, endThink[m..m + n]);
    OverlapHides(startThink, endThink, m, n);
    HiddenTail(p, startThink, endThink, |startThink| - PartialStop(p, endThink).value);
  }

  lemma {:induction false} OverlapShrinks(startThink: string, endThink: string, syntax: Syntax, m: nat, n: nat, l: nat)
    requires Extracts(syntax) && !syntax.thinkingForcedOpen && OverlapAt(startThink, endThink, m, n, l)
    ensures var w := endThink[m..m + n];
            var p, q := Shorter(startThink, w), Longer(startThink, endThink, w, l);
            p <= q && !(Reasoning(p, true, syntax, startThink, endThink) <= Reasoning(q, true, syntax, startThink, endThink))
  {
    var w := endThink[m..m + n];
    var p, q := Shorter(startThink, w), Longer(startThink, endThink, w, l);
    LongerExtends(startThink, endThink, w, l);
    ShorterThought(startThink, endThink, m, n);
    LongerThought(startThink, endThink, w, l);
    StripInLonger(Thought(q, true, |startThink|, endThink), w[..n - l]);
    StripInLonger(w[..n - l], w);
    ReasoningIsThought(p, true, syntax, startThink, endThink);
    ReasoningIsThought(q, true, syntax, startThink, endThink);
  }

  lemma {:induction false} OverlapHides(startThink: string, endThink: string, m: nat, n: nat)
    requires 1 <= m <= |startThink| && m + n <= |endThink| && Last(startThink, m) == endThink[..m]
    ensures Hidden(startThink + endThink[m..m + n], |startThink|, endThink)
  {
    var p := startThink + endThink[m..m + n];
    assert p[|startThink| - m..] == Last(startThink, m) + endThink[m..m + n];
    assert p[|startThink| - m..] == endThink[..m + n];
  }

  /** For every pair of longer and shorter input. */
  ghost predicate AlwaysGrows(syntax: Syntax, startThink: string, endThink: string) {
    forall p: string, q: string, isPartial: bool :: p <= q ==>
      Reasoning(p, true, syntax, startThink, endThink) <= Reasoning(q, isPartial, syntax, startThink, endThink)
  }

  /** Reasoning is never revised exactly when thinking is forced open or the tags do not overlap. */
  lemma {:induction false} GrowsExactly(syntax: Syntax, startThink: string, endThink: string)
    requires Extracts(syntax)
    ensures AlwaysGrows(syntax, startThink, endThink) <==> syntax.thinkingForcedOpen || !Overlap(startThink, endThink)
  {
    if syntax.thinkingForcedOpen || !Overlap(startThink, endThink) {
      forall p: string, q: string, isPartial: bool | p <= q
        ensures Reasoning(p, true, syntax, startThink, endThink) <= Reasoning(q, isPartial, syntax, startThink, endThink)
      {
        ReasoningGrows(p, q, isPartial, syntax, startThink, endThink);
      }
    } else {
      var m: nat, n: nat, l: nat :| OverlapAt(startThink, endThink, m, n, l);
      OverlapShrinks(startThink, endThink, syntax, m, n, l);
    }
  }

  /** Tags of which no tail of the first starts the second do not overlap. */
  lemma {:induction false} DisjointTags(startThink: string, endThink: string)
    requires forall m :: 1 <= m <= |startThink| ==> !(Last(startThink, m) <= endThink)
    ensures !Overlap(startThink, endThink)
  {
    forall m: nat, n: nat, l: nat ensures !OverlapAt(startThink, endThink, m, n, l) {
    }
  }

  /** Tags that overlap: the first ends with the character that begins and ends the second. */
  lemma {:induction false} OverlappingTags(syntax: Syntax)
    requires Extracts(syntax) && !syntax.thinkingForcedOpen
    ensures Overlap("a", "aba") && !AlwaysGrows(syntax, "a", "aba")
  {
    assert "aba"[1..1 + 2] == "ba" && Last("ba", 1) == "a" == "aba"[..1] && Last("a", 1) == "a";
    assert "ba"[..2 - 1] == "b";
    assert |Strip("b")| <= 1;
    assert Strip("ba") == "ba";
    assert OverlapAt("a", "aba", 1, 2, 1);
    GrowsExactly(syntax, "a", "aba");
  }
}
