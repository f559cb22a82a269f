/** What the broken text is to its reader. */
module LineWrapWords {
  import opened Strings
  import opened Sequences
  import opened LineWrap
  import opened LineWrapLaws

  function WordLists(lines: seq<string>): (r: seq<seq<string>>)
    ensures |r| == |lines| && forall i :: 0 <= i < |r| ==> r[i] == Words(lines[i], 0)
  {
    seq(|lines|, i requires 0 <= i < |lines| => Words(lines[i], 0))
  }

  /** The words of all lines. */
  function AllWords(lines: seq<string>): seq<string> {
    Flatten(WordLists(lines))
  }

  lemma {:induction false} AllWordsSnoc(lines: seq<string>, line: string)
    ensures AllWords(lines + [line]) == AllWords(lines) + Words(line, 0)
  {
    assert WordLists(lines + [line]) == WordLists(lines) + [Words(line, 0)];
    FlattenSnoc(WordLists(lines), Words(line, 0));
  }

  lemma {:induction false} AllWordsConcat(x: seq<string>, y: seq<string>)
    ensures AllWords(x + y) == AllWords(x) + AllWords(y)
  {
    assert WordLists(x + y) == WordLists(x) + WordLists(y);
    FlattenConcat(WordLists(x), WordLists(y));
  }

  lemma {:induction false} AllWordsCons(line: string, lines: seq<string>)
    ensures AllWords([line] + lines) == Words(line, 0) + AllWords(lines)
  {
    AllWordsConcat([line], lines);
    assert WordLists([line]) == [Words(line, 0)];
    FlattenOne(Words(line, 0));
  }

  // ----- words of a part of the text

  /** From `d` on, `t` reads as `y`. */
  predicate ReadsAs(t: string, d: nat, y: string) {
    d <= |t| && t[d..] == y
  }

  lemma {:induction false} CharAt(t: string, d: nat, y: string, k: nat)
    requires ReadsAs(t, d, y) && k <= |y|
    ensures |t| == d + |y| && (k < |y| ==> t[d + k] == y[k])
  {
  }

  lemma {:induction false} SpacesShift(t: string, d: nat, y: string, k: nat)
    requires ReadsAs(t, d, y) && k <= |y|
    ensures d + k <= |t| && SpacesEnd(t, d + k) == d + SpacesEnd(y, k)
    decreases |y| - k
  {
    CharAt(t, d, y, k);
    if k < |y| && IsSpace(y[k]) {
      SpacesShift(t, d, y, k + 1);
    }
  }

  lemma {:induction false} WordShift(t: string, d: nat, y: string, k: nat)
    requires ReadsAs(t, d, y) && k <= |y|
    ensures d + k <= |t| && WordEnd(t, d + k) == d + WordEnd(y, k)
    decreases |y| - k
  {
    CharAt(t, d, y, k);
    if k < |y| && !IsSpace(y[k]) {
      WordShift(t, d, y, k + 1);
    }
  }

  lemma {:induction false} SliceShift(t: string, d: nat, y: string, s: nat, e: nat)
    requires ReadsAs(t, d, y) && s <= e <= |y|
    ensures d + e <= |t| && t[d + s..d + e] == y[s..e]
  {
    assert t[d..][s..e] == t[d + s..d + e];
  }

  lemma {:induction false} FirstWord(text: string, from: nat, s: nat, e: nat)
    requires from <= |text| && s == SpacesEnd(text, from) < |text| && e == WordEnd(text, s)
    ensures Words(text, from) == [text[s..e]] + Words(text, e)
  {
  }

  lemma {:induction false} SameFirstWord(t: string, d: nat, y: string, k: nat, s: nat, e: nat)
    requires k <= |y| && |t| == d + |y| && SpacesEnd(y, k) == s < |y| && WordEnd(y, s) == e
    requires SpacesEnd(t, d + k) == d + s && WordEnd(t, d + s) == d + e
    requires t[d + s..d + e] == y[s..e] && Words(t, d + e) == Words(y, e)
    ensures Words(t, d + k) == Words(y, k)
  {
    FirstWord(y, k, s, e);
    FirstWord(t, d + k, d + s, d + e);
  }

  lemma {:induction false} WordsShift(t: string, d: nat, y: string, k: nat)
    requires ReadsAs(t, d, y) && k <= |y|
    ensures d + k <= |t| && Words(t, d + k) == Words(y, k)
    decreases |y| - k
  {
    CharAt(t, d, y, k);
    SpacesShift(t, d, y, k);
    var s := SpacesEnd(y, k);
    if s < |y| {
      var e := WordEnd(y, s);
      WordShift(t, d, y, s);
      WordsShift(t, d, y, e);
      SliceShift(t, d, y, s, e);
      SameFirstWord(t, d, y, k, s, e);
    }
  }

  lemma {:induction false} SkipSpaces(text: string, from: nat, to: nat)
    requires from <= to <= |text| && forall i :: from <= i < to ==> IsSpace(text[i])
    ensures SpacesEnd(text, from) == SpacesEnd(text, to)
    decreases |text| - from
  {
    if from < to {
      SkipSpaces(text, from + 1, to);
    }
  }

  /** White space and word ends do not look past a white space character. */
  lemma {:induction false} SpacesUpTo(x: string, t: string, from: nat)
    requires x <= t && from <= |x|
    ensures SpacesEnd(x, from) < |x| ==> SpacesEnd(t, from) == SpacesEnd(x, from)
    decreases |x| - from
  {
    if from < |x| && IsSpace(x[from]) {
      SpacesUpTo(x, t, from + 1);
    }
  }

  lemma {:induction false} WordUpTo(x: string, t: string, from: nat)
    requires x < t && from <= |x| && IsSpace(t[|x|])
    ensures WordEnd(t, from) == WordEnd(x, from)
    decreases |x| - from
  {
    if from < |x| && !IsSpace(x[from]) {
      WordUpTo(x, t, from + 1);
    }
  }

  lemma {:induction false} SliceUpTo(x: string, t: string, s: nat, e: nat)
    requires x <= t && s <= e <= |x|
    ensures t[s..e] == x[s..e]
  {
  }

  lemma {:induction false} WordsAfterSpaces(x: string, c: char, y: string, from: nat)
    requires IsSpace(c) && from <= |x| && SpacesEnd(x, from) == |x|
    ensures Words(x + [c] + y, from) == Words(y, 0)
  {
    SkipSpaces(x + [c] + y, from, |x| + 1);
    assert Words(x + [c] + y, from) == Words(x + [c] + y, |x| + 1);
    assert (x + [c] + y)[|x| + 1..] == y;
    WordsShift(x + [c] + y, |x| + 1, y, 0);
  }

  /** Two texts with a white space character between them. */
  lemma {:induction false} WordsApart(x: string, c: char, y: string, from: nat)
    requires IsSpace(c) && from <= |x|
    ensures Words(x + [c] + y, from) == Words(x, from) + Words(y, 0)
    decreases |x| - from
  {
    var t, s := x + [c] + y, SpacesEnd(x, from);
    if s < |x| {
      SpacesUpTo(x, t, from);
      WordUpTo(x, t, s);
      var e := WordEnd(x, s);
      WordsApart(x, c, y, e);
      SliceUpTo(x, t, s, e);
      Associate([x[s..e]], Words(x, e), Words(y, 0));
    } else {
      WordsAfterSpaces(x, c, y, from);
    }
  }

  lemma {:induction false} WordsAreWords(text: string, from: nat)
    requires from <= |text|
    ensures forall i :: 0 <= i < |Words(text, from)| ==> IsWord(Words(text, from)[i])
    decreases |text| - from
  {
    var s := SpacesEnd(text, from);
    if s < |text| {
      WordsAreWords(text, WordEnd(text, s));
    }
  }

  lemma {:induction false} WordEndOfWord(w: string, from: nat)
    requires from <= |w| && forall i :: 0 <= i < |w| ==> !IsSpace(w[i])
    ensures WordEnd(w, from) == |w|
    decreases |w| - from
  {
    if from < |w| {
      WordEndOfWord(w, from + 1);
    }
  }

  lemma {:induction false} WordsOfWord(w: string)
    requires IsWord(w)
    ensures Words(w, 0) == [w]
  {
    assert SpacesEnd(w, 0) == 0;
    WordEndOfWord(w, 0);
    assert Words(w, |w|) == [];
    assert w[0..|w|] == w;
  }

  // ----- nothing is lost

  /** Joining words and splitting them again. */
  lemma {:induction false} WordsOfJoined(ws: seq<string>)
    requires forall i :: 0 <= i < |ws| ==> IsWord(ws[i])
    ensures Words(Joined(ws), 0) == ws
  {
    if |ws| == 1 {
      WordsOfWord(ws[0]);
    } else if |ws| > 1 {
      var n := |ws| - 1;
      WordsOfJoined(ws[..n]);
      WordsApart(Joined(ws[..n]), ' ', ws[n], 0);
      WordsOfWord(ws[n]);
      SplitLast(ws);
    }
  }

  lemma {:induction false} WordsOfLines(lines: seq<seq<string>>)
    requires forall i :: 0 <= i < |Flatten(lines)| ==> IsWord(Flatten(lines)[i])
    ensures AllWords(JoinedLines(lines)) == Flatten(lines)
  {
    if lines != [] {
      var n := |lines| - 1;
      var front := Flatten(lines[..n]);
      assert forall i :: 0 <= i < |front| ==> front[i] == Flatten(lines)[i];
      assert forall i :: 0 <= i < |lines[n]| ==> lines[n][i] == Flatten(lines)[|front| + i];
      WordsOfLines(lines[..n]);
      WordsOfJoined(lines[n]);
      SplitLast(lines);
      JoinedLinesSnoc(lines[..n], lines[n]);
      AllWordsSnoc(JoinedLines(lines[..n]), Joined(lines[n]));
    }
  }

  lemma {:induction false} BrokenKeepsWords(line: string, width: nat)
    ensures AllWords(Broken(line, width)) == Words(line, 0)
  {
    if |line| <= width {
      AllWordsCons(line, []);
    } else {
      GreedyIsBreaking(Words(line, 0), width);
      WordsAreWords(line, 0);
      WordsOfLines(Greedy(Words(line, 0), width));
    }
  }

  lemma {:induction false} BrokenLinesKeepWords(lines: seq<string>, width: nat)
    ensures AllWords(BrokenLines(lines, width)) == AllWords(lines)
  {
    if lines != [] {
      var n := |lines| - 1;
      BrokenLinesKeepWords(lines[..n], width);
      BrokenKeepsWords(lines[n], width);
      SplitLast(lines);
      AllWordsSnoc(lines[..n], lines[n]);
      AllWordsConcat(BrokenLines(lines[..n], width), Broken(lines[n], width));
    }
  }

  lemma {:induction false} LinesFirst(text: string, from: nat)
    requires from < |text|
    ensures var e := LineEnd(text, from); Lines(text, from) == [text[from..e]] + Lines(text, if e < |text| then e + 1 else e)
  {
  }

  lemma {:induction false} LinesKeepWords(text: string, from: nat)
    requires from <= |text|
    ensures AllWords(Lines(text, from)) == Words(text, from)
    decreases |text| - from
  {
    if from < |text| {
      var e := LineEnd(text, from);
      var next := if e < |text| then e + 1 else e;
      LinesKeepWords(text, next);
      LinesFirst(text, from);
      FirstLine(text, from, e);
      FirstKeepsWords(text, from, text[from..e], next, Lines(text, next));
    }
  }

  lemma {:induction false} FirstKeepsWords(text: string, from: nat, line: string, next: nat, rest: seq<string>)
    requires from <= |text| && next <= |text| && AllWords(rest) == Words(text, next)
    requires Words(text, from) == Words(line, 0) + Words(text, next)
    ensures AllWords([line] + rest) == Words(text, from)
  {
    AllWordsCons(line, rest);
  }

  lemma {:induction false} WordsOfTail(text: string, from: nat)
    requires from <= |text|
    ensures Words(text, from) == Words(text[from..], 0)
  {
    WordsShift(text, from, text[from..], 0);
  }

  lemma {:induction false} FirstOfMore(text: string, from: nat, e: nat)
    requires from <= e < |text| && IsSpace(text[e])
    ensures Words(text, from) == Words(text[from..e], 0) + Words(text, e + 1)
  {
    var x, y := text[from..e], text[e + 1..];
    WordsOfTail(text, from);
    WordsOfTail(text, e + 1);
    TailSplit(text, from, e);
    WordsApart(x, text[e], y, 0);
  }

  lemma {:induction false} FirstLine(text: string, from: nat, e: nat)
    requires from <= e <= |text| && (e < |text| ==> text[e] == '\n')
    ensures Words(text, from) == Words(text[from..e], 0) + Words(text, if e < |text| then e + 1 else e)
  {
    if e < |text| {
      FirstOfMore(text, from, e);
    } else {
      WordsOfTail(text, from);
      assert text[from..e] == text[from..];
    }
  }

  lemma {:induction false} TailSplit(text: string, from: nat, e: nat)
    requires from <= e < |text|
    ensures text[from..] == text[from..e] + [text[e]] + text[e + 1..]
  {
  }

  /** Breaking a text into lines keeps its words, in their order. */
  lemma {:induction false} WordsAreKept(text: string, width: nat)
    ensures AllWords(BrokenLines(Lines(text, 0), width)) == Words(text, 0)
  {
    LinesKeepWords(text, 0);
    BrokenLinesKeepWords(Lines(text, 0), width);
  }

  // ----- every line fits

  /** A line fits, or cannot be broken. */
  predicate LineFits(line: string, width: nat) {
    |line| <= width || IsWord(line)
  }

  lemma {:induction false} AllowedFits(ws: seq<string>, width: nat)
    requires Allowed(ws, width) && forall i :: 0 <= i < |ws| ==> IsWord(ws[i])
    ensures LineFits(Joined(ws), width)
  {
    assert IsWord(ws[0]);
  }

  lemma {:induction false} BrokenFits(line: string, width: nat, i: nat)
    requires i < |Broken(line, width)|
    ensures LineFits(Broken(line, width)[i], width)
  {
    if |line| > width {
      var ws := Words(line, 0);
      var lines := Greedy(ws, width);
      GreedyIsBreaking(ws, width);
      WordsAreWords(line, 0);
      LineOfWords(lines, i);
      AllowedFits(lines[i], width);
    }
  }

  lemma {:induction false} LineOfWords(lines: seq<seq<string>>, i: nat)
    requires i < |lines| && forall k :: 0 <= k < |Flatten(lines)| ==> IsWord(Flatten(lines)[k])
    ensures forall k :: 0 <= k < |lines[i]| ==> IsWord(lines[i][k])
  {
    var n := |lines| - 1;
    var front := Flatten(lines[..n]);
    if i < n {
      assert forall k :: 0 <= k < |front| ==> front[k] == Flatten(lines)[k];
      LineOfWords(lines[..n], i);
    } else {
      assert forall k :: 0 <= k < |lines[n]| ==> lines[n][k] == Flatten(lines)[|front| + k];
    }
  }

  lemma {:induction false} EveryLineFits(lines: seq<string>, width: nat, i: nat)
    requires i < |BrokenLines(lines, width)|
    ensures LineFits(BrokenLines(lines, width)[i], width)
  {
    var n := |lines| - 1;
    var before := |BrokenLines(lines[..n], width)|;
    if i < before {
      EveryLineFits(lines[..n], width, i);
    } else {
      BrokenFits(lines[n], width, i - before);
    }
  }

  /** A line that is too long becomes the fewest lines into which its words can be broken. */
  lemma {:induction false} FewestLines(line: string, width: nat, lines: seq<seq<string>>)
    requires |line| > width && IsBreaking(lines, Words(line, 0), width)
    ensures |Broken(line, width)| <= |lines|
  {
    GreedyIsOptimal(Words(line, 0), lines, width);
  }
}
