/** Greedy breaking uses as few lines as any breaking, and keeps the words. */
module LineWrapLaws {
  import opened Sequences
  import opened LineWrap

  // ----- all breakings

  /** A line holds at least one word, and fits the width unless it holds only one. */
  predicate Allowed(line: seq<string>, width: nat) {
    line != [] && (|line| == 1 || |Joined(line)| <= width)
  }

  /** The words in order, cut into allowed lines. */
  predicate IsBreaking(lines: seq<seq<string>>, ws: seq<string>, width: nat) {
    Flatten(lines) == ws && forall i :: 0 <= i < |lines| ==> Allowed(lines[i], width)
  }

  lemma {:induction false} GreedyIsBreaking(ws: seq<string>, width: nat)
    ensures IsBreaking(Greedy(ws, width), ws, width)
  {
    if ws != [] {
      var init, w := ws[..|ws| - 1], ws[|ws| - 1];
      GreedyIsBreaking(init, width);
      GreedySnoc(init, w, width);
      SplitLast(ws);
      if init == [] {
        FlattenSnoc([], [w]);
      } else {
        StillBreaking(Greedy(init, width), init, w, width);
      }
    }
  }

  lemma {:induction false} StillBreaking(lines: seq<seq<string>>, ws: seq<string>, w: string, width: nat)
    requires IsBreaking(lines, ws, width) && ws != []
    ensures var n := |lines| - 1;
            && n >= 0
            && IsBreaking(lines + [[w]], ws + [w], width)
            && (|Joined(lines[n])| + 1 + |w| <= width ==> IsBreaking(lines[..n] + [lines[n] + [w]], ws + [w], width))
  {
    LastLine(lines, ws, width);
    JoinedSnoc(lines[|lines| - 1], w);
    ExtendLast(lines, w);
  }

  lemma {:induction false} LastLine(lines: seq<seq<string>>, ws: seq<string>, width: nat)
    requires IsBreaking(lines, ws, width) && ws != []
    ensures lines != [] && Allowed(lines[|lines| - 1], width)
  {
  }

  lemma {:induction false} ExtendLast(lines: seq<seq<string>>, w: string)
    requires lines != []
    ensures Flatten(lines[..|lines| - 1] + [lines[|lines| - 1] + [w]]) == Flatten(lines) + [w]
    ensures Flatten(lines + [[w]]) == Flatten(lines) + [w]
  {
    var n := |lines| - 1;
    FlattenSnoc(lines[..n], lines[n] + [w]);
    FlattenSnoc(lines, [w]);
    Associate(Flatten(lines[..n]), lines[n], [w]);
  }

  // ----- the greedy breaking stays ahead

  /** A breaking without its last word. */
  function Without(lines: seq<seq<string>>): seq<seq<string>>
    requires lines != [] && lines[|lines| - 1] != []
  {
    var n := |lines| - 1;
    var last := lines[n];
    if |last| == 1 then lines[..n] else lines[..n] + [last[..|last| - 1]]
  }

  lemma {:induction false} JoinedShorter(line: seq<string>)
    requires |line| >= 2
    ensures |Joined(line[..|line| - 1])| < |Joined(line)|
  {
  }

  lemma {:induction false} WithoutIsBreaking(lines: seq<seq<string>>, ws: seq<string>, w: string, width: nat)
    requires IsBreaking(lines, ws + [w], width)
    ensures lines != [] && lines[|lines| - 1] != [] && IsBreaking(Without(lines), ws, width)
    ensures lines[|lines| - 1][|lines[|lines| - 1]| - 1] == w
  {
    var n := |lines| - 1;
    var last := lines[n];
    assert Allowed(lines[n], width);
    SplitLast(last);
    Associate(Flatten(lines[..n]), last[..|last| - 1], [last[|last| - 1]]);
    var front := Flatten(lines[..n]) + last[..|last| - 1];
    assert ws + [w] == front + [last[|last| - 1]];
    assert ws == (ws + [w])[..|ws|] == front;
    if |last| > 1 {
      JoinedShorter(last);
      FlattenSnoc(lines[..n], last[..|last| - 1]);
    } else {
      assert last[..0] == [] && front == Flatten(lines[..n]);
    }
  }

  /** The last lines of two breakings of the same words are tails of the same words. */
  lemma {:induction false} TailsOfWords(x: seq<seq<string>>, y: seq<seq<string>>)
    requires x != [] && y != [] && Flatten(x) == Flatten(y)
    requires |x[|x| - 1]| <= |y[|y| - 1]|
    ensures var s, t := x[|x| - 1], y[|y| - 1]; t[|t| - |s|..] == s
  {
    var s, t, ws := x[|x| - 1], y[|y| - 1], Flatten(x);
    assert ws[|ws| - |s|..] == s;
    assert ws[|ws| - |t|..] == t;
    assert t[|t| - |s|..] == ws[|ws| - |s|..];
  }

  lemma {:induction false} JoinedTail(line: seq<string>, k: nat)
    requires k < |line|
    ensures |Joined(line[k..])| <= |Joined(line)|
    decreases line
  {
    var n := |line| - 1;
    if k < n {
      JoinedTail(line[..n], k);
      assert line[k..][..n - k] == line[..n][k..];
    } else if n > 0 {
      assert line[k..] == [line[n]];
    }
  }

  /** If the new word did not fit on the greedy last line, it does not fit on a longer last line of another breaking. */
  lemma {:induction false} WordDoesNotFit(x: seq<seq<string>>, y: seq<seq<string>>, w: string, width: nat)
    requires x != [] && y != [] && Flatten(x) == Flatten(y)
    requires x[|x| - 1] != [] && |x[|x| - 1]| <= |y[|y| - 1]|
    requires |Joined(x[|x| - 1])| + 1 + |w| > width
    ensures |Joined(y[|y| - 1] + [w])| > width
  {
    var s, t := x[|x| - 1], y[|y| - 1];
    TailsOfWords(x, y);
    JoinedTail(t, |t| - |s|);
    JoinedSnoc(t, w);
  }

  /** No breaking has fewer lines; one with as many has no fewer words on its last line. */
  predicate Ahead(x: seq<seq<string>>, y: seq<seq<string>>) {
    && |x| <= |y|
    && (|x| == |y| > 0 ==> |x[|x| - 1]| <= |y[|y| - 1]|)
  }

  lemma {:induction false} GreedyIsAhead(ws: seq<string>, lines: seq<seq<string>>, width: nat)
    requires IsBreaking(lines, ws, width)
    ensures Ahead(Greedy(ws, width), lines)
    decreases ws
  {
    if ws != [] {
      var init, w := ws[..|ws| - 1], ws[|ws| - 1];
      SplitLast(ws);
      WithoutIsBreaking(lines, init, w, width);
      GreedyIsAhead(init, Without(lines), width);
      GreedyIsBreaking(init, width);
      GreedySnoc(init, w, width);
      StepAhead(init, w, lines, width);
    }
  }

  lemma {:induction false} StepAhead(init: seq<string>, w: string, lines: seq<seq<string>>, width: nat)
    requires IsBreaking(lines, init + [w], width) && lines != [] && lines[|lines| - 1] != []
    requires lines[|lines| - 1][|lines[|lines| - 1]| - 1] == w
    requires IsBreaking(Without(lines), init, width) && IsBreaking(Greedy(init, width), init, width)
    requires Ahead(Greedy(init, width), Without(lines))
    ensures Ahead(Greedy(init + [w], width), lines)
  {
    var x, y, last := Greedy(init, width), Without(lines), lines[|lines| - 1];
    assert Allowed(last, width);
    GreedySnoc(init, w, width);
    if init == [] {
      assert x == [];
    } else {
      LastLine(x, init, width);
      if |Joined(x[|x| - 1])| + 1 + |w| > width && |last| > 1 && |x| == |y| {
        SplitLast(last);
        WordDoesNotFit(x, y, w, width);
      }
    }
  }

  /** Greedy breaking is a breaking with the fewest lines. */
  lemma {:induction false} GreedyIsOptimal(ws: seq<string>, lines: seq<seq<string>>, width: nat)
    requires IsBreaking(lines, ws, width)
    ensures IsBreaking(Greedy(ws, width), ws, width) && |Greedy(ws, width)| <= |lines|
  {
    GreedyIsBreaking(ws, width);
    GreedyIsAhead(ws, lines, width);
  }
}
