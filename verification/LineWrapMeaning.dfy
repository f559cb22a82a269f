/** What the broken text is, line by line. */
module LineWrapMeaning {
  import opened Sequences
  import opened LineWrap
  import opened LineWrapLaws
  import opened LineWrapWords

  // ----- the lines of the text

  /** Each line with its end. */
  function Ended(lines: seq<string>): string {
    if |lines| == 0 then "" else lines[0] + "\n" + Ended(lines[1..])
  }

  /** The lines of a text hold no end of line; ended, they are the text, with an end of line added if the last line lacks one. */
  predicate AreLines(lines: seq<string>, text: string) {
    && (forall i :: 0 <= i < |lines| ==> '\n' !in lines[i])
    && Ended(lines) == if text == "" || text[|text| - 1] == '\n' then text else text + "\n"
  }

  lemma {:induction false} FirstLineOf(line: string, rest: string, lines: seq<string>)
    requires '\n' !in line && AreLines(lines, rest)
    ensures AreLines([line] + lines, line + "\n" + rest)
  {
    var text := line + "\n" + rest;
    assert ([line] + lines)[1..] == lines;
    assert text[|text| - 1] == if rest == "" then '\n' else rest[|rest| - 1];
    Associate(line + "\n", rest, "\n");
  }

  lemma {:induction false} OnlyLineOf(line: string)
    requires '\n' !in line && line != ""
    ensures AreLines([line], line)
  {
    assert [line][1..] == [];
    assert line[|line| - 1] in line;
    assert Ended([line]) == line + "\n" + "" == line + "\n";
  }

  lemma {:induction false} MoreLines(text: string, from: nat, e: nat, rest: seq<string>)
    requires from <= e < |text| && text[e] == '\n' && '\n' !in text[from..e] && AreLines(rest, text[e + 1..])
    ensures AreLines([text[from..e]] + rest, text[from..])
  {
    FirstLineOf(text[from..e], text[e + 1..], rest);
    TailSplit(text, from, e);
  }

  lemma {:induction false} LastLineOf(text: string, from: nat, e: nat, rest: seq<string>)
    requires from < e == |text| && '\n' !in text[from..e] && |rest| == 0
    ensures AreLines([text[from..e]] + rest, text[from..])
  {
    assert text[from..e] == text[from..];
    OnlyLineOf(text[from..]);
    assert [text[from..e]] + rest == [text[from..]];
  }

  lemma {:induction false} NoEndInside(text: string, from: nat, e: nat)
    requires from <= e <= |text| && forall i :: from <= i < e ==> text[i] != '\n'
    ensures '\n' !in text[from..e]
  {
  }

  lemma {:induction false} LinesMean(text: string, from: nat)
    requires from <= |text|
    ensures AreLines(Lines(text, from), text[from..])
    decreases |text| - from
  {
    if from < |text| {
      var e := LineEnd(text, from);
      var next := if e < |text| then e + 1 else e;
      LinesFirst(text, from);
      NoEndInside(text, from, e);
      LinesMean(text, next);
      if e < |text| {
        MoreLines(text, from, e, Lines(text, next));
      } else {
        LastLineOf(text, from, e, Lines(text, next));
      }
    }
  }

  // ----- the words of a line

  /** Words are joined by one blank. */
  lemma {:induction false} JoinedByBlanks(w: string, ws: seq<string>)
    ensures Joined([]) == "" && Joined([w]) == w
    ensures ws != [] ==> Joined([w] + ws) == w + " " + Joined(ws)
    decreases |ws|
  {
    if |ws| > 1 {
      var n := |ws| - 1;
      JoinedByBlanks(w, ws[..n]);
      assert ([w] + ws)[..n + 1] == [w] + ws[..n];
      Regrouped(w, Joined(ws[..n]), ws[n]);
    } else if |ws| == 1 {
      assert ([w] + ws)[..1] == [w];
    }
  }

  lemma {:induction false} Regrouped(x: string, y: string, z: string)
    ensures x + " " + y + " " + z == x + " " + (y + " " + z)
  {
  }

  /** No word would have fitted on the line before. */
  predicate Full(lines: seq<seq<string>>, width: nat) {
    && (forall i :: 0 <= i < |lines| ==> lines[i] != [])
    && forall i :: 0 <= i < |lines| - 1 ==> |Joined(lines[i])| + 1 + |lines[i + 1][0]| > width
  }

  lemma {:induction false} FullWithLine(lines: seq<seq<string>>, w: string, width: nat)
    requires Full(lines, width) && (lines != [] ==> |Joined(lines[|lines| - 1])| + 1 + |w| > width)
    ensures Full(lines + [[w]], width)
  {
  }

  lemma {:induction false} FullWithWord(lines: seq<seq<string>>, last: seq<string>, w: string, width: nat)
    requires Full(lines + [last], width)
    ensures Full(lines + [last + [w]], width)
  {
    var n, x, y := |lines|, lines + [last], lines + [last + [w]];
    assert last == x[n] != [];
    assert forall i :: 0 <= i < n ==> y[i] == x[i] != [];
    forall i | 0 <= i < n ensures |Joined(y[i])| + 1 + |y[i + 1][0]| > width {
      assert y[i + 1][0] == x[i + 1][0];
    }
  }

  lemma {:induction false} GreedyIsFull(ws: seq<string>, width: nat)
    ensures Full(Greedy(ws, width), width)
    decreases |ws|
  {
    if |ws| > 0 {
      var init, w := ws[..|ws| - 1], ws[|ws| - 1];
      GreedyIsFull(init, width);
      GreedySnoc(init, w, width);
      SplitLast(ws);
      StillFull(Greedy(init, width), Greedy(ws, width), init, w, width);
    }
  }

  lemma {:induction false} StillFull(lines: seq<seq<string>>, now: seq<seq<string>>, init: seq<string>, w: string, width: nat)
    requires Full(lines, width) && (init == [] ==> lines == []) && (init != [] ==> lines != [])
    requires var n := |lines| - 1;
             now == if init != [] && |Joined(lines[n])| + 1 + |w| <= width then lines[..n] + [lines[n] + [w]] else lines + [[w]]
    ensures Full(now, width)
  {
    var n := |lines| - 1;
    if init != [] && |Joined(lines[n])| + 1 + |w| <= width {
      SplitLast(lines);
      FullWithWord(lines[..n], lines[n], w, width);
    } else {
      FullWithLine(lines, w, width);
    }
  }

  /** `part` is what becomes of `line`: the line if it is short; else its words on lines that fit or have one word, joined by
      blanks, each line taking all that fits. */
  ghost predicate IsBroken(part: seq<string>, line: string, width: nat) {
    if |line| <= width then part == [line]
    else exists lines :: IsBreaking(lines, Words(line, 0), width) && Full(lines, width) && part == JoinedLines(lines)
  }

  lemma {:induction false} BrokenMeans(line: string, width: nat)
    ensures IsBroken(Broken(line, width), line, width)
  {
    if |line| > width {
      var ws := Words(line, 0);
      GreedyIsBreaking(ws, width);
      GreedyIsFull(ws, width);
    }
  }

  ghost predicate AllBroken(parts: seq<seq<string>>, lines: seq<string>, width: nat) {
    |parts| == |lines| && forall i :: 0 <= i < |lines| ==> IsBroken(parts[i], lines[i], width)
  }

  lemma {:induction false} OneMoreBroken(parts: seq<seq<string>>, last: seq<string>, lines: seq<string>, width: nat)
    requires |lines| > 0 && AllBroken(parts, lines[..|lines| - 1], width) && IsBroken(last, lines[|lines| - 1], width)
    ensures AllBroken(parts + [last], lines, width)
  {
    var n := |lines| - 1;
    forall i | 0 <= i < n ensures IsBroken((parts + [last])[i], lines[i], width) {
      assert IsBroken(parts[i], lines[..n][i], width);
    }
  }

  lemma {:induction false} PartsOf(lines: seq<string>, width: nat) returns (parts: seq<seq<string>>)
    ensures AllBroken(parts, lines, width) && BrokenLines(lines, width) == Flatten(parts)
    decreases |lines|
  {
    if |lines| == 0 {
      parts := [];
    } else {
      var n := |lines| - 1;
      var before := PartsOf(lines[..n], width);
      var last := Broken(lines[n], width);
      BrokenMeans(lines[n], width);
      FlattenSnoc(before, last);
      parts := before + [last];
      OneMoreBroken(before, last, lines, width);
    }
  }

  /** The output: for each line of the text, in order, what becomes of it. */
  lemma {:induction false} OutputMeans(text: string, width: nat) returns (lines: seq<string>, parts: seq<seq<string>>)
    ensures AreLines(lines, text) && AllBroken(parts, lines, width)
    ensures BrokenLines(Lines(text, 0), width) == Flatten(parts)
  {
    LinesMean(text, 0);
    lines := Lines(text, 0);
    parts := PartsOf(lines, width);
    assert text[0..] == text;
  }
}
