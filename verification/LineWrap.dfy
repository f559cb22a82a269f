/** Breaking a text into lines of limited width, word by word. */
module LineWrap {
  import opened Strings
  import opened Sequences

  // ----- lines and words

  /** What repeated `getline` yields: an end of line ends a line, and the text after the last one is a line unless it is empty. */
  function Lines(text: string, from: nat): seq<string>
    requires from <= |text|
    decreases |text| - from
  {
    if from == |text| then []
    else
      var e := LineEnd(text, from);
      [text[from..e]] + Lines(text, if e < |text| then e + 1 else e)
  }

  function LineEnd(text: string, from: nat): (e: nat)
    requires from <= |text|
    ensures from <= e <= |text|
    ensures forall i :: from <= i < e ==> text[i] != '\n'
    ensures e < |text| ==> text[e] == '\n'
    decreases |text| - from
  {
    if from < |text| && text[from] != '\n' then LineEnd(text, from + 1) else from
  }

  function WordEnd(text: string, from: nat): (e: nat)
    requires from <= |text|
    ensures from <= e <= |text|
    ensures forall i :: from <= i < e ==> !IsSpace(text[i])
    ensures e < |text| ==> IsSpace(text[e])
    decreases |text| - from
  {
    if from < |text| && !IsSpace(text[from]) then WordEnd(text, from + 1) else from
  }

  /** What repeated `>>` yields. */
  function Words(text: string, from: nat): seq<string>
    requires from <= |text|
    decreases |text| - from
  {
    var s := SpacesEnd(text, from);
    if s == |text| then []
    else
      var e := WordEnd(text, s);
      [text[s..e]] + Words(text, e)
  }

  // ----- greedy breaking

  /** The words of one line, separated by blanks. */
  function Joined(ws: seq<string>): string {
    if ws == [] then "" else if |ws| == 1 then ws[0] else Joined(ws[..|ws| - 1]) + " " + ws[|ws| - 1]
  }

  /** A word goes on the last line if it fits there. */
  function Greedy(ws: seq<string>, width: nat): (r: seq<seq<string>>)
    ensures ws != [] ==> r != []
  {
    if ws == [] then []
    else
      var w := ws[|ws| - 1];
      var lines := Greedy(ws[..|ws| - 1], width);
      var n := |lines| - 1;
      if lines != [] && |Joined(lines[n])| + 1 + |w| <= width then lines[..n] + [lines[n] + [w]] else lines + [[w]]
  }

  function JoinedLines(lines: seq<seq<string>>): (r: seq<string>)
    ensures |r| == |lines|
  {
    seq(|lines|, i requires 0 <= i < |lines| => Joined(lines[i]))
  }

  /** A line that is too long is broken; another stays as it is. */
  function Broken(line: string, width: nat): seq<string> {
    if |line| <= width then [line] else JoinedLines(Greedy(Words(line, 0), width))
  }

  function BrokenLines(lines: seq<string>, width: nat): seq<string> {
    if lines == [] then [] else BrokenLines(lines[..|lines| - 1], width) + Broken(lines[|lines| - 1], width)
  }

  predicate IsWord(w: string) {
    w != "" && forall i :: 0 <= i < |w| ==> !IsSpace(w[i])
  }

  lemma {:induction false} JoinedSnoc(ws: seq<string>, w: string)
    ensures Joined(ws + [w]) == if ws == [] then w else Joined(ws) + " " + w
  {
    assert (ws + [w])[..|ws|] == ws;
  }

  // ----- the loops

  /** The finished lines are in the result; the last line of the words seen is the current one. */
  ghost predicate Pushed(width: nat, before: seq<string>, result: seq<string>, currentLine: string, seen: seq<string>) {
    var lines := Greedy(seen, width);
    && (forall i :: 0 <= i < |seen| ==> IsWord(seen[i]))
    && if seen == [] then result == before && currentLine == ""
       else
         && currentLine != "" && currentLine == Joined(lines[|lines| - 1])
         && result == before + JoinedLines(lines[..|lines| - 1])
  }

  lemma {:induction false} GreedySnoc(seen: seq<string>, w: string, width: nat)
    ensures var lines := Greedy(seen, width);
            var n := |lines| - 1;
            Greedy(seen + [w], width) ==
            if seen != [] && |Joined(lines[n])| + 1 + |w| <= width then lines[..n] + [lines[n] + [w]] else lines + [[w]]
  {
    assert (seen + [w])[..|seen|] == seen;
  }

  lemma {:induction false} JoinedLinesSnoc(lines: seq<seq<string>>, line: seq<string>)
    ensures JoinedLines(lines + [line]) == JoinedLines(lines) + [Joined(line)]
  {
  }

  lemma {:induction false} LastPushed(width: nat, before: seq<string>, result: seq<string>, currentLine: string, seen: seq<string>)
    requires Pushed(width, before, result, currentLine, seen)
    ensures currentLine == "" <==> seen == []
    ensures (if currentLine == "" then result else result + [currentLine]) == before + JoinedLines(Greedy(seen, width))
  {
    var lines := Greedy(seen, width);
    if seen != [] {
      var n := |lines| - 1;
      JoinedLinesSnoc(lines[..n], lines[n]);
      assert lines[..n] + [lines[n]] == lines;
    }
  }

  lemma {:induction false} StartsLine(width: nat, before: seq<string>, result: seq<string>, currentLine: string, seen: seq<string>, w: string)
    requires Pushed(width, before, result, currentLine, seen) && IsWord(w)
    requires seen == [] || |currentLine| + 1 + |w| > width
    ensures Pushed(width, before, if currentLine == "" then result else result + [currentLine], w, seen + [w])
  {
    GreedySnoc(seen, w, width);
    LastPushed(width, before, result, currentLine, seen);
    JoinedSnoc([], w);
    assert [] + [w] == [w];
  }

  lemma {:induction false} ExtendsLine(width: nat, before: seq<string>, result: seq<string>, currentLine: string, seen: seq<string>, w: string)
    requires Pushed(width, before, result, currentLine, seen) && IsWord(w)
    requires seen != [] && |currentLine| + 1 + |w| <= width
    ensures Pushed(width, before, result, currentLine + " " + w, seen + [w])
  {
    var lines := Greedy(seen, width);
    GreedySnoc(seen, w, width);
    JoinedSnoc(lines[|lines| - 1], w);
    LastLineHasWords(seen, width);
  }

  lemma {:induction false} LastLineHasWords(ws: seq<string>, width: nat)
    requires ws != []
    ensures Greedy(ws, width)[|Greedy(ws, width)| - 1] != []
  {
  }

  predicate Overflows(width: nat, currentLine: string, word: string) {
    |currentLine| + (if currentLine != "" then 1 else 0) + |word| > width
  }

  lemma {:induction false} WordPushed(width: nat, before: seq<string>, result: seq<string>, currentLine: string, seen: seq<string>, w: string)
    requires Pushed(width, before, result, currentLine, seen) && IsWord(w)
    ensures var now := seen + [w];
            if Overflows(width, currentLine, w) then
              Pushed(width, before, if currentLine != "" then result + [currentLine] else result, w, now)
            else Pushed(width, before, result, currentLine + ((if currentLine != "" then " " else "") + w), now)
  {
    if seen == [] || Overflows(width, currentLine, w) {
      StartsLine(width, before, result, currentLine, seen, w);
      assert "" + ("" + w) == w;
    } else {
      ExtendsLine(width, before, result, currentLine, seen, w);
      assert currentLine + (" " + w) == currentLine + " " + w;
    }
  }

  /** `add_line`. */
  method AddLine(line: string, width: nat, before: seq<string>) returns (result: seq<string>)
    ensures result == before + Broken(line, width)
  {
    result := before;
    if |line| <= width {
      result := result + [line];
      return;
    }
    var pos, currentLine := 0, "";
    ghost var seen: seq<string> := [];
    while true
      invariant 0 <= pos <= |line|
      invariant seen + Words(line, pos) == Words(line, 0)
      invariant Pushed(width, before, result, currentLine, seen)
      decreases |line| - pos
    {
      var s := SpacesEnd(line, pos);
      if s == |line| {
        break;
      }
      var e := WordEnd(line, s);
      var word := line[s..e];
      Associate(seen, [word], Words(line, e));
      WordPushed(width, before, result, currentLine, seen, word);
      if Overflows(width, currentLine, word) {
        if currentLine != "" {
          result := result + [currentLine];
        }
        currentLine := word;
      } else {
        currentLine := currentLine + ((if currentLine != "" then " " else "") + word);
      }
      pos := e;
      seen := seen + [word];
    }
    assert seen + [] == seen;
    LastPushed(width, before, result, currentLine, seen);
    if currentLine != "" {
      result := result + [currentLine];
    }
  }

  /** `break_str_into_lines`. */
  method BreakStrIntoLines(input: string, width: nat) returns (result: seq<string>)
    ensures result == BrokenLines(Lines(input, 0), width)
  {
    result := [];
    var pos := 0;
    ghost var seen: seq<string> := [];
    while pos < |input|
      invariant 0 <= pos <= |input|
      invariant seen + Lines(input, pos) == Lines(input, 0)
      invariant result == BrokenLines(seen, width)
    {
      var e := LineEnd(input, pos);
      var line := input[pos..e];
      BrokenLinesSnoc(seen, line, width);
      result := AddLine(line, width, result);
      pos := if e < |input| then e + 1 else e;
      Associate(seen, [line], Lines(input, pos));
      seen := seen + [line];
    }
    assert seen + [] == seen;
  }

  lemma {:induction false} BrokenLinesSnoc(lines: seq<string>, line: string, width: nat)
    ensures BrokenLines(lines + [line], width) == BrokenLines(lines, width) + Broken(line, width)
  {
    assert (lines + [line])[..|lines|] == lines;
  }
}
