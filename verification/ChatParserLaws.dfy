/** What an attempt to parse reasoning leaves behind: the cursor, and what it adds to the message. */
module ChatParserLaws {
  import opened Results
  import opened Strings
  import opened ChatParser

  /** The first place of the literal at `from` or later. */
  predicate FirstFrom(input: string, literal: string, from: nat, k: nat) {
    from <= k && IsAt(input, literal, k) && forall i :: from <= i < k ==> !IsAt(input, literal, i)
  }

  ghost predicate NowhereFrom(input: string, literal: string, from: nat) {
    forall i: nat :: i >= from ==> !IsAt(input, literal, i)
  }

  /** The longest end of the input that is a beginning of the literal starts at `k`. */
  predicate EndsIn(input: string, literal: string, k: nat) {
    k < |input| && input[k..] <= literal && forall i :: 0 <= i < k ==> !(input[i..] <= literal)
  }

  lemma {:induction false} FindsFirst(input: string, literal: string, from: nat)
    ensures forall k: nat :: FirstFrom(input, literal, from, k) ==> Find(input, literal, from) == Some(k)
    ensures NowhereFrom(input, literal, from) ==> Find(input, literal, from).None?
  {
    forall k: nat | FirstFrom(input, literal, from, k) ensures Find(input, literal, from) == Some(k) {
      var r := Find(input, literal, from);
      assert r.Some? && !(r.value < k) && !(k < r.value);
    }
  }

  lemma {:induction false} FindsEnding(input: string, literal: string)
    ensures forall k: nat :: EndsIn(input, literal, k) ==> PartialStop(input, literal) == Some(k)
  {
    forall k: nat | EndsIn(input, literal, k) ensures PartialStop(input, literal) == Some(k) {
      var r := PartialStop(input, literal);
      assert r.Some? && !(r.value < k) && !(k < r.value);
    }
  }

  // ----- literals

  /** Where the literal occurs, the text before its first occurrence is taken, and the cursor goes behind it. */
  lemma {:induction false} LiteralFound(input: string, isPartial: bool, pos: nat, literal: string, k: nat)
    requires pos <= |input| && FirstFrom(input, literal, pos, k)
    ensures FoundLiteral(input, isPartial, pos, literal) == Some(Found(input[pos..k], k, k + |literal|))
  {
    FindsFirst(input, literal, pos);
  }

  /** Where it does not, partial input may end in a beginning of it; the longest is taken, if it does not start before the cursor. */
  lemma {:induction false} LiteralBegun(input: string, pos: nat, literal: string, k: nat)
    requires pos <= k && NowhereFrom(input, literal, pos) && EndsIn(input, literal, k)
    ensures FoundLiteral(input, true, pos, literal) == Some(Found(input[pos..k], k, |input|))
  {
    FindsFirst(input, literal, pos);
    FindsEnding(input, literal);
  }

  /** The longest ending, if there is one, starts before the cursor. */
  ghost predicate EndsBefore(input: string, literal: string, pos: nat) {
    forall k: nat :: EndsIn(input, literal, k) ==> k < pos
  }

  lemma {:induction false} LiteralMissing(input: string, isPartial: bool, pos: nat, literal: string)
    requires pos <= |input| && NowhereFrom(input, literal, pos) && (isPartial ==> EndsBefore(input, literal, pos))
    ensures FoundLiteral(input, isPartial, pos, literal).None?
  {
    FindsFirst(input, literal, pos);
    var r := PartialStop(input, literal);
    if r.Some? {
      assert EndsIn(input, literal, r.value);
    }
  }

  // ----- reasoning

  /** There is something to parse: a format, and thinking forced open or a start tag at the cursor, after which the thought begins. */
  predicate Begins(input: string, syntax: Syntax, pos: nat, startThink: string, from: nat) {
    && syntax.reasoningFormat != NoReasoning && pos <= from <= |input|
    && if syntax.thinkingForcedOpen then from == pos else IsAt(input, startThink, pos) && from == pos + |startThink|
  }

  /** What a thought adds: nothing if it is blank; otherwise its text, without white space at its ends, as reasoning, or between tags in
      the content, where the format of Deepseek has tags of its own and the closing one is for closed thoughts. */
  predicate Adds(a: Attempt, syntax: Syntax, startThink: string, endThink: string, thought: string, closed: bool) {
    var text := Strip(thought);
    var open := if syntax.reasoningFormat == Deepseek then "<think>" else startThink;
    var close := if syntax.reasoningFormat == Deepseek then "</think>" else endThink;
    if |text| == 0 then a.content == "" && a.reasoning == ""
    else if !syntax.reasoningInContent then a.content == "" && a.reasoning == text
    else a.reasoning == "" && a.content == if closed then open + text + close else open + text
  }

  /** The first place at `from` or later that holds no white space. */
  predicate AfterSpaces(input: string, from: nat, e: nat) {
    && from <= e <= |input| && (forall i :: from <= i < e ==> IsSpace(input[i]))
    && (e < |input| ==> !IsSpace(input[e]))
  }

  lemma {:induction false} NothingParsed(input: string, isPartial: bool, syntax: Syntax, pos: nat, startThink: string, endThink: string)
    requires pos <= |input|
    requires syntax.reasoningFormat == NoReasoning || (!syntax.thinkingForcedOpen && !IsAt(input, startThink, pos))
    ensures ParsedReasoning(input, isPartial, syntax, pos, startThink, endThink) == Attempt(pos, false, "", "")
  {
  }

  /** Where the end tag occurs, the thought ends at its first occurrence, and the cursor is at the first character behind it that is not
      white space: the answer is not swallowed. */
  lemma {:induction false} ThoughtClosed(input: string, isPartial: bool, syntax: Syntax, pos: nat, startThink: string, endThink: string,
                                         from: nat, k: nat)
    requires Begins(input, syntax, pos, startThink, from) && FirstFrom(input, endThink, from, k)
    ensures var a := ParsedReasoning(input, isPartial, syntax, pos, startThink, endThink);
            && a.parsed && AfterSpaces(input, k + |endThink|, a.pos)
            && Adds(a, syntax, startThink, endThink, input[from..k], true)
  {
    LiteralFound(input, isPartial, from, endThink, k);
  }

  /** Partial input at the end of which the tag begins: the thought ends there and is taken for closed. */
  lemma {:induction false} ThoughtBegun(input: string, syntax: Syntax, pos: nat, startThink: string, endThink: string, from: nat, k: nat)
    requires Begins(input, syntax, pos, startThink, from) && NowhereFrom(input, endThink, from)
    requires EndsIn(input, endThink, k) && k >= from
    ensures var a := ParsedReasoning(input, true, syntax, pos, startThink, endThink);
            a.parsed && a.pos == |input| && Adds(a, syntax, startThink, endThink, input[from..k], true)
  {
    LiteralBegun(input, from, endThink, k);
  }

  /** Otherwise the thought takes all the rest, and is closed if the input is complete. */
  lemma {:induction false} ThoughtOpen(input: string, isPartial: bool, syntax: Syntax, pos: nat, startThink: string, endThink: string,
                                       from: nat)
    requires Begins(input, syntax, pos, startThink, from) && NowhereFrom(input, endThink, from)
    requires isPartial ==> EndsBefore(input, endThink, from)
    ensures var a := ParsedReasoning(input, isPartial, syntax, pos, startThink, endThink);
            a.parsed && a.pos == |input| && Adds(a, syntax, startThink, endThink, input[from..], !isPartial)
  {
    LiteralMissing(input, isPartial, from, endThink);
  }
}
