/** The parser of chat messages: a position in the input, and the result so far. */
module ChatParser {
  import opened Results
  import opened Strings
  import opened Json
  import opened JsonCleanup

  datatype ReasoningFormat = NoReasoning | AutoFormat | DeepseekLegacy | Deepseek

  datatype Syntax = Syntax(reasoningFormat: ReasoningFormat, reasoningInContent: bool, thinkingForcedOpen: bool)

  /** The text before a literal, and where the literal, or the start of it that ends the input, is. */
  datatype Found = Found(prelude: string, begin: nat, end: nat)

  /** What the JSON parser returned: a value, how it was completed, and where it stopped. */
  datatype Parsed = Parsed(json: Value, healing: Healing, end: nat)

  datatype Consumed = Consumed(value: Value, isPartial: bool)

  const JSON_ERROR := "JSON"

  // ----- what the methods compute

  /** The literal at `pos` or later; in partial input, else the longest start of it that ends the input, if that is not before `pos`. */
  function FoundLiteral(input: string, isPartial: bool, pos: nat, literal: string): (r: Option<Found>)
    requires pos <= |input|
    ensures r.Some? ==> pos <= r.value.begin <= r.value.end <= |input| && r.value.prelude == input[pos..r.value.begin]
  {
    var idx := Find(input, literal, pos);
    if idx.Some? then Some(Found(input[pos..idx.value], idx.value, idx.value + |literal|))
    else
      var tail := PartialStop(input, literal);
      if isPartial && tail.Some? && tail.value >= pos
      then Some(Found(input[pos..tail.value], tail.value, |input|))
      else None
  }

  /** The position, the answer and the additions to content and reasoning of an attempt to parse reasoning. */
  datatype Attempt = Attempt(pos: nat, parsed: bool, content: string, reasoning: string)

  function HandledReasoning(syntax: Syntax, startThink: string, endThink: string, reasoning: string, closed: bool): (string, string) {
    var stripped := Strip(reasoning);
    if stripped == "" then ("", "")
    else if syntax.reasoningInContent then
      var inDeepseek := syntax.reasoningFormat == Deepseek;
      ((if inDeepseek then "<think>" else startThink) + stripped
       + (if closed then (if inDeepseek then "</think>" else endThink) else ""), "")
    else ("", stripped)
  }

  function ParsedReasoning(input: string, isPartial: bool, syntax: Syntax, pos: nat, startThink: string, endThink: string): Attempt
    requires pos <= |input|
  {
    if syntax.reasoningFormat == NoReasoning || !(syntax.thinkingForcedOpen || IsAt(input, startThink, pos))
    then Attempt(pos, false, "", "")
    else
      var start := if syntax.thinkingForcedOpen then pos else pos + |startThink|;
      var found := FoundLiteral(input, isPartial, start, endThink);
      if found.Some? then
        var (content, reasoning) := HandledReasoning(syntax, startThink, endThink, found.value.prelude, true);
        Attempt(SpacesEnd(input, found.value.end), true, content, reasoning)
      else
        var (content, reasoning) := HandledReasoning(syntax, startThink, endThink, input[start..], !isPartial);
        Attempt(|input|, true, content, reasoning)
  }

  /** What consuming a JSON value with dumped arguments returns. */
  function ConsumedJson(c: Setup, j: Value): Result<Option<Consumed>> {
    if c.healing.Cut? && !c.isPartial then Err(JSON_ERROR)
    else if c.RawMarker() == "" && c.argsPaths == [] then Ok(Some(Consumed(j, false)))
    else if c.RawMarker() == "" && c.IsArgs([]) then Ok(Some(Consumed(Str(Dump(j)), false)))
    else
      var r :- Walk(c, j, State([], false));
      Ok(Some(Consumed(r.0, r.1.found)))
  }

  // ----- the parser

  class ChatMsgParser {
    const input: string
    const isPartial: bool
    const syntax: Syntax
    const healingMarker: string

    var pos: nat
    var content: string
    var reasoningContent: string

    predicate Valid()
      reads this
    {
      pos <= |input|
    }

    /** The marker is a number that the input does not contain. */
    constructor (input: string, isPartial: bool, syntax: Syntax, healingMarker: string)
      requires healingMarker != "" && Digits(healingMarker) && !Occurs(input, healingMarker)
      ensures Valid() && pos == 0 && content == "" && reasoningContent == ""
      ensures this.input == input && this.isPartial == isPartial && this.syntax == syntax
      ensures this.healingMarker == healingMarker
    {
      this.input := input;
      this.isPartial := isPartial;
      this.syntax := syntax;
      this.healingMarker := healingMarker;
      pos := 0;
      content := "";
      reasoningContent := "";
    }

    method MoveTo(to: nat) returns (r: Result<()>)
      requires Valid()
      modifies this`pos
      ensures Valid()
      ensures r.Ok? <==> to <= |input|
      ensures pos == if r.Ok? then to else old(pos)
    {
      if to > |input| {
        return Err("Invalid position!");
      }
      pos := to;
      r := Ok(());
    }

    method ConsumeSpaces() returns (consumed: bool)
      requires Valid()
      modifies this`pos
      ensures Valid()
      ensures pos == SpacesEnd(input, old(pos)) && consumed == (pos != old(pos))
    {
      consumed := false;
      while pos < |input| && IsSpace(input[pos])
        invariant old(pos) <= pos <= |input|
        invariant SpacesEnd(input, pos) == SpacesEnd(input, old(pos))
        invariant consumed == (pos != old(pos))
      {
        pos := pos + 1;
        consumed := true;
      }
    }

    method TryConsumeLiteral(literal: string) returns (consumed: bool)
      requires Valid()
      modifies this`pos
      ensures Valid()
      ensures consumed == IsAt(input, literal, old(pos))
      ensures pos == if consumed then old(pos) + |literal| else old(pos)
    {
      var p := pos;
      var i := 0;
      while i < |literal|
        invariant 0 <= i <= |literal| && p == pos + i && p <= |input|
        invariant input[pos..p] == literal[..i]
      {
        if p >= |input| {
          return false;
        }
        if input[p] != literal[i] {
          assert IsAt(input, literal, pos) ==> input[pos..pos + |literal|][i] == literal[i];
          return false;
        }
        assert input[pos..p + 1] == literal[..i + 1];
        p := p + 1;
        i := i + 1;
      }
      pos := p;
      consumed := true;
    }

    method TryFindLiteral(literal: string) returns (r: Option<Found>)
      requires Valid()
      modifies this`pos
      ensures Valid()
      ensures r == FoundLiteral(input, isPartial, old(pos), literal)
      ensures pos == if r.Some? then r.value.end else old(pos)
    {
      var idx := Find(input, literal, pos);
      if idx.Some? {
        r := Some(Found(input[pos..idx.value], idx.value, idx.value + |literal|));
        var _ := MoveTo(idx.value + |literal|);
        return;
      }
      if isPartial {
        var tail := FindPartialStop(input, literal);
        if tail.Some? && tail.value >= pos {
          r := Some(Found(input[pos..tail.value], tail.value, |input|));
          var _ := MoveTo(|input|);
          return;
        }
      }
      r := None;
    }

    method ConsumeRest() returns (rest: string)
      requires Valid()
      modifies this`pos
      ensures Valid()
      ensures rest == input[old(pos)..] && pos == |input|
    {
      rest := input[pos..];
      pos := |input|;
    }

    method HandleReasoning(startThink: string, endThink: string, reasoning: string, closed: bool)
      modifies this`content, this`reasoningContent
      ensures var (c, r) := HandledReasoning(syntax, startThink, endThink, reasoning, closed);
              content == old(content) + c && reasoningContent == old(reasoningContent) + r
    {
      var stripped := StringStrip(reasoning);
      if stripped == "" {
        return;
      }
      if syntax.reasoningInContent {
        var inDeepseek := syntax.reasoningFormat == Deepseek;
        content := content + (if inDeepseek then "<think>" else startThink);
        content := content + stripped;
        if closed {
          content := content + (if inDeepseek then "</think>" else endThink);
        }
      } else {
        reasoningContent := reasoningContent + stripped;
      }
    }

    method TryParseReasoning(startThink: string, endThink: string) returns (parsed: bool)
      requires Valid()
      modifies this
      ensures Valid()
      ensures var a := ParsedReasoning(input, isPartial, syntax, old(pos), startThink, endThink);
              && parsed == a.parsed && pos == a.pos
              && content == old(content) + a.content
              && reasoningContent == old(reasoningContent) + a.reasoning
    {
      if syntax.reasoningFormat != NoReasoning {
        var thinking := syntax.thinkingForcedOpen;
        if !thinking {
          thinking := TryConsumeLiteral(startThink);
        }
        if thinking {
          var found := TryFindLiteral(endThink);
          if found.Some? {
            HandleReasoning(startThink, endThink, found.value.prelude, true);
            var _ := ConsumeSpaces();
            return true;
          }
          var rest := ConsumeRest();
          if rest != "" {
            HandleReasoning(startThink, endThink, rest, !isPartial);
          }
          return true;
        }
      }
      return false;
    }

    /** The setup of the clean-up for a value completed in this way. */
    function SetupFor(healing: Healing, argsPaths: seq<Path>, contentPaths: seq<Path>): Setup {
      Setup(healingMarker, healing, isPartial, argsPaths, contentPaths)
    }

    method TryConsumeJson(parsed: Option<Parsed>) returns (r: Result<Option<Parsed>>)
      requires Valid() && (parsed.Some? ==> pos <= parsed.value.end <= |input|)
      modifies this`pos
      ensures Valid()
      ensures pos == if parsed.Some? then parsed.value.end else old(pos)
      ensures r == if parsed.Some? && parsed.value.healing.Cut? && !isPartial then Err(JSON_ERROR) else Ok(parsed)
    {
      if parsed.None? {
        return Ok(None);
      }
      pos := parsed.value.end;
      if parsed.value.healing.Whole? {
        return Ok(parsed);
      }
      if !isPartial {
        return Err(JSON_ERROR);
      }
      r := Ok(parsed);
    }

    method TryConsumeJsonWithDumpedArgs(outcome: Option<Parsed>, argsPaths: seq<Path>, contentPaths: seq<Path>)
      returns (r: Result<Option<Consumed>>)
      requires Valid() && (outcome.Some? ==> pos <= outcome.value.end <= |input|)
      modifies this`pos
      ensures Valid()
      ensures pos == if outcome.Some? then outcome.value.end else old(pos)
      ensures r == if outcome.None? then Ok(None)
                   else ConsumedJson(SetupFor(outcome.value.healing, argsPaths, contentPaths), outcome.value.json)
    {
      var parsed :- TryConsumeJson(outcome);
      if parsed.None? {
        return Ok(None);
      }
      var j := parsed.value.json;
      var c := SetupFor(parsed.value.healing, argsPaths, contentPaths);
      if c.RawMarker() == "" {
        if argsPaths == [] {
          return Ok(Some(Consumed(j, false)));
        }
        if c.IsArgs([]) {
          return Ok(Some(Consumed(Str(Dump(j)), false)));
        }
      }
      var cleaner := new Cleaner(c);
      var cleaned :- cleaner.Clean(j);
      r := Ok(Some(Consumed(cleaned, cleaner.foundHealingMarker)));
    }

    method Finish() returns (r: Result<()>)
      requires Valid()
      ensures r.Err? <==> !isPartial && pos != |input|
    {
      if !isPartial && pos != |input| {
        return Err("Unexpected content at end of input");
      }
      r := Ok(());
    }
  }
}
