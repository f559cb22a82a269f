/** What a dump is: text that reads back, with commas between the parts and nothing else. */
module JsonDumpLaws {
  import opened Results
  import opened Json

  // ----- strings

  /** The value of a hexadecimal digit. */
  function HexValue(ch: char): (r: Option<nat>)
    ensures r.Some? ==> r.value < 16
  {
    if '0' <= ch <= '9' then Some(ch as nat - '0' as nat)
    else if 'a' <= ch <= 'f' then Some(ch as nat - 'a' as nat + 10)
    else if 'A' <= ch <= 'F' then Some(ch as nat - 'A' as nat + 10)
    else None
  }

  /** The character that an escape stands for, by section 7 of RFC 8259; `\u` only below 256. */
  function Unescaped(escape: string): Option<char> {
    if |escape| == 2 && escape[0] == '\\' then
      match escape[1]
      case 'b' => Some(8 as char)
      case 't' => Some(9 as char)
      case 'n' => Some(10 as char)
      case 'f' => Some(12 as char)
      case 'r' => Some(13 as char)
      case '\"' => Some('\"')
      case '\\' => Some('\\')
      case '/' => Some('/')
      case _ => None
    else if |escape| == 6 && escape[..4] == "\\u00" && HexValue(escape[4]).Some? && HexValue(escape[5]).Some? then
      Some((16 * HexValue(escape[4]).value + HexValue(escape[5]).value) as char)
    else None
  }

  /** How long the character, or the escape, at the beginning of a string body is. */
  function FirstLength(body: string): (n: nat)
    requires |body| > 0
    ensures n > 0
  {
    if body[0] != '\\' then 1 else if |body| > 1 && body[1] == 'u' then 6 else 2
  }

  /** What stands between the quotes, read. */
  function ReadBody(body: string): Option<string>
    decreases |body|
  {
    if |body| == 0 then Some("")
    else
      var n := FirstLength(body);
      if n > |body| then None
      else
        var first := if body[0] != '\\' then Some(body[0]) else Unescaped(body[..n]);
        var rest := ReadBody(body[n..]);
        if first.Some? && rest.Some? && (body[0] != '\"') && (body[0] as int >= 32) then Some([first.value] + rest.value) else None
  }

  lemma {:induction false} EscapeReads(ch: char, rest: string)
    ensures var e := EscapedChar(ch);
            && |e| > 0 && FirstLength(e + rest) == |e| && e[0] != '\"' && e[0] as int >= 32
            && (if e[0] != '\\' then e == [ch] else Unescaped(e) == Some(ch))
  {
    var e := EscapedChar(ch);
    if ch as int < 0x20 {
      HexReads(ch as int / 16);
      HexReads(ch as int % 16);
      assert |e| == 6 ==> e[..4] == "\\u00";
    }
  }

  lemma {:induction false} HexReads(n: nat)
    requires n < 16
    ensures HexValue(HexDigit(n)) == Some(n)
  {
  }

  /** Nothing is lost by escaping: reading the dump of a string gives the string. */
  lemma {:induction false} EscapedReadsBack(s: string)
    ensures ReadBody(Escaped(s)) == Some(s)
    decreases |s|
  {
    if |s| > 0 {
      var e, rest := EscapedChar(s[0]), Escaped(s[1..]);
      EscapeReads(s[0], rest);
      EscapedReadsBack(s[1..]);
      assert (e + rest)[..|e|] == e && (e + rest)[|e|..] == rest;
      assert Escaped(s) == e + rest && [s[0]] + s[1..] == s;
    }
  }

  /** Only quotes, backslashes and control characters are escaped, five of the latter by a letter. */
  lemma {:induction false} EscapesOnly(ch: char)
    ensures EscapedChar(ch) == [ch] <==> ch != '\"' && ch != '\\' && ch as int >= 0x20
    ensures |EscapedChar(ch)| == 2 <==> ch == '\"' || ch == '\\' || ch as int in {8, 9, 10, 12, 13}
    ensures |EscapedChar(ch)| <= 6
  {
  }

  lemma {:induction false} QuotedMeans(s: string)
    ensures |Quoted(s)| >= 2 && Quoted(s)[0] == '\"' == Quoted(s)[|Quoted(s)| - 1]
    ensures ReadBody(Quoted(s)[1..|Quoted(s)| - 1]) == Some(s)
  {
    EscapedReadsBack(s);
    assert Quoted(s)[1..|Quoted(s)| - 1] == Escaped(s);
  }

  // ----- values

  /** Texts with commas between them. */
  function Separated(texts: seq<string>): string {
    if |texts| == 0 then "" else if |texts| == 1 then texts[0] else Separated(texts[..|texts| - 1]) + "," + texts[|texts| - 1]
  }

  lemma {:induction false} SeparatedFirst(texts: seq<string>)
    requires |texts| > 1
    ensures Separated(texts) == texts[0] + "," + Separated(texts[1..])
    decreases |texts|
  {
    var n := |texts| - 1;
    var last := texts[n];
    assert texts[1..][n - 1] == last;
    if n == 1 {
      assert texts[..1] == [texts[0]] && texts[1..] == [last];
    } else {
      SeparatedFirst(texts[..n]);
      assert texts[..n][1..] == texts[1..][..n - 1];
    }
  }

  function Dumps(items: seq<Value>): (r: seq<string>)
    ensures |r| == |items| && forall i :: 0 <= i < |r| ==> r[i] == Dump(items[i])
  {
    seq(|items|, i requires 0 <= i < |items| => Dump(items[i]))
  }

  function MemberDumps(members: seq<Member>): (r: seq<string>)
    ensures |r| == |members| && forall i :: 0 <= i < |r| ==> r[i] == Quoted(members[i].key) + ":" + Dump(members[i].value)
  {
    seq(|members|, i requires 0 <= i < |members| => Quoted(members[i].key) + ":" + Dump(members[i].value))
  }

  lemma {:induction false} ItemsSeparated(items: seq<Value>)
    ensures DumpItems(items) == Separated(Dumps(items))
    decreases |items|
  {
    if |items| > 0 {
      ItemsSeparated(items[1..]);
      assert Dumps(items)[1..] == Dumps(items[1..]);
      if |items| > 1 {
        SeparatedFirst(Dumps(items));
      }
    }
  }

  lemma {:induction false} MembersSeparated(members: seq<Member>)
    ensures DumpMembers(members) == Separated(MemberDumps(members))
    decreases |members|
  {
    if |members| > 0 {
      MembersSeparated(members[1..]);
      assert MemberDumps(members)[1..] == MemberDumps(members[1..]);
      if |members| > 1 {
        SeparatedFirst(MemberDumps(members));
      }
    }
  }

  /** The dump of a value by the dumps of its parts. */
  lemma {:induction false} DumpMeans(j: Value)
    ensures match j
            case Null => Dump(j) == ['n', 'u', 'l', 'l']
            case Bool(b) => Dump(j) == if b then ['t', 'r', 'u', 'e'] else ['f', 'a', 'l', 's', 'e']
            case Number(text) => Dump(j) == text
            case Str(s) => Dump(j) == Quoted(s)
            case Arr(items) => Dump(j) == ['['] + Separated(Dumps(items)) + [']']
            case Obj(members) => Dump(j) == ['{'] + Separated(MemberDumps(members)) + ['}']
  {
    match j
    case Arr(items) => ItemsSeparated(items);
    case Obj(members) => MembersSeparated(members);
    case _ =>
  }
}
