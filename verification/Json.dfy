/** JSON values, their compact dump, and where a healing marker is in them. */
module Json {
  import opened Strings

  /** The keys of an object are distinct, in the order in which they were written; a number is kept as it is dumped. */
  datatype Value =
    | Null
    | Bool(b: bool)
    | Number(text: string)
    | Str(s: string)
    | Arr(items: seq<Value>)
    | Obj(members: seq<Member>)

  datatype Member = Member(key: string, value: Value)

  // ----- dump

  function HexDigit(n: nat): char
    requires n < 16
  {
    "0123456789abcdef"[n]
  }

  function EscapedChar(ch: char): string {
    if ch == '\U{8}' then "\\b"
    else if ch == '\t' then "\\t"
    else if ch == '\n' then "\\n"
    else if ch == '\U{C}' then "\\f"
    else if ch == '\r' then "\\r"
    else if ch == '\"' then "\\\""
    else if ch == '\\' then "\\\\"
    else if ch as int < 0x20 then "\\u00" + [HexDigit(ch as int / 16), HexDigit(ch as int % 16)]
    else [ch]
  }

  function Escaped(s: string): string {
    if s == "" then "" else EscapedChar(s[0]) + Escaped(s[1..])
  }

  function Quoted(s: string): string {
    "\"" + Escaped(s) + "\""
  }

  /** `dump()` without indentation. */
  function Dump(j: Value): string {
    match j
    case Null => "null"
    case Bool(b) => if b then "true" else "false"
    case Number(text) => text
    case Str(s) => Quoted(s)
    case Arr(items) => "[" + DumpItems(items) + "]"
    case Obj(members) => "{" + DumpMembers(members) + "}"
  }

  function Comma(more: bool): string {
    if more then "," else ""
  }

  function DumpItems(items: seq<Value>): string {
    if items == [] then "" else Dump(items[0]) + Comma(|items| > 1) + DumpItems(items[1..])
  }

  function DumpMembers(members: seq<Member>): string {
    if members == [] then ""
    else Quoted(members[0].key) + ":" + Dump(members[0].value) + Comma(|members| > 1) + DumpMembers(members[1..])
  }

  // ----- markers

  /** Some key or string of the tree contains the marker. */
  predicate HasMarker(j: Value, marker: string) {
    match j
    case Str(s) => Occurs(s, marker)
    case Arr(items) => exists i :: 0 <= i < |items| && HasMarker(items[i], marker)
    case Obj(members) => exists i :: 0 <= i < |members| && MemberHasMarker(members[i], marker)
    case _ => false
  }

  predicate MemberHasMarker(member: Member, marker: string) {
    Occurs(member.key, marker) || HasMarker(member.value, marker)
  }

  /** The only key or string with the marker, if there is one, is the last in document order. */
  predicate MarkerLast(j: Value, marker: string) {
    match j
    case Arr(items) =>
      && (forall i :: 0 <= i < |items| - 1 ==> !HasMarker(items[i], marker))
      && (items != [] ==> MarkerLast(items[|items| - 1], marker))
    case Obj(members) =>
      && (forall i :: 0 <= i < |members| - 1 ==> !MemberHasMarker(members[i], marker))
      && (members != [] ==> MemberMarkerLast(members[|members| - 1], marker))
    case _ => true
  }

  predicate MemberMarkerLast(member: Member, marker: string) {
    if Occurs(member.key, marker) then !HasMarker(member.value, marker) else MarkerLast(member.value, marker)
  }

  /** Markers are decimal numbers. */
  predicate Digits(s: string) {
    forall i :: 0 <= i < |s| ==> '0' <= s[i] <= '9'
  }

  // ----- a marker in a tree is in its dump

  lemma {:induction false} EscapedConcat(x: string, y: string)
    ensures Escaped(x + y) == Escaped(x) + Escaped(y)
  {
    if x == "" {
      assert x + y == y;
    } else {
      assert (x + y)[1..] == x[1..] + y;
      EscapedConcat(x[1..], y);
    }
  }

  lemma {:induction false} EscapedDigits(s: string)
    requires Digits(s)
    ensures Escaped(s) == s
  {
    if s != "" {
      EscapedDigits(s[1..]);
    }
  }

  lemma {:induction false} OccursEscaped(s: string, marker: string)
    requires Digits(marker) && Occurs(s, marker)
    ensures Occurs(Escaped(s), marker)
  {
    var i := Find(s, marker, 0).value;
    var x, y := s[..i], s[i + |marker|..];
    assert s == x + marker + y;
    EscapedConcat(x + marker, y);
    EscapedConcat(x, marker);
    EscapedDigits(marker);
    assert IsAt(marker, marker, 0);
    OccursAt(marker, marker, 0);
    OccursInside(Escaped(x), marker, Escaped(y), marker);
  }

  lemma {:induction false} OccursQuoted(s: string, marker: string)
    requires Digits(marker) && Occurs(s, marker)
    ensures Occurs(Quoted(s), marker)
  {
    OccursEscaped(s, marker);
    OccursInside("\"", Escaped(s), "\"", marker);
  }

  lemma {:induction false} OccursLeft(x: string, y: string, marker: string)
    requires Occurs(x, marker)
    ensures Occurs(x + y, marker)
  {
    OccursInside("", x, y, marker);
    assert "" + x + y == x + y;
  }

  lemma {:induction false} OccursRight(x: string, y: string, marker: string)
    requires Occurs(y, marker)
    ensures Occurs(x + y, marker)
  {
    OccursInside(x, y, "", marker);
    assert x + y + "" == x + y;
  }

  lemma {:induction false} MarkerInDump(j: Value, marker: string)
    requires Digits(marker) && HasMarker(j, marker)
    ensures Occurs(Dump(j), marker)
  {
    match j
    case Str(s) =>
      OccursQuoted(s, marker);
    case Arr(items) =>
      var i :| 0 <= i < |items| && HasMarker(items[i], marker);
      MarkerInItems(items, i, marker);
      OccursInside("[", DumpItems(items), "]", marker);
    case Obj(members) =>
      var i :| 0 <= i < |members| && MemberHasMarker(members[i], marker);
      MarkerInMembers(members, i, marker);
      OccursInside("{", DumpMembers(members), "}", marker);
  }

  lemma {:induction false} MarkerInItems(items: seq<Value>, i: nat, marker: string)
    requires Digits(marker) && i < |items| && HasMarker(items[i], marker)
    ensures Occurs(DumpItems(items), marker)
    decreases items
  {
    var first, rest := Dump(items[0]) + Comma(|items| > 1), DumpItems(items[1..]);
    if i == 0 {
      MarkerInDump(items[0], marker);
      OccursLeft(Dump(items[0]), Comma(|items| > 1), marker);
      OccursLeft(first, rest, marker);
    } else {
      MarkerInItems(items[1..], i - 1, marker);
      OccursRight(first, rest, marker);
    }
  }

  lemma {:induction false} MarkerInMembers(members: seq<Member>, i: nat, marker: string)
    requires Digits(marker) && i < |members| && MemberHasMarker(members[i], marker)
    ensures Occurs(DumpMembers(members), marker)
    decreases members
  {
    var key, value, comma := Quoted(members[0].key), Dump(members[0].value), Comma(|members| > 1);
    var rest := DumpMembers(members[1..]);
    if i > 0 {
      MarkerInMembers(members[1..], i - 1, marker);
      OccursRight(key + ":" + value + comma, rest, marker);
    } else {
      if Occurs(members[0].key, marker) {
        OccursQuoted(members[0].key, marker);
        OccursLeft(key, ":", marker);
        OccursLeft(key + ":", value, marker);
      } else {
        MarkerInDump(members[0].value, marker);
        OccursRight(key + ":", value, marker);
      }
      OccursLeft(key + ":" + value, comma, marker);
      OccursLeft(key + ":" + value + comma, rest, marker);
    }
  }
}
