/** The cleaned value carries no marker, the marker is reported exactly, and nothing else is lost. */
module JsonCleanupMeaning {
  import opened Results
  import opened Strings
  import opened Json
  import opened JsonCleanup
  import opened JsonCleanupLaws

  // ----- no marker is left

  /** The marker is a number; a value that was completed is a partial one. */
  predicate ValidSetup(c: Setup) {
    c.marker != "" && Digits(c.marker) && (c.healing.Cut? ==> c.isPartial)
  }

  predicate InDumpMarker(c: Setup, text: string, i: nat) {
    exists k: nat :: k <= i && IsAt(text, c.DumpMarker(), k) && i + |c.marker| <= k + |c.DumpMarker()|
  }

  /** The dump has the marker only where the value has it, and there as the end of the marker made for dumps. */
  ghost predicate HonestDump(c: Setup, j: Value) {
    && (Occurs(Dump(j), c.marker) ==> HasMarker(j, c.marker))
    && forall i: nat :: IsAt(Dump(j), c.marker, i) ==> InDumpMarker(c, Dump(j), i)
  }

  /** Every value that the clean-up dumps has an honest dump. */
  ghost predicate Honest(c: Setup, j: Value, path: Path) {
    if c.IsArgs(path) then HonestDump(c, j)
    else if c.IsContent(path) then true
    else
      match j
      case Obj(members) => forall i :: 0 <= i < |members| ==> HonestMember(c, members[i], path)
      case Arr(items) => forall i :: 0 <= i < |items| ==> Honest(c, items[i], path)
      case _ => true
  }

  ghost predicate HonestMember(c: Setup, member: Member, path: Path) {
    Drops(c, member, path) || (member.value.Str? && !MarkedString(c, member.value)) || Honest(c, member.value, path + [member.key])
  }

  lemma {:induction false} CutAtRemoves(s: string, needle: string)
    requires needle != ""
    ensures !Occurs(CutAt(s, needle).s, needle)
    ensures CutAt(s, needle).cut == Occurs(s, needle)
  {
    var idx := Find(s, needle, 0);
    if idx.Some? && Occurs(s[..idx.value], needle) {
      var i := Find(s[..idx.value], needle, 0).value;
      assert s[..idx.value][i..i + |needle|] == s[i..i + |needle|];
      assert IsAt(s, needle, i);
    }
  }

  lemma {:induction false} DumpMarkerHoldsMarker(c: Setup, text: string, k: nat)
    requires c.healing.Cut? && IsAt(text, c.DumpMarker(), k)
    ensures IsAt(text, c.marker, k + |c.healing.prefix|)
  {
    var dm, p := c.DumpMarker(), |c.healing.prefix|;
    assert dm[p..] == c.marker;
    assert text[k..k + |dm|][p..] == text[k + p..k + |dm|];
  }

  lemma {:induction false} CutDumpHasNoMarker(c: Setup, text: string)
    requires c.healing.Cut? && c.marker != ""
    requires forall i: nat :: IsAt(text, c.marker, i) ==> InDumpMarker(c, text, i)
    ensures !Occurs(CutAt(text, c.DumpMarker()).s, c.marker)
    ensures CutAt(text, c.DumpMarker()).cut == Occurs(text, c.marker)
  {
    var idx, cut := Find(text, c.DumpMarker(), 0), CutAt(text, c.DumpMarker());
    if idx.Some? {
      DumpMarkerHoldsMarker(c, text, idx.value);
    }
    if Occurs(cut.s, c.marker) {
      var i := Find(cut.s, c.marker, 0).value;
      assert cut.s[i..i + |c.marker|] == text[i..i + |c.marker|];
      assert IsAt(text, c.marker, i);
    }
  }

  lemma {:induction false} ArgsTextHasNoMarker(c: Setup, j: Value)
    requires ValidSetup(c) && HonestDump(c, j)
    requires c.healing.Whole? ==> !HasMarker(j, c.marker)
    ensures !Occurs(ArgsText(c, j).s, c.marker)
    ensures ArgsText(c, j).cut == HasMarker(j, c.marker)
  {
    if HasMarker(j, c.marker) {
      MarkerInDump(j, c.marker);
    }
    if c.healing.Cut? {
      CutDumpHasNoMarker(c, Dump(j));
    }
  }

  lemma {:induction false} MarkerInRest(members: seq<Member>, marker: string)
    requires members != []
    ensures HasMarker(Obj(members), marker) <==> MemberHasMarker(members[0], marker) || HasMarker(Obj(members[1..]), marker)
  {
    var rest := members[1..];
    if i :| 0 <= i < |members| && MemberHasMarker(members[i], marker) {
      assert i > 0 ==> rest[i - 1] == members[i];
    }
    if i :| 0 <= i < |rest| && MemberHasMarker(rest[i], marker) {
      assert rest[i] == members[i + 1];
    }
  }

  lemma {:induction false} MarkerInRestItems(items: seq<Value>, marker: string)
    requires items != []
    ensures HasMarker(Arr(items), marker) <==> HasMarker(items[0], marker) || HasMarker(Arr(items[1..]), marker)
  {
    var rest := items[1..];
    if i :| 0 <= i < |items| && HasMarker(items[i], marker) {
      assert i > 0 ==> rest[i - 1] == items[i];
    }
    if i :| 0 <= i < |rest| && HasMarker(rest[i], marker) {
      assert rest[i] == items[i + 1];
    }
  }

  /** What is left of a value has no marker, and the flag says whether the value had one. */
  predicate Unmarked(cleaned: Result<(Value, bool)>, j: Value, marker: string) {
    cleaned.Ok? ==> !HasMarker(cleaned.value.0, marker) && cleaned.value.1 == HasMarker(j, marker)
  }

  predicate MembersUnmarked(cleaned: Result<(seq<Member>, bool)>, members: seq<Member>, marker: string) {
    cleaned.Ok? ==> !HasMarker(Obj(cleaned.value.0), marker) && cleaned.value.1 == HasMarker(Obj(members), marker)
  }

  predicate ItemsUnmarked(cleaned: Result<(seq<Value>, bool)>, items: seq<Value>, marker: string) {
    cleaned.Ok? ==> !HasMarker(Arr(cleaned.value.0), marker) && cleaned.value.1 == HasMarker(Arr(items), marker)
  }

  /** A string is cleaned on its own only at an argument path, at a content path of a cut value, or without a marker. */
  predicate StringMayBeCleaned(c: Setup, j: Value, path: Path) {
    j.Str? && !c.IsArgs(path) ==> if c.IsContent(path) then c.healing.Cut? else !HasMarker(j, c.marker)
  }

  lemma {:induction false} CleanedIsUnmarked(c: Setup, j: Value, path: Path)
    requires ValidSetup(c) && Honest(c, j, path) && StringMayBeCleaned(c, j, path)
    requires c.healing.Whole? ==> !HasMarker(j, c.marker)
    ensures Unmarked(Cleaned(c, j, path), j, c.marker)
    decreases j, 0
  {
    if c.IsArgs(path) {
      ArgsTextHasNoMarker(c, j);
    } else if c.IsContent(path) {
      if j.Str? {
        CutAtRemoves(j.s, c.marker);
      }
    } else {
      match j
      case Obj(members) => CleanedMembersAreUnmarked(c, members, path);
      case Arr(items) => CleanedItemsAreUnmarked(c, items, path);
      case _ =>
    }
  }

  lemma {:induction false} CleanedValueIsUnmarked(c: Setup, member: Member, path: Path)
    requires ValidSetup(c) && HonestMember(c, member, path) && !Drops(c, member, path)
    requires c.healing.Whole? ==> !HasMarker(member.value, c.marker)
    ensures Unmarked(CleanedValue(c, member.value, path + [member.key]), member.value, c.marker)
    decreases member, 0
  {
    var value := member.value;
    if !value.Str? || MarkedString(c, value) {
      CleanedIsUnmarked(c, value, path + [member.key]);
    }
  }

  lemma {:induction false} CleanedMembersAreUnmarked(c: Setup, members: seq<Member>, path: Path)
    requires ValidSetup(c)
    requires forall i :: 0 <= i < |members| ==> HonestMember(c, members[i], path)
    requires c.healing.Whole? ==> !HasMarker(Obj(members), c.marker)
    ensures MembersUnmarked(CleanedMembers(c, members, path), members, c.marker)
    decreases members, 0
  {
    var r := CleanedMembers(c, members, path);
    if members != [] && r.Ok? {
      MarkerInRest(members, c.marker);
      if !Drops(c, members[0], path) {
        CleanedValueIsUnmarked(c, members[0], path);
        MarkerInRest(r.value.0, c.marker);
        if !MarkedString(c, members[0].value) {
          CleanedMembersAreUnmarked(c, members[1..], path);
          assert r.value.0[1..] == CleanedMembers(c, members[1..], path).value.0;
        }
      }
    }
  }

  lemma {:induction false} CleanedItemsAreUnmarked(c: Setup, items: seq<Value>, path: Path)
    requires ValidSetup(c) && !c.IsArgs(path) && !c.IsContent(path)
    requires forall i :: 0 <= i < |items| ==> Honest(c, items[i], path)
    requires c.healing.Whole? ==> !HasMarker(Arr(items), c.marker)
    ensures ItemsUnmarked(CleanedItems(c, items, path), items, c.marker)
    decreases items, 0
  {
    if items != [] {
      MarkerInRestItems(items, c.marker);
      if !MarkedString(c, items[0]) {
        CleanedIsUnmarked(c, items[0], path);
        CleanedItemsAreUnmarked(c, items[1..], path);
        var r := CleanedItems(c, items, path);
        if r.Ok? {
          MarkerInRestItems(r.value.0, c.marker);
        }
      }
    }
  }

  // ----- nothing else is lost

  predicate FirstAt(text: string, needle: string, i: nat) {
    IsAt(text, needle, i) && forall k :: 0 <= k < i ==> !IsAt(text, needle, k)
  }

  /** `r` is what precedes the first needle in the text, or all of it if there is none. */
  ghost predicate CutsTo(r: string, text: string, needle: string) {
    && (forall i: nat :: FirstAt(text, needle, i) ==> r == text[..i])
    && ((forall i: nat :: !IsAt(text, needle, i)) ==> r == text)
  }

  lemma {:induction false} CutAtCuts(s: string, needle: string)
    ensures CutsTo(CutAt(s, needle).s, s, needle)
  {
    forall i: nat | FirstAt(s, needle, i) ensures CutAt(s, needle).s == s[..i] {
      var idx := Find(s, needle, 0).value;
      assert IsAt(s, needle, idx) && !(idx < i) && !(i < idx);
    }
  }

  /** The text at an argument path: the dump, in partial input up to where it was completed; a lone quote is nothing. */
  ghost predicate ArgsKept(c: Setup, j: Value, r: string) {
    if c.isPartial && c.healing.Cut? && c.marker != "" then
      exists text :: CutsTo(text, Dump(j), c.healing.prefix + c.marker) && r == (if text == "\"" then "" else text)
    else r == Dump(j)
  }

  /** The text at a content path: the string up to the marker; that of a complete value is searched for nothing, and is lost. */
  ghost predicate ContentKept(c: Setup, s: string, r: string) {
    if c.healing.Whole? then r == "" else CutsTo(r, s, c.marker)
  }

  lemma {:induction false} TextsKept(c: Setup, j: Value)
    ensures ArgsKept(c, j, ArgsText(c, j).s)
    ensures j.Str? ==> ContentKept(c, j.s, CutAt(j.s, c.RawMarker()).s)
  {
    CutAtCuts(Dump(j), c.DumpMarker());
    if j.Str? {
      CutAtCuts(j.s, c.RawMarker());
      assert c.healing.Whole? ==> FirstAt(j.s, "", 0);
    }
  }

  /** A member is left out if its key has the marker, or if its string has it and is not at a content path or the text did not break
      off inside it. */
  predicate LeftOut(c: Setup, member: Member, path: Path) {
    || Occurs(member.key, c.marker)
    || (MarkedString(c, member.value) &&
        !(path + [member.key] in c.contentPaths && (c.healing.Whole? || c.healing.prefix == "")))
  }

  lemma {:induction false} DropsLeavesOut(c: Setup, member: Member, path: Path)
    ensures Drops(c, member, path) <==> LeftOut(c, member, path)
  {
  }

  /** What `r` is for `j`: dumped at argument paths, cut at content paths, and otherwise the same but for a last marked child. */
  ghost predicate Keeps(c: Setup, j: Value, r: Value, path: Path)
    decreases j
  {
    if path in c.argsPaths then r.Str? && ArgsKept(c, j, r.s)
    else if path in c.contentPaths then j.Str? && r.Str? && ContentKept(c, j.s, r.s)
    else
      match j
      case Obj(members) =>
        && r.Obj?
        && |r.members| == |members| - (if members != [] && LeftOut(c, members[|members| - 1], path) then 1 else 0)
        && forall i :: 0 <= i < |r.members| ==> KeepsMember(c, members[i], r.members[i], path)
      case Arr(items) =>
        && r.Arr?
        && |r.items| == |items| - (if items != [] && MarkedString(c, items[|items| - 1]) then 1 else 0)
        && forall i :: 0 <= i < |r.items| ==> Keeps(c, items[i], r.items[i], path)
      case _ => r == j
  }

  ghost predicate KeepsMember(c: Setup, member: Member, r: Member, path: Path)
    decreases member
  {
    && r.key == member.key
    && if member.value.Str? && !MarkedString(c, member.value) then r.value == member.value
       else Keeps(c, member.value, r.value, path + [member.key])
  }

  lemma {:induction false} CleanedKeeps(c: Setup, j: Value, path: Path)
    requires MarkerLast(j, c.marker)
    ensures Cleaned(c, j, path).Ok? ==> Keeps(c, j, Cleaned(c, j, path).value.0, path)
    decreases j, 0
  {
    TextsKept(c, j);
    if !c.IsArgs(path) && !c.IsContent(path) {
      match j
      case Obj(members) => CleanedKeepsMembers(c, members, path);
      case Arr(items) => CleanedKeepsItems(c, items, path);
      case _ =>
    }
  }

  lemma {:induction false} KeepsFirst(c: Setup, members: seq<Member>, first: Member, rest: seq<Member>, path: Path)
    requires |members| > 1 && !c.IsArgs(path) && !c.IsContent(path)
    requires KeepsMember(c, members[0], first, path) && Keeps(c, Obj(members[1..]), Obj(rest), path)
    ensures Keeps(c, Obj(members), Obj([first] + rest), path)
  {
    var r := [first] + rest;
    assert members[1..][|members| - 2] == members[|members| - 1];
    forall i | 0 <= i < |r| ensures KeepsMember(c, members[i], r[i], path) {
      assert i > 0 ==> members[1..][i - 1] == members[i] && r[i] == rest[i - 1];
    }
  }

  lemma {:induction false} CleanedKeepsMembers(c: Setup, members: seq<Member>, path: Path)
    requires MarkerLast(Obj(members), c.marker) && !c.IsArgs(path) && !c.IsContent(path)
    ensures CleanedMembers(c, members, path).Ok? ==>
              Keeps(c, Obj(members), Obj(CleanedMembers(c, members, path).value.0), path)
    decreases members, 0
  {
    var r := CleanedMembers(c, members, path);
    if members != [] && r.Ok? {
      var Member(key, value) := members[0];
      MarkerLastRest(members, c.marker);
      DropsLeavesOut(c, members[0], path);
      if !Drops(c, members[0], path) {
        if |members| > 1 {
          UnmarkedIsLast(value, c.marker);
        }
        CleanedKeeps(c, value, path + [key]);
        assert KeepsMember(c, members[0], r.value.0[0], path);
        if |members| > 1 {
          CleanedKeepsMembers(c, members[1..], path);
          KeepsFirst(c, members, r.value.0[0], CleanedMembers(c, members[1..], path).value.0, path);
        }
      }
    }
  }

  lemma {:induction false} CleanedKeepsItems(c: Setup, items: seq<Value>, path: Path)
    requires MarkerLast(Arr(items), c.marker) && !c.IsArgs(path) && !c.IsContent(path)
    ensures CleanedItems(c, items, path).Ok? ==> Keeps(c, Arr(items), Arr(CleanedItems(c, items, path).value.0), path)
    decreases items, 0
  {
    var r := CleanedItems(c, items, path);
    if items != [] && r.Ok? && !MarkedString(c, items[0]) {
      MarkerLastItems(items, c.marker);
      if |items| > 1 {
        UnmarkedIsLast(items[0], c.marker);
      }
      CleanedKeeps(c, items[0], path);
      CleanedKeepsItems(c, items[1..], path);
    }
  }
}
