/** The clean-up with its path passed down instead of shared. */
module JsonCleanupLaws {
  import opened Results
  import opened Strings
  import opened Json
  import opened JsonCleanup

  // ----- the same clean-up with the path passed down

  /** The cleaned value, and whether a marker was found. */
  function Cleaned(c: Setup, j: Value, path: Path): Result<(Value, bool)>
    decreases j, 0
  {
    if c.IsArgs(path) then
      var text := ArgsText(c, j);
      Ok((Str(text.s), text.cut))
    else if c.IsContent(path) then
      if !j.Str? then Err(CONTENT_ERROR)
      else
        var text := CutAt(j.s, c.RawMarker());
        Ok((Str(text.s), text.cut))
    else
      match j
      case Obj(members) =>
        var r :- CleanedMembers(c, members, path);
        Ok((Obj(r.0), r.1))
      case Arr(items) =>
        var r :- CleanedItems(c, items, path);
        Ok((Arr(r.0), r.1))
      case _ => Ok((j, false))
  }

  function CleanedMembers(c: Setup, members: seq<Member>, path: Path): Result<(seq<Member>, bool)>
    decreases members
  {
    if members == [] then Ok(([], false))
    else
      var Member(key, value) := members[0];
      if Drops(c, members[0], path) then Ok(([], true))
      else
        var r :- CleanedValue(c, value, path + [key]);
        if MarkedString(c, value) then Ok(([Member(key, r.0)], true))
        else
          var rest :- CleanedMembers(c, members[1..], path);
          Ok(([Member(key, r.0)] + rest.0, r.1 || rest.1))
  }

  /** A string without a marker stays as it is, whatever its path. */
  function CleanedValue(c: Setup, value: Value, path: Path): Result<(Value, bool)>
    decreases value, 1
  {
    if value.Str? && !MarkedString(c, value) then Ok((value, false)) else Cleaned(c, value, path)
  }

  function CleanedItems(c: Setup, items: seq<Value>, path: Path): Result<(seq<Value>, bool)>
    decreases items
  {
    if items == [] then Ok(([], false))
    else if MarkedString(c, items[0]) then Ok(([], true))
    else
      var r :- Cleaned(c, items[0], path);
      var rest :- CleanedItems(c, items[1..], path);
      Ok(([r.0] + rest.0, r.1 || rest.1))
  }

  predicate MarkedString(c: Setup, j: Value) {
    j.Str? && Occurs(j.s, c.marker)
  }

  /** The member at `path + [key]` is left out. */
  predicate Drops(c: Setup, member: Member, path: Path) {
    Occurs(member.key, c.marker) || (MarkedString(c, member.value) && !c.KeepsMarked(path + [member.key]))
  }

  // ----- the shared path

  /** What a walk from `s` yields agrees with what passing the path down yields. */
  predicate Agrees<T(==)>(walked: Result<(T, State)>, cleaned: Result<(T, bool)>, s: State) {
    match cleaned
    case Err(e) => walked == Err(e)
    case Ok(r) => walked.Ok? && walked.value.0 == r.0 && walked.value.1.found == (s.found || r.1)
  }

  lemma {:induction false} MarkerLastRest(members: seq<Member>, marker: string)
    requires MarkerLast(Obj(members), marker) && members != []
    ensures MarkerLast(Obj(members[1..]), marker)
    ensures |members| > 1 ==> !MemberHasMarker(members[0], marker)
    ensures |members| == 1 ==> MemberMarkerLast(members[0], marker)
  {
    var rest := members[1..];
    forall i | 0 <= i < |rest| - 1 ensures !MemberHasMarker(rest[i], marker) {
      assert rest[i] == members[i + 1];
    }
  }

  lemma {:induction false} MarkerLastItems(items: seq<Value>, marker: string)
    requires MarkerLast(Arr(items), marker) && items != []
    ensures MarkerLast(Arr(items[1..]), marker)
    ensures |items| > 1 ==> !HasMarker(items[0], marker)
    ensures |items| == 1 ==> MarkerLast(items[0], marker)
  {
    var rest := items[1..];
    forall i | 0 <= i < |rest| - 1 ensures !HasMarker(rest[i], marker) {
      assert rest[i] == items[i + 1];
    }
  }

  lemma {:induction false} UnmarkedIsLast(j: Value, marker: string)
    requires !HasMarker(j, marker)
    ensures MarkerLast(j, marker)
  {
    match j
    case Obj(members) =>
      if members != [] {
        assert !MemberHasMarker(members[|members| - 1], marker);
        UnmarkedIsLast(members[|members| - 1].value, marker);
      }
    case Arr(items) =>
      if items != [] {
        UnmarkedIsLast(items[|items| - 1], marker);
      }
    case _ =>
  }
}
