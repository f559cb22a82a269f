/** Values for which the shared path of the clean-up does no harm, whatever the lists of paths. */
module JsonStranding {
  import opened Results
  import opened Strings
  import opened Json
  import opened JsonCleanup
  import opened JsonCleanupLaws
  import opened JsonSharedPath

  // ----- keys left on the path, and who meets them

  predicate IsMarked(j: Value, marker: string) {
    j.Str? && Occurs(j.s, marker)
  }

  /** The walk may stop at a marked string member, whose key then stays on the path. */
  predicate Strands(j: Value, marker: string)
    decreases j
  {
    match j
    case Obj(members) => MembersStrand(members, marker)
    case Arr(items) => ItemsStrand(items, marker)
    case _ => false
  }

  predicate MembersStrand(members: seq<Member>, marker: string)
    decreases members
  {
    if members == [] || Occurs(members[0].key, marker) then false
    else IsMarked(members[0].value, marker) || Strands(members[0].value, marker) || MembersStrand(members[1..], marker)
  }

  predicate ItemsStrand(items: seq<Value>, marker: string)
    decreases items
  {
    if items == [] || IsMarked(items[0], marker) then false
    else Strands(items[0], marker) || ItemsStrand(items[1..], marker)
  }

  /** Some value is cleaned before the walk stops: a marked string or a value that is no string. */
  predicate MembersVisited(members: seq<Member>, marker: string) {
    if members == [] || Occurs(members[0].key, marker) then false
    else if members[0].value.Str? && !IsMarked(members[0].value, marker) then MembersVisited(members[1..], marker)
    else true
  }

  /** Some item is cleaned. */
  predicate ItemsVisited(items: seq<Value>, marker: string) {
    items != [] && !IsMarked(items[0], marker)
  }

  /** Nothing is cleaned behind a child in which a key may stay on the path. */
  predicate Harmless(j: Value, marker: string)
    decreases j
  {
    match j
    case Obj(members) => MembersHarmless(members, marker)
    case Arr(items) => ItemsHarmless(items, marker)
    case _ => true
  }

  predicate MembersHarmless(members: seq<Member>, marker: string)
    decreases members
  {
    if members == [] || Occurs(members[0].key, marker) || IsMarked(members[0].value, marker) then true
    else
      && Harmless(members[0].value, marker) && MembersHarmless(members[1..], marker)
      && (Strands(members[0].value, marker) ==> !MembersVisited(members[1..], marker))
  }

  predicate ItemsHarmless(items: seq<Value>, marker: string)
    decreases items
  {
    if items == [] || IsMarked(items[0], marker) then true
    else
      && Harmless(items[0], marker) && ItemsHarmless(items[1..], marker)
      && (Strands(items[0], marker) ==> !ItemsVisited(items[1..], marker))
  }

  // ----- harmless values

  lemma {:induction false} PathKept(c: Setup, j: Value, q: Path)
    requires !Strands(j, c.marker)
    ensures PathAfter(c, j, q) == q
    decreases j
  {
    match j
    case Obj(members) => MembersKeepPath(c, members, q);
    case Arr(items) => ItemsKeepPath(c, items, q);
    case _ =>
  }

  lemma {:induction false} MembersKeepPath(c: Setup, members: seq<Member>, q: Path)
    requires !MembersStrand(members, c.marker)
    ensures PathAfterMembers(c, members, q) == q
    decreases members
  {
    if members != [] && !Occurs(members[0].key, c.marker) {
      PathKept(c, members[0].value, q + [members[0].key]);
      assert Popped(q + [members[0].key]) == q;
      MembersKeepPath(c, members[1..], q);
    }
  }

  lemma {:induction false} ItemsKeepPath(c: Setup, items: seq<Value>, q: Path)
    requires !ItemsStrand(items, c.marker)
    ensures PathAfterItems(c, items, q) == q
    decreases items
  {
    if items != [] && !IsMarked(items[0], c.marker) {
      PathKept(c, items[0], q);
      ItemsKeepPath(c, items[1..], q);
    }
  }

  lemma {:induction false} UnvisitedAlike(c: Setup, members: seq<Member>, p: Path, q: Path)
    requires !MembersVisited(members, c.marker)
    ensures AlikeMembers(c, members, p, q)
    decreases |members|
  {
    if members != [] && !Occurs(members[0].key, c.marker) {
      UnvisitedAlike(c, members[1..], p, q);
    }
  }

  lemma {:induction false} HarmlessIsAlike(c: Setup, j: Value, p: Path)
    requires Harmless(j, c.marker)
    ensures Alike(c, j, p, p)
    decreases j
  {
    match j
    case Obj(members) => MembersHarmlessAlike(c, members, p);
    case Arr(items) => ItemsHarmlessAlike(c, items, p);
    case _ =>
  }

  lemma {:induction false} MembersHarmlessAlike(c: Setup, members: seq<Member>, p: Path)
    requires MembersHarmless(members, c.marker)
    ensures AlikeMembers(c, members, p, p)
    decreases members
  {
    if members != [] && !Occurs(members[0].key, c.marker) && !IsMarked(members[0].value, c.marker) {
      var Member(key, value) := members[0];
      HarmlessIsAlike(c, value, p + [key]);
      if Strands(value, c.marker) {
        UnvisitedAlike(c, members[1..], p, Popped(PathAfter(c, value, p + [key])));
      } else {
        PathKept(c, value, p + [key]);
        assert Popped(p + [key]) == p;
        MembersHarmlessAlike(c, members[1..], p);
      }
    }
  }

  lemma {:induction false} ItemsHarmlessAlike(c: Setup, items: seq<Value>, p: Path)
    requires ItemsHarmless(items, c.marker)
    ensures AlikeItems(c, items, p, p)
    decreases items
  {
    if items != [] && !IsMarked(items[0], c.marker) {
      HarmlessIsAlike(c, items[0], p);
      if !Strands(items[0], c.marker) {
        PathKept(c, items[0], p);
        ItemsHarmlessAlike(c, items[1..], p);
      }
    }
  }

  /** A value is cleaned as if the path were passed down, whatever the lists, if nothing is cleaned behind a key that stays. */
  lemma {:induction false} WalkIsCleaned(c: Setup, j: Value, s: State)
    requires Harmless(j, c.marker)
    ensures Agrees(Walk(c, j, s), Cleaned(c, j, s.path), s)
  {
    HarmlessIsAlike(c, j, s.path);
    SharedPathExact(c, j, s);
  }

  // ----- the marker in one place

  lemma {:induction false} UnmarkedIsHarmless(j: Value, marker: string)
    requires !HasMarker(j, marker)
    ensures !Strands(j, marker) && Harmless(j, marker)
    decreases j
  {
    match j
    case Obj(members) => UnmarkedMembersHarmless(members, marker);
    case Arr(items) => UnmarkedItemsHarmless(items, marker);
    case _ =>
  }

  lemma {:induction false} UnmarkedMembersHarmless(members: seq<Member>, marker: string)
    requires forall i :: 0 <= i < |members| ==> !MemberHasMarker(members[i], marker)
    ensures !MembersStrand(members, marker) && MembersHarmless(members, marker)
    decreases members
  {
    if members != [] {
      assert !MemberHasMarker(members[0], marker);
      UnmarkedIsHarmless(members[0].value, marker);
      UnmarkedMembersHarmless(members[1..], marker);
    }
  }

  lemma {:induction false} UnmarkedItemsHarmless(items: seq<Value>, marker: string)
    requires forall i :: 0 <= i < |items| ==> !HasMarker(items[i], marker)
    ensures !ItemsStrand(items, marker) && ItemsHarmless(items, marker)
    decreases items
  {
    if items != [] {
      UnmarkedIsHarmless(items[0], marker);
      UnmarkedItemsHarmless(items[1..], marker);
    }
  }

  /** A value of which only the last key or string has the marker is harmless. */
  lemma {:induction false} MarkerLastIsHarmless(j: Value, marker: string)
    requires MarkerLast(j, marker)
    ensures Harmless(j, marker)
    decreases j
  {
    match j
    case Obj(members) => LastMemberHarmless(members, marker);
    case Arr(items) => LastItemHarmless(items, marker);
    case _ =>
  }

  lemma {:induction false} LastMemberHarmless(members: seq<Member>, marker: string)
    requires MarkerLast(Obj(members), marker)
    ensures MembersHarmless(members, marker)
    decreases members
  {
    if members != [] && !Occurs(members[0].key, marker) {
      MarkerLastRest(members, marker);
      LastMemberHarmless(members[1..], marker);
      if |members| > 1 {
        UnmarkedIsHarmless(members[0].value, marker);
      } else {
        MarkerLastIsHarmless(members[0].value, marker);
      }
    }
  }

  lemma {:induction false} LastItemHarmless(items: seq<Value>, marker: string)
    requires MarkerLast(Arr(items), marker)
    ensures ItemsHarmless(items, marker)
    decreases items
  {
    if items != [] {
      MarkerLastItems(items, marker);
      LastItemHarmless(items[1..], marker);
      if |items| > 1 {
        UnmarkedIsHarmless(items[0], marker);
      } else {
        MarkerLastIsHarmless(items[0], marker);
      }
    }
  }

  // ----- a key that stays and is met, but never seen

  /** `[{"a":{"b":s}},x]`, where `x` is no string. */
  function Nested(s: string, x: Value): Value {
    Arr([Outer(s), x])
  }

  function Outer(s: string): Value {
    Obj([Member("a", Inner(s))])
  }

  function Inner(s: string): Value {
    Obj([Member("b", Str(s))])
  }

  lemma {:induction false} NestedStrands(s: string, marker: string)
    requires Occurs(s, marker) && !Occurs("a", marker) && !Occurs("b", marker)
    ensures Strands(Outer(s), marker) && Harmless(Outer(s), marker)
  {
    var inner, outer := Inner(s).members, Outer(s).members;
    assert MembersStrand(inner, marker) && MembersHarmless(inner, marker);
    assert outer[1..] == [] && !MembersVisited(outer[1..], marker);
    assert MembersStrand(outer, marker) && MembersHarmless(outer, marker);
  }

  lemma {:induction false} NestedPath(c: Setup, s: string, p: Path)
    requires Occurs(s, c.marker) && !Occurs("a", c.marker) && !Occurs("b", c.marker)
    ensures PathAfter(c, Outer(s), p) == p ||
            (PathAfter(c, Outer(s), p) == p + ["a"] && !c.IsArgs(p + ["a"]) && !c.IsContent(p + ["a"]))
  {
    var inner, outer := Inner(s).members, Outer(s).members;
    assert outer[1..] == [];
    assert Popped(p + ["a"]) == p && Popped(p + ["a"] + ["b"]) == p + ["a"];
    assert PathAfterMembers(c, inner, p + ["a"]) == p + ["a"] + ["b"];
    assert PathAfterMembers(c, outer, p) == PathAfterMembers(c, outer[1..], Popped(PathAfter(c, Inner(s), p + ["a"])));
  }

  /** Here the number may be cleaned at a wrong path, and yet no list can tell: one with that path dumps, or refuses, the object
      in which the key would have stayed. So a value that is not harmless need not come to harm. */
  lemma {:induction false} HiddenStrand(c: Setup, s: string, text: string, p: Path)
    requires Occurs(s, c.marker) && !Occurs("a", c.marker) && !Occurs("b", c.marker)
    ensures !Harmless(Nested(s, Number(text)), c.marker) && Alike(c, Nested(s, Number(text)), p, p)
  {
    var items := [Outer(s), Number(text)];
    NestedStrands(s, c.marker);
    NestedPath(c, s, p);
    HarmlessIsAlike(c, Outer(s), p);
    assert items[1..] == [Number(text)];
    assert ItemsVisited(items[1..], c.marker) && !ItemsHarmless(items, c.marker);
    if !c.IsArgs(p) && !c.IsContent(p) {
      var q := PathAfter(c, Outer(s), p);
      assert Alike(c, Number(text), p, q);
      assert AlikeItems(c, items[1..], p, q);
      assert AlikeItems(c, items, p, p);
    }
  }
}
