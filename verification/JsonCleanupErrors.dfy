/** When the clean-up of a complete value fails, and when it leaves the value alone. */
module JsonCleanupErrors {
  import opened Results
  import opened Json
  import opened JsonCleanup
  import opened JsonCleanupLaws

  /** Where a value is in a tree: the number of the child to take at each level. */
  type Address = seq<nat>

  function Children(j: Value): nat {
    match j
    case Arr(items) => |items|
    case Obj(members) => |members|
    case _ => 0
  }

  function Child(j: Value, i: nat): (r: Value)
    requires i < Children(j)
    ensures r < j
  {
    match j
    case Arr(items) => items[i]
    case Obj(members) => members[i].value
  }

  function ChildPath(j: Value, i: nat, path: Path): Path
    requires i < Children(j)
  {
    if j.Obj? then path + [j.members[i].key] else path
  }

  predicate Has(j: Value, a: Address)
    decreases |a|
  {
    a == [] || (a[0] < Children(j) && Has(Child(j, a[0]), a[1..]))
  }

  function Sub(j: Value, a: Address): Value
    requires Has(j, a)
    decreases |a|
  {
    if a == [] then j else Sub(Child(j, a[0]), a[1..])
  }

  /** The keys on the way to `a`, after `path`. */
  function PathTo(j: Value, a: Address, path: Path): Path
    requires Has(j, a)
    decreases |a|
  {
    if a == [] then path else PathTo(Child(j, a[0]), a[1..], ChildPath(j, a[0], path))
  }

  lemma {:induction false} HasPrefix(j: Value, a: Address, n: nat)
    requires Has(j, a) && n <= |a|
    ensures Has(j, a[..n])
    decreases n
  {
    if n > 0 {
      HasPrefix(Child(j, a[0]), a[1..], n - 1);
      assert a[..n][1..] == a[1..][..n - 1];
    }
  }

  predicate Dumped(c: Setup, j: Value, a: Address, path: Path) {
    Has(j, a) && !Sub(j, a).Str? && c.IsArgs(PathTo(j, a, path))
  }

  /** A value that is not a string is at a content path, and neither it nor what holds it is dumped. */
  predicate Offends(c: Setup, j: Value, a: Address, path: Path) {
    && Has(j, a)
    && !Sub(j, a).Str?
    && c.IsContent(PathTo(j, a, path))
    && forall n :: 0 <= n <= |a| ==> !Dumped(c, j, a[..n], path)
  }

  lemma {:induction false} DumpedBelow(c: Setup, j: Value, i: nat, a: Address, path: Path)
    requires i < Children(j)
    ensures Dumped(c, j, [i] + a, path) <==> Dumped(c, Child(j, i), a, ChildPath(j, i, path))
  {
    assert ([i] + a)[1..] == a;
  }

  lemma {:induction false} OffendsBelow(c: Setup, j: Value, i: nat, a: Address, path: Path)
    requires i < Children(j)
    ensures Offends(c, j, [i] + a, path) <==> !c.IsArgs(path) && Offends(c, Child(j, i), a, ChildPath(j, i, path))
  {
    var b := [i] + a;
    assert b[1..] == a;
    assert b[..0] == [];
    assert Dumped(c, j, [], path) <==> c.IsArgs(path);
    if Offends(c, j, b, path) {
      assert !Dumped(c, j, b[..0], path);
      forall n | 0 <= n <= |a| ensures !Dumped(c, Child(j, i), a[..n], ChildPath(j, i, path)) {
        assert b[..n + 1] == [i] + a[..n];
        assert !Dumped(c, j, b[..n + 1], path);
        DumpedBelow(c, j, i, a[..n], path);
      }
    }
    if !c.IsArgs(path) && Offends(c, Child(j, i), a, ChildPath(j, i, path)) {
      forall n | 0 <= n <= |b| ensures !Dumped(c, j, b[..n], path) {
        if n > 0 {
          assert b[..n] == [i] + a[..n - 1];
          DumpedBelow(c, j, i, a[..n - 1], path);
        }
      }
    }
  }

  /** How a child of `j` is cleaned. */
  function CleanedChild(c: Setup, j: Value, i: nat, path: Path): Result<(Value, bool)>
    requires i < Children(j)
  {
    CleanedValue(c, Child(j, i), ChildPath(j, i, path))
  }

  lemma {:induction false} FirstMemberCleaned(c: Setup, members: seq<Member>, path: Path)
    requires members != [] && !MemberHasMarker(members[0], c.marker)
    ensures CleanedMembers(c, members, path).Err? <==>
            CleanedChild(c, Obj(members), 0, path).Err? || CleanedMembers(c, members[1..], path).Err?
  {
    assert !MarkedString(c, members[0].value);
    var r := CleanedValue(c, members[0].value, path + [members[0].key]);
    assert r == CleanedChild(c, Obj(members), 0, path);
  }

  lemma {:induction false} CleanedMembersFail(c: Setup, members: seq<Member>, path: Path)
    requires !HasMarker(Obj(members), c.marker)
    ensures CleanedMembers(c, members, path).Err? <==>
            exists i :: 0 <= i < |members| && CleanedChild(c, Obj(members), i, path).Err?
    decreases members
  {
    if members != [] {
      var rest := members[1..];
      assert !MemberHasMarker(members[0], c.marker);
      forall i | 0 <= i < |rest|
        ensures rest[i] == members[i + 1] && !MemberHasMarker(rest[i], c.marker)
        ensures CleanedChild(c, Obj(rest), i, path) == CleanedChild(c, Obj(members), i + 1, path)
      {
        assert rest[i] == members[i + 1];
      }
      CleanedMembersFail(c, rest, path);
      FirstMemberCleaned(c, members, path);
      forall i | 0 < i < |members|
        ensures CleanedChild(c, Obj(members), i, path) == CleanedChild(c, Obj(rest), i - 1, path)
      {
        assert rest[i - 1] == members[i];
      }
    }
  }

  lemma {:induction false} CleanedItemsFail(c: Setup, items: seq<Value>, path: Path)
    requires !HasMarker(Arr(items), c.marker) && !c.IsArgs(path) && !c.IsContent(path)
    ensures CleanedItems(c, items, path).Err? <==>
            exists i :: 0 <= i < |items| && CleanedChild(c, Arr(items), i, path).Err?
    decreases items
  {
    if items != [] {
      var rest := items[1..];
      forall i | 0 <= i < |rest|
        ensures rest[i] == items[i + 1] && !HasMarker(rest[i], c.marker)
        ensures CleanedChild(c, Arr(rest), i, path) == CleanedChild(c, Arr(items), i + 1, path)
      {
        assert rest[i] == items[i + 1];
      }
      CleanedItemsFail(c, rest, path);
      assert CleanedItems(c, items, path).Err? <==>
             CleanedChild(c, Arr(items), 0, path).Err? || CleanedItems(c, rest, path).Err?;
      forall i | 0 < i < |items|
        ensures CleanedChild(c, Arr(items), i, path) == CleanedChild(c, Arr(rest), i - 1, path)
      {
        assert rest[i - 1] == items[i];
      }
    }
  }

  lemma {:induction false} UnmarkedChild(j: Value, i: nat, marker: string)
    requires i < Children(j) && !HasMarker(j, marker)
    ensures !HasMarker(Child(j, i), marker)
  {
    if j.Obj? {
      assert !MemberHasMarker(j.members[i], marker);
    }
  }

  lemma {:induction false} OffenderFails(c: Setup, j: Value, a: Address, path: Path)
    requires !HasMarker(j, c.marker) && Offends(c, j, a, path)
    ensures Cleaned(c, j, path).Err?
    decreases |a|
  {
    assert a[..0] == [] && !Dumped(c, j, a[..0], path);
    if a != [] && !c.IsContent(path) {
      var i := a[0];
      assert a == [i] + a[1..];
      OffendsBelow(c, j, i, a[1..], path);
      UnmarkedChild(j, i, c.marker);
      OffenderFails(c, Child(j, i), a[1..], ChildPath(j, i, path));
      StringHasNoOffender(c, Child(j, i), a[1..], ChildPath(j, i, path));
      assert CleanedChild(c, j, i, path).Err?;
      match j
      case Obj(members) => CleanedMembersFail(c, members, path);
      case Arr(items) => CleanedItemsFail(c, items, path);
    }
  }

  lemma {:induction false} StringHasNoOffender(c: Setup, j: Value, a: Address, path: Path)
    requires Offends(c, j, a, path)
    ensures !j.Str?
  {
  }

  lemma {:induction false} FailureOffends(c: Setup, j: Value, path: Path) returns (a: Address)
    requires !HasMarker(j, c.marker) && Cleaned(c, j, path).Err?
    ensures Offends(c, j, a, path)
    decreases j
  {
    if c.IsContent(path) {
      a := [];
      assert a[..0] == [];
    } else {
      if j.Obj? {
        CleanedMembersFail(c, j.members, path);
      } else {
        CleanedItemsFail(c, j.items, path);
      }
      var i :| 0 <= i < Children(j) && CleanedChild(c, j, i, path).Err?;
      UnmarkedChild(j, i, c.marker);
      var rest := FailureOffends(c, Child(j, i), ChildPath(j, i, path));
      a := [i] + rest;
      OffendsBelow(c, j, i, rest, path);
    }
  }

  /** Cleaning a value without a marker fails exactly when a content path holds something else than a string, outside every dumped value. */
  lemma {:induction false} FailsExactly(c: Setup, j: Value, path: Path)
    requires !HasMarker(j, c.marker)
    ensures Cleaned(c, j, path).Err? <==> exists a :: Offends(c, j, a, path)
  {
    if Cleaned(c, j, path).Err? {
      var a := FailureOffends(c, j, path);
    }
    if a :| Offends(c, j, a, path) {
      OffenderFails(c, j, a, path);
    }
  }

  // ----- a value left alone

  /** No argument path holds anything but a string. */
  ghost predicate NothingDumped(c: Setup, j: Value, path: Path) {
    forall a :: !Dumped(c, j, a, path)
  }

  lemma {:induction false} NothingDumpedBelow(c: Setup, j: Value, i: nat, path: Path)
    requires i < Children(j) && NothingDumped(c, j, path)
    ensures NothingDumped(c, Child(j, i), ChildPath(j, i, path))
  {
    forall a ensures !Dumped(c, Child(j, i), a, ChildPath(j, i, path)) {
      DumpedBelow(c, j, i, a, path);
    }
  }

  lemma {:induction false} LeftAlone(c: Setup, j: Value, path: Path)
    requires !HasMarker(j, c.marker) && NothingDumped(c, j, path)
    requires j.Str? ==> !c.IsArgs(path) && !c.IsContent(path)
    ensures Cleaned(c, j, path).Ok? ==> Cleaned(c, j, path) == Ok((j, false))
    decreases j
  {
    assert !Dumped(c, j, [], path);
    if !c.IsArgs(path) && !c.IsContent(path) {
      forall i | 0 <= i < Children(j)
        ensures CleanedChild(c, j, i, path).Ok? ==> CleanedChild(c, j, i, path) == Ok((Child(j, i), false))
      {
        NothingDumpedBelow(c, j, i, path);
        UnmarkedChild(j, i, c.marker);
        if !Child(j, i).Str? {
          LeftAlone(c, Child(j, i), ChildPath(j, i, path));
        }
      }
      if j.Obj? {
        MembersLeftAlone(c, j.members, path);
      } else if j.Arr? {
        ItemsLeftAlone(c, j.items, path);
      }
    }
  }

  lemma {:induction false} FirstLeftAlone(c: Setup, members: seq<Member>, path: Path)
    requires members != [] && !MemberHasMarker(members[0], c.marker)
    requires var r := CleanedValue(c, members[0].value, path + [members[0].key]); r.Ok? ==> r == Ok((members[0].value, false))
    requires var r := CleanedMembers(c, members[1..], path); r.Ok? ==> r == Ok((members[1..], false))
    ensures CleanedMembers(c, members, path).Ok? ==> CleanedMembers(c, members, path) == Ok((members, false))
  {
    assert !Drops(c, members[0], path) && !MarkedString(c, members[0].value);
    assert members == [members[0]] + members[1..];
  }

  lemma {:induction false} MembersLeftAlone(c: Setup, members: seq<Member>, path: Path)
    requires !HasMarker(Obj(members), c.marker)
    requires forall i :: 0 <= i < |members| && CleanedChild(c, Obj(members), i, path).Ok? ==>
               CleanedChild(c, Obj(members), i, path) == Ok((members[i].value, false))
    ensures CleanedMembers(c, members, path).Ok? ==> CleanedMembers(c, members, path) == Ok((members, false))
    decreases members
  {
    if members != [] {
      var rest := members[1..];
      assert !MemberHasMarker(members[0], c.marker);
      forall i | 0 <= i < |rest|
        ensures rest[i] == members[i + 1] && !MemberHasMarker(rest[i], c.marker)
        ensures CleanedChild(c, Obj(rest), i, path) == CleanedChild(c, Obj(members), i + 1, path)
      {
        assert rest[i] == members[i + 1];
      }
      MembersLeftAlone(c, rest, path);
      assert CleanedChild(c, Obj(members), 0, path) == CleanedValue(c, members[0].value, path + [members[0].key]);
      FirstLeftAlone(c, members, path);
    }
  }

  lemma {:induction false} ItemsLeftAlone(c: Setup, items: seq<Value>, path: Path)
    requires !HasMarker(Arr(items), c.marker) && !c.IsArgs(path) && !c.IsContent(path)
    requires forall i :: 0 <= i < |items| && CleanedChild(c, Arr(items), i, path).Ok? ==>
               CleanedChild(c, Arr(items), i, path) == Ok((items[i], false))
    ensures CleanedItems(c, items, path).Ok? ==> CleanedItems(c, items, path) == Ok((items, false))
    decreases items
  {
    if items != [] {
      var rest := items[1..];
      forall i | 0 <= i < |rest|
        ensures rest[i] == items[i + 1] && !HasMarker(rest[i], c.marker)
        ensures CleanedChild(c, Arr(rest), i, path) == CleanedChild(c, Arr(items), i + 1, path)
      {
        assert rest[i] == items[i + 1];
      }
      ItemsLeftAlone(c, rest, path);
      assert items == [items[0]] + rest;
      assert CleanedChild(c, Arr(items), 0, path) == CleanedValue(c, items[0], path);
    }
  }
}
