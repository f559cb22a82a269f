/** What the caller of the clean-up is given. */
module JsonConsumption {
  import opened Results
  import opened Strings
  import opened Json
  import opened JsonCleanup
  import opened JsonCleanupLaws
  import opened JsonSharedPath
  import opened JsonStranding
  import opened JsonCleanupMeaning
  import opened JsonCleanupErrors
  import opened ChatParser

  /** An object or array comes back without a marker, and is reported partial exactly if it had one. */
  lemma {:induction false} ConsumedIsUnmarked(c: Setup, j: Value)
    requires (j.Obj? || j.Arr?) && Harmless(j, c.marker) && Honest(c, j, [])
    requires c.marker != "" && Digits(c.marker) && (c.healing.Whole? ==> !HasMarker(j, c.marker))
    ensures ConsumedJson(c, j).Ok? ==>
              && ConsumedJson(c, j).value.Some?
              && !HasMarker(ConsumedJson(c, j).value.value.value, c.marker)
              && ConsumedJson(c, j).value.value.isPartial == HasMarker(j, c.marker)
  {
    if c.healing.Whole? || c.isPartial {
      WalkIsCleaned(c, j, State([], false));
      CleanedIsUnmarked(c, j, []);
    }
  }

  /** A partial or whole object or array is kept but for the dumps, the cuts and a last marked child. */
  lemma {:induction false} ConsumedKeeps(c: Setup, j: Value)
    requires c.marker != "" && MarkerLast(j, c.marker) && (c.argsPaths == [] ==> c.healing.Cut?)
    requires c.healing.Whole? ==> !c.IsArgs([])
    ensures ConsumedJson(c, j).Ok? ==> ConsumedJson(c, j).value.Some? && Keeps(c, j, ConsumedJson(c, j).value.value.value, [])
  {
    MarkerLastIsHarmless(j, c.marker);
    WalkIsCleaned(c, j, State([], false));
    CleanedKeeps(c, j, []);
  }

  /** A complete value in which no argument path holds anything but a string comes back as it is. */
  lemma {:induction false} ConsumedUnchanged(c: Setup, j: Value)
    requires c.healing.Whole? && !HasMarker(j, c.marker) && NothingDumped(c, j, [])
    requires j.Str? ==> !c.IsArgs([]) && !c.IsContent([])
    ensures ConsumedJson(c, j).Ok? ==> ConsumedJson(c, j) == Ok(Some(Consumed(j, false)))
  {
    assert !Dumped(c, j, [], []);
    UnmarkedIsHarmless(j, c.marker);
    WalkIsCleaned(c, j, State([], false));
    LeftAlone(c, j, []);
  }

  /** Without cleaning: a value that was cut short although the input is complete is an error; a complete value is returned as it
      is if there are no argument paths, and as the string of its dump if the root is one. */
  lemma {:induction false} ConsumedWhole(c: Setup, j: Value)
    ensures c.healing.Cut? && !c.isPartial ==> ConsumedJson(c, j) == Err("JSON")
    ensures c.healing.Whole? && c.argsPaths == [] ==> ConsumedJson(c, j) == Ok(Some(Consumed(j, false)))
    ensures c.healing.Whole? && [] in c.argsPaths ==> ConsumedJson(c, j) == Ok(Some(Consumed(Str(Dump(j)), false)))
  {
  }

  /** Consuming a complete value fails exactly when there are argument paths and a content path holds something else than a string. */
  lemma {:induction false} ConsumingFailsExactly(c: Setup, j: Value)
    requires c.healing.Whole? && !HasMarker(j, c.marker)
    ensures ConsumedJson(c, j).Err? <==> c.argsPaths != [] && exists a :: Offends(c, j, a, [])
  {
    UnmarkedIsHarmless(j, c.marker);
    WalkIsCleaned(c, j, State([], false));
    FailsExactly(c, j, []);
  }

  // ----- when the shared path matters

  /** The same call with the path passed down. */
  function ConsumedPassing(c: Setup, j: Value): Result<Option<Consumed>> {
    if c.healing.Cut? && !c.isPartial then Err(JSON_ERROR)
    else if c.RawMarker() == "" && c.argsPaths == [] then Ok(Some(Consumed(j, false)))
    else if c.RawMarker() == "" && c.IsArgs([]) then Ok(Some(Consumed(Str(Dump(j)), false)))
    else
      var r :- Cleaned(c, j, []);
      Ok(Some(Consumed(r.0, r.1)))
  }

  /** The value is returned without being cleaned. */
  predicate TakenWhole(c: Setup) {
    c.RawMarker() == "" && (c.argsPaths == [] || c.IsArgs([]))
  }

  /** The call gives what passing the path down would exactly when it does not clean, when both fail, or when every value that
      the walk comes to is cleaned as at its own path. */
  lemma {:induction false} ConsumedExactly(c: Setup, j: Value)
    ensures ConsumedJson(c, j) == ConsumedPassing(c, j) <==>
            TakenWhole(c) || (ConsumedJson(c, j).Err? && ConsumedPassing(c, j).Err?) || Alike(c, j, [], [])
  {
    SharedPathExact(c, j, State([], false));
  }

  // ----- where the promise does not hold

  lemma {:induction false} EscapedIsNotShorter(s: string)
    ensures |Escaped(s)| >= |s|
  {
    if s != "" {
      EscapedIsNotShorter(s[1..]);
    }
  }

  /** A complete string at the root is searched for the empty marker if the root is a content path, and then comes back empty and partial. */
  lemma {:induction false} RootString(c: Setup, s: string)
    requires c.healing.Whole? && c.argsPaths != [] && !c.IsArgs([]) && c.IsContent([])
    ensures ConsumedJson(c, Str(s)) == Ok(Some(Consumed(Str(""), true)))
  {
    assert IsAt(s, "", 0);
    assert s[..0] == "";
  }

  /** A complete string at the root comes back as it is exactly if there are no argument paths or the root is in neither list of paths. */
  lemma {:induction false} RootStringExact(c: Setup, s: string)
    requires c.healing.Whole?
    ensures ConsumedJson(c, Str(s)) == Ok(Some(Consumed(Str(s), false))) <==>
            c.argsPaths == [] || (!c.IsArgs([]) && !c.IsContent([]))
  {
    EscapedIsNotShorter(s);
    assert |Quoted(s)| > |s|;
    if c.argsPaths != [] && !c.IsArgs([]) && c.IsContent([]) {
      RootString(c, s);
    }
  }

  // A complete input may spell the marker by escapes: `[{"a":"\u0031\u0032"},{"b":null}]` does not contain 12, but its first
  // string does once it is decoded. Below, the marker is 12 and "a", "b" is an argument path.

  const BEFORE_ONE := "[{\"a\":\"\\u003"
  const AFTER_ONE := "\\u0032\"},{\"b\":null}]"

  lemma {:induction false} TwelveIsNotInside(x: string, y: string)
    requires '1' !in x && '1' !in y && (y != "" ==> y[0] != '2')
    ensures !Occurs(x + ['1'] + y, ['1', '2'])
  {
    var s := x + ['1'] + y;
    forall i: nat ensures !IsAt(s, ['1', '2'], i) {
      if i + 2 <= |s| {
        assert s[i..i + 2] == [s[i], s[i + 1]];
        assert i < |x| ==> s[i] == x[i];
        assert i > |x| ==> s[i] == y[i - |x| - 1];
        assert i == |x| ==> s[i + 1] == y[0];
      }
    }
  }

  /** The input does not contain the marker. */
  lemma {:induction false} MarkerNotInInput()
    ensures !Occurs(BEFORE_ONE + ['1'] + AFTER_ONE, ['1', '2'])
  {
    TwelveIsNotInside(BEFORE_ONE, AFTER_ONE);
  }

  function StaleSetup(isPartial: bool): Setup {
    Setup(['1', '2'], Whole, isPartial, [["a", "b"]], [])
  }

  /** The first object of the decoded input, with the marker. */
  function Marked(): Value {
    Obj([Member("a", Str(['1', '2']))])
  }

  /** The second object. */
  function After(value: Value): Value {
    Obj([Member("b", value)])
  }

  lemma {:induction false} MarkerFound()
    ensures Occurs(['1', '2'], ['1', '2']) && !Occurs("a", ['1', '2']) && !Occurs("b", ['1', '2'])
  {
    assert IsAt(['1', '2'], ['1', '2'], 0);
  }

  lemma {:induction false} FreshSecond(c: Setup)
    requires c.marker == ['1', '2'] && c.argsPaths == [["a", "b"]] && c.contentPaths == []
    ensures Cleaned(c, After(Null), []) == Ok((After(Null), false))
  {
    var members := [Member("b", Null)];
    MarkerFound();
    assert [] + ["b"] == ["b"] && members[1..] == [] && members + [] == members;
    assert CleanedValue(c, Null, ["b"]) == Ok((Null, false));
    assert CleanedMembers(c, members[1..], []) == Ok(([], false));
    assert CleanedMembers(c, members, []) == Ok((members, false));
  }

  /** Passing the path down leaves the second object alone. */
  lemma {:induction false} FreshPath(c: Setup)
    requires c == StaleSetup(c.isPartial)
    ensures Cleaned(c, Arr([Marked(), After(Null)]), []) == Ok((Arr([Obj([]), After(Null)]), true))
  {
    var items, rest := [Marked(), After(Null)], [After(Null)];
    MarkerFound();
    assert [] + ["a"] == ["a"] && items[1..] == rest && rest[1..] == [];
    FreshSecond(c);
    assert CleanedMembers(c, Marked().members, []) == Ok(([], true));
    assert CleanedItems(c, [], []) == Ok(([], false));
    assert rest + [] == rest;
    assert CleanedItems(c, rest, []) == Ok((rest, false));
    assert [Obj([])] + rest == [Obj([]), After(Null)];
  }

  lemma {:induction false} StaleSecond(c: Setup)
    requires c == StaleSetup(c.isPartial)
    ensures Walk(c, After(Null), State(["a"], true)) == Ok((After(Str("null")), State(["a"], true)))
  {
    var members, dumped := [Member("b", Null)], [Member("b", Str("null"))];
    var inside := State(["a", "b"], true);
    MarkerFound();
    assert ["a"] + ["b"] == ["a", "b"] == c.argsPaths[0] && members[1..] == [] && dumped + [] == dumped;
    assert Walk(c, Null, inside) == Ok((Str("null"), inside));
    assert Popped(inside.path) == ["a"];
    assert WalkMembers(c, members[1..], State(["a"], true)) == Ok(([], State(["a"], true)));
    assert WalkMembers(c, members, State(["a"], true)) == Ok((dumped, State(["a"], true)));
  }

  lemma {:induction false} StaleRest(c: Setup)
    requires c == StaleSetup(c.isPartial)
    ensures WalkItems(c, [After(Null)], State(["a"], true)) == Ok(([After(Str("null"))], State(["a"], true)))
  {
    var rest, dumped := [After(Null)], [After(Str("null"))];
    assert rest[1..] == [] && dumped + [] == dumped;
    StaleSecond(c);
    assert WalkItems(c, [], State(["a"], true)) == Ok(([], State(["a"], true)));
  }

  /** The walk cleans the second object at the path that the marked member left behind, and dumps its value; with the path passed
      down it is left alone. */
  lemma {:induction false} StalePath(c: Setup)
    requires c == StaleSetup(c.isPartial)
    ensures ConsumedJson(c, Arr([Marked(), After(Null)])) == Ok(Some(Consumed(Arr([Obj([]), After(Str("null"))]), true)))
    ensures ConsumedPassing(c, Arr([Marked(), After(Null)])) == Ok(Some(Consumed(Arr([Obj([]), After(Null)]), true)))
  {
    FreshPath(c);
    var items := [Marked(), After(Null)];
    MarkerFound();
    assert [] + ["a"] == ["a"] && items[1..] == [After(Null)];
    StaleRest(c);
    assert WalkMembers(c, Marked().members, State([], false)) == Ok(([], State(["a"], true)));
    assert [Obj([])] + [After(Str("null"))] == [Obj([]), After(Str("null"))];
    assert Walk(c, Arr(items), State([], false)) == Ok((Arr([Obj([]), After(Str("null"))]), State(["a"], true)));
  }
}
