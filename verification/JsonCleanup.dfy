/** Removing healed fragments from a JSON value and dumping the values at argument paths. */
module JsonCleanup {
  import opened Results
  import opened Strings
  import opened Json

  type Path = seq<string>

  /** How the value was completed: not at all, or at one marker that follows `prefix` in the dump. */
  datatype Healing = Whole | Cut(prefix: string)

  datatype Setup = Setup(marker: string, healing: Healing, isPartial: bool, argsPaths: seq<Path>, contentPaths: seq<Path>)
  {
    /** Empty if nothing was completed. */
    function RawMarker(): string {
      if healing.Whole? then "" else marker
    }

    function DumpMarker(): string {
      if healing.Whole? then "" else healing.prefix + marker
    }

    predicate IsArgs(path: Path) {
      path in argsPaths
    }

    predicate IsContent(path: Path) {
      path in contentPaths
    }

    /** A marked string is kept, up to the marker, only at a content path and if the text broke off inside it. */
    predicate KeepsMarked(path: Path) {
      IsContent(path) && RawMarker() == DumpMarker()
    }
  }

  const CONTENT_ERROR := "Content path must be a string"

  /** A string, and whether something was cut off it. */
  datatype Text = Text(s: string, cut: bool)

  function CutAt(s: string, marker: string): Text {
    var idx := Find(s, marker, 0);
    if idx.Some? then Text(s[..idx.value], true) else Text(s, false)
  }

  /** What an argument path is given for `j`. */
  function ArgsText(c: Setup, j: Value): Text {
    if c.isPartial && c.RawMarker() != "" then
      var text := CutAt(Dump(j), c.DumpMarker());
      if text.s == "\"" then text.(s := "") else text
    else Text(Dump(j), false)
  }

  // ----- the walk with its shared path

  datatype State = State(path: Path, found: bool) {
    function Noting(cut: bool): State {
      this.(found := found || cut)
    }
  }

  function Walk(c: Setup, j: Value, s: State): Result<(Value, State)>
    decreases j
  {
    if c.IsArgs(s.path) then
      var text := ArgsText(c, j);
      Ok((Str(text.s), s.Noting(text.cut)))
    else if c.IsContent(s.path) then
      if !j.Str? then Err(CONTENT_ERROR)
      else
        var text := CutAt(j.s, c.RawMarker());
        Ok((Str(text.s), s.Noting(text.cut)))
    else
      match j
      case Obj(members) =>
        var r :- WalkMembers(c, members, s);
        Ok((Obj(r.0), r.1))
      case Arr(items) =>
        var r :- WalkItems(c, items, s);
        Ok((Arr(r.0), r.1))
      case _ => Ok((j, s))
  }

  function WalkMembers(c: Setup, members: seq<Member>, s: State): Result<(seq<Member>, State)>
    decreases members
  {
    if members == [] then Ok(([], s))
    else
      var Member(key, value) := members[0];
      var inside := s.(path := s.path + [key]);
      if Occurs(key, c.marker) then Ok(([], s.Noting(true)))
      else if value.Str? && Occurs(value.s, c.marker) then
        if c.KeepsMarked(inside.path) then
          var r :- Walk(c, value, inside.Noting(true));
          Ok(([Member(key, r.0)], r.1))
        else Ok(([], inside.Noting(true)))
      else
        var r :- if value.Str? then Ok((value, inside)) else Walk(c, value, inside);
        var rest :- WalkMembers(c, members[1..], r.1.(path := Popped(r.1.path)));
        Ok(([Member(key, r.0)] + rest.0, rest.1))
  }

  function Popped(path: Path): Path {
    if path == [] then [] else path[..|path| - 1]
  }

  function WalkItems(c: Setup, items: seq<Value>, s: State): Result<(seq<Value>, State)>
    decreases items
  {
    if items == [] then Ok(([], s))
    else if items[0].Str? && Occurs(items[0].s, c.marker) then Ok(([], s.Noting(true)))
    else
      var r :- Walk(c, items[0], s);
      var rest :- WalkItems(c, items[1..], r.1);
      Ok(([r.0] + rest.0, rest.1))
  }

  function Before<T>(xs: seq<T>, r: Result<(seq<T>, State)>): Result<(seq<T>, State)> {
    if r.Ok? then Ok((xs + r.value.0, r.value.1)) else r
  }

  lemma {:induction false} BeforeSnoc<T>(xs: seq<T>, x: T, r: Result<(seq<T>, State)>)
    ensures Before(xs + [x], r) == Before(xs, Before([x], r))
  {
    if r.Ok? {
      assert xs + [x] + r.value.0 == xs + ([x] + r.value.0);
    }
  }

  lemma {:induction false} BeforeNothing<T>(r: Result<(seq<T>, State)>)
    ensures Before([], r) == r
  {
    if r.Ok? {
      assert [] + r.value.0 == r.value.0;
    }
  }

  lemma {:induction false} BeforeAll<T>(xs: seq<T>, s: State)
    ensures Before(xs, Ok(([], s))) == Ok((xs, s))
  {
    assert xs + [] == xs;
  }

  // ----- the path only grows

  lemma {:induction false} WalkExtendsPath(c: Setup, j: Value, s: State)
    ensures Walk(c, j, s).Ok? ==> s.path <= Walk(c, j, s).value.1.path
    decreases j
  {
    match j
    case Obj(members) => MembersExtendPath(c, members, s);
    case Arr(items) => ItemsExtendPath(c, items, s);
    case _ =>
  }

  lemma {:induction false} MembersExtendPath(c: Setup, members: seq<Member>, s: State)
    ensures WalkMembers(c, members, s).Ok? ==> s.path <= WalkMembers(c, members, s).value.1.path
    decreases members
  {
    if members != [] {
      var Member(key, value) := members[0];
      var inside := s.(path := s.path + [key]);
      WalkExtendsPath(c, value, inside);
      WalkExtendsPath(c, value, inside.Noting(true));
      var r := if value.Str? then Ok((value, inside)) else Walk(c, value, inside);
      if r.Ok? {
        var out := r.value.1;
        MembersExtendPath(c, members[1..], out.(path := Popped(out.path)));
      }
    }
  }

  lemma {:induction false} ItemsExtendPath(c: Setup, items: seq<Value>, s: State)
    ensures WalkItems(c, items, s).Ok? ==> s.path <= WalkItems(c, items, s).value.1.path
    decreases items
  {
    if items != [] {
      WalkExtendsPath(c, items[0], s);
      var r := Walk(c, items[0], s);
      if r.Ok? {
        ItemsExtendPath(c, items[1..], r.value.1);
      }
    }
  }

  /** The recursive function of the clean-up, with the variables it shares. */
  class Cleaner {
    const c: Setup
    var path: Path
    var foundHealingMarker: bool

    constructor (c: Setup)
      ensures this.c == c && path == [] && !foundHealingMarker
    {
      this.c := c;
      path := [];
      foundHealingMarker := false;
    }

    function Now(): State
      reads this
    {
      State(path, foundHealingMarker)
    }

    function Outcome<T>(r: Result<T>): Result<(T, State)>
      reads this
    {
      if r.Ok? then Ok((r.value, Now())) else Err(r.error)
    }

    method Clean(j: Value) returns (r: Result<Value>)
      modifies this
      ensures Outcome(r) == Walk(c, j, old(Now()))
      decreases j
    {
      if c.IsArgs(path) {
        var arguments := Dump(j);
        if c.isPartial && c.RawMarker() != "" {
          var idx := Find(arguments, c.DumpMarker(), 0);
          if idx.Some? {
            arguments := arguments[..idx.value];
            foundHealingMarker := true;
          }
          if arguments == "\"" {
            arguments := "";
          }
        }
        return Ok(Str(arguments));
      }
      if c.IsContent(path) {
        if !j.Str? {
          return Err(CONTENT_ERROR);
        }
        var s := j.s;
        var idx := Find(s, c.RawMarker(), 0);
        if idx.Some? {
          s := s[..idx.value];
          foundHealingMarker := true;
        }
        return Ok(Str(s));
      }
      if j.Obj? {
        var obj :- CleanMembers(j.members);
        return Ok(Obj(obj));
      }
      if j.Arr? {
        var arr :- CleanItems(j.items);
        return Ok(Arr(arr));
      }
      return Ok(j);
    }

    method CleanMembers(members: seq<Member>) returns (r: Result<seq<Member>>)
      modifies this
      ensures Outcome(r) == WalkMembers(c, members, old(Now()))
      decreases members
    {
      var obj: seq<Member> := [];
      var i := 0;
      ghost var whole := WalkMembers(c, members, Now());
      BeforeNothing(whole);
      assert members[0..] == members;
      while i < |members|
        invariant 0 <= i <= |members|
        invariant whole == Before(obj, WalkMembers(c, members[i..], Now()))
      {
        var key, value := members[i].key, members[i].value;
        ghost var rest, start := members[i + 1..], Now();
        assert members[i..][1..] == rest;
        if Occurs(key, c.marker) {
          foundHealingMarker := true;
          BeforeAll(obj, Now());
          return Ok(obj);
        }
        path := path + [key];
        if value.Str? {
          if Occurs(value.s, c.marker) {
            foundHealingMarker := true;
            if c.IsContent(path) {
              if c.RawMarker() == c.DumpMarker() {
                var cleaned :- Clean(value);
                obj := obj + [Member(key, cleaned)];
                return Ok(obj);
              }
            }
            BeforeAll(obj, Now());
            return Ok(obj);
          }
          BeforeSnoc(obj, Member(key, value), WalkMembers(c, rest, start));
          obj := obj + [Member(key, value)];
        } else {
          WalkExtendsPath(c, value, Now());
          var cleaned :- Clean(value);
          BeforeSnoc(obj, Member(key, cleaned), WalkMembers(c, rest, Now().(path := Popped(path))));
          obj := obj + [Member(key, cleaned)];
        }
        path := path[..|path| - 1];
        i := i + 1;
      }
      BeforeAll(obj, Now());
      r := Ok(obj);
    }

    method CleanItems(items: seq<Value>) returns (r: Result<seq<Value>>)
      modifies this
      ensures Outcome(r) == WalkItems(c, items, old(Now()))
      decreases items
    {
      var arr: seq<Value> := [];
      var i := 0;
      ghost var whole := WalkItems(c, items, Now());
      BeforeNothing(whole);
      assert items[0..] == items;
      while i < |items|
        invariant 0 <= i <= |items|
        invariant whole == Before(arr, WalkItems(c, items[i..], Now()))
      {
        var value := items[i];
        assert items[i..][1..] == items[i + 1..];
        if value.Str? {
          if Occurs(value.s, c.marker) {
            foundHealingMarker := true;
            BeforeAll(arr, Now());
            return Ok(arr);
          }
        }
        var cleaned :- Clean(value);
        BeforeSnoc(arr, cleaned, WalkItems(c, items[i + 1..], Now()));
        arr := arr + [cleaned];
        i := i + 1;
      }
      BeforeAll(arr, Now());
      r := Ok(arr);
    }
  }
}
