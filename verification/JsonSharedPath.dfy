/** When the shared path of the clean-up matters: a key that stays on it makes later values be cleaned at a wrong path. */
module JsonSharedPath {
  import opened Results
  import opened Strings
  import opened Json
  import opened JsonCleanup
  import opened JsonCleanupLaws

  // ----- where the shared path leads

  /** The shared path after `j` has been cleaned at `q`: a marked string member leaves its key there. */
  function PathAfter(c: Setup, j: Value, q: Path): Path
    decreases j
  {
    if c.IsArgs(q) || c.IsContent(q) then q
    else
      match j
      case Obj(members) => PathAfterMembers(c, members, q)
      case Arr(items) => PathAfterItems(c, items, q)
      case _ => q
  }

  function PathAfterMembers(c: Setup, members: seq<Member>, q: Path): Path
    decreases members
  {
    if members == [] || Occurs(members[0].key, c.marker) then q
    else
      var Member(key, value) := members[0];
      if MarkedString(c, value) then q + [key]
      else if value.Str? then PathAfterMembers(c, members[1..], q)
      else PathAfterMembers(c, members[1..], Popped(PathAfter(c, value, q + [key])))
  }

  function PathAfterItems(c: Setup, items: seq<Value>, q: Path): Path
    decreases items
  {
    if items == [] || MarkedString(c, items[0]) then q
    else PathAfterItems(c, items[1..], PathAfter(c, items[0], q))
  }

  /** The walk leaves that path, and has found a marker if a key is left on it. */
  predicate Leaves<T>(walked: Result<(T, State)>, q: Path, s: State) {
    walked.Ok? ==>
      && walked.value.1.path == q
      && (s.found || q != s.path ==> walked.value.1.found)
  }

  lemma {:induction false} WalkLeaves(c: Setup, j: Value, s: State)
    ensures Leaves(Walk(c, j, s), PathAfter(c, j, s.path), s)
    decreases j
  {
    if !c.IsArgs(s.path) && !c.IsContent(s.path) {
      match j
      case Obj(members) => MembersLeave(c, members, s);
      case Arr(items) => ItemsLeave(c, items, s);
      case _ =>
    }
  }

  lemma {:induction false} MembersLeave(c: Setup, members: seq<Member>, s: State)
    ensures Leaves(WalkMembers(c, members, s), PathAfterMembers(c, members, s.path), s)
    decreases members
  {
    if members != [] && !Occurs(members[0].key, c.marker) && !MarkedString(c, members[0].value) {
      var Member(key, value) := members[0];
      var inside := s.(path := s.path + [key]);
      assert Popped(inside.path) == s.path;
      if value.Str? {
        MembersLeave(c, members[1..], s);
      } else {
        WalkLeaves(c, value, inside);
        var r := Walk(c, value, inside);
        if r.Ok? {
          MembersLeave(c, members[1..], r.value.1.(path := Popped(r.value.1.path)));
        }
      }
    }
  }

  lemma {:induction false} ItemsLeave(c: Setup, items: seq<Value>, s: State)
    ensures Leaves(WalkItems(c, items, s), PathAfterItems(c, items, s.path), s)
    decreases items
  {
    if items != [] && !MarkedString(c, items[0]) {
      WalkLeaves(c, items[0], s);
      var r := Walk(c, items[0], s);
      if r.Ok? {
        ItemsLeave(c, items[1..], r.value.1);
      }
    }
  }

  // ----- what the wrong path changes

  /** What a string is replaced by at a path. */
  function TextAt(c: Setup, s: string, path: Path): string {
    if c.IsArgs(path) then ArgsText(c, Str(s)).s
    else if c.IsContent(path) then CutAt(s, c.RawMarker()).s
    else s
  }

  /** Cleaning `j` at the shared path `q` is the same as at its own path `p`: every value that the walk comes to is on the
      same lists at both, or is a string that both replace by the same. */
  predicate Alike(c: Setup, j: Value, p: Path, q: Path)
    decreases j
  {
    if j.Str? then TextAt(c, j.s, p) == TextAt(c, j.s, q)
    else if c.IsArgs(p) || c.IsArgs(q) then c.IsArgs(p) && c.IsArgs(q)
    else if c.IsContent(p) || c.IsContent(q) then c.IsContent(p) && c.IsContent(q)
    else
      match j
      case Obj(members) => AlikeMembers(c, members, p, q)
      case Arr(items) => AlikeItems(c, items, p, q)
      case _ => true
  }

  predicate AlikeMembers(c: Setup, members: seq<Member>, p: Path, q: Path)
    decreases members
  {
    if members == [] || Occurs(members[0].key, c.marker) then true
    else
      var Member(key, value) := members[0];
      if MarkedString(c, value) then AlikeMarked(c, value.s, p + [key], q + [key])
      else if value.Str? then AlikeMembers(c, members[1..], p, q)
      else Alike(c, value, p + [key], q + [key]) && AlikeMembers(c, members[1..], p, Popped(PathAfter(c, value, q + [key])))
  }

  predicate AlikeItems(c: Setup, items: seq<Value>, p: Path, q: Path)
    decreases items
  {
    if items == [] || MarkedString(c, items[0]) then true
    else Alike(c, items[0], p, q) && AlikeItems(c, items[1..], p, PathAfter(c, items[0], q))
  }

  /** A marked string member is left out at both paths, or replaced by the same. */
  predicate AlikeMarked(c: Setup, s: string, p: Path, q: Path) {
    c.KeepsMarked(p) == c.KeepsMarked(q) && (c.KeepsMarked(p) ==> TextAt(c, s, p) == TextAt(c, s, q))
  }

  /** Two results that are equal if both are values and `alike`, and are both errors or neither is if `alike`. */
  predicate Compared<T(==)>(walked: Result<(T, State)>, cleaned: Result<(T, bool)>, alike: bool, s: State) {
    && (alike ==> (walked.Err? <==> cleaned.Err?))
    && (walked.Ok? && cleaned.Ok? ==> (alike <==> walked.value.0 == cleaned.value.0))
    && (walked.Ok? && cleaned.Ok? && alike ==> walked.value.1.found == (s.found || cleaned.value.1))
  }

  /** The shared path is right, or a marker has been found. */
  predicate OnTrack(p: Path, s: State) {
    s.path == p || s.found
  }

  lemma {:induction false} CompareText(c: Setup, j: Value, p: Path, s: State)
    requires OnTrack(p, s) && j.Str?
    ensures Compared(Walk(c, j, s), Cleaned(c, j, p), TextAt(c, j.s, p) == TextAt(c, j.s, s.path), s)
  {
    TextWalked(c, j, s);
    TextCleaned(c, j, p);
  }

  /** Whether a string is cut at a path. */
  function CutsAt(c: Setup, s: string, path: Path): bool {
    if c.IsArgs(path) then ArgsText(c, Str(s)).cut else c.IsContent(path) && CutAt(s, c.RawMarker()).cut
  }

  lemma {:induction false} TextWalked(c: Setup, j: Value, s: State)
    requires j.Str?
    ensures Walk(c, j, s) == Ok((Str(TextAt(c, j.s, s.path)), s.Noting(CutsAt(c, j.s, s.path))))
  {
  }

  lemma {:induction false} TextCleaned(c: Setup, j: Value, p: Path)
    requires j.Str?
    ensures Cleaned(c, j, p) == Ok((Str(TextAt(c, j.s, p)), CutsAt(c, j.s, p)))
  {
  }

  lemma {:induction false} Compare(c: Setup, j: Value, p: Path, s: State)
    requires OnTrack(p, s)
    ensures Compared(Walk(c, j, s), Cleaned(c, j, p), Alike(c, j, p, s.path), s)
    decreases j
  {
    if j.Str? {
      CompareText(c, j, p, s);
    } else if !c.IsArgs(p) && !c.IsArgs(s.path) && !c.IsContent(p) && !c.IsContent(s.path) {
      match j
      case Obj(members) => CompareMembers(c, members, p, s);
      case Arr(items) => CompareItems(c, items, p, s);
      case _ =>
    }
  }

  function BeforeCleaned<T>(x: T, cut: bool, r: Result<(seq<T>, bool)>): Result<(seq<T>, bool)> {
    if r.Ok? then Ok(([x] + r.value.0, cut || r.value.1)) else r
  }

  /** The first elements and the others. */
  lemma {:induction false} CompareCons<T>(x: T, y: T, cut: bool, first: bool, s: State, mid: State,
                                          walked: Result<(seq<T>, State)>, cleaned: Result<(seq<T>, bool)>, others: bool)
    requires first <==> x == y
    requires first ==> mid.found == (s.found || cut)
    requires Compared(walked, cleaned, others, mid)
    ensures Compared(Before([x], walked), BeforeCleaned(y, cut, cleaned), first && others, s)
  {
    if walked.Ok? && cleaned.Ok? {
      assert ([x] + walked.value.0)[0] == x && ([x] + walked.value.0)[1..] == walked.value.0;
      assert ([y] + cleaned.value.0)[0] == y && ([y] + cleaned.value.0)[1..] == cleaned.value.0;
    }
  }

  lemma {:induction false} CompareMembers(c: Setup, members: seq<Member>, p: Path, s: State)
    requires OnTrack(p, s)
    ensures Compared(WalkMembers(c, members, s), CleanedMembers(c, members, p), AlikeMembers(c, members, p, s.path), s)
    decreases members
  {
    if members != [] && !Occurs(members[0].key, c.marker) {
      var Member(key, value) := members[0];
      if MarkedString(c, value) {
        CompareMarked(c, members, p, s);
      } else if value.Str? {
        CompareMembers(c, members[1..], p, s);
        CompareString(c, members, p, s);
      } else {
        var inside := s.(path := s.path + [key]);
        Compare(c, value, p + [key], inside);
        var r := Walk(c, value, inside);
        if r.Ok? {
          WalkLeaves(c, value, inside);
          assert Popped(inside.path) == s.path;
          CompareMembers(c, members[1..], p, r.value.1.(path := Popped(r.value.1.path)));
        }
        CompareNext(c, members, p, s, r, Cleaned(c, value, p + [key]));
      }
    }
  }

  lemma {:induction false} CompareMarked(c: Setup, members: seq<Member>, p: Path, s: State)
    requires OnTrack(p, s) && members != [] && !Occurs(members[0].key, c.marker) && MarkedString(c, members[0].value)
    ensures Compared(WalkMembers(c, members, s), CleanedMembers(c, members, p), AlikeMembers(c, members, p, s.path), s)
  {
    var Member(key, value) := members[0];
    TextWalked(c, value, State(s.path + [key], true));
    TextCleaned(c, value, p + [key]);
  }

  lemma {:induction false} CompareString(c: Setup, members: seq<Member>, p: Path, s: State)
    requires members != [] && !Occurs(members[0].key, c.marker)
    requires members[0].value.Str? && !MarkedString(c, members[0].value)
    requires Compared(WalkMembers(c, members[1..], s), CleanedMembers(c, members[1..], p), AlikeMembers(c, members[1..], p, s.path), s)
    ensures Compared(WalkMembers(c, members, s), CleanedMembers(c, members, p), AlikeMembers(c, members, p, s.path), s)
  {
    assert Popped(s.path + [members[0].key]) == s.path;
    CompareCons(members[0], members[0], false, true, s, s, WalkMembers(c, members[1..], s), CleanedMembers(c, members[1..], p),
                AlikeMembers(c, members[1..], p, s.path));
  }

  lemma {:induction false} CompareNext(c: Setup, members: seq<Member>, p: Path, s: State, w: Result<(Value, State)>, r: Result<(Value, bool)>)
    requires members != [] && !Occurs(members[0].key, c.marker) && !members[0].value.Str?
    requires var Member(key, value) := members[0];
             && w == Walk(c, value, s.(path := s.path + [key])) && r == Cleaned(c, value, p + [key])
             && Compared(w, r, Alike(c, value, p + [key], s.path + [key]), s)
             && (w.Ok? ==> w.value.1.path == PathAfter(c, value, s.path + [key]))
    requires w.Ok? ==>
               var mid := w.value.1.(path := Popped(w.value.1.path));
               Compared(WalkMembers(c, members[1..], mid), CleanedMembers(c, members[1..], p),
                        AlikeMembers(c, members[1..], p, mid.path), mid)
    ensures Compared(WalkMembers(c, members, s), CleanedMembers(c, members, p), AlikeMembers(c, members, p, s.path), s)
  {
    if w.Ok? && r.Ok? {
      var mid, key := w.value.1.(path := Popped(w.value.1.path)), members[0].key;
      CompareCons(Member(key, w.value.0), Member(key, r.value.0), r.value.1, Alike(c, members[0].value, p + [key], s.path + [key]), s, mid,
                  WalkMembers(c, members[1..], mid), CleanedMembers(c, members[1..], p), AlikeMembers(c, members[1..], p, mid.path));
    }
  }

  lemma {:induction false} CompareItems(c: Setup, items: seq<Value>, p: Path, s: State)
    requires OnTrack(p, s)
    ensures Compared(WalkItems(c, items, s), CleanedItems(c, items, p), AlikeItems(c, items, p, s.path), s)
    decreases items
  {
    if items != [] && !MarkedString(c, items[0]) {
      Compare(c, items[0], p, s);
      var w, r := Walk(c, items[0], s), Cleaned(c, items[0], p);
      if w.Ok? {
        WalkLeaves(c, items[0], s);
        CompareItems(c, items[1..], p, w.value.1);
        if r.Ok? {
          CompareCons(w.value.0, r.value.0, r.value.1, Alike(c, items[0], p, s.path), s, w.value.1,
                      WalkItems(c, items[1..], w.value.1), CleanedItems(c, items[1..], p), AlikeItems(c, items[1..], p, w.value.1.path));
        }
      }
    }
  }

  // ----- the only error

  lemma {:induction false} WalkError(c: Setup, j: Value, s: State)
    ensures Walk(c, j, s).Err? ==> Walk(c, j, s).error == CONTENT_ERROR
    decreases j
  {
    match j
    case Obj(members) => MembersError(c, members, s);
    case Arr(items) => ItemsError(c, items, s);
    case _ =>
  }

  lemma {:induction false} MembersError(c: Setup, members: seq<Member>, s: State)
    ensures WalkMembers(c, members, s).Err? ==> WalkMembers(c, members, s).error == CONTENT_ERROR
    decreases members
  {
    if members != [] {
      var inside := s.(path := s.path + [members[0].key]);
      WalkError(c, members[0].value, inside);
      WalkError(c, members[0].value, inside.Noting(true));
      var r := if members[0].value.Str? then Ok((members[0].value, inside)) else Walk(c, members[0].value, inside);
      if r.Ok? {
        MembersError(c, members[1..], r.value.1.(path := Popped(r.value.1.path)));
      }
    }
  }

  lemma {:induction false} ItemsError(c: Setup, items: seq<Value>, s: State)
    ensures WalkItems(c, items, s).Err? ==> WalkItems(c, items, s).error == CONTENT_ERROR
    decreases items
  {
    if items != [] {
      WalkError(c, items[0], s);
      if Walk(c, items[0], s).Ok? {
        ItemsError(c, items[1..], Walk(c, items[0], s).value.1);
      }
    }
  }

  lemma {:induction false} CleanedError(c: Setup, j: Value, p: Path)
    ensures Cleaned(c, j, p).Err? ==> Cleaned(c, j, p).error == CONTENT_ERROR
    decreases j
  {
    match j
    case Obj(members) => CleanedMembersError(c, members, p);
    case Arr(items) => CleanedItemsError(c, items, p);
    case _ =>
  }

  lemma {:induction false} CleanedMembersError(c: Setup, members: seq<Member>, p: Path)
    ensures CleanedMembers(c, members, p).Err? ==> CleanedMembers(c, members, p).error == CONTENT_ERROR
    decreases members
  {
    if members != [] {
      CleanedError(c, members[0].value, p + [members[0].key]);
      CleanedMembersError(c, members[1..], p);
    }
  }

  lemma {:induction false} CleanedItemsError(c: Setup, items: seq<Value>, p: Path)
    ensures CleanedItems(c, items, p).Err? ==> CleanedItems(c, items, p).error == CONTENT_ERROR
    decreases items
  {
    if items != [] {
      CleanedError(c, items[0], p);
      CleanedItemsError(c, items[1..], p);
    }
  }

  /** The shared path gives the same result as a path passed down exactly when both fail or every value that the walk comes to
      is cleaned as at its own path. */
  lemma {:induction false} SharedPathExact(c: Setup, j: Value, s: State)
    ensures Agrees(Walk(c, j, s), Cleaned(c, j, s.path), s) <==>
            (Walk(c, j, s).Err? && Cleaned(c, j, s.path).Err?) || Alike(c, j, s.path, s.path)
  {
    Compare(c, j, s.path, s);
    WalkError(c, j, s);
    CleanedError(c, j, s.path);
  }
}
