/** Concatenating sequences of sequences. */
module Sequences {
  function Flatten<T>(xss: seq<seq<T>>): seq<T> {
    if xss == [] then [] else Flatten(xss[..|xss| - 1]) + xss[|xss| - 1]
  }

  lemma {:induction false} FlattenSnoc<T>(xss: seq<seq<T>>, xs: seq<T>)
    ensures Flatten(xss + [xs]) == Flatten(xss) + xs
  {
    assert (xss + [xs])[..|xss|] == xss;
  }

  lemma {:induction false} FlattenConcat<T>(xss: seq<seq<T>>, yss: seq<seq<T>>)
    ensures Flatten(xss + yss) == Flatten(xss) + Flatten(yss)
  {
    if yss == [] {
      assert xss + yss == xss;
    } else {
      var n := |yss| - 1;
      FlattenConcat(xss, yss[..n]);
      assert (xss + yss)[..|xss + yss| - 1] == xss + yss[..n];
    }
  }

  lemma {:induction false} FlattenOne<T>(xs: seq<T>)
    ensures Flatten([xs]) == xs
  {
    assert [xs][..0] == [];
  }

  lemma {:induction false} FlattenTwo<T>(xs: seq<T>, ys: seq<T>)
    ensures Flatten([xs, ys]) == xs + ys
  {
    assert [xs, ys][..1] == [xs];
    FlattenOne(xs);
  }

  lemma {:induction false} FlattenNothing<T>(xss: seq<seq<T>>)
    requires forall i :: 0 <= i < |xss| ==> xss[i] == []
    ensures Flatten(xss) == []
  {
    if xss != [] {
      FlattenNothing(xss[..|xss| - 1]);
    }
  }

  /** One list goes from empty to its new value; the others stay. */
  lemma {:induction false} FlattenGrows<T>(xss: seq<seq<T>>, yss: seq<seq<T>>, k: nat)
    requires k < |xss| == |yss| && xss[k] == []
    requires forall i :: 0 <= i < |xss| && i != k ==> xss[i] == yss[i]
    ensures multiset(Flatten(yss)) == multiset(Flatten(xss)) + multiset(yss[k])
  {
    var n := |xss| - 1;
    if k == n {
      assert xss[..n] == yss[..n];
    } else {
      FlattenGrows(xss[..n], yss[..n], k);
    }
  }

  lemma {:induction false} Associate<T>(x: seq<T>, y: seq<T>, z: seq<T>)
    ensures x + (y + z) == x + y + z
  {
  }

  lemma {:induction false} SplitLast<T>(s: seq<T>)
    requires |s| > 0
    ensures s == s[..|s| - 1] + [s[|s| - 1]]
  {
  }
}
