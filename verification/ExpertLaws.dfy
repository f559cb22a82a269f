/** Whatever the order of arrival, each layer is merged once, from exactly its own experts. */
module ExpertLaws {
  import opened Results
  import opened Tensors
  import opened ExpertNames
  import opened Experts

  /** Weight `wid` of expert `xid` of layer `bid`. */
  datatype Expert = Expert(bid: nat, xid: nat, wid: nat, data: Tensor)

  predicate Bounded(p: Params, e: Expert) {
    e.bid < p.blockCount && e.xid < p.nExperts && e.wid < 3
  }

  function NameOf(e: Expert): string
    requires e.wid < 3
  {
    ExpertName(e.bid, e.xid, WEIGHTS[e.wid])
  }

  function ArrivalOf(e: Expert): Arrival
    requires e.wid < 3
  {
    Arrival(e.data, NameOf(e), Some(e.bid))
  }

  predicate SameKey(e: Expert, f: Expert) {
    e.bid == f.bid && e.xid == f.xid && e.wid == f.wid
  }

  predicate SameWeight(e: Expert, f: Expert) {
    e.bid == f.bid && e.wid == f.wid
  }

  /** No expert comes twice, and the tensors that one stack takes have one shape. */
  predicate WellFormed(p: Params, es: seq<Expert>) {
    && (forall i :: 0 <= i < |es| ==> Bounded(p, es[i]))
    && (forall i, j :: 0 <= i < j < |es| ==> !SameKey(es[i], es[j]))
    && (forall i, j :: 0 <= i < |es| && 0 <= j < |es| && SameWeight(es[i], es[j]) ==> es[i].data.shape == es[j].data.shape)
  }

  lemma {:induction false} NamesDiffer(e: Expert, f: Expert)
    requires e.wid < 3 && f.wid < 3 && NameOf(e) == NameOf(f)
    ensures SameKey(e, f)
  {
    ExpertNameInjective(e.bid, e.xid, WEIGHTS[e.wid], f.bid, f.xid, WEIGHTS[f.wid]);
    WeightsDistinct(e.wid, f.wid);
  }

  // ----- the names of a layer

  function WeightNames(b: nat, w: nat, k: nat): set<string>
    requires w < 3
  {
    if k == 0 then {} else WeightNames(b, w, k - 1) + {ExpertName(b, k - 1, WEIGHTS[w])}
  }

  lemma {:induction false} WeightNamesHave(b: nat, w: nat, k: nat, name: string)
    requires w < 3
    ensures name in WeightNames(b, w, k) <==> exists x: nat :: x < k && name == ExpertName(b, x, WEIGHTS[w])
  {
    if k > 0 {
      WeightNamesHave(b, w, k - 1, name);
    }
  }

  lemma {:induction false} WeightNamesCount(b: nat, w: nat, k: nat)
    requires w < 3
    ensures |WeightNames(b, w, k)| == k
  {
    if k > 0 {
      var name := ExpertName(b, k - 1, WEIGHTS[w]);
      WeightNamesCount(b, w, k - 1);
      WeightNamesHave(b, w, k - 1, name);
      if x: nat :| x < k - 1 && name == ExpertName(b, x, WEIGHTS[w]) {
        ExpertNameInjective(b, k - 1, WEIGHTS[w], b, x, WEIGHTS[w]);
      }
    }
  }

  function LayerNames(b: nat, n: nat): set<string> {
    WeightNames(b, 0, n) + WeightNames(b, 1, n) + WeightNames(b, 2, n)
  }

  lemma {:induction false} WeightNamesDisjoint(b: nat, v: nat, w: nat, n: nat)
    requires v < w < 3
    ensures WeightNames(b, v, n) !! WeightNames(b, w, n)
  {
    if name :| name in WeightNames(b, v, n) && name in WeightNames(b, w, n) {
      WeightNamesHave(b, v, n, name);
      WeightNamesHave(b, w, n, name);
      var x: nat :| x < n && name == ExpertName(b, x, WEIGHTS[v]);
      var y: nat :| y < n && name == ExpertName(b, y, WEIGHTS[w]);
      ExpertNameInjective(b, x, WEIGHTS[v], b, y, WEIGHTS[w]);
      WeightsDistinct(v, w);
    }
  }

  lemma {:induction false} LayerNamesCount(b: nat, n: nat)
    ensures |LayerNames(b, n)| == 3 * n
  {
    WeightNamesDisjoint(b, 0, 1, n);
    WeightNamesDisjoint(b, 0, 2, n);
    WeightNamesDisjoint(b, 1, 2, n);
    WeightNamesCount(b, 0, n);
    WeightNamesCount(b, 1, n);
    WeightNamesCount(b, 2, n);
  }

  lemma {:induction false} InLayerNames(b: nat, x: nat, w: nat, n: nat)
    requires x < n && w < 3
    ensures ExpertName(b, x, WEIGHTS[w]) in LayerNames(b, n)
  {
    WeightNamesHave(b, w, n, ExpertName(b, x, WEIGHTS[w]));
  }

  // ----- what has arrived for a layer

  function LayerMap(p: Params, es: seq<Expert>, b: nat): Buffer
    requires forall i :: 0 <= i < |es| ==> Bounded(p, es[i])
  {
    if es == [] then map[]
    else
      var before := LayerMap(p, es[..|es| - 1], b);
      var e := es[|es| - 1];
      assert Bounded(p, e);
      if e.bid == b then before[NameOf(e) := e.data] else before
  }

  lemma {:induction false} LayerMapHas(p: Params, es: seq<Expert>, i: nat)
    requires WellFormed(p, es) && i < |es|
    ensures NameOf(es[i]) in LayerMap(p, es, es[i].bid) && LayerMap(p, es, es[i].bid)[NameOf(es[i])] == es[i].data
  {
    var last := es[|es| - 1];
    if i < |es| - 1 {
      LayerMapHas(p, es[..|es| - 1], i);
      assert !SameKey(es[i], es[|es| - 1]);
      if NameOf(es[i]) == NameOf(last) {
        NamesDiffer(es[i], last);
      }
    }
  }

  lemma {:induction false} LayerMapOnly(p: Params, es: seq<Expert>, b: nat, name: string) returns (i: nat)
    requires WellFormed(p, es) && name in LayerMap(p, es, b)
    ensures i < |es| && es[i].bid == b && NameOf(es[i]) == name
  {
    i := |es| - 1;
    if es[i].bid != b || NameOf(es[i]) != name {
      i := LayerMapOnly(p, es[..|es| - 1], b, name);
    }
  }

  lemma {:induction false} SubsetOfSameSize<T>(x: set<T>, y: set<T>)
    requires x <= y
    ensures |x| <= |y| && (|x| == |y| ==> x == y)
  {
    assert y == x + (y - x);
  }

  lemma {:induction false} LayerMapInNames(p: Params, es: seq<Expert>, b: nat)
    requires WellFormed(p, es)
    ensures LayerMap(p, es, b).Keys <= LayerNames(b, p.nExperts)
    ensures |LayerMap(p, es, b)| <= 3 * p.nExperts
    ensures |LayerMap(p, es, b)| == 3 * p.nExperts ==> LayerMap(p, es, b).Keys == LayerNames(b, p.nExperts)
  {
    var m := LayerMap(p, es, b);
    forall name | name in m.Keys ensures name in LayerNames(b, p.nExperts) {
      var i := LayerMapOnly(p, es, b, name);
      InLayerNames(b, es[i].xid, es[i].wid, p.nExperts);
    }
    SubsetOfSameSize(m.Keys, LayerNames(b, p.nExperts));
    LayerNamesCount(b, p.nExperts);
    assert |m| == |m.Keys|;
  }

  predicate Complete(p: Params, es: seq<Expert>, b: nat)
    requires forall i :: 0 <= i < |es| ==> Bounded(p, es[i])
  {
    p.nExperts > 0 && |LayerMap(p, es, b)| == 3 * p.nExperts
  }

  predicate Arrived(es: seq<Expert>, b: nat, x: nat, w: nat) {
    exists i :: 0 <= i < |es| && es[i].bid == b && es[i].xid == x && es[i].wid == w
  }

  /** A layer is complete exactly when each of its experts has arrived. */
  lemma {:induction false} CompleteExactly(p: Params, es: seq<Expert>, b: nat)
    requires WellFormed(p, es) && p.nExperts > 0
    ensures Complete(p, es, b) <==> forall x: nat, w: nat :: x < p.nExperts && w < 3 ==> Arrived(es, b, x, w)
  {
    var m, n := LayerMap(p, es, b), p.nExperts;
    LayerMapInNames(p, es, b);
    if Complete(p, es, b) {
      forall x: nat, w: nat | x < n && w < 3 ensures Arrived(es, b, x, w) {
        InLayerNames(b, x, w, n);
        var i := LayerMapOnly(p, es, b, ExpertName(b, x, WEIGHTS[w]));
        NamesDiffer(es[i], Expert(b, x, w, es[i].data));
      }
    }
    if forall x: nat, w: nat :: x < n && w < 3 ==> Arrived(es, b, x, w) {
      forall name | name in LayerNames(b, n) ensures name in m {
        var w := if name in WeightNames(b, 0, n) then 0 else if name in WeightNames(b, 1, n) then 1 else 2;
        WeightNamesHave(b, w, n, name);
        var x: nat :| x < n && name == ExpertName(b, x, WEIGHTS[w]);
        assert Arrived(es, b, x, w);
        var i :| 0 <= i < |es| && es[i].bid == b && es[i].xid == x && es[i].wid == w;
        LayerMapHas(p, es, i);
      }
      assert m.Keys == LayerNames(b, n);
      LayerNamesCount(b, n);
      assert |m| == |m.Keys|;
    }
  }
}
