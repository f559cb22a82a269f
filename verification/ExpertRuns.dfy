/** What has been merged and what is still buffered after experts in any order. */
module ExpertRuns {
  import opened Results
  import opened Sequences
  import opened ExpertNames
  import opened Experts
  import opened ExpertLaws
  import opened ExpertMerging

  // ----- the state after a run

  /** What the buffer of layer `b` holds. */
  function Pending(p: Params, es: seq<Expert>, b: nat): Buffer
    requires WellFormed(p, es)
  {
    if Complete(p, es, b) then map[] else LayerMap(p, es, b)
  }

  function AllPending(p: Params, es: seq<Expert>): (r: seq<Buffer>)
    requires WellFormed(p, es)
    ensures |r| == p.blockCount && forall b :: 0 <= b < |r| ==> r[b] == Pending(p, es, b)
  {
    seq(p.blockCount, b requires b >= 0 => Pending(p, es, b))
  }

  function StacksOf(p: Params, es: seq<Expert>, b: nat): seq<Named>
    requires WellFormed(p, es)
  {
    if Complete(p, es, b) then
      CompleteIsMergeable(p, es, b);
      LayerStacks(LayerMap(p, es, b), b, p.nExperts, 3)
    else []
  }

  /** The layer of each arrival is emitted if that arrival completes it. */
  function Outputs(p: Params, es: seq<Expert>): seq<Named>
    requires WellFormed(p, es)
  {
    if es == [] then []
    else Outputs(p, es[..|es| - 1]) + StacksOf(p, es, es[|es| - 1].bid)
  }

  /** An arrival for a layer finds it incomplete, and its name new. */
  lemma {:induction false} FreshArrival(p: Params, es: seq<Expert>)
    requires WellFormed(p, es) && es != []
    ensures Bounded(p, es[|es| - 1]) && p.nExperts > 0
    ensures NameOf(es[|es| - 1]) !in LayerMap(p, es[..|es| - 1], es[|es| - 1].bid)
    ensures !Complete(p, es[..|es| - 1], es[|es| - 1].bid)
  {
    var n := |es| - 1;
    var e, before := es[n], es[..n];
    assert Bounded(p, es[n]);
    if NameOf(e) in LayerMap(p, before, e.bid) {
      var i := LayerMapOnly(p, before, e.bid, NameOf(e));
      assert !SameKey(es[i], es[n]);
      NamesDiffer(es[i], e);
    }
    LayerMapInNames(p, before, e.bid);
    InLayerNames(e.bid, e.xid, e.wid, p.nExperts);
  }

  lemma {:induction false} OtherLayers(p: Params, es: seq<Expert>, b: nat)
    requires WellFormed(p, es) && es != [] && es[|es| - 1].bid != b
    ensures LayerMap(p, es, b) == LayerMap(p, es[..|es| - 1], b)
    ensures Complete(p, es, b) == Complete(p, es[..|es| - 1], b)
  {
  }

  /** The buffers of a converter that has seen `es`. */
  predicate Holds(p: Params, es: seq<Expert>, s: Buffers)
    requires WellFormed(p, es)
  {
    if es == [] then s == None else s == Some(AllPending(p, es))
  }

  lemma {:induction false} StartedIs(p: Params, es: seq<Expert>, s: Buffers)
    requires WellFormed(p, es) && Holds(p, es, s)
    ensures Started(p, s) == AllPending(p, es)
  {
    if es == [] {
      forall b | 0 <= b < p.blockCount ensures Pending(p, es, b) == map[] {
      }
    }
  }

  /** The layer's buffer with the new tensor holds all that has come for the layer; more than enough never comes. */
  lemma {:induction false} Buffered(p: Params, es: seq<Expert>)
    requires WellFormed(p, es) && es != []
    ensures var e, n := es[|es| - 1], |es| - 1;
            && Bounded(p, e)
            && Pending(p, es[..n], e.bid)[NameOf(e) := e.data] == LayerMap(p, es, e.bid)
            && (|LayerMap(p, es, e.bid)| >= p.nExperts * 3 <==> Complete(p, es, e.bid))
  {
    FreshArrival(p, es);
    LayerMapInNames(p, es, es[|es| - 1].bid);
  }

  lemma {:induction false} StepState(p: Params, es: seq<Expert>, s: Buffers)
    requires WellFormed(p, es) && es != [] && Holds(p, es[..|es| - 1], s)
    ensures Bounded(p, es[|es| - 1])
    ensures Step(p, s, ArrivalOf(es[|es| - 1])) == Ok((StacksOf(p, es, es[|es| - 1].bid), Some(AllPending(p, es))))
  {
    var n := |es| - 1;
    var e, before := es[n], es[..n];
    var all := Started(p, s);
    StartedIs(p, before, s);
    Buffered(p, es);
    IsExpertName(e.bid, e.xid, WEIGHTS[e.wid]);
    var buf := LayerMap(p, es, e.bid);
    if Complete(p, es, e.bid) {
      CompleteIsMergeable(p, es, e.bid);
      MergeComplete(buf, e.bid, p.nExperts);
    }
    OneBufferChanges(p, es, all);
  }

  lemma {:induction false} OneBufferChanges(p: Params, es: seq<Expert>, all: seq<Buffer>)
    requires WellFormed(p, es) && es != [] && all == AllPending(p, es[..|es| - 1])
    ensures es[|es| - 1].bid < |all| && all[es[|es| - 1].bid := Pending(p, es, es[|es| - 1].bid)] == AllPending(p, es)
  {
    var bid := es[|es| - 1].bid;
    assert Bounded(p, es[|es| - 1]);
    forall b | 0 <= b < p.blockCount && b != bid ensures Pending(p, es, b) == Pending(p, es[..|es| - 1], b) {
      OtherLayers(p, es, b);
    }
  }

  // ----- the check at the end

  lemma {:induction false} NothingPending(p: Params, es: seq<Expert>, b: nat)
    requires WellFormed(p, es)
    ensures Pending(p, es, b) == map[] <==> Complete(p, es, b) || forall i :: 0 <= i < |es| ==> es[i].bid != b
  {
    if i :| 0 <= i < |es| && es[i].bid == b {
      LayerMapHas(p, es, i);
    }
    if LayerMap(p, es, b) != map[] {
      var name :| name in LayerMap(p, es, b);
      var i := LayerMapOnly(p, es, b, name);
    }
  }

  /** Every layer that received an expert has received all of them. */
  predicate AllComplete(p: Params, es: seq<Expert>)
    requires WellFormed(p, es)
  {
    forall i :: 0 <= i < |es| ==> Complete(p, es, es[i].bid)
  }

  lemma {:induction false} LeftoverExactly(p: Params, es: seq<Expert>, s: Buffers)
    requires WellFormed(p, es) && Holds(p, es, s)
    ensures Leftover(s) <==> !AllComplete(p, es)
  {
    if Leftover(s) {
      var b :| 0 <= b < |s.value| && s.value[b] != map[];
      NothingPending(p, es, b);
    }
    if i :| 0 <= i < |es| && !Complete(p, es, es[i].bid) {
      assert Bounded(p, es[i]);
      NothingPending(p, es, es[i].bid);
      assert s.value[es[i].bid] != map[];
    }
  }

  // ----- every order gives the same output

  function AllStacks(p: Params, es: seq<Expert>): (r: seq<seq<Named>>)
    requires WellFormed(p, es)
    ensures |r| == p.blockCount && forall b :: 0 <= b < |r| ==> r[b] == StacksOf(p, es, b)
  {
    seq(p.blockCount, b requires b >= 0 => StacksOf(p, es, b))
  }

  /** The stacks of all complete layers, in the order of the layers. */
  function ByLayer(p: Params, es: seq<Expert>): seq<Named>
    requires WellFormed(p, es)
  {
    Flatten(AllStacks(p, es))
  }

  lemma {:induction false} StacksGrow(p: Params, es: seq<Expert>, b: nat)
    requires WellFormed(p, es) && es != []
    ensures StacksOf(p, es[..|es| - 1], b) == if es[|es| - 1].bid == b then [] else StacksOf(p, es, b)
  {
    if es[|es| - 1].bid == b {
      FreshArrival(p, es);
    } else {
      OtherLayers(p, es, b);
    }
  }

  /** Only the layer of the last arrival can have new stacks, and it had none before. */
  lemma {:induction false} AllStacksGrow(p: Params, es: seq<Expert>)
    requires WellFormed(p, es) && es != []
    ensures var n, bid := |es| - 1, es[|es| - 1].bid;
            && bid < p.blockCount && AllStacks(p, es[..n])[bid] == [] && AllStacks(p, es)[bid] == StacksOf(p, es, bid)
            && forall b :: 0 <= b < p.blockCount && b != bid ==> AllStacks(p, es[..n])[b] == AllStacks(p, es)[b]
  {
    var n := |es| - 1;
    assert Bounded(p, es[n]);
    StacksGrow(p, es, es[n].bid);
    forall b | 0 <= b < p.blockCount && b != es[n].bid ensures AllStacks(p, es[..n])[b] == AllStacks(p, es)[b] {
      StacksGrow(p, es, b);
    }
  }

  /** What is emitted next is the list that was empty. */
  lemma {:induction false} EmittedMore(out: seq<Named>, more: seq<Named>, xss: seq<seq<Named>>, yss: seq<seq<Named>>, k: nat)
    requires multiset(out) == multiset(Flatten(xss)) && k < |xss| == |yss| && xss[k] == [] && yss[k] == more
    requires forall i :: 0 <= i < |xss| && i != k ==> xss[i] == yss[i]
    ensures multiset(out + more) == multiset(Flatten(yss))
  {
    FlattenGrows(xss, yss, k);
  }

  lemma {:induction false} NothingEmitted(p: Params, es: seq<Expert>)
    requires WellFormed(p, es) && |es| == 0
    ensures Outputs(p, es) == [] && ByLayer(p, es) == []
  {
    FlattenNothing(AllStacks(p, es));
  }

  lemma {:induction false} OutputsNext(p: Params, es: seq<Expert>)
    requires WellFormed(p, es) && |es| > 0
    ensures Outputs(p, es) == Outputs(p, es[..|es| - 1]) + StacksOf(p, es, es[|es| - 1].bid)
  {
  }

  /** Each complete layer is emitted exactly once, each of its weights stacked. */
  lemma {:induction false} EmittedOnce(p: Params, es: seq<Expert>)
    requires WellFormed(p, es)
    ensures multiset(Outputs(p, es)) == multiset(ByLayer(p, es))
    decreases |es|
  {
    if |es| == 0 {
      NothingEmitted(p, es);
    } else {
      var n := |es| - 1;
      EmittedOnce(p, es[..n]);
      AllStacksGrow(p, es);
      OutputsNext(p, es);
      EmittedMore(Outputs(p, es[..n]), StacksOf(p, es, es[n].bid), AllStacks(p, es[..n]), AllStacks(p, es), es[n].bid);
    }
  }

  /** The same experts in another order. */
  predicate Reordered(es: seq<Expert>, fs: seq<Expert>) {
    multiset(es) == multiset(fs)
  }

  lemma {:induction false} SameLayerMap(p: Params, es: seq<Expert>, fs: seq<Expert>, b: nat)
    requires WellFormed(p, es) && WellFormed(p, fs) && Reordered(es, fs)
    ensures LayerMap(p, es, b) == LayerMap(p, fs, b)
  {
    LayerMapContained(p, es, fs, b);
    LayerMapContained(p, fs, es, b);
  }

  lemma {:induction false} LayerMapContained(p: Params, es: seq<Expert>, fs: seq<Expert>, b: nat)
    requires WellFormed(p, es) && WellFormed(p, fs) && Reordered(es, fs)
    ensures forall name :: name in LayerMap(p, es, b) ==>
              name in LayerMap(p, fs, b) && LayerMap(p, es, b)[name] == LayerMap(p, fs, b)[name]
  {
    forall name | name in LayerMap(p, es, b)
      ensures name in LayerMap(p, fs, b) && LayerMap(p, es, b)[name] == LayerMap(p, fs, b)[name]
    {
      var i := LayerMapOnly(p, es, b, name);
      LayerMapHas(p, es, i);
      assert es[i] in multiset(es) && es[i] in multiset(fs);
      var j :| 0 <= j < |fs| && fs[j] == es[i];
      LayerMapHas(p, fs, j);
    }
  }

  lemma {:induction false} SameStacks(p: Params, es: seq<Expert>, fs: seq<Expert>, b: nat)
    requires WellFormed(p, es) && WellFormed(p, fs) && Reordered(es, fs)
    ensures StacksOf(p, es, b) == StacksOf(p, fs, b)
  {
    SameLayerMap(p, es, fs, b);
  }

  lemma {:induction false} SameAllStacks(p: Params, es: seq<Expert>, fs: seq<Expert>)
    requires WellFormed(p, es) && WellFormed(p, fs) && Reordered(es, fs)
    ensures AllStacks(p, es) == AllStacks(p, fs)
  {
    forall b | 0 <= b < p.blockCount ensures StacksOf(p, es, b) == StacksOf(p, fs, b) {
      SameStacks(p, es, fs, b);
    }
  }

  lemma {:induction false} SameCompleteness(p: Params, es: seq<Expert>, fs: seq<Expert>)
    requires WellFormed(p, es) && WellFormed(p, fs) && Reordered(es, fs)
    requires AllComplete(p, es)
    ensures AllComplete(p, fs)
  {
    forall i | 0 <= i < |fs| ensures Complete(p, fs, fs[i].bid) {
      assert fs[i] in multiset(fs) && fs[i] in multiset(es);
      var j :| 0 <= j < |es| && es[j] == fs[i];
      SameLayerMap(p, es, fs, fs[i].bid);
    }
  }
}
