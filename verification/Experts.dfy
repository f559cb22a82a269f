/** Buffering the expert tensors of each layer and merging them when the layer is complete. */
module Experts {
  import opened Results
  import opened Strings
  import opened Tensors
  import opened ExpertNames

  type Buffer = map<string, Tensor>

  /** A tensor as the checkpoint gives it, with the layer number found in its name, if any. */
  datatype Arrival = Arrival(data: Tensor, name: string, bid: Option<nat>)

  datatype Named = Named(name: string, data: Tensor)

  datatype Params = Params(blockCount: nat, nExperts: nat)

  // ----- one layer

  /** The first `k` experts of one weight, taken out of the buffer. */
  function TakeExperts(buf: Buffer, b: nat, w: string, k: nat): Result<(seq<Tensor>, Buffer)> {
    if k == 0 then Ok(([], buf))
    else
      var r :- TakeExperts(buf, b, w, k - 1);
      var name := ExpertName(b, k - 1, w);
      if name !in r.1 then Err("KeyError") else Ok((r.0 + [r.1[name]], r.1 - {name}))
  }

  /** One weight: its `n` experts stacked. */
  function MergeWeight(buf: Buffer, b: nat, n: nat, w: string): Result<(Named, Buffer)> {
    var taken :- TakeExperts(buf, b, w, n);
    var data :- Stack(taken.0);
    Ok((Named(MergedName(b, w), data), taken.1))
  }

  /** The first `k` weights. */
  function MergeWeights(buf: Buffer, b: nat, n: nat, k: nat): Result<(seq<Named>, Buffer)>
    requires k <= 3
    decreases k, n, 1
  {
    if k == 0 then Ok(([], buf)) else MergeWeightsTo(buf, b, n, k)
  }

  /** With the last of them. Apart from `MergeWeights` so that a proof about a layer need not unfold the stacking of a weight. */
  function MergeWeightsTo(buf: Buffer, b: nat, n: nat, k: nat): Result<(seq<Named>, Buffer)>
    requires 0 < k <= 3
    decreases k, n, 0
  {
    var r :- MergeWeights(buf, b, n, k - 1);
    var merged :- MergeWeight(r.1, b, n, WEIGHTS[k - 1]);
    Ok((r.0 + [merged.0], merged.1))
  }

  lemma {:induction false} NextWeight(buf: Buffer, b: nat, n: nat, k: nat, tensors: seq<Named>, left: Buffer)
    requires k < 3 && MergeWeights(buf, b, n, k) == Ok((tensors, left))
    ensures var r := MergeWeight(left, b, n, WEIGHTS[k]);
            MergeWeights(buf, b, n, k + 1) == if r.Ok? then Ok((tensors + [r.value.0], r.value.1)) else Err(r.error)
  {
  }

  lemma {:induction false} TakeFails(buf: Buffer, b: nat, w: string, k: nat, n: nat)
    requires k <= n && TakeExperts(buf, b, w, k).Err?
    ensures TakeExperts(buf, b, w, n) == TakeExperts(buf, b, w, k)
  {
    if k < n {
      TakeFails(buf, b, w, k, n - 1);
    }
  }

  lemma {:induction false} MergeFails(buf: Buffer, b: nat, n: nat, k: nat, j: nat)
    requires k <= j <= 3 && MergeWeights(buf, b, n, k).Err?
    ensures MergeWeights(buf, b, n, j) == MergeWeights(buf, b, n, k)
  {
    if k < j {
      MergeFails(buf, b, n, k, j - 1);
    }
  }

  // ----- the state machine

  type Buffers = Option<seq<Buffer>>

  function Started(p: Params, s: Buffers): seq<Buffer> {
    if s.Some? then s.value else seq(p.blockCount, _ => map[])
  }

  /** What one tensor adds to the output, and the buffers after it. */
  function Step(p: Params, s: Buffers, a: Arrival): Result<(seq<Named>, Buffers)> {
    if !Occurs(a.name, PATTERN) then Ok(([Named(a.name, a.data)], s))
    else if a.bid.None? then Err("AssertionError")
    else if a.bid.value >= |Started(p, s)| then Err("IndexError")
    else
      var b, all := a.bid.value, Started(p, s);
      var buf: Buffer := all[b][a.name := a.data];
      if |buf| >= p.nExperts * 3 then
        var r :- MergeWeights(buf, b, p.nExperts, 3);
        Ok((r.0, Some(all[b := r.1])))
      else Ok(([], Some(all[b := buf])))
  }

  function Run(p: Params, arrivals: seq<Arrival>): Result<(seq<Named>, Buffers)> {
    if arrivals == [] then Ok(([], None))
    else
      var r :- Run(p, arrivals[..|arrivals| - 1]);
      var step :- Step(p, r.1, arrivals[|arrivals| - 1]);
      Ok((r.0 + step.0, step.1))
  }

  predicate Leftover(s: Buffers) {
    s.Some? && exists b :: 0 <= b < |s.value| && s.value[b] != map[]
  }

  /** The whole conversion: every tensor in turn, then the check for experts left over. */
  function Converted(p: Params, arrivals: seq<Arrival>): Result<seq<Named>> {
    var r :- Run(p, arrivals);
    if Leftover(r.1) then Err("Unprocessed experts") else Ok(r.0)
  }

  lemma {:induction false} RunFails(p: Params, arrivals: seq<Arrival>, i: nat)
    requires i <= |arrivals| && Run(p, arrivals[..i]).Err?
    ensures Run(p, arrivals) == Run(p, arrivals[..i])
  {
    if i == |arrivals| {
      assert arrivals[..i] == arrivals;
    } else {
      assert arrivals[..|arrivals| - 1][..i] == arrivals[..i];
      RunFails(p, arrivals[..|arrivals| - 1], i);
    }
  }

  // ----- the converter

  class LlamaModel {
    const p: Params
    var experts: Buffers

    constructor (p: Params)
      ensures this.p == p && experts == None
    {
      this.p := p;
      experts := None;
    }

    /** The part of `modify_tensors` that concerns experts. */
    method ModifyTensors(data: Tensor, name: string, bid: Option<nat>) returns (r: Result<seq<Named>>)
      modifies this
      ensures r.Ok? ==> Step(p, old(experts), Arrival(data, name, bid)) == Ok((r.value, experts))
      ensures r.Err? ==> Step(p, old(experts), Arrival(data, name, bid)) == Err(r.error)
    {
      if Occurs(name, PATTERN) {
        if bid.None? {
          return Err("AssertionError");
        }
        var b := bid.value;
        if experts.None? {
          experts := Some(seq(p.blockCount, _ => map[]));
        }
        if b >= |experts.value| {
          return Err("IndexError");
        }
        ghost var all := experts.value;
        var buf: Buffer := experts.value[b][name := data];
        experts := Some(experts.value[b := buf]);
        if |experts.value[b]| >= p.nExperts * 3 {
          r := MergeLayer(b);
          if r.Ok? {
            assert experts.value == all[b := experts.value[b]];
          }
          return;
        }
        return Ok([]);
      }
      r := Ok([Named(name, data)]);
    }

    /** The experts of a complete layer leave the buffer, one stack for each weight. */
    method MergeLayer(b: nat) returns (r: Result<seq<Named>>)
      requires experts.Some? && b < |experts.value|
      modifies this
      ensures experts.Some? && b < |experts.value| && experts.value == old(experts.value)[b := experts.value[b]]
      ensures r.Ok? ==> MergeWeights(old(experts.value[b]), b, p.nExperts, 3) == Ok((r.value, experts.value[b]))
      ensures r.Err? ==> MergeWeights(old(experts.value[b]), b, p.nExperts, 3) == Err(r.error)
    {
      ghost var buf, all := experts.value[b], experts.value;
      var tensors: seq<Named> := [];
      var i := 0;
      while i < 3
        invariant 0 <= i <= 3
        invariant experts.Some? && b < |experts.value|
        invariant experts.value == all[b := experts.value[b]]
        invariant MergeWeights(buf, b, p.nExperts, i) == Ok((tensors, experts.value[b]))
      {
        var merged :- StackWeight(b, i, buf, tensors);
        tensors := tensors + [merged];
        i := i + 1;
      }
      r := Ok(tensors);
    }

    /** The body of the loop: one more weight, after those already stacked. */
    method StackWeight(b: nat, i: nat, ghost buf: Buffer, ghost before: seq<Named>) returns (r: Result<Named>)
      requires i < 3 && experts.Some? && b < |experts.value|
      requires MergeWeights(buf, b, p.nExperts, i) == Ok((before, experts.value[b]))
      modifies this
      ensures experts.Some? && b < |experts.value| && experts.value == old(experts.value)[b := experts.value[b]]
      ensures r.Ok? ==> MergeWeights(buf, b, p.nExperts, i + 1) == Ok((before + [r.value], experts.value[b]))
      ensures r.Err? ==> MergeWeights(buf, b, p.nExperts, 3) == Err(r.error)
    {
      ghost var left := experts.value[b];
      var w := WEIGHTS[i];
      var datas := TakeAll(b, w);
      NextWeight(buf, b, p.nExperts, i, before, left);
      if datas.Err? {
        MergeFails(buf, b, p.nExperts, i + 1, 3);
        return Err(datas.error);
      }
      var data := Stack(datas.value);
      if data.Err? {
        MergeFails(buf, b, p.nExperts, i + 1, 3);
        return Err(data.error);
      }
      r := Ok(Named(MergedName(b, w), data.value));
    }

    /** The inner loop: the experts of one weight leave the buffer in order. */
    method TakeAll(b: nat, w: string) returns (r: Result<seq<Tensor>>)
      requires experts.Some? && b < |experts.value|
      modifies this
      ensures experts.Some? && b < |experts.value| && experts.value == old(experts.value)[b := experts.value[b]]
      ensures r.Ok? ==> TakeExperts(old(experts.value[b]), b, w, p.nExperts) == Ok((r.value, experts.value[b]))
      ensures r.Err? ==> TakeExperts(old(experts.value[b]), b, w, p.nExperts) == Err(r.error)
    {
      var datas: seq<Tensor> := [];
      var x := 0;
      while x < p.nExperts
        invariant 0 <= x <= p.nExperts
        invariant experts.Some? && b < |experts.value|
        invariant experts.value == old(experts.value)[b := experts.value[b]]
        invariant TakeExperts(old(experts.value[b]), b, w, x) == Ok((datas, experts.value[b]))
      {
        var name := ExpertName(b, x, w);
        if name !in experts.value[b] {
          TakeFails(old(experts.value[b]), b, w, x + 1, p.nExperts);
          return Err("KeyError");
        }
        datas := datas + [experts.value[b][name]];
        experts := Some(experts.value[b := experts.value[b] - {name}]);
        x := x + 1;
      }
      r := Ok(datas);
    }

    method AnyLeft() returns (left: bool)
      ensures left == Leftover(experts)
    {
      left := false;
      if experts.Some? {
        var b := 0;
        while b < |experts.value|
          invariant 0 <= b <= |experts.value|
          invariant left <==> exists k :: 0 <= k < b && experts.value[k] != map[]
        {
          left := left || experts.value[b] != map[];
          b := b + 1;
        }
      }
    }

    method ConvertAll(arrivals: seq<Arrival>) returns (r: Result<seq<Named>>)
      requires experts == None
      modifies this
      ensures r.Ok? ==> Run(p, arrivals) == Ok((r.value, experts))
      ensures r.Err? ==> Run(p, arrivals) == Err(r.error)
    {
      var tensors: seq<Named> := [];
      var i := 0;
      while i < |arrivals|
        invariant 0 <= i <= |arrivals|
        invariant Run(p, arrivals[..i]) == Ok((tensors, experts))
      {
        assert arrivals[..i + 1][..i] == arrivals[..i];
        var more := ModifyTensors(arrivals[i].data, arrivals[i].name, arrivals[i].bid);
        if more.Err? {
          RunFails(p, arrivals, i + 1);
          return Err(more.error);
        }
        tensors := tensors + more.value;
        i := i + 1;
      }
      assert arrivals[..i] == arrivals;
      r := Ok(tensors);
    }

    /** `prepare_tensors`. */
    method PrepareTensors(arrivals: seq<Arrival>) returns (r: Result<seq<Named>>)
      requires experts == None
      modifies this
      ensures r == Converted(p, arrivals)
    {
      var tensors :- ConvertAll(arrivals);
      var left := AnyLeft();
      if left {
        return Err("Unprocessed experts");
      }
      r := Ok(tensors);
    }
  }
}
