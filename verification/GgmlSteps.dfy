/** The loop over the tensors of a model file, step by step. */
module GgmlSteps {
  import opened Results
  import opened Bytes
  import opened Sequences
  import opened GgmlFile
  import opened GgmlLayout

  lemma {:induction false} PrependNothing(r: Outcome<(seq<Info>, nat)>)
    ensures Prepend([], r) == r
  {
    if r.Done? {
      assert [] + r.value.0 == r.value.0;
    }
  }

  lemma {:induction false} PrependAll(ts: seq<Info>, at: nat)
    ensures Prepend(ts, Done(([], at))) == Done((ts, at))
  {
    assert ts + [] == ts;
  }

  lemma {:induction false} PrependTwice(ts: seq<Info>, us: seq<Info>, r: Outcome<(seq<Info>, nat)>)
    ensures Prepend(ts, Prepend(us, r)) == Prepend(ts + us, r)
  {
    if r.Done? {
      Associate(ts, us, r.value.0);
    }
  }

  lemma {:induction false} NextTensor(data: seq<Byte>, at: nat, padding: bool)
    requires at < |data|
    ensures ReadTensors(data, at, padding) ==
            match ReadTensor(data, at, padding)
            case Err(e) => Raised(e)
            case Ok(t) => if End(t) <= at then WentBack(End(t)) else Prepend([t], ReadTensors(data, End(t), padding))
  {
  }

  /** Reading from `offset` yields these tensors one after the other and leads to `at`. */
  predicate Steps(data: seq<Byte>, offset: nat, padding: bool, infos: seq<Info>, at: nat)
    decreases |infos|, 1
  {
    if infos == [] then at == offset else FirstStep(data, offset, padding, infos, at)
  }

  /** The first step and the others. Apart from `Steps` so that a proof about a loop need not unfold the reading of a tensor. */
  predicate FirstStep(data: seq<Byte>, offset: nat, padding: bool, infos: seq<Info>, at: nat)
    requires infos != []
    decreases |infos|, 0
  {
    && offset < |data| && ReadTensor(data, offset, padding) == Ok(infos[0]) && End(infos[0]) > offset
    && Steps(data, End(infos[0]), padding, infos[1..], at)
  }

  lemma {:induction false} StepsSnoc(data: seq<Byte>, offset: nat, padding: bool, infos: seq<Info>, at: nat, t: Info)
    requires Steps(data, offset, padding, infos, at)
    requires at < |data| && ReadTensor(data, at, padding) == Ok(t) && End(t) > at
    ensures Steps(data, offset, padding, infos + [t], End(t))
    decreases |infos|
  {
    if infos == [] {
      assert infos + [t] == [t];
      assert Steps(data, End(t), padding, [t][1..], End(t));
    } else {
      StepsSnoc(data, End(infos[0]), padding, infos[1..], at, t);
      assert (infos + [t])[1..] == infos[1..] + [t];
    }
  }

  lemma {:induction false} StepsAre(data: seq<Byte>, offset: nat, padding: bool, infos: seq<Info>, at: nat)
    requires Steps(data, offset, padding, infos, at)
    ensures ReadTensors(data, offset, padding) == Prepend(infos, ReadTensors(data, at, padding))
    decreases |infos|
  {
    if infos == [] {
      PrependNothing(ReadTensors(data, at, padding));
    } else {
      NextTensor(data, offset, padding);
      StepsAre(data, End(infos[0]), padding, infos[1..], at);
      assert [infos[0]] + infos[1..] == infos;
      PrependTwice([infos[0]], infos[1..], ReadTensors(data, at, padding));
    }
  }

  lemma {:induction false} StepsDone(data: seq<Byte>, offset: nat, padding: bool, infos: seq<Info>, at: nat)
    requires at >= |data| && Steps(data, offset, padding, infos, at)
    ensures ReadTensors(data, offset, padding) == Done((infos, at))
  {
    StepsAre(data, offset, padding, infos, at);
    PrependAll(infos, at);
  }

  lemma {:induction false} StepsNext(data: seq<Byte>, offset: nat, padding: bool, infos: seq<Info>, at: nat)
    requires at < |data| && Steps(data, offset, padding, infos, at)
    ensures var r := ReadTensor(data, at, padding);
            if r.Err? then ReadTensors(data, offset, padding) == Raised(r.error)
            else if End(r.value) <= at then ReadTensors(data, offset, padding) == WentBack(End(r.value))
            else Steps(data, offset, padding, infos + [r.value], End(r.value))
  {
    StepsAre(data, offset, padding, infos, at);
    NextTensor(data, at, padding);
    var r := ReadTensor(data, at, padding);
    if r.Ok? && End(r.value) > at {
      StepsSnoc(data, offset, padding, infos, at, r.value);
    }
  }

  // ----- going back

  /** After these tensors comes one whose data ends before it begins, or past what 64 bits can count; in 64 bits, at `to`. */
  predicate GoesBack(data: seq<Byte>, offset: nat, padding: bool, infos: seq<Info>, at: nat, t: Info, to: int) {
    && Steps(data, offset, padding, infos, at) && at < |data|
    && ReadTensor(data, at, padding) == Ok(t) && EndsBackward(at, t) && to == End(t)
  }

  lemma {:induction false} BackSteps(data: seq<Byte>, offset: nat, padding: bool, to: int) returns (infos: seq<Info>, at: nat, t: Info)
    requires ReadTensors(data, offset, padding) == WentBack(to)
    ensures GoesBack(data, offset, padding, infos, at, t, to)
    decreases if offset < |data| then |data| - offset else 0
  {
    NextTensor(data, offset, padding);
    EndAhead(data, offset, padding);
    var first := ReadTensor(data, offset, padding).value;
    if End(first) <= offset {
      infos, at, t := [], offset, first;
    } else {
      var rest;
      rest, at, t := BackSteps(data, End(first), padding, to);
      infos := [first] + rest;
      assert infos[1..] == rest;
    }
  }

  /** Reading goes back exactly when it comes to such a tensor. */
  lemma {:induction false} BackExactly(data: seq<Byte>, offset: nat, padding: bool, to: int)
    ensures ReadTensors(data, offset, padding) == WentBack(to) <==>
            exists infos, at: nat, t :: GoesBack(data, offset, padding, infos, at, t, to)
  {
    if ReadTensors(data, offset, padding) == WentBack(to) {
      var infos, at, t := BackSteps(data, offset, padding, to);
    }
    if infos, at: nat, t :| GoesBack(data, offset, padding, infos, at, t, to) {
      StepsNext(data, offset, padding, infos, at);
      EndAhead(data, at, padding);
    }
  }
}
