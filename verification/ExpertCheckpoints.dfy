/** Converting a checkpoint in which expert tensors and others come in any order. */
module ExpertCheckpoints {
  import opened Results
  import opened Strings
  import opened Sequences
  import opened ExpertNames
  import opened Experts
  import opened ExpertLaws
  import opened ExpertRuns

  /** One tensor of a checkpoint: a weight of an expert, or one whose name is not that of an expert. */
  datatype Entry = Weight(expert: Expert) | Other(named: Named)

  predicate GoodEntry(p: Params, e: Entry) {
    match e
    case Weight(expert) => Bounded(p, expert)
    case Other(named) => !Occurs(named.name, PATTERN)
  }

  /** The layer number of a tensor that is not an expert's is never looked at. */
  function ArrivalFor(p: Params, e: Entry): Arrival
    requires GoodEntry(p, e)
  {
    match e
    case Weight(expert) => ArrivalOf(expert)
    case Other(named) => Arrival(named.data, named.name, None)
  }

  predicate AllGood(p: Params, entries: seq<Entry>) {
    forall i :: 0 <= i < |entries| ==> GoodEntry(p, entries[i])
  }

  function Arrivals(p: Params, entries: seq<Entry>): (r: seq<Arrival>)
    requires AllGood(p, entries)
    ensures |r| == |entries|
  {
    if entries == [] then []
    else
      assert GoodEntry(p, entries[|entries| - 1]);
      Arrivals(p, entries[..|entries| - 1]) + [ArrivalFor(p, entries[|entries| - 1])]
  }

  function ExpertsOf(entries: seq<Entry>): seq<Expert> {
    if entries == [] then []
    else
      var e := entries[|entries| - 1];
      ExpertsOf(entries[..|entries| - 1]) + (if e.Weight? then [e.expert] else [])
  }

  function OthersOf(entries: seq<Entry>): seq<Named> {
    if entries == [] then []
    else
      var e := entries[|entries| - 1];
      OthersOf(entries[..|entries| - 1]) + (if e.Other? then [e.named] else [])
  }

  predicate GoodCheckpoint(p: Params, entries: seq<Entry>) {
    AllGood(p, entries) && WellFormed(p, ExpertsOf(entries))
  }

  lemma {:induction false} WithoutLast(p: Params, entries: seq<Entry>)
    requires GoodCheckpoint(p, entries) && entries != []
    ensures GoodCheckpoint(p, entries[..|entries| - 1]) && GoodEntry(p, entries[|entries| - 1])
    ensures var n, es := |entries| - 1, ExpertsOf(entries);
            if entries[n].Weight? then es != [] && es[|es| - 1] == entries[n].expert && es[..|es| - 1] == ExpertsOf(entries[..n])
            else es == ExpertsOf(entries[..n])
  {
    var n := |entries| - 1;
    var es, before := ExpertsOf(entries), ExpertsOf(entries[..n]);
    assert GoodEntry(p, entries[n]);
    if entries[n].Weight? {
      assert es[..|es| - 1] == before;
      PrefixWellFormed(p, es);
    } else {
      assert before + [] == before;
    }
  }

  lemma {:induction false} PrefixWellFormed(p: Params, es: seq<Expert>)
    requires WellFormed(p, es) && es != []
    ensures WellFormed(p, es[..|es| - 1])
  {
  }

  // ----- runs

  /** What an entry adds to the output: itself, or the stacks of the layer that it completes. */
  function Added(p: Params, entries: seq<Entry>): seq<Named>
    requires GoodCheckpoint(p, entries) && entries != []
  {
    match entries[|entries| - 1]
    case Weight(expert) => StacksOf(p, ExpertsOf(entries), expert.bid)
    case Other(named) => [named]
  }

  function Emitted(p: Params, entries: seq<Entry>): seq<Named>
    requires GoodCheckpoint(p, entries)
    decreases |entries|, 1
  {
    if entries == [] then [] else EmittedTo(p, entries)
  }

  /** With the last entry. Apart from `Emitted` so that a proof about a run need not unfold the merging of a layer. */
  function EmittedTo(p: Params, entries: seq<Entry>): seq<Named>
    requires GoodCheckpoint(p, entries) && entries != []
    decreases |entries|, 0
  {
    WithoutLast(p, entries);
    Emitted(p, entries[..|entries| - 1]) + Added(p, entries)
  }

  lemma {:induction false} EntryStep(p: Params, entries: seq<Entry>, s: Buffers) returns (t: Buffers)
    requires GoodCheckpoint(p, entries) && entries != []
    requires GoodCheckpoint(p, entries[..|entries| - 1]) && Holds(p, ExpertsOf(entries[..|entries| - 1]), s)
    ensures GoodEntry(p, entries[|entries| - 1]) && Holds(p, ExpertsOf(entries), t)
    ensures Step(p, s, ArrivalFor(p, entries[|entries| - 1])) == Ok((Added(p, entries), t))
  {
    WithoutLast(p, entries);
    if entries[|entries| - 1].Weight? {
      StepState(p, ExpertsOf(entries), s);
      t := Some(AllPending(p, ExpertsOf(entries)));
    } else {
      t := s;
    }
  }

  lemma {:induction false} RunNext(p: Params, before: seq<Arrival>, a: Arrival, outputs: seq<Named>, s: Buffers, more: seq<Named>, t: Buffers)
    requires Run(p, before) == Ok((outputs, s)) && Step(p, s, a) == Ok((more, t))
    ensures Run(p, before + [a]) == Ok((outputs + more, t))
  {
    assert (before + [a])[..|before|] == before;
  }

  /** A run over a good checkpoint never fails; other tensors pass through, each layer is emitted when it becomes complete,
      and the rest is held. */
  lemma {:induction false} RunState(p: Params, entries: seq<Entry>) returns (s: Buffers)
    requires GoodCheckpoint(p, entries)
    ensures Run(p, Arrivals(p, entries)) == Ok((Emitted(p, entries), s)) && Holds(p, ExpertsOf(entries), s)
    decreases |entries|
  {
    if entries == [] {
      s := None;
    } else {
      var n := |entries| - 1;
      WithoutLast(p, entries);
      var before := RunState(p, entries[..n]);
      s := EntryStep(p, entries, before);
      RunNext(p, Arrivals(p, entries[..n]), ArrivalFor(p, entries[n]), Emitted(p, entries[..n]), before, Added(p, entries), s);
    }
  }

  /** The check fails exactly when some layer that received an expert lacks another; otherwise the whole output is returned. */
  lemma {:induction false} ConvertedExactly(p: Params, entries: seq<Entry>)
    requires GoodCheckpoint(p, entries)
    ensures Converted(p, Arrivals(p, entries)) ==
            if AllComplete(p, ExpertsOf(entries)) then Ok(Emitted(p, entries)) else Err("Unprocessed experts")
  {
    var s := RunState(p, entries);
    LeftoverExactly(p, ExpertsOf(entries), s);
  }

  // ----- every order gives the same output

  /** The output is the other tensors and the stacks of the complete layers, each once. */
  lemma {:induction false} EmittedExactly(p: Params, entries: seq<Entry>)
    requires GoodCheckpoint(p, entries)
    ensures multiset(Emitted(p, entries)) == multiset(OthersOf(entries)) + multiset(ByLayer(p, ExpertsOf(entries)))
  {
    EmittedParts(p, entries);
    EmittedOnce(p, ExpertsOf(entries));
  }

  lemma {:induction false} EmittedParts(p: Params, entries: seq<Entry>)
    requires GoodCheckpoint(p, entries)
    ensures multiset(Emitted(p, entries)) == multiset(OthersOf(entries)) + multiset(Outputs(p, ExpertsOf(entries)))
    decreases |entries|
  {
    if entries != [] {
      var n := |entries| - 1;
      WithoutLast(p, entries);
      EmittedParts(p, entries[..n]);
      EmittedNext(p, entries);
    }
  }

  lemma {:induction false} EmittedNext(p: Params, entries: seq<Entry>)
    requires GoodCheckpoint(p, entries) && entries != [] && GoodCheckpoint(p, entries[..|entries| - 1])
    ensures var before := entries[..|entries| - 1];
            && Emitted(p, entries) == Emitted(p, before) + Added(p, entries)
            && multiset(OthersOf(entries)) + multiset(Outputs(p, ExpertsOf(entries))) ==
               multiset(OthersOf(before)) + multiset(Outputs(p, ExpertsOf(before))) + multiset(Added(p, entries))
  {
    WithoutLast(p, entries);
  }

  /** The same entries in another order. */
  predicate SameEntries(x: seq<Entry>, y: seq<Entry>) {
    multiset(x) == multiset(y)
  }

  lemma {:induction false} CountExperts(entries: seq<Entry>, e: Expert)
    ensures multiset(ExpertsOf(entries))[e] == multiset(entries)[Weight(e)]
  {
    if entries != [] {
      CountExperts(entries[..|entries| - 1], e);
      SplitLast(entries);
    }
  }

  lemma {:induction false} CountOthers(entries: seq<Entry>, x: Named)
    ensures multiset(OthersOf(entries))[x] == multiset(entries)[Other(x)]
  {
    if entries != [] {
      CountOthers(entries[..|entries| - 1], x);
      SplitLast(entries);
    }
  }

  lemma {:induction false} SameParts(x: seq<Entry>, y: seq<Entry>)
    requires SameEntries(x, y)
    ensures Reordered(ExpertsOf(x), ExpertsOf(y)) && multiset(OthersOf(x)) == multiset(OthersOf(y))
  {
    forall e ensures multiset(ExpertsOf(x))[e] == multiset(ExpertsOf(y))[e] {
      CountExperts(x, e);
      CountExperts(y, e);
    }
    forall n ensures multiset(OthersOf(x))[n] == multiset(OthersOf(y))[n] {
      CountOthers(x, n);
      CountOthers(y, n);
    }
  }

  lemma {:induction false} SameEmissions(p: Params, x: seq<Entry>, y: seq<Entry>)
    requires GoodCheckpoint(p, x) && GoodCheckpoint(p, y) && SameEntries(x, y)
    ensures multiset(Emitted(p, x)) == multiset(Emitted(p, y))
    ensures AllComplete(p, ExpertsOf(x)) <==> AllComplete(p, ExpertsOf(y))
  {
    SameParts(x, y);
    EmittedExactly(p, x);
    EmittedExactly(p, y);
    SameAllStacks(p, ExpertsOf(x), ExpertsOf(y));
    if AllComplete(p, ExpertsOf(x)) {
      SameCompleteness(p, ExpertsOf(x), ExpertsOf(y));
    }
    if AllComplete(p, ExpertsOf(y)) {
      SameCompleteness(p, ExpertsOf(y), ExpertsOf(x));
    }
  }

  /** Reordering a checkpoint changes neither whether the conversion succeeds nor what it emits, up to order. */
  lemma {:induction false} Confluent(p: Params, x: seq<Entry>, y: seq<Entry>)
    requires GoodCheckpoint(p, x) && GoodCheckpoint(p, y) && SameEntries(x, y)
    ensures Converted(p, Arrivals(p, x)).Ok? <==> Converted(p, Arrivals(p, y)).Ok?
    ensures Converted(p, Arrivals(p, x)).Ok? ==>
              multiset(Converted(p, Arrivals(p, x)).value) == multiset(Converted(p, Arrivals(p, y)).value)
  {
    ConvertedExactly(p, x);
    ConvertedExactly(p, y);
    SameEmissions(p, x, y);
  }
}
