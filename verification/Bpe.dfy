/** Rank-bounded byte-pair merging, used to recover the merge that makes each token. */
module Bpe {
  import opened Results
  import opened Bytes

  type Token = seq<Byte>
  type Ranks = map<Token, int>

  // ----- one round

  function PairRank(ranks: Ranks, parts: seq<Token>, i: nat): Option<int>
    requires i + 1 < |parts|
  {
    var pair := parts[i] + parts[i + 1];
    if pair in ranks then Some(ranks[pair]) else None
  }

  /** Pair `i` is the first of lowest rank among the first `n` pairs. */
  predicate IsBest(ranks: Ranks, parts: seq<Token>, n: nat, i: nat) {
    && i < n < |parts|
    && PairRank(ranks, parts, i).Some?
    && forall j :: 0 <= j < n && PairRank(ranks, parts, j).Some? ==>
         && PairRank(ranks, parts, i).value <= PairRank(ranks, parts, j).value
         && (j < i ==> PairRank(ranks, parts, i).value < PairRank(ranks, parts, j).value)
  }

  predicate NoneRanked(ranks: Ranks, parts: seq<Token>, n: nat)
    requires n == 0 || n < |parts|
  {
    forall j :: 0 <= j < n ==> PairRank(ranks, parts, j).None?
  }

  /** The first pair of lowest rank among the first `n`. */
  function BestOf(ranks: Ranks, parts: seq<Token>, n: nat): (r: Option<nat>)
    requires n == 0 || n < |parts|
    ensures r.Some? ==> IsBest(ranks, parts, n, r.value)
    ensures r.None? ==> NoneRanked(ranks, parts, n)
  {
    if n == 0 then None
    else
      var best := BestOf(ranks, parts, n - 1);
      var rank := PairRank(ranks, parts, n - 1);
      if rank.Some? && (best.None? || rank.value < PairRank(ranks, parts, best.value).value) then Some(n - 1) else best
  }

  function Best(ranks: Ranks, parts: seq<Token>): (r: Option<nat>)
    ensures r.Some? ==> r.value + 1 < |parts|
  {
    if parts == [] then None else BestOf(ranks, parts, |parts| - 1)
  }

  /** No pair is ranked, or the lowest rank is not below the bound. */
  predicate Stops(ranks: Ranks, bound: Option<int>, parts: seq<Token>) {
    var best := Best(ranks, parts);
    best.None? || (bound.Some? && PairRank(ranks, parts, best.value).value >= bound.value)
  }

  function Merge(parts: seq<Token>, i: nat): (r: seq<Token>)
    requires i + 1 < |parts|
    ensures |r| == |parts| - 1
  {
    parts[..i] + [parts[i] + parts[i + 1]] + parts[i + 2..]
  }

  function Next(ranks: Ranks, parts: seq<Token>): (r: seq<Token>)
    requires Best(ranks, parts).Some?
    ensures |r| == |parts| - 1
  {
    Merge(parts, Best(ranks, parts).value)
  }

  // ----- the run

  function Run(ranks: Ranks, bound: Option<int>, parts: seq<Token>): seq<Token>
    decreases |parts|
  {
    if Stops(ranks, bound, parts) then parts else Run(ranks, bound, Next(ranks, parts))
  }

  /** The states the run goes through. */
  function Trace(ranks: Ranks, bound: Option<int>, parts: seq<Token>): (r: seq<seq<Token>>)
    ensures |r| > 0 && r[0] == parts
    decreases |parts|
  {
    if Stops(ranks, bound, parts) then [parts] else [parts] + Trace(ranks, bound, Next(ranks, parts))
  }

  /** The ranks of the merges the run makes. */
  function MergeRanks(ranks: Ranks, bound: Option<int>, parts: seq<Token>): seq<int>
    decreases |parts|
  {
    if Stops(ranks, bound, parts) then []
    else [PairRank(ranks, parts, Best(ranks, parts).value).value] + MergeRanks(ranks, bound, Next(ranks, parts))
  }

  function Singles(token: Token): (parts: seq<Token>)
    ensures |parts| == |token|
  {
    seq(|token|, i requires 0 <= i < |token| => [token[i]])
  }

  /** `bpe`. */
  method Bpe(ranks: Ranks, token: Token, maxRank: Option<int>) returns (parts: seq<Token>)
    ensures parts == Run(ranks, maxRank, Singles(token))
  {
    parts := Singles(token);
    while true
      invariant Run(ranks, maxRank, parts) == Run(ranks, maxRank, Singles(token))
      decreases |parts|
    {
      var minIdx, minRank := FindBest(ranks, parts);
      if minRank.None? || (maxRank.Some? && minRank.value >= maxRank.value) {
        break;
      }
      parts := parts[..minIdx.value] + [parts[minIdx.value] + parts[minIdx.value + 1]] + parts[minIdx.value + 2..];
    }
  }

  /** The scan over adjacent pairs. */
  method FindBest(ranks: Ranks, parts: seq<Token>) returns (minIdx: Option<nat>, minRank: Option<int>)
    ensures minIdx == Best(ranks, parts)
    ensures minRank == if minIdx.Some? then PairRank(ranks, parts, minIdx.value) else None
  {
    minIdx, minRank := None, None;
    var i := 0;
    while i + 1 < |parts|
      invariant i == 0 || i < |parts|
      invariant minIdx == BestOf(ranks, parts, i)
      invariant minRank == if minIdx.Some? then PairRank(ranks, parts, minIdx.value) else None
    {
      var rank := PairRank(ranks, parts, i);
      if rank.Some? && (minRank.None? || rank.value < minRank.value) {
        minIdx, minRank := Some(i), rank;
      }
      i := i + 1;
    }
  }

  /** Recovering the two parts of every token of more than one byte, in the order given. */
  method RecoverMerges(ranks: Ranks, order: seq<Token>) returns (r: Result<seq<(Token, Token)>>)
    requires forall i :: 0 <= i < |order| ==> order[i] in ranks
    ensures r == Recovered(ranks, order)
  {
    var merges: seq<(Token, Token)> := [];
    var i := 0;
    while i < |order|
      invariant 0 <= i <= |order|
      invariant Recovered(ranks, order[..i]) == Ok(merges)
    {
      var token := order[i];
      assert order[..i + 1][..i] == order[..i];
      if |token| != 1 {
        var merged := Bpe(ranks, token, Some(ranks[token]));
        if |merged| != 2 {
          RecoveredFails(ranks, order, i + 1);
          return Err("assertion failed");
        }
        merges := merges + [(merged[0], merged[1])];
      }
      i := i + 1;
    }
    assert order[..|order|] == order;
    r := Ok(merges);
  }

  function BoundedParts(ranks: Ranks, token: Token): seq<Token>
    requires token in ranks
  {
    Run(ranks, Some(ranks[token]), Singles(token))
  }

  function Recovered(ranks: Ranks, order: seq<Token>): Result<seq<(Token, Token)>>
    requires forall i :: 0 <= i < |order| ==> order[i] in ranks
  {
    if order == [] then Ok([])
    else
      var merges :- Recovered(ranks, order[..|order| - 1]);
      var token := order[|order| - 1];
      if |token| == 1 then Ok(merges)
      else
        var merged := BoundedParts(ranks, token);
        if |merged| == 2 then Ok(merges + [(merged[0], merged[1])]) else Err("assertion failed")
  }

  lemma {:induction false} RecoveredFails(ranks: Ranks, order: seq<Token>, i: nat)
    requires forall i :: 0 <= i < |order| ==> order[i] in ranks
    requires i <= |order| && Recovered(ranks, order[..i]) == Err("assertion failed")
    ensures Recovered(ranks, order) == Err("assertion failed")
  {
    if i == |order| {
      assert order[..i] == order;
    } else {
      assert order[..|order| - 1][..i] == order[..i];
      RecoveredFails(ranks, order[..|order| - 1], i);
    }
  }
}
