/** What every run of the merge loop keeps, and when it recovers the two parts of a token. */
module BpeLaws {
  import opened Results
  import opened Sequences
  import opened Bytes
  import opened Bpe

  lemma {:induction false} SplitAround(parts: seq<Token>, i: nat)
    requires i + 1 < |parts|
    ensures parts == parts[..i] + [parts[i], parts[i + 1]] + parts[i + 2..]
  {
  }

  /** A list with its parts `i` and `i + 1` in the middle. */
  lemma {:induction false} ConcatAround(parts: seq<Token>, i: nat)
    requires i + 1 < |parts|
    ensures Flatten(parts) == Flatten(parts[..i]) + (parts[i] + parts[i + 1]) + Flatten(parts[i + 2..])
  {
    var x, pair, y := parts[..i], [parts[i], parts[i + 1]], parts[i + 2..];
    SplitAround(parts, i);
    FlattenConcat(x + pair, y);
    FlattenConcat(x, pair);
    FlattenTwo(parts[i], parts[i + 1]);
  }

  lemma {:induction false} MergeKeepsConcat(parts: seq<Token>, i: nat)
    requires i + 1 < |parts|
    ensures Flatten(Merge(parts, i)) == Flatten(parts)
  {
    var pair := parts[i] + parts[i + 1];
    ConcatAround(parts, i);
    FlattenConcat(parts[..i] + [pair], parts[i + 2..]);
    FlattenConcat(parts[..i], [pair]);
    FlattenOne(pair);
  }

  lemma {:induction false} ConcatSingles(token: Token)
    ensures Flatten(Singles(token)) == token
  {
    if token != [] {
      var n := |token| - 1;
      ConcatSingles(token[..n]);
      assert Singles(token)[..n] == Singles(token[..n]);
    }
  }

  // ----- every run

  /** A part is a single byte or a key. */
  predicate KnownParts(ranks: Ranks, parts: seq<Token>) {
    forall i :: 0 <= i < |parts| ==> |parts[i]| == 1 || parts[i] in ranks
  }

  /** The run keeps the text, keeps every part known, merges as often as parts disappear, and goes on while it may. */
  lemma {:induction false} RunLaws(ranks: Ranks, bound: Option<int>, parts: seq<Token>)
    requires KnownParts(ranks, parts)
    ensures Flatten(Run(ranks, bound, parts)) == Flatten(parts)
    ensures KnownParts(ranks, Run(ranks, bound, parts))
    ensures |Run(ranks, bound, parts)| + |MergeRanks(ranks, bound, parts)| == |parts|
    decreases |parts|
  {
    if !Stops(ranks, bound, parts) {
      MergeKeepsConcat(parts, Best(ranks, parts).value);
      RunLaws(ranks, bound, Next(ranks, parts));
    }
  }

  /** The trace has one state more than the run has merges, and ends with the run's result. */
  lemma {:induction false} TraceLaws(ranks: Ranks, bound: Option<int>, parts: seq<Token>)
    ensures |Trace(ranks, bound, parts)| == |MergeRanks(ranks, bound, parts)| + 1
    ensures Trace(ranks, bound, parts)[|MergeRanks(ranks, bound, parts)|] == Run(ranks, bound, parts)
    decreases |parts|
  {
    if !Stops(ranks, bound, parts) {
      TraceLaws(ranks, bound, Next(ranks, parts));
    }
  }

  /** A token of `n` bytes takes at most `n - 1` merges, and the result spells the token. */
  lemma {:induction false} TokenLaws(ranks: Ranks, bound: Option<int>, token: Token)
    requires token != []
    ensures Flatten(Run(ranks, bound, Singles(token))) == token
    ensures KnownParts(ranks, Run(ranks, bound, Singles(token)))
    ensures |MergeRanks(ranks, bound, Singles(token))| <= |token| - 1
  {
    RunLaws(ranks, bound, Singles(token));
    ConcatSingles(token);
    assert Flatten<Byte>([]) == [];
  }

  /** No adjacent pair has a rank below the bound. */
  predicate Maximal(ranks: Ranks, bound: Option<int>, parts: seq<Token>) {
    forall i :: 0 <= i < |parts| - 1 && PairRank(ranks, parts, i).Some? ==>
      bound.Some? && PairRank(ranks, parts, i).value >= bound.value
  }

  /** The run stops exactly where no adjacent pair may be merged. */
  lemma {:induction false} StopsExact(ranks: Ranks, bound: Option<int>, parts: seq<Token>)
    ensures Stops(ranks, bound, parts) <==> Maximal(ranks, bound, parts)
  {
    if |parts| > 0 {
      var best := BestOf(ranks, parts, |parts| - 1);
      if best.None? {
        assert NoneRanked(ranks, parts, |parts| - 1);
      } else {
        assert IsBest(ranks, parts, |parts| - 1, best.value);
      }
    }
  }

  lemma {:induction false} RunIsMaximal(ranks: Ranks, bound: Option<int>, parts: seq<Token>)
    ensures Maximal(ranks, bound, Run(ranks, bound, parts))
    decreases |parts|
  {
    if Stops(ranks, bound, parts) {
      StopsExact(ranks, bound, parts);
    } else {
      RunIsMaximal(ranks, bound, Next(ranks, parts));
    }
  }

  /** Every merge of the run has a rank below the bound. */
  lemma {:induction false} MergesBelowBound(ranks: Ranks, bound: int, parts: seq<Token>, k: nat)
    requires k < |MergeRanks(ranks, Some(bound), parts)|
    ensures MergeRanks(ranks, Some(bound), parts)[k] < bound
    decreases |parts|
  {
    if k > 0 {
      MergesBelowBound(ranks, bound, Next(ranks, parts), k - 1);
    }
  }

  /** The states of a bounded run are the first states of the unbounded one. */
  lemma {:induction false} BoundedIsPrefix(ranks: Ranks, bound: Option<int>, parts: seq<Token>)
    ensures Trace(ranks, bound, parts) <= Trace(ranks, None, parts)
    ensures MergeRanks(ranks, bound, parts) <= MergeRanks(ranks, None, parts)
    decreases |parts|
  {
    if !Stops(ranks, bound, parts) {
      BoundedIsPrefix(ranks, bound, Next(ranks, parts));
    }
  }

  // ----- recovering the two parts

  lemma {:induction false} TwoPartsStop(ranks: Ranks, parts: seq<Token>)
    requires |parts| == 2 && Flatten(parts) in ranks
    ensures Best(ranks, parts) == Some(0)
    ensures PairRank(ranks, parts, 0) == Some(ranks[Flatten(parts)])
    ensures Stops(ranks, Some(ranks[Flatten(parts)]), parts)
    ensures Next(ranks, parts) == [Flatten(parts)]
  {
    assert parts == [parts[0], parts[1]];
    FlattenTwo(parts[0], parts[1]);
    assert BestOf(ranks, parts, 1) == Some(0) by {
      assert BestOf(ranks, parts, 0) == None;
    }
  }

  /** All merges but the last, which would make two parts one, rank below the bound. */
  predicate EarlierBelow(ranks: Ranks, bound: int, parts: seq<Token>) {
    var ms := MergeRanks(ranks, None, parts);
    forall k :: 0 <= k < |ms| && k + 2 < |parts| ==> ms[k] < bound
  }

  /** The bounded run stops at two parts exactly when the unbounded run reaches one and makes only lower-ranked merges before. */
  lemma {:induction false} TwoPartsExact(ranks: Ranks, parts: seq<Token>)
    requires |parts| >= 2 && Flatten(parts) in ranks
    ensures |Run(ranks, Some(ranks[Flatten(parts)]), parts)| == 2 <==>
            |Run(ranks, None, parts)| == 1 && EarlierBelow(ranks, ranks[Flatten(parts)], parts)
    decreases |parts|
  {
    var bound := ranks[Flatten(parts)];
    if |parts| == 2 {
      TwoPartsStop(ranks, parts);
    } else if Stops(ranks, Some(bound), parts) {
      if !Stops(ranks, None, parts) {
        assert MergeRanks(ranks, None, parts)[0] >= bound;
      }
    } else {
      var next := Next(ranks, parts);
      MergeKeepsConcat(parts, Best(ranks, parts).value);
      TwoPartsExact(ranks, next);
      EarlierBelowNext(ranks, bound, parts);
    }
  }

  lemma {:induction false} EarlierBelowNext(ranks: Ranks, bound: int, parts: seq<Token>)
    requires |parts| > 2 && !Stops(ranks, Some(bound), parts)
    ensures EarlierBelow(ranks, bound, parts) <==> EarlierBelow(ranks, bound, Next(ranks, parts))
  {
    var ms := MergeRanks(ranks, None, parts);
    var ns := MergeRanks(ranks, None, Next(ranks, parts));
    assert ms == [ms[0]] + ns && ms[0] < bound;
    if EarlierBelow(ranks, bound, parts) {
      forall k | 0 <= k < |ns| && k + 2 < |parts| - 1 ensures ns[k] < bound {
        assert ms[k + 1] == ns[k];
      }
    }
  }

  /** A piece of a token, shorter than it. */
  predicate ProperPiece(piece: Token, token: Token) {
    exists i, j :: 0 <= i <= j <= |token| && j - i < |token| && token[i..j] == piece
  }

  predicate PiecesBelow(ranks: Ranks, token: Token)
    requires token in ranks
  {
    forall piece :: piece in ranks && ProperPiece(piece, token) ==> ranks[piece] < ranks[token]
  }

  predicate NonEmptyParts(parts: seq<Token>) {
    forall i :: 0 <= i < |parts| ==> parts[i] != []
  }

  lemma {:induction false} NonEmptyConcat(parts: seq<Token>)
    requires NonEmptyParts(parts)
    ensures |Flatten(parts)| >= |parts|
  {
    if parts != [] {
      NonEmptyConcat(parts[..|parts| - 1]);
    }
  }

  lemma {:induction false} MergedPairIsPiece(parts: seq<Token>, i: nat)
    requires NonEmptyParts(parts) && |parts| > 2 && i + 1 < |parts|
    ensures ProperPiece(parts[i] + parts[i + 1], Flatten(parts))
  {
    var x, pair, y := Flatten(parts[..i]), parts[i] + parts[i + 1], Flatten(parts[i + 2..]);
    ConcatAround(parts, i);
    NonEmptyConcat(parts[..i]);
    NonEmptyConcat(parts[i + 2..]);
    assert Flatten(parts)[|x|..|x| + |pair|] == pair;
  }

  lemma {:induction false} PiecesBelowMerges(ranks: Ranks, parts: seq<Token>)
    requires NonEmptyParts(parts) && Flatten(parts) in ranks && PiecesBelow(ranks, Flatten(parts))
    ensures EarlierBelow(ranks, ranks[Flatten(parts)], parts)
    decreases |parts|
  {
    if |parts| > 2 && !Stops(ranks, None, parts) {
      var i := Best(ranks, parts).value;
      MergedPairIsPiece(parts, i);
      MergeKeepsConcat(parts, i);
      PiecesBelowMerges(ranks, Next(ranks, parts));
      EarlierBelowNext(ranks, ranks[Flatten(parts)], parts);
    }
  }

  /** If the merges collapse a token to itself and all its shorter pieces rank below it,
      the run bounded by its rank ends with exactly two parts, which spell it. */
  lemma {:induction false} TwoPartsRecovered(ranks: Ranks, token: Token)
    requires token in ranks && |token| >= 2
    requires |Run(ranks, None, Singles(token))| == 1 && PiecesBelow(ranks, token)
    ensures |BoundedParts(ranks, token)| == 2
    ensures BoundedParts(ranks, token)[0] + BoundedParts(ranks, token)[1] == token
  {
    var parts := Singles(token);
    var r := BoundedParts(ranks, token);
    ConcatSingles(token);
    PiecesBelowMerges(ranks, parts);
    TwoPartsExact(ranks, parts);
    TokenLaws(ranks, Some(ranks[token]), token);
    assert r == [r[0], r[1]];
    FlattenTwo(r[0], r[1]);
  }

  /** What makes a token pass the assertion in the caller. */
  predicate Recoverable(ranks: Ranks, token: Token)
    requires token in ranks
  {
    |token| == 1 ||
    (|token| >= 2 && |Run(ranks, None, Singles(token))| == 1 && EarlierBelow(ranks, ranks[token], Singles(token)))
  }

  /** The caller's loop ends without an assertion failure exactly when every token is recoverable. */
  lemma {:induction false} RecoveredExact(ranks: Ranks, order: seq<Token>)
    requires forall i :: 0 <= i < |order| ==> order[i] in ranks
    ensures Recovered(ranks, order).Ok? <==> forall i :: 0 <= i < |order| ==> Recoverable(ranks, order[i])
  {
    if order != [] {
      var n := |order| - 1;
      var token := order[n];
      RecoveredExact(ranks, order[..n]);
      if |token| >= 2 {
        ConcatSingles(token);
        TwoPartsExact(ranks, Singles(token));
      } else if |token| == 0 {
        assert Singles(token) == [];
      }
    }
  }

  /** The tokens that a merge makes: all but the single bytes. */
  function Merged(order: seq<Token>): seq<Token> {
    if |order| == 0 then []
    else
      var token := order[|order| - 1];
      Merged(order[..|order| - 1]) + (if |token| == 1 then [] else [token])
  }

  /** Each pair spells its token, and each of its halves is a single byte or a key. */
  predicate Spell(ranks: Ranks, merges: seq<(Token, Token)>, tokens: seq<Token>) {
    && |merges| == |tokens|
    && forall i :: 0 <= i < |merges| ==>
         && merges[i].0 + merges[i].1 == tokens[i]
         && (|merges[i].0| == 1 || merges[i].0 in ranks) && (|merges[i].1| == 1 || merges[i].1 in ranks)
  }

  /** The merges that the caller's loop finds are one for each token of more than one byte, in order, and make it. */
  lemma {:induction false} RecoveredMerges(ranks: Ranks, order: seq<Token>)
    requires forall i :: 0 <= i < |order| ==> order[i] in ranks
    ensures Recovered(ranks, order).Ok? ==> Spell(ranks, Recovered(ranks, order).value, Merged(order))
    decreases |order|
  {
    if |order| > 0 && Recovered(ranks, order).Ok? {
      var n := |order| - 1;
      RecoveredMerges(ranks, order[..n]);
      if |order[n]| != 1 {
        TwoHalves(ranks, order[n]);
      }
    }
  }

  lemma {:induction false} TwoHalves(ranks: Ranks, token: Token)
    requires token in ranks && |BoundedParts(ranks, token)| == 2
    ensures KnownParts(ranks, BoundedParts(ranks, token))
    ensures BoundedParts(ranks, token)[0] + BoundedParts(ranks, token)[1] == token
  {
    var r := BoundedParts(ranks, token);
    RunLaws(ranks, Some(ranks[token]), Singles(token));
    TokenLaws(ranks, Some(ranks[token]), token);
    assert r == [r[0], r[1]];
    FlattenTwo(r[0], r[1]);
  }

  // ----- a vocabulary that the loop refuses

  /** The single bytes, and a token of all three without one of two. */
  function Unmergeable(): Ranks {
    map[[97] := 0, [98] := 1, [99] := 2, [97, 98, 99] := 3]
  }

  /** No pair merges, so three parts are left. */
  lemma {:induction false} NotRecovered()
    ensures !Recoverable(Unmergeable(), [97, 98, 99])
    ensures Recovered(Unmergeable(), [[97, 98, 99]]) == Err("assertion failed")
  {
    var ranks, token := Unmergeable(), [97, 98, 99];
    var parts := Singles(token);
    assert parts == [[97], [98], [99]];
    assert parts[0] + parts[1] == [97, 98] && parts[1] + parts[2] == [98, 99];
    assert PairRank(ranks, parts, 0).None? && PairRank(ranks, parts, 1).None?;
    assert Best(ranks, parts).None?;
    assert Run(ranks, None, parts) == parts && Run(ranks, Some(3), parts) == parts;
    var order: seq<Token> := [token];
    assert |order[..0]| == 0 && order[0] in ranks;
    assert Recovered(ranks, order[..0]) == Ok([]);
  }
}
