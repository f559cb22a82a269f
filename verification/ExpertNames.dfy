/** The names of expert tensors, and why different experts have different names. */
module ExpertNames {
  import opened Strings

  /** `n` in decimal. */
  function Decimal(n: nat): (s: string)
    ensures |s| > 0 && NoDots(s)
  {
    if n < 10 then [('0' as int + n) as char] else Decimal(n / 10) + [('0' as int + n % 10) as char]
  }

  predicate NoDots(s: string) {
    forall i :: 0 <= i < |s| ==> s[i] != '.'
  }

  lemma {:induction false} DecimalInjective(m: nat, n: nat)
    requires Decimal(m) == Decimal(n)
    ensures m == n
  {
    var s, t := Decimal(m), Decimal(n);
    assert s[|s| - 1] == t[|t| - 1];
    assert m % 10 == n % 10;
    if m >= 10 && n >= 10 {
      assert Decimal(m / 10) == s[..|s| - 1] == t[..|t| - 1] == Decimal(n / 10);
      DecimalInjective(m / 10, n / 10);
    }
  }

  const LAYERS := "model.layers."
  const PATTERN := "block_sparse_moe.experts"

  const WEIGHTS: seq<string> := ["w1", "w2", "w3"]

  /** The name of weight `w` of expert `x` in layer `b`. */
  function ExpertName(b: nat, x: nat, w: string): string {
    LAYERS + Decimal(b) + "." + PATTERN + "." + Decimal(x) + "." + w + ".weight"
  }

  function MergedName(b: nat, w: string): string {
    "layers." + Decimal(b) + ".feed_forward.experts." + w + ".weight"
  }

  lemma {:induction false} WeightsDistinct(v: nat, w: nat)
    requires v < 3 && w < 3 && WEIGHTS[v] == WEIGHTS[w]
    ensures v == w
  {
    assert WEIGHTS[v][1] == WEIGHTS[w][1];
  }

  lemma {:induction false} Cancel(x: string, s: string, t: string)
    requires x + s == x + t
    ensures s == t
  {
    assert (x + s)[|x|..] == s && (x + t)[|x|..] == t;
  }

  lemma {:induction false} CancelEnd(s: string, t: string, x: string)
    requires s + x == t + x
    ensures s == t
  {
    assert |s| == |t|;
    assert (s + x)[..|s|] == s && (t + x)[..|t|] == t;
  }

  /** What is before the first dot, and what is after it. */
  lemma {:induction false} SplitAtDot(s: string, x: string, t: string, y: string)
    requires NoDots(s) && NoDots(t) && s + "." + x == t + "." + y
    ensures s == t && x == y
  {
    var u := s + "." + x;
    assert u[|s|] == '.' == u[|t|];
    assert forall i :: 0 <= i < |s| ==> u[i] == s[i] != '.';
    assert forall i :: 0 <= i < |t| ==> u[i] == t[i] != '.';
    assert |s| == |t|;
    assert u[..|s|] == s && u[..|t|] == t;
    assert u[|s| + 1..] == x && u[|t| + 1..] == y;
  }

  /** The parts of a name after the layer number, and after the expert number. */
  function AfterLayer(x: nat, w: string): string {
    PATTERN + ("." + (Decimal(x) + "." + AfterExpert(w)))
  }

  function AfterExpert(w: string): string {
    w + ".weight"
  }

  lemma {:induction false} Regroup(b: nat, x: nat, w: string)
    ensures ExpertName(b, x, w) == LAYERS + (Decimal(b) + "." + AfterLayer(x, w))
  {
  }

  /** Experts with one name are the same expert. */
  lemma {:induction false} ExpertNameInjective(b: nat, x: nat, w: string, b': nat, x': nat, w': string)
    requires ExpertName(b, x, w) == ExpertName(b', x', w')
    ensures b == b' && x == x' && w == w'
  {
    Regroup(b, x, w);
    Regroup(b', x', w');
    Cancel(LAYERS, Decimal(b) + "." + AfterLayer(x, w), Decimal(b') + "." + AfterLayer(x', w'));
    SplitAtDot(Decimal(b), AfterLayer(x, w), Decimal(b'), AfterLayer(x', w'));
    DecimalInjective(b, b');
    ExpertAndWeight(x, w, x', w');
  }

  lemma {:induction false} ExpertAndWeight(x: nat, w: string, x': nat, w': string)
    requires AfterLayer(x, w) == AfterLayer(x', w')
    ensures x == x' && w == w'
  {
    var s, t := Decimal(x) + "." + AfterExpert(w), Decimal(x') + "." + AfterExpert(w');
    Cancel(PATTERN, "." + s, "." + t);
    Cancel(".", s, t);
    SplitAtDot(Decimal(x), AfterExpert(w), Decimal(x'), AfterExpert(w'));
    DecimalInjective(x, x');
    CancelEnd(w, w', ".weight");
  }

  lemma {:induction false} IsExpertName(b: nat, x: nat, w: string)
    ensures Occurs(ExpertName(b, x, w), PATTERN)
  {
    var s, t := LAYERS + Decimal(b) + ".", "." + Decimal(x) + "." + w + ".weight";
    assert ExpertName(b, x, w) == s + PATTERN + t;
    assert IsAt(PATTERN, PATTERN, 0);
    OccursInside(s, PATTERN, t, PATTERN);
  }
}
