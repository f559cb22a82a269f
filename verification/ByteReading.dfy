/** Reading little-endian numbers and byte strings out of a file. */
module ByteReading {
  import opened Results
  import opened Bytes
  import opened Sequences

  // The number and its bytes are each defined in two steps, so that a proof about a whole file does not take every number
  // in it apart.

  /** The number that the `k` bytes at `at` spell, the lowest first. */
  function LeAt(data: seq<Byte>, at: nat, k: nat): nat
    requires at + k <= |data|
    decreases k, at, 1
  {
    if k == 0 then 0 else LowestFirst(data, at, k)
  }

  function LowestFirst(data: seq<Byte>, at: nat, k: nat): nat
    requires 0 < k && at + k <= |data|
    decreases k, at, 0
  {
    data[at] + 256 * LeAt(data, at + 1, k - 1)
  }

  /** The last `k` bytes of a number, the lowest first. */
  function Le(n: nat, k: nat): (bs: seq<Byte>)
    ensures |bs| == k
    decreases k, n, 1
  {
    if k == 0 then [] else LowByteFirst(n, k)
  }

  function LowByteFirst(n: nat, k: nat): (bs: seq<Byte>)
    requires k > 0
    ensures |bs| == k
    decreases k, n, 0
  {
    [n % 256] + Le(n / 256, k - 1)
  }

  /** `n` needs no more than `k` bytes. */
  predicate Fits(n: nat, k: nat)
    decreases k, n
  {
    if k == 0 then n == 0 else Fits(n / 256, k - 1)
  }

  const U32_LIMIT := 0x1_0000_0000
  const U64_LIMIT := 0x1_0000_0000_0000_0000

  lemma {:induction false} FourBytes(n: nat)
    requires n < U32_LIMIT
    ensures Fits(n, 4)
  {
    assert n / 256 / 256 / 256 / 256 == 0;
    assert Fits(n / 256 / 256 / 256 / 256, 0);
    assert Fits(n / 256 / 256 / 256, 1);
    assert Fits(n / 256 / 256, 2);
    assert Fits(n / 256, 3);
  }

  lemma {:induction false} EightBytes(n: nat)
    requires n < U64_LIMIT
    ensures Fits(n, 8)
  {
    var m := n / 256 / 256 / 256 / 256;
    assert m < U32_LIMIT;
    FourBytes(m);
    assert Fits(n / 256 / 256 / 256, 5);
    assert Fits(n / 256 / 256, 6);
    assert Fits(n / 256, 7);
  }

  /** `data[from..to]`, which stops at the end of the data. */
  function Slice(data: seq<Byte>, from: nat, to: nat): (s: seq<Byte>)
    requires from <= to
    ensures |s| <= to - from
  {
    if from >= |data| then [] else data[from..if to > |data| then |data| else to]
  }

  /** Unpacking a number of `k` bytes fails if the data ends before it does. */
  function ReadLe(data: seq<Byte>, at: nat, k: nat): Result<nat> {
    if at + k <= |data| then Ok(LeAt(data, at, k)) else Err("struct.error")
  }

  /** Unpacking `n` numbers of `k` bytes. */
  function ReadLes(data: seq<Byte>, at: nat, k: nat, n: nat): (r: Result<seq<nat>>)
    ensures r.Ok? ==> |r.value| == n
    decreases n, at
  {
    if n == 0 then Ok([])
    else
      var rest :- ReadLes(data, at, k, n - 1);
      var last :- ReadLe(data, at + (n - 1) * k, k);
      Ok(rest + [last])
  }

  // ----- what is written can be read

  /** The first `n` bytes of `s` are in the data at `at`. */
  predicate HasFirst(data: seq<Byte>, at: nat, s: seq<Byte>, n: nat)
    requires n <= |s|
    decreases n, 1
  {
    n == 0 || HasOneMore(data, at, s, n)
  }

  /** Byte `n - 1` too. Apart, as for numbers. */
  predicate HasOneMore(data: seq<Byte>, at: nat, s: seq<Byte>, n: nat)
    requires 0 < n <= |s|
    decreases n, 0
  {
    HasFirst(data, at, s, n - 1) && at + n <= |data| && data[at + n - 1] == s[n - 1]
  }

  /** The data has `s` at `at`. */
  predicate HasAt(data: seq<Byte>, at: nat, s: seq<Byte>) {
    at <= |data| && HasFirst(data, at, s, |s|)
  }

  lemma {:induction false} HasFirstSize(data: seq<Byte>, at: nat, s: seq<Byte>, n: nat)
    requires at <= |data| && n <= |s| && HasFirst(data, at, s, n)
    ensures at + n <= |data|
  {
  }

  lemma {:induction false} HasFirstAt(data: seq<Byte>, at: nat, s: seq<Byte>, n: nat, i: nat)
    requires at <= |data| && n <= |s| && HasFirst(data, at, s, n) && i < n
    ensures at + n <= |data| && data[at + i] == s[i]
  {
    if i < n - 1 {
      HasFirstAt(data, at, s, n - 1, i);
    }
  }

  lemma {:induction false} FirstIsThere(data: seq<Byte>, at: nat, s: seq<Byte>, n: nat)
    requires n <= |s| && at + n <= |data| && forall i :: 0 <= i < n ==> data[at + i] == s[i]
    ensures HasFirst(data, at, s, n)
  {
    if n > 0 {
      FirstIsThere(data, at, s, n - 1);
      assert data[at + (n - 1)] == s[n - 1];
    }
  }

  lemma {:induction false} HasIs(data: seq<Byte>, at: nat, s: seq<Byte>)
    ensures HasAt(data, at, s) <==> at + |s| <= |data| && data[at..at + |s|] == s
  {
    if HasAt(data, at, s) {
      HasFirstSize(data, at, s, |s|);
      forall i | 0 <= i < |s| ensures data[at + i] == s[i] {
        HasFirstAt(data, at, s, |s|, i);
      }
    }
    if at + |s| <= |data| && data[at..at + |s|] == s {
      forall i | 0 <= i < |s| ensures data[at + i] == s[i] {
        assert data[at..at + |s|][i] == s[i];
      }
      FirstIsThere(data, at, s, |s|);
    }
  }

  lemma {:induction false} HasAll(data: seq<Byte>)
    ensures HasAt(data, 0, data)
  {
    HasIs(data, 0, data);
  }

  /** Bytes made of two parts are there part by part. */
  lemma {:induction false} HasSplit(data: seq<Byte>, at: nat, whole: seq<Byte>, s: seq<Byte>, t: seq<Byte>)
    requires whole == s + t && HasAt(data, at, whole)
    ensures HasAt(data, at, s) && HasAt(data, at + |s|, t) && |whole| == |s| + |t|
  {
    HasIs(data, at, whole);
    HasIs(data, at, s);
    HasIs(data, at + |s|, t);
    PartsOfSlice(data, at, s, t);
  }

  lemma {:induction false} PartsOfSlice(data: seq<Byte>, at: nat, s: seq<Byte>, t: seq<Byte>)
    requires at + |s + t| <= |data| && data[at..at + |s + t|] == s + t
    ensures data[at..at + |s|] == s && data[at + |s|..at + |s| + |t|] == t
  {
    var u := data[at..at + |s + t|];
    assert u[..|s|] == s && u[|s|..] == t;
    assert data[at..at + |s|] == u[..|s|];
    assert data[at + |s|..at + |s| + |t|] == u[|s|..];
  }

  lemma {:induction false} LeWritten(data: seq<Byte>, at: nat, n: nat, k: nat)
    requires Fits(n, k) && HasAt(data, at, Le(n, k))
    ensures at + k <= |data| && LeAt(data, at, k) == n
    decreases k
  {
    if k > 0 {
      assert Le(n, k) == [n % 256] + Le(n / 256, k - 1);
      HasSplit(data, at, Le(n, k), [n % 256], Le(n / 256, k - 1));
      HasFirstAt(data, at, [n % 256], 1, 0);
      LeWritten(data, at + 1, n / 256, k - 1);
    }
  }

  lemma {:induction false} ReadWritten(data: seq<Byte>, at: nat, n: nat, k: nat)
    requires Fits(n, k) && HasAt(data, at, Le(n, k))
    ensures ReadLe(data, at, k) == Ok(n)
  {
    LeWritten(data, at, n, k);
  }

  lemma {:induction false} SliceWritten(data: seq<Byte>, at: nat, s: seq<Byte>)
    requires HasAt(data, at, s)
    ensures Slice(data, at, at + |s|) == s && at + |s| <= |data|
  {
    HasIs(data, at, s);
  }

  /** `n` numbers of `k` bytes, one after the other. */
  function Les(ns: seq<nat>, k: nat): (bs: seq<Byte>)
    ensures |bs| == |ns| * k
  {
    if ns == [] then [] else Les(ns[..|ns| - 1], k) + Le(ns[|ns| - 1], k)
  }

  lemma {:induction false} ReadWrittens(data: seq<Byte>, at: nat, ns: seq<nat>, k: nat)
    requires HasAt(data, at, Les(ns, k)) && forall i :: 0 <= i < |ns| ==> Fits(ns[i], k)
    ensures ReadLes(data, at, k, |ns|) == Ok(ns)
    decreases |ns|
  {
    if ns != [] {
      var n := |ns| - 1;
      HasSplit(data, at, Les(ns, k), Les(ns[..n], k), Le(ns[n], k));
      ReadWrittens(data, at, ns[..n], k);
      ReadWritten(data, at + n * k, ns[n], k);
      SplitLast(ns);
    }
  }
}
