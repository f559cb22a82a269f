/** Scanning the tensor entries of a GGUF file with a moving cursor. */
module GgufScan {
  import opened Results
  import opened Bytes
  import opened ByteReading

  const MAGIC: seq<Byte> := [71, 71, 85, 70]

  // ----- reads; a plain read stops at the end of the file, an unpacked one fails there

  function Moved(data: seq<Byte>, pos: nat, n: nat): (p: nat)
    requires pos <= |data|
    ensures pos <= p <= |data|
  {
    if pos + n <= |data| then pos + n else |data|
  }

  function ReadNumber(data: seq<Byte>, pos: nat, k: nat): (r: Result<(nat, nat)>)
    ensures r.Ok? ==> r.value.1 == pos + k <= |data|
  {
    var n :- ReadLe(data, pos, k);
    Ok((n, pos + k))
  }

  /** Lengths beyond a signed 64-bit number cannot be read. */
  const READ_LIMIT := 0x8000_0000_0000_0000

  /** The length of a string and where it ends. */
  function StrSpan(data: seq<Byte>, pos: nat): (r: Result<(nat, nat)>)
    ensures r.Ok? ==> pos + 8 <= r.value.1 <= |data|
  {
    var n :- ReadNumber(data, pos, 8);
    if n.0 >= READ_LIMIT then Err("OverflowError") else Ok((n.0, Moved(data, n.1, n.0)))
  }

  function ReadStr(data: seq<Byte>, pos: nat): (r: Result<(seq<Byte>, nat)>)
    ensures r.Ok? ==> pos <= r.value.1 <= |data|
  {
    var span :- StrSpan(data, pos);
    Ok((Slice(data, pos + 8, pos + 8 + span.0), span.1))
  }

  // ----- values

  /** The size of the values of a type without length, by the number of the type. */
  function ScalarSize(vtype: nat): (r: Option<nat>)
    ensures r.Some? ==> r.value > 0
  {
    if vtype in {0, 1, 7} then Some(1)
    else if vtype in {2, 3} then Some(2)
    else if vtype in {4, 5, 6} then Some(4)
    else if vtype in {10, 11, 12} then Some(8)
    else None
  }

  const STR_TYPE := 8
  const ARR_TYPE := 9

  /** Where the value at `pos` ends. */
  function Skipped(data: seq<Byte>, pos: nat, vtype: nat): (r: Result<nat>)
    requires pos <= |data|
    ensures r.Ok? ==> pos <= r.value <= |data|
    decreases |data| - pos, 0, 0
  {
    if ScalarSize(vtype).Some? then Ok(Moved(data, pos, ScalarSize(vtype).value))
    else if vtype == STR_TYPE then
      var span :- StrSpan(data, pos);
      Ok(span.1)
    else if vtype == ARR_TYPE then
      var elemType :- ReadNumber(data, pos, 4);
      var n :- ReadNumber(data, elemType.1, 8);
      SkippedAll(data, n.1, elemType.0, n.0)
    else Err("unknown GGUF value type")
  }

  /** Where the first `n` values end. */
  function SkippedAll(data: seq<Byte>, pos: nat, vtype: nat, n: nat): (r: Result<nat>)
    requires pos <= |data|
    ensures r.Ok? ==> pos <= r.value <= |data|
    decreases |data| - pos, 1, n
  {
    if n == 0 then Ok(pos)
    else
      var p :- SkippedAll(data, pos, vtype, n - 1);
      Skipped(data, p, vtype)
  }

  lemma {:induction false} SkippedAllFails(data: seq<Byte>, pos: nat, vtype: nat, k: nat, n: nat)
    requires pos <= |data| && k <= n && SkippedAll(data, pos, vtype, k).Err?
    ensures SkippedAll(data, pos, vtype, n) == SkippedAll(data, pos, vtype, k)
    decreases n
  {
    if k < n {
      SkippedAllFails(data, pos, vtype, k, n - 1);
    }
  }

  // ----- entries

  function SkippedPair(data: seq<Byte>, pos: nat): (r: Result<nat>)
    ensures r.Ok? ==> pos <= r.value <= |data|
  {
    var key :- StrSpan(data, pos);
    var vtype :- ReadNumber(data, key.1, 4);
    Skipped(data, vtype.1, vtype.0)
  }

  function SkippedPairs(data: seq<Byte>, pos: nat, n: nat): (r: Result<nat>)
    requires pos <= |data|
    ensures r.Ok? ==> pos <= r.value <= |data|
    decreases n, 1
  {
    if n == 0 then Ok(pos) else SkippedPairsTo(data, pos, n)
  }

  /** Apart from `SkippedPairs`, so that a proof about `n` pairs does not unfold to the ones before them. */
  function SkippedPairsTo(data: seq<Byte>, pos: nat, n: nat): (r: Result<nat>)
    requires pos <= |data| && n > 0
    ensures r.Ok? ==> pos <= r.value <= |data|
    decreases n, 0
  {
    var p :- SkippedPairs(data, pos, n - 1);
    SkippedPair(data, p)
  }

  lemma {:induction false} SkippedPairsFails(data: seq<Byte>, pos: nat, k: nat, n: nat)
    requires pos <= |data| && k <= n && SkippedPairs(data, pos, k).Err?
    ensures SkippedPairs(data, pos, n) == SkippedPairs(data, pos, k)
    decreases n
  {
    if k < n {
      SkippedPairsFails(data, pos, k, n - 1);
    }
  }

  datatype Entry = Entry(name: seq<Byte>, dims: seq<nat>, ggmlType: nat)

  function ReadDims(data: seq<Byte>, pos: nat, n: nat): (r: Result<(seq<nat>, nat)>)
    requires pos <= |data|
    ensures r.Ok? ==> pos <= r.value.1 <= |data|
    decreases n, pos
  {
    if n == 0 then Ok(([], pos))
    else
      var before :- ReadDims(data, pos, n - 1);
      var dim :- ReadNumber(data, before.1, 8);
      Ok((before.0 + [dim.0], dim.1))
  }

  lemma {:induction false} ReadDimsFails(data: seq<Byte>, pos: nat, k: nat, n: nat)
    requires pos <= |data| && k <= n && ReadDims(data, pos, k).Err?
    ensures ReadDims(data, pos, n) == ReadDims(data, pos, k)
    decreases n
  {
    if k < n {
      ReadDimsFails(data, pos, k, n - 1);
    }
  }

  function ReadEntry(data: seq<Byte>, pos: nat): (r: Result<(Entry, nat)>)
    requires pos <= |data|
    ensures r.Ok? ==> pos <= r.value.1 <= |data|
  {
    var name :- ReadStr(data, pos);
    var nDims :- ReadNumber(data, name.1, 4);
    ReadShape(data, nDims.1, name.0, nDims.0)
  }

  /** The rest of an entry: dimensions, type and data offset. */
  function ReadShape(data: seq<Byte>, pos: nat, name: seq<Byte>, n: nat): (r: Result<(Entry, nat)>)
    requires pos <= |data|
    ensures r.Ok? ==> pos <= r.value.1 <= |data|
  {
    var dims :- ReadDims(data, pos, n);
    var kind :- ReadNumber(data, dims.1, 4);
    var offset :- ReadNumber(data, kind.1, 8);
    Ok((Entry(name, dims.0, kind.0), offset.1))
  }

  /** What is asked for: every tensor, or the first whose name decodes to the wanted text. */
  datatype Needle = Everything | Named(decodesToIt: seq<Byte> -> bool)
  {
    predicate Means(name: seq<Byte>) {
      Named? && decodesToIt(name)
    }
  }

  /** The entries shown after `n` of them: all, or the first with the wanted name. */
  function Shown(data: seq<Byte>, pos: nat, needle: Needle, n: nat): (r: Result<(seq<Entry>, nat)>)
    requires pos <= |data|
    ensures r.Ok? ==> pos <= r.value.1 <= |data|
    decreases n, 1
  {
    if n == 0 then Ok(([], pos)) else ShownTo(data, pos, needle, n)
  }

  /** Apart from `Shown`, so that a proof about `n` entries does not unfold to the ones before them. */
  function ShownTo(data: seq<Byte>, pos: nat, needle: Needle, n: nat): (r: Result<(seq<Entry>, nat)>)
    requires pos <= |data| && n > 0
    ensures r.Ok? ==> pos <= r.value.1 <= |data|
    decreases n, 0
  {
    var before :- Shown(data, pos, needle, n - 1);
    if needle.Named? && before.0 != [] then Ok(before)
    else
      var entry :- ReadEntry(data, before.1);
      Ok((if needle.Everything? || needle.Means(entry.0.name) then before.0 + [entry.0] else before.0, entry.1))
  }

  lemma {:induction false} ShownSettled(data: seq<Byte>, pos: nat, needle: Needle, k: nat, n: nat)
    requires pos <= |data| && k <= n
    requires var r := Shown(data, pos, needle, k); k == n || r.Err? || (needle.Named? && r.value.0 != [])
    ensures Shown(data, pos, needle, n) == Shown(data, pos, needle, k)
    decreases n
  {
    if k < n {
      ShownSettled(data, pos, needle, k, n - 1);
    }
  }

  lemma {:induction false} ShownNext(data: seq<Byte>, pos: nat, needle: Needle, n: nat)
    requires pos <= |data| && Shown(data, pos, needle, n).Ok?
    ensures var before := Shown(data, pos, needle, n).value;
            Shown(data, pos, needle, n + 1) ==
            if needle.Named? && before.0 != [] then Ok(before)
            else
              match ReadEntry(data, before.1)
              case Err(e) => Err(e)
              case Ok(entry) => Ok((if needle.Everything? || needle.Means(entry.0.name) then before.0 + [entry.0] else before.0, entry.1))
  {
  }

  /** What precedes the key-value pairs: the numbers of tensors and of pairs, and where it ends. */
  function ReadCounts(data: seq<Byte>): (r: Result<(nat, nat, nat)>)
    ensures r.Ok? ==> r.value.2 <= |data|
  {
    if !HasAt(data, 0, MAGIC) then Err("not a GGUF file")
    else
      var version :- ReadNumber(data, 4, 4);
      if version.0 < 1 then Err("unsupported GGUF version")
      else
        var nTensors :- ReadNumber(data, 8, 8);
        var nPairs :- ReadNumber(data, 16, 8);
        Ok((nTensors.0, nPairs.0, 24))
  }

  /** `main`: the entries it prints. */
  function Scanned(data: seq<Byte>, needle: Needle): Result<seq<Entry>> {
    var counts :- ReadCounts(data);
    var pos :- SkippedPairs(data, counts.2, counts.1);
    var shown :- Shown(data, pos, needle, counts.0);
    if needle.Named? && shown.0 == [] then Err("NOT FOUND") else Ok(shown.0)
  }

  // ----- the cursor

  class File {
    const data: seq<Byte>
    var pos: nat

    predicate Valid()
      reads this
    {
      pos <= |data|
    }

    constructor (data: seq<Byte>)
      ensures this.data == data && pos == 0 && Valid()
    {
      this.data := data;
      pos := 0;
    }

    method Read(n: nat) returns (s: seq<Byte>)
      requires Valid()
      modifies this`pos
      ensures Valid() && pos == Moved(data, old(pos), n) && s == Slice(data, old(pos), old(pos) + n)
    {
      var end := Moved(data, pos, n);
      s := data[pos..end];
      pos := end;
    }

    /** `read_u32` and `read_u64`. */
    method ReadUint(k: nat) returns (r: Result<nat>)
      requires Valid()
      modifies this`pos
      ensures Valid()
      ensures r.Ok? ==> ReadNumber(data, old(pos), k) == Ok((r.value, pos))
      ensures r.Err? ==> ReadNumber(data, old(pos), k) == Err(r.error)
    {
      var at := pos;
      var bytes := Read(k);
      if |bytes| != k {
        return Err("struct.error");
      }
      r := Ok(LeAt(data, at, k));
    }

    method ReadString() returns (r: Result<seq<Byte>>)
      requires Valid()
      modifies this`pos
      ensures Valid()
      ensures r.Ok? ==> ReadStr(data, old(pos)) == Ok((r.value, pos))
      ensures r.Err? ==> ReadStr(data, old(pos)) == Err(r.error)
    {
      var n :- ReadUint(8);
      if n >= READ_LIMIT {
        return Err("OverflowError");
      }
      var s := Read(n);
      r := Ok(s);
    }

    method SkipValue(vtype: nat) returns (r: Result<()>)
      requires Valid()
      modifies this`pos
      ensures Valid()
      ensures r.Ok? ==> Skipped(data, old(pos), vtype) == Ok(pos)
      ensures r.Err? ==> Skipped(data, old(pos), vtype) == Err(r.error)
      decreases |data| - pos
    {
      var scalar := ScalarSize(vtype);
      if scalar.Some? {
        var _ := Read(scalar.value);
      } else if vtype == STR_TYPE {
        var _ :- ReadString();
      } else if vtype == ARR_TYPE {
        var elemType :- ReadUint(4);
        var n :- ReadUint(8);
        ghost var start := pos;
        var i := 0;
        while i < n
          invariant 0 <= i <= n && Valid() && start <= pos
          invariant SkippedAll(data, start, elemType, i) == Ok(pos)
        {
          var skipped := SkipValue(elemType);
          if skipped.Err? {
            SkippedAllFails(data, start, elemType, i + 1, n);
            return skipped;
          }
          i := i + 1;
        }
      } else {
        return Err("unknown GGUF value type");
      }
      r := Ok(());
    }

    method SkipPairs(n: nat) returns (r: Result<()>)
      requires Valid()
      modifies this`pos
      ensures Valid()
      ensures r.Ok? ==> SkippedPairs(data, old(pos), n) == Ok(pos)
      ensures r.Err? ==> SkippedPairs(data, old(pos), n) == Err(r.error)
    {
      var i := 0;
      while i < n
        invariant 0 <= i <= n && Valid()
        invariant SkippedPairs(data, old(pos), i) == Ok(pos)
      {
        var skipped := SkipPair();
        if skipped.Err? {
          SkippedPairsFails(data, old(pos), i + 1, n);
          return skipped;
        }
        i := i + 1;
      }
      r := Ok(());
    }

    /** The body of the loop over key-value pairs. */
    method SkipPair() returns (r: Result<()>)
      requires Valid()
      modifies this`pos
      ensures Valid()
      ensures r.Ok? ==> SkippedPair(data, old(pos)) == Ok(pos)
      ensures r.Err? ==> SkippedPair(data, old(pos)) == Err(r.error)
    {
      var _ :- ReadString();
      var vtype :- ReadUint(4);
      r := SkipValue(vtype);
    }

    method ReadDimensions(n: nat) returns (r: Result<seq<nat>>)
      requires Valid()
      modifies this`pos
      ensures Valid()
      ensures r.Ok? ==> ReadDims(data, old(pos), n) == Ok((r.value, pos))
      ensures r.Err? ==> ReadDims(data, old(pos), n) == Err(r.error)
    {
      var dims: seq<nat> := [];
      var i := 0;
      while i < n
        invariant 0 <= i <= n && Valid()
        invariant ReadDims(data, old(pos), i) == Ok((dims, pos))
      {
        var dim := ReadUint(8);
        if dim.Err? {
          ReadDimsFails(data, old(pos), i + 1, n);
          return Err(dim.error);
        }
        dims := dims + [dim.value];
        i := i + 1;
      }
      r := Ok(dims);
    }

    /** The body of the loop over tensors, up to the test of the name. */
    method ReadTensorInfo() returns (r: Result<Entry>)
      requires Valid()
      modifies this`pos
      ensures Valid()
      ensures r.Ok? ==> ReadEntry(data, old(pos)) == Ok((r.value, pos))
      ensures r.Err? ==> ReadEntry(data, old(pos)) == Err(r.error)
    {
      var name :- ReadString();
      var nDims :- ReadUint(4);
      var dims :- ReadDimensions(nDims);
      var kind :- ReadUint(4);
      var _ :- ReadUint(8);
      r := Ok(Entry(name, dims, kind));
    }

    method ShowTensors(needle: Needle, n: nat) returns (r: Result<seq<Entry>>)
      requires Valid()
      modifies this`pos
      ensures Valid()
      ensures r.Ok? ==> Shown(data, old(pos), needle, n) == Ok((r.value, pos))
      ensures r.Err? ==> Shown(data, old(pos), needle, n) == Err(r.error)
    {
      var shown: seq<Entry> := [];
      var i := 0;
      ghost var start := pos;
      while i < n && (needle.Everything? || shown == [])
        invariant 0 <= i <= n && Valid()
        invariant Shown(data, start, needle, i) == Ok((shown, pos))
      {
        var more := ShowTensor(needle, shown, start, i);
        if more.Err? {
          ShownSettled(data, start, needle, i + 1, n);
          return Err(more.error);
        }
        shown := shown + more.value;
        i := i + 1;
      }
      ShownSettled(data, start, needle, i, n);
      r := Ok(shown);
    }

    /** The body of the loop: the next tensor, if it is wanted. */
    method ShowTensor(needle: Needle, ghost shown: seq<Entry>, ghost start: nat, ghost i: nat) returns (r: Result<seq<Entry>>)
      requires Valid() && start <= |data| && Shown(data, start, needle, i) == Ok((shown, pos)) && (needle.Everything? || shown == [])
      modifies this`pos
      ensures Valid()
      ensures r.Ok? ==> Shown(data, start, needle, i + 1) == Ok((shown + r.value, pos))
      ensures r.Err? ==> Shown(data, start, needle, i + 1) == Err(r.error)
    {
      ShownNext(data, start, needle, i);
      var entry :- ReadTensorInfo();
      assert shown + [] == shown;
      r := Ok(if needle.Everything? || needle.Means(entry.name) then [entry] else []);
    }

    method Scan(needle: Needle) returns (r: Result<seq<Entry>>)
      requires pos == 0
      modifies this`pos
      ensures r == Scanned(data, needle)
    {
      var magic := Read(4);
      HasIs(data, 0, MAGIC);
      if magic != MAGIC {
        return Err("not a GGUF file");
      }
      var version :- ReadUint(4);
      if version < 1 {
        return Err("unsupported GGUF version");
      }
      var nTensors :- ReadUint(8);
      var nPairs :- ReadUint(8);
      var _ :- SkipPairs(nPairs);
      var shown :- ShowTensors(needle, nTensors);
      if needle.Named? && shown == [] {
        return Err("NOT FOUND");
      }
      r := Ok(shown);
    }
  }
}
