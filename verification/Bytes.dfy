/** Bytes and byte strings. */
module Bytes {
  /** An unsigned eight-bit number. */
  type Byte = b: int | 0 <= b < 256

  /** Zero bytes. */
  function Blank(n: nat): (bs: seq<Byte>)
    ensures |bs| == n
  {
    seq(n, _ => 0)
  }

  /** The bytes of a text in ASCII. */
  function Ascii(s: string): (bs: seq<Byte>)
    requires forall i :: 0 <= i < |s| ==> s[i] as int < 128
    ensures |bs| == |s|
  {
    seq(|s|, i requires 0 <= i < |s| => s[i] as int)
  }
}
