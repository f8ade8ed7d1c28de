/** Byte sequences and the little-endian reads that the source performs with
    BufferPack and DataView. */
module Bytes {
  import opened Wrappers

  type Byte = b: int | 0 <= b < 256

  /** Little-endian unsigned 16-bit value at `at`. */
  function U16(s: seq<Byte>, at: nat): (v: nat)
    requires at + 2 <= |s|
    ensures v < 0x1_0000
  {
    s[at] as int + 256 * (s[at + 1] as int)
  }

  /** Little-endian unsigned 32-bit value at `at`: b0 + 256*b1 + 65536*b2 + 16777216*b3. */
  function U32(s: seq<Byte>, at: nat): (v: nat)
    requires at + 4 <= |s|
    ensures v < 0x1_0000_0000
  {
    s[at] as int + 256 * (s[at + 1] as int) + 65536 * (s[at + 2] as int) + 16777216 * (s[at + 3] as int)
  }

  /** Two's-complement reinterpretation of an unsigned value of `2^k` range. */
  function Signed(u: nat, half: nat): (v: int)
    requires u < 2 * half
    ensures -(half as int) <= v < half
    ensures v >= 0 ==> v == u
  {
    if u >= half then u - 2 * half else u
  }

  /** `bytes[at .. at + len)`, or None when the range leaves the buffer. */
  function Slice(s: seq<Byte>, at: nat, len: nat): (r: Option<seq<Byte>>)
    ensures r.Some? <==> at + len <= |s|
    ensures r.Some? ==> |r.value| == len && forall k :: 0 <= k < len ==> r.value[k] == s[at + k]
  {
    if at + len <= |s| then Some(s[at..at + len]) else None
  }

  /** The string BufferPack makes of bytes: one character per byte, its code the byte's value. */
  function Latin1(s: seq<Byte>): (t: string)
    ensures |t| == |s|
    ensures forall k :: 0 <= k < |s| ==> t[k] as int == s[k]
  {
    seq(|s|, k requires 0 <= k < |s| => s[k] as char)
  }
}
