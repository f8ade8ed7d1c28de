/** JavaScript numbers as the modelled code stores them in typed arrays.

    A value is either a finite real or NaN. Float32 and float64 rounding and
    the infinities are not modelled: the arithmetic is exact. */
module Numbers {

  datatype Num = Fin(r: real) | NaN

  /** The JavaScript number of an integer. */
  function OfInt(i: int): Num { Fin(i as real) }

  /** Element `i` of an array of numbers; reading past the end gives
      `undefined`, which every arithmetic use turns into NaN. */
  function NumAt(s: seq<real>, i: nat): (n: Num)
    ensures n.Fin? <==> i < |s|
    ensures i < |s| ==> n == Fin(s[i])
  {
    if i < |s| then Fin(s[i]) else NaN
  }

  /** Element `i` of a parsed element (a list of numbers). */
  function ComponentAt(s: seq<Num>, i: nat): (n: Num)
    ensures i < |s| ==> n == s[i]
    ensures i >= |s| ==> n == NaN
  {
    if i < |s| then s[i] else NaN
  }

  function Add(a: Num, b: Num): (c: Num)
    ensures c.Fin? <==> a.Fin? && b.Fin?
  {
    if a.Fin? && b.Fin? then Fin(a.r + b.r) else NaN
  }

  function Sub(a: Num, b: Num): (c: Num)
    ensures c.Fin? <==> a.Fin? && b.Fin?
  {
    if a.Fin? && b.Fin? then Fin(a.r - b.r) else NaN
  }

  function Mul(a: Num, b: Num): (c: Num)
    ensures c.Fin? <==> a.Fin? && b.Fin?
  {
    if a.Fin? && b.Fin? then Fin(a.r * b.r) else NaN
  }

  /** Division by a non-zero constant. */
  function DivBy(a: Num, d: real): (c: Num)
    requires d != 0.0
    ensures c.Fin? <==> a.Fin?
    ensures a.Fin? ==> c.r * d == a.r
  {
    if a.Fin? then Fin(a.r / d) else NaN
  }

  /** `Math.max(a, b)`: NaN when either argument is NaN. */
  function Max(a: Num, b: Num): (c: Num)
    ensures c.Fin? <==> a.Fin? && b.Fin?
    ensures c.Fin? ==> c.r >= a.r && c.r >= b.r && (c.r == a.r || c.r == b.r)
  {
    if a.Fin? && b.Fin? then Fin(if a.r >= b.r then a.r else b.r) else NaN
  }

  /** `Math.abs(a)`. */
  function Abs(a: Num): (c: Num)
    ensures c.Fin? <==> a.Fin?
    ensures c.Fin? ==> c.r >= 0.0 && (c.r == a.r || c.r == -a.r)
  {
    if a.NaN? then NaN else if a.r < 0.0 then Fin(-a.r) else a
  }

  /** The relational operators: every comparison with NaN is false. */
  predicate Lt(a: Num, b: Num) { a.Fin? && b.Fin? && a.r < b.r }
  predicate Le(a: Num, b: Num) { a.Fin? && b.Fin? && a.r <= b.r }

  /** JavaScript truthiness of a number: neither 0 nor NaN. */
  predicate Truthy(a: Num) { a.Fin? && a.r != 0.0 }

  /** Rounding toward zero. */
  function Trunc(x: real): (t: int)
    ensures x >= 0.0 ==> t as real <= x < t as real + 1.0
    ensures x < 0.0 ==> t as real - 1.0 < x <= t as real
  {
    if x >= 0.0 then x.Floor else -((-x).Floor)
  }

  /** The integer a bitwise operator sees: ToInt32 truncates toward zero and
      maps NaN to 0. Its reduction modulo 2^32 is left to the masks, which all
      keep at most 16 bits and so see the same low bits either way. */
  function BitwiseOperand(n: Num): int {
    if n.NaN? then 0 else Trunc(n.r)
  }

  /** An integral number is its own bitwise operand (up to the reduction modulo 2^32). */
  lemma BitwiseOperandOfInt(i: int)
    ensures BitwiseOperand(OfInt(i)) == i
  {
    assert (i as real).Floor == i;
  }

  /** Conversion on a store into a Uint8Array: the value modulo 256. */
  function ToUint8(n: Num): (b: nat)
    ensures b < 256
    ensures n.Fin? && 0.0 <= n.r < 256.0 && n.r == n.r.Floor as real ==> b == n.r.Floor
  {
    BitwiseOperand(n) % 256
  }

  /** An integral number. */
  predicate IsInteger(n: Num) { n.Fin? && n.r == n.r.Floor as real }

  function Pow2Nat(k: nat): (p: nat)
    ensures p >= 1
  {
    if k == 0 then 1 else 2 * Pow2Nat(k - 1)
  }

  lemma Pow2NatValues()
    ensures Pow2Nat(3) == 8 && Pow2Nat(8) == 256 && Pow2Nat(12) == 4096
    ensures Pow2Nat(16) == 65536 && Pow2Nat(32) == 0x1_0000_0000
  {
    assert Pow2Nat(16) == 65536;
    assert Pow2Nat(24) == 256 * 65536;
  }

  /** `2 ** e` for an integer exponent, as a real. */
  function Pow2(e: int): (p: real)
    ensures p > 0.0
  {
    if e >= 0 then Pow2Nat(e) as real else 1.0 / (Pow2Nat(-e) as real)
  }
}
