/** The vertex-format tables and the pure conversions of the TGX buffer
    utilities: type-name parsing, normalized integers, half floats and the
    little-endian component reads that BufferPack performs. */
module BufferUtilities {
  import opened Wrappers
  import opened Numbers
  import opened Bytes
  import opened JsStrings

  /** The scalar types a vertex-format attribute can name. */
  datatype DataType = SignedByte | UnsignedByte | SignedShort | UnsignedShort | SignedInt | UnsignedInt | Float32

  /** The key of the type in the format tables. */
  function Name(t: DataType): string {
    match t
    case SignedByte => "byte"
    case UnsignedByte => "ubyte"
    case SignedShort => "short"
    case UnsignedShort => "ushort"
    case SignedInt => "int"
    case UnsignedInt => "uint"
    case Float32 => "float"
  }

  /** The keys of `vertexFormats` in the order `Object.entries` lists them. */
  const FormatOrder: seq<DataType> :=
    [SignedByte, UnsignedByte, SignedShort, UnsignedShort, SignedInt, UnsignedInt, Float32]

  /** `vertexFormats[t]`: the stored "string length" of each type name. */
  function VertexFormatLength(t: DataType): (n: nat)
    ensures n == |Name(t)|
  {
    match t
    case SignedByte => 4
    case UnsignedByte => 5
    case SignedShort => 5
    case UnsignedShort => 6
    case SignedInt => 3
    case UnsignedInt => 4
    case Float32 => 5
  }

  /** `dataTypeByteSize[t]`. */
  function ByteSize(t: DataType): (n: nat)
    ensures n == 1 || n == 2 || n == 4
  {
    match t
    case SignedByte => 1
    case UnsignedByte => 1
    case SignedShort => 2
    case UnsignedShort => 2
    case SignedInt => 4
    case UnsignedInt => 4
    case Float32 => 4
  }

  predicate IsSigned(t: DataType) {
    t == SignedByte || t == SignedShort || t == SignedInt
  }

  /** `dataTypeMaxValues[t]`; the table has no entry for float. */
  function MaxValue(t: DataType): Option<nat> {
    match t
    case SignedByte => Some(127)
    case UnsignedByte => Some(255)
    case SignedShort => Some(32767)
    case UnsignedShort => Some(65535)
    case SignedInt => Some(2147483647)
    case UnsignedInt => Some(4294967295)
    case Float32 => None
  }

  /** The table's maxima are the largest values of the integer types:
      `2^(bits-1) - 1` for the signed ones and `2^bits - 1` for the unsigned ones. */
  lemma MaxValueOfWidth(t: DataType)
    requires t != Float32
    ensures IsSigned(t) ==> MaxValue(t) == Some(Pow2Nat(8 * ByteSize(t) - 1) - 1)
    ensures !IsSigned(t) ==> MaxValue(t) == Some(Pow2Nat(8 * ByteSize(t)) - 1)
  {
    Pow2NatValues();
    assert Pow2Nat(7) == 128;
    assert Pow2Nat(15) == 32768;
    assert Pow2Nat(31) == 2147483648;
  }

  /** The first type (in table order) whose name starts `s`. */
  function FirstFormat(s: string, order: seq<DataType>): (r: Option<DataType>)
    ensures r.Some? ==> VertexFormatLength(r.value) <= |s|
  {
    if order == [] then None
    else if StartsWith(s, Name(order[0])) then Some(order[0])
    else FirstFormat(s, order[1..])
  }

  /** `FirstFormat` finds a type of `order` whose name starts `s`, and finds
      none only when there is none. */
  lemma {:induction false} FirstFormatMeaning(s: string, order: seq<DataType>)
    ensures FirstFormat(s, order).Some? ==> FirstFormat(s, order).value in order && StartsWith(s, Name(FirstFormat(s, order).value))
    ensures FirstFormat(s, order).None? <==> forall t :: t in order ==> !StartsWith(s, Name(t))
  {
    if order != [] && !StartsWith(s, Name(order[0])) {
      FirstFormatMeaning(s, order[1..]);
      assert forall t :: t in order ==> t == order[0] || t in order[1..];
    }
  }

  /** `getDataTypeAndCount(s)`: the first type name that `s` starts with,
      and `parseInt` of the rest (None for NaN); None for `undefined` when no
      name is a prefix. */
  function GetDataTypeAndCount(s: string): Option<(DataType, Option<int>)>
  {
    match FirstFormat(s, FormatOrder)
    case None => None
    case Some(t) => Some((t, ParseInt(s[VertexFormatLength(t)..])))
  }

  /** `getDataTypeAndCount` is undefined exactly when no type name starts the
      string; otherwise its type's name starts the string and its count is
      `parseInt` of the rest. */
  lemma GetDataTypeAndCountMeaning(s: string)
    ensures GetDataTypeAndCount(s).None? <==> forall t :: !StartsWith(s, Name(t))
    ensures GetDataTypeAndCount(s).Some? ==> (StartsWith(s, Name(GetDataTypeAndCount(s).value.0))
      && GetDataTypeAndCount(s).value.1 == ParseInt(s[VertexFormatLength(GetDataTypeAndCount(s).value.0)..]))
  {
    var r := FirstFormat(s, FormatOrder);
    FirstFormatMeaning(s, FormatOrder);
    if r.None? {
      forall t ensures !StartsWith(s, Name(t)) {
        assert t == FormatOrder[0] || t == FormatOrder[1] || t == FormatOrder[2] || t == FormatOrder[3]
          || t == FormatOrder[4] || t == FormatOrder[5] || t == FormatOrder[6];
      }
    }
  }

  /** No type name is a prefix of another, so a name followed by anything
      can only start with that name. */
  lemma OnlyOwnName(t: DataType, u: DataType, d: string)
    requires StartsWith(Name(t) + d, Name(u))
    ensures t == u
  {
    var s := Name(t) + d;
    assert s[..|Name(t)|] == Name(t);
    if |Name(u)| <= |Name(t)| {
      assert Name(t)[..|Name(u)|] == s[..|Name(u)|];
      PrefixFree(u, t);
    } else {
      assert s[..|Name(u)|][..|Name(t)|] == s[..|Name(t)|];
      PrefixFree(t, u);
    }
  }

  /** Type names are told apart by their length and first two characters. */
  lemma PrefixFree(t: DataType, u: DataType)
    requires |Name(t)| <= |Name(u)| && Name(u)[..|Name(t)|] == Name(t)
    ensures t == u
  {
    assert Name(u)[0] == Name(t)[0] && Name(u)[1] == Name(t)[1];
  }

  /** A type name followed by any suffix `d` parses as that type with count `parseInt(d)`. */
  lemma {:induction false} GetDataTypeAndCountOfName(t: DataType, d: string)
    ensures GetDataTypeAndCount(Name(t) + d) == Some((t, ParseInt(d)))
  {
    var s := Name(t) + d;
    assert StartsWith(s, Name(t)) by { assert s[..|Name(t)|] == Name(t); }
    assert t in FormatOrder;
    var r := FirstFormat(s, FormatOrder);
    FirstFormatMeaning(s, FormatOrder);
    OnlyOwnName(t, r.value, d);
    assert s[VertexFormatLength(t)..] == d;
  }

  /** The round trip the layout relies on: `getDataTypeAndCount(t + String(n))` is `(t, n)`. */
  lemma GetDataTypeAndCountOfCount(t: DataType, n: int)
    ensures GetDataTypeAndCount(Name(t) + IntToString(n)) == Some((t, Some(n)))
  {
    GetDataTypeAndCountOfName(t, IntToString(n));
    ParseIntOfIntToString(n);
  }

  /** Element `i` of `normalize(arr, t)`: signed values divided by the maximum
      and clamped below at -1, unsigned ones only divided; float has no
      maximum, so the division gives NaN. */
  function NormalizedAt(v: Num, t: DataType): Num {
    match MaxValue(t)
    case None => NaN
    case Some(m) =>
      if IsSigned(t) then Max(Fin(-1.0), DivBy(v, m as real)) else DivBy(v, m as real)
  }

  /** `normalize(arr, t)` as a value. */
  function Normalized(arr: seq<Num>, t: DataType): (r: seq<Num>)
    ensures |r| == |arr|
    ensures forall i :: 0 <= i < |arr| ==> r[i] == NormalizedAt(arr[i], t)
  {
    seq(|arr|, i requires 0 <= i < |arr| => NormalizedAt(arr[i], t))
  }

  /** `normalize(arr, t)`: the loop that pushes one converted value per element. */
  method Normalize(arr: seq<Num>, t: DataType) returns (res: seq<Num>)
    ensures res == Normalized(arr, t)
  {
    res := [];
    var i := 0;
    while i < |arr|
      invariant 0 <= i <= |arr|
      invariant res == Normalized(arr[..i], t)
    {
      res := res + [NormalizedAt(arr[i], t)];
      i := i + 1;
    }
    assert arr[..i] == arr;
  }

  /** Section 2.3.5.1 of the OpenGL 4.6 core specification: a signed normalized
      integer is `max(c / MAX, -1)`, an unsigned one `c / MAX`. */
  lemma NormalizedMeaning(arr: seq<Num>, t: DataType, i: nat)
    requires i < |arr| && t != Float32 && arr[i].Fin?
    ensures var r := Normalized(arr, t)[i];
      r.Fin? && (IsSigned(t) ==> r.r >= -1.0 && (r.r == -1.0 || r.r * MaxValue(t).value as real == arr[i].r))
      && (!IsSigned(t) ==> r.r * MaxValue(t).value as real == arr[i].r)
  {
  }

  /** Normalizing a value of the integer type itself lands in [-1, 1] (signed)
      or [0, 1] (unsigned), and the maximum maps to 1. */
  lemma NormalizedRange(v: int, t: DataType)
    requires t != Float32
    requires IsSigned(t) ==> -(MaxValue(t).value as int) - 1 <= v <= MaxValue(t).value
    requires !IsSigned(t) ==> 0 <= v <= MaxValue(t).value
    ensures var r := NormalizedAt(OfInt(v), t);
      r.Fin? && -1.0 <= r.r <= 1.0 && (!IsSigned(t) ==> r.r >= 0.0)
      && (v == MaxValue(t).value ==> r.r == 1.0)
  {
    var m := MaxValue(t).value as real;
    assert m > 0.0;
    var q := (v as real) / m;
    assert q * m == v as real;
    assert q <= 1.0;
    if !IsSigned(t) {
      assert q >= 0.0;
    }
  }

  /** A binary16 bit pattern, as BufferPack's "H" code reads it. */
  type HalfBits = x: int | 0 <= x < 0x1_0000

  /** The sign, exponent and mantissa fields of a binary16 bit pattern. */
  datatype HalfFields = HalfFields(sign: nat, exponent: nat, mantissa: nat)

  /** Bit 15, bits 10 to 14 and bits 0 to 9. */
  function Fields(s: HalfBits): (f: HalfFields)
    ensures f.sign < 2 && f.exponent < 32 && f.mantissa < 1024
  {
    HalfFields(s / 0x8000, (s / 0x400) % 0x20, s % 0x400)
  }

  /** `(-1)^sign * x`. */
  function WithSign(sign: nat, x: real): real {
    if sign == 1 then -x else x
  }

  /** `2^e * (1 + m/1024)`: a significand with its implicit leading 1. */
  function Scaled(e: int, m: nat): (x: real)
    ensures x > 0.0
  {
    Pow2(e) * (1.0 + (m as real) / 1024.0)
  }

  /** `shortToHalf` on the fields: `(-1)^sign * 2^e * (1 + m/1024)` with
      `e = -14` when the exponent field is zero and `field - 15` otherwise. */
  function HalfOfFields(f: HalfFields): (h: real)
    ensures h != 0.0
    ensures h < 0.0 <==> f.sign == 1
  {
    var e := if f.exponent == 0 then -14 else f.exponent as int - 15;
    WithSign(f.sign, Scaled(e, f.mantissa))
  }

  /** `shortToHalf(s)`. */
  function ShortToHalf(s: HalfBits): real {
    HalfOfFields(Fields(s))
  }

  /** The value of a binary16 datum as section 3.4 of IEEE 754-2008 defines it:
      `(-1)^S * 2^(E-15) * (1 + T/1024)` for a biased exponent E in 1..30 and
      `(-1)^S * 2^-14 * (T/1024)` for E = 0; None for the infinities and NaNs of E = 31. */
  function Binary16OfFields(f: HalfFields): Option<real> {
    var t := f.mantissa as real;
    if f.exponent == 31 then None
    else if f.exponent == 0 then Some(WithSign(f.sign, SubnormalValue(t)))
    else Some(WithSign(f.sign, NormalValue(f.exponent as int - 15, t)))
  }

  /** `2^e * (1 + t/1024)`, the magnitude of a normal number. */
  function NormalValue(e: int, t: real): real {
    Pow2(e) * (1.0 + t / 1024.0)
  }

  /** `2^-14 * (t/1024)`, the magnitude of a subnormal number. */
  function SubnormalValue(t: real): real {
    Pow2(-14) * (t / 1024.0)
  }

  function Binary16Value(s: HalfBits): Option<real> {
    Binary16OfFields(Fields(s))
  }

  /** For normal numbers `shortToHalf` is the binary16 value. */
  lemma ShortToHalfNormal(s: HalfBits)
    requires 1 <= Fields(s).exponent <= 30
    ensures Binary16Value(s) == Some(ShortToHalf(s))
  {
    NormalFields(Fields(s));
  }

  lemma NormalFields(f: HalfFields)
    requires 1 <= f.exponent <= 30
    ensures Binary16OfFields(f) == Some(HalfOfFields(f))
  {
    var e := f.exponent as int - 15;
    assert HalfOfFields(f) == WithSign(f.sign, Scaled(e, f.mantissa));
    ScaledValue(e, f.mantissa);
  }

  lemma ScaledValue(e: int, m: nat)
    ensures Scaled(e, m) == NormalValue(e, m as real)
  {
  }

  /** Every subnormal (and both zeros) is decoded `2^-14` too far from zero:
      `shortToHalf` adds the implicit leading 1 that the format omits there. */
  lemma ShortToHalfSubnormal(s: HalfBits)
    requires Fields(s).exponent == 0
    ensures Binary16Value(s).Some?
    ensures ShortToHalf(s) - Binary16Value(s).value == WithSign(Fields(s).sign, Pow2(-14))
  {
    SubnormalFields(Fields(s));
  }

  lemma SubnormalFields(f: HalfFields)
    requires f.exponent == 0
    ensures Binary16OfFields(f).Some?
    ensures HalfOfFields(f) - Binary16OfFields(f).value == WithSign(f.sign, Pow2(-14))
  {
    var p := Pow2(-14);
    var q := (f.mantissa as real) / 1024.0;
    assert HalfOfFields(f) == WithSign(f.sign, p * (1.0 + q));
    assert SubnormalValue(f.mantissa as real) == p * q;
    assert p * (1.0 + q) - p * q == p;
  }

  /** Exponent field 31 (infinity and NaN in the format) decodes to a finite
      `2^16 * (1 + m/1024)`: 0x7C00 gives 65536, not +Infinity. */
  lemma ShortToHalfExponent31()
    ensures Binary16Value(0x7C00).None? && ShortToHalf(0x7C00) == 65536.0
  {
    assert Fields(0x7C00) == HalfFields(0, 31, 0);
    Pow2NatValues();
  }

  /** One scalar of type `t` at byte `at`, as BufferPack decodes it little-endian;
      floats go through the given binary32 decoder. */
  function ReadScalar(bytes: seq<Byte>, at: nat, t: DataType, f32: seq<Byte> -> Num): Num
    requires at + ByteSize(t) <= |bytes|
  {
    match t
    case SignedByte => OfInt(Signed(bytes[at], 0x80))
    case UnsignedByte => OfInt(bytes[at])
    case SignedShort => OfInt(Signed(U16(bytes, at), 0x8000))
    case UnsignedShort => OfInt(U16(bytes, at))
    case SignedInt => OfInt(Signed(U32(bytes, at), 0x8000_0000))
    case UnsignedInt => OfInt(U32(bytes, at))
    case Float32 => f32(bytes[at..at + 4])
  }

  /** `BufferPack.unpack("< {count}{alias}", bytes, at)`: `count` consecutive
      scalars, or None (`undefined`) when they do not all lie in the buffer. */
  function ReadComponents(bytes: seq<Byte>, at: nat, t: DataType, count: nat, f32: seq<Byte> -> Num): (r: Option<seq<Num>>)
    ensures r.Some? <==> at + count * ByteSize(t) <= |bytes|
    ensures r.Some? ==> (|r.value| == count
      && forall k :: 0 <= k < count ==> r.value[k] == ReadScalar(bytes, at + k * ByteSize(t), t, f32))
  {
    if at + count * ByteSize(t) <= |bytes| then
      Some(seq(count, k requires 0 <= k < count => ReadScalar(bytes, at + k * ByteSize(t), t, f32)))
    else None
  }

  /** An integer read back is in the range of its type. */
  lemma ReadScalarRange(bytes: seq<Byte>, at: nat, t: DataType, f32: seq<Byte> -> Num)
    requires at + ByteSize(t) <= |bytes| && t != Float32
    ensures var v := ReadScalar(bytes, at, t, f32);
      IsInteger(v) && (IsSigned(t) ==> -(MaxValue(t).value as real) - 1.0 <= v.r <= MaxValue(t).value as real)
      && (!IsSigned(t) ==> 0.0 <= v.r <= MaxValue(t).value as real)
  {
  }
}
