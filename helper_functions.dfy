/** `helperFunctions`: substring tests over texture-name lists, image MIME
    sniffing, flag decomposition and element-wise list equality. */
module HelperFunctions {
  import opened Wrappers
  import opened Numbers
  import opened Bytes
  import opened JsStrings

  /** `isSubstrInArray(array, substr)`: None is a value that is not an array
      (a part without static textures). */
  function IsSubstrInArray(list: Option<seq<string>>, substr: string): (r: bool)
    ensures list.None? ==> !r
    ensures list.Some? ==> (r <==> exists i :: 0 <= i < |list.value| && Includes(list.value[i], substr))
  {
    match list
    case None => false
    case Some(a) => SomeIncludes(a, substr)
  }

  /** `list.some(str => str.includes(substr))`. */
  function SomeIncludes(a: seq<string>, substr: string): (r: bool)
    ensures r <==> exists i :: 0 <= i < |a| && Includes(a[i], substr)
  {
    if |a| == 0 then false
    else if Includes(a[0], substr) then true
    else
      var rest := SomeIncludes(a[1..], substr);
      assert forall i | 1 <= i < |a| :: a[i] == a[1..][i - 1];
      rest
  }

  /** `detectImageMimeType(buffer)`: a byte past the end is undefined and matches nothing. */
  function DetectImageMimeType(bytes: seq<Byte>): (r: string)
    ensures r == "image/png" <==> |bytes| >= 4 && bytes[..4] == [0x89, 0x50, 0x4E, 0x47]
    ensures r == "image/jpeg" <==> |bytes| >= 3 && bytes[..3] == [0xFF, 0xD8, 0xFF]
    ensures r in {"image/png", "image/jpeg", "application/octet-stream"}
  {
    if |bytes| >= 4 && bytes[0] == 0x89 && bytes[1] == 0x50 && bytes[2] == 0x4E && bytes[3] == 0x47 then
      assert bytes[..4] == [bytes[0], bytes[1], bytes[2], bytes[3]];
      "image/png"
    else if |bytes| >= 3 && bytes[0] == 0xFF && bytes[1] == 0xD8 && bytes[2] == 0xFF then
      assert bytes[..3] == [bytes[0], bytes[1], bytes[2]];
      "image/jpeg"
    else
      assert |bytes| >= 4 ==> bytes[..4][0] == bytes[0] && bytes[..4][1] == bytes[1] && bytes[..4][2] == bytes[2] && bytes[..4][3] == bytes[3];
      assert |bytes| >= 3 ==> bytes[..3][0] == bytes[0] && bytes[..3][1] == bytes[1] && bytes[..3][2] == bytes[2];
      "application/octet-stream"
  }

  /** An element of a JavaScript list: only strings pass `typeof str === 'string'`. */
  datatype Element = Text(s: string) | NotText

  /** The element `find` stops at: a string containing one of the substrings. */
  predicate Matches(e: Element, substrings: seq<string>) {
    e.Text? && exists k :: 0 <= k < |substrings| && Includes(e.s, substrings[k])
  }

  /** `findFirstSubstrInArray(strings, substrings)`: undefined (None) unless
      both are arrays, and otherwise the first matching element, if any. */
  function FindFirstSubstrInArray(strings: Option<seq<Element>>, substrings: Option<seq<string>>): (r: Option<string>)
    ensures strings.None? || substrings.None? ==> r.None?
    ensures strings.Some? && substrings.Some? ==> r == FirstMatch(strings.value, substrings.value)
  {
    if strings.None? || substrings.None? then None
    else FirstMatch(strings.value, substrings.value)
  }

  function FirstMatch(strings: seq<Element>, substrings: seq<string>): (r: Option<string>)
    ensures r.None? <==> forall i | 0 <= i < |strings| :: !Matches(strings[i], substrings)
    ensures r.Some? ==> exists i :: 0 <= i < |strings| && strings[i] == Text(r.value) && Matches(strings[i], substrings)
                                    && forall j | 0 <= j < i :: !Matches(strings[j], substrings)
  {
    if |strings| == 0 then None
    else if Matches(strings[0], substrings) then Some(strings[0].s)
    else
      var rest := FirstMatch(strings[1..], substrings);
      assert forall i | 1 <= i < |strings| :: strings[i] == strings[1..][i - 1];
      if rest.Some? then
        var i :| 0 <= i < |strings[1..]| && strings[1..][i] == Text(rest.value) && Matches(strings[1..][i], substrings)
                 && forall j | 0 <= j < i :: !Matches(strings[1..][j], substrings);
        assert forall j | 1 <= j < i + 1 :: strings[j] == strings[1..][j - 1];
        rest
      else rest
  }

  // ----- decompose -----

  function BitChar(b: nat): char
    requires b < 2
  {
    if b == 1 then '1' else '0'
  }

  /** `n.toString(2)` of a natural number, most significant digit first. */
  function BinaryOfNat(n: nat): (s: string)
    ensures |s| >= 1
    decreases n
  {
    if n < 2 then [BitChar(n)] else BinaryOfNat(n / 2) + [BitChar(n % 2)]
  }

  /** `n.toString(2)` of an integer. */
  function Binary(n: int): string {
    if n < 0 then "-" + BinaryOfNat(-n) else BinaryOfNat(n)
  }

  function Reverse(s: string): (r: string)
    ensures |r| == |s|
  {
    if |s| == 0 then [] else Reverse(s[1..]) + [s[0]]
  }

  /** `.map((b, i) => b === '1' ? 2 ** i : null).filter(Boolean)` over the
      digits from position `i` on. */
  function FlagValues(digits: string, i: nat): seq<nat> {
    if |digits| == 0 then []
    else (if digits[0] == '1' then [Pow2Nat(i)] else []) + FlagValues(digits[1..], i + 1)
  }

  /** `decompose(n)` of an integer. */
  function Decompose(n: int): seq<nat> {
    FlagValues(Reverse(Binary(n)), 0)
  }

  /** The set bits of `n`, each weighted by its place from `i` on. */
  function SetBits(n: nat, i: nat): seq<nat>
    decreases n
  {
    if n == 0 then [] else (if n % 2 == 1 then [Pow2Nat(i)] else []) + SetBits(n / 2, i + 1)
  }

  lemma {:induction false} ReverseBinary(n: nat)
    ensures n >= 2 ==> Reverse(BinaryOfNat(n)) == [BitChar(n % 2)] + Reverse(BinaryOfNat(n / 2))
  {
    if n >= 2 {
      ReverseSnoc(BinaryOfNat(n / 2), BitChar(n % 2));
    }
  }

  lemma {:induction false} ReverseSnoc(s: string, c: char)
    ensures Reverse(s + [c]) == [c] + Reverse(s)
    decreases |s|
  {
    if |s| > 0 {
      assert (s + [c])[1..] == s[1..] + [c];
      ReverseSnoc(s[1..], c);
    }
  }

  /** Reading the reversed binary digits gives the set bits. */
  lemma {:induction false} FlagValuesOfBinary(n: nat, i: nat)
    ensures FlagValues(Reverse(BinaryOfNat(n)), i) == SetBits(n, i)
    decreases n
  {
    if n < 2 {
      assert Reverse(BinaryOfNat(n)) == [BitChar(n)];
      assert [BitChar(n)][1..] == [];
    } else {
      ReverseBinary(n);
      var r := Reverse(BinaryOfNat(n));
      assert r[1..] == Reverse(BinaryOfNat(n / 2));
      FlagValuesOfBinary(n / 2, i + 1);
    }
  }

  function Sum(s: seq<nat>): nat {
    if |s| == 0 then 0 else s[0] + Sum(s[1..])
  }

  predicate StrictlyAscending(s: seq<nat>) {
    forall j, k | 0 <= j < k < |s| :: s[j] < s[k]
  }

  /** The set bits from place `i` sum to `n * 2^i`. */
  lemma {:induction false} SetBitsSum(n: nat, i: nat)
    ensures Sum(SetBits(n, i)) == n * Pow2Nat(i)
    decreases n
  {
    if n > 0 {
      SetBitsSum(n / 2, i + 1);
      var rest := SetBits(n / 2, i + 1);
      var head: seq<nat> := if n % 2 == 1 then [Pow2Nat(i)] else [];
      assert SetBits(n, i) == head + rest;
      SumConcat(head, rest);
      var p := Pow2Nat(i);
      assert Pow2Nat(i + 1) == 2 * p;
      assert Sum(head) == (n % 2) * p;
      HalvesTimes(n, p);
    }
  }

  lemma HalvesTimes(n: nat, p: nat)
    ensures (n / 2) * (2 * p) + (n % 2) * p == n * p
  {
    var q, r := n / 2, n % 2;
    assert n == 2 * q + r;
    calc {
      q * (2 * p) + r * p;
      == (2 * q) * p + r * p;
      == (2 * q + r) * p;
    }
  }

  /** `x` is a power of two. */
  predicate IsPow2(x: nat)
    decreases x
  {
    if x <= 1 then x == 1 else x % 2 == 0 && IsPow2(x / 2)
  }

  lemma {:induction false} Pow2NatIsPow2(e: nat)
    ensures IsPow2(Pow2Nat(e))
  {
    if e > 0 {
      Pow2NatIsPow2(e - 1);
      assert Pow2Nat(e) / 2 == Pow2Nat(e - 1);
    }
  }

  /** The set bits from place `i` are strictly ascending powers of two, each at least `2^i`. */
  lemma {:induction false} SetBitsAscending(n: nat, i: nat)
    ensures StrictlyAscending(SetBits(n, i))
    ensures forall x | x in SetBits(n, i) :: IsPow2(x) && x >= Pow2Nat(i)
    decreases n
  {
    if n > 0 {
      SetBitsAscending(n / 2, i + 1);
      var rest := SetBits(n / 2, i + 1);
      var head: seq<nat> := if n % 2 == 1 then [Pow2Nat(i)] else [];
      var s := head + rest;
      assert SetBits(n, i) == s;
      assert Pow2Nat(i + 1) == 2 * Pow2Nat(i);
      Pow2NatIsPow2(i);
      forall j, k | 0 <= j < k < |s|
        ensures s[j] < s[k]
      {
        if j < |head| {
          assert s[k] in rest;
        } else {
          assert s[j] == rest[j - |head|] && s[k] == rest[k - |head|];
        }
      }
    }
  }

  lemma {:induction false} SumConcat(a: seq<nat>, b: seq<nat>)
    ensures Sum(a + b) == Sum(a) + Sum(b)
    decreases |a|
  {
    if |a| > 0 {
      assert (a + b)[1..] == a[1..] + b;
      SumConcat(a[1..], b);
    } else {
      assert a + b == b;
    }
  }

  /** `decompose(n)` lists the powers of two of `n`'s set bits in ascending
      order; they sum to `n`, and `decompose(0)` is empty. */
  lemma DecomposeMeaning(n: nat)
    ensures Decompose(n) == SetBits(n, 0)
    ensures Sum(Decompose(n)) == n
    ensures StrictlyAscending(Decompose(n))
    ensures forall x | x in Decompose(n) :: IsPow2(x)
    ensures Decompose(0) == []
  {
    DecomposeIsSetBits(n);
    SetBitsSum(n, 0);
    var p := Pow2Nat(0);
    assert p == 1;
    assert n * p == n;
    SetBitsAscending(n, 0);
    DecomposeIsSetBits(0);
  }

  lemma DecomposeIsSetBits(n: nat)
    ensures Decompose(n) == SetBits(n, 0)
  {
    assert Binary(n) == BinaryOfNat(n);
    FlagValuesOfBinary(n, 0);
  }

  /** A negative number is rendered with a leading minus that reversal moves
      to the end, where it is dropped: it decomposes as its magnitude. */
  lemma NegativeDecompose(m: nat)
    requires m > 0
    ensures Decompose(-(m as int)) == Decompose(m)
  {
    assert Binary(-(m as int)) == "-" + BinaryOfNat(m);
    ReverseSnocFront("-", BinaryOfNat(m));
    FlagValuesTail(Reverse(BinaryOfNat(m)), 0);
  }

  lemma ReverseSnocFront(a: string, b: string)
    requires |a| == 1
    ensures Reverse(a + b) == Reverse(b) + a
  {
    assert (a + b)[0] == a[0] && (a + b)[1..] == b;
  }

  /** A trailing minus sign contributes nothing. */
  lemma {:induction false} FlagValuesTail(digits: string, i: nat)
    ensures FlagValues(digits + "-", i) == FlagValues(digits, i)
    decreases |digits|
  {
    if |digits| == 0 {
      assert ("-")[1..] == [];
    } else {
      assert (digits + "-")[1..] == digits[1..] + "-";
      FlagValuesTail(digits[1..], i + 1);
    }
  }

  // ----- arraysEqual -----

  /** `===` on numbers: NaN equals nothing, itself included. */
  predicate StrictEquals(x: Num, y: Num) {
    x.Fin? && y.Fin? && x.r == y.r
  }

  /** `arraysEqual(a, b)`: equal lengths and `a[i] === b[i]` at every index. */
  function ArraysEqual(a: seq<Num>, b: seq<Num>): (r: bool)
    ensures r <==> |a| == |b| && forall i | 0 <= i < |a| :: StrictEquals(a[i], b[i])
  {
    |a| == |b| && AllStrictEqual(a, b)
  }

  function AllStrictEqual(a: seq<Num>, b: seq<Num>): (r: bool)
    requires |a| == |b|
    ensures r <==> forall i | 0 <= i < |a| :: StrictEquals(a[i], b[i])
  {
    if |a| == 0 then true
    else
      var rest := AllStrictEqual(a[1..], b[1..]);
      assert forall i | 1 <= i < |a| :: a[i] == a[1..][i - 1] && b[i] == b[1..][i - 1];
      StrictEquals(a[0], b[0]) && rest
  }

  /** `arraysEqual` is symmetric, and reflexive exactly on arrays without NaN. */
  lemma ArraysEqualProperties(a: seq<Num>, b: seq<Num>)
    ensures ArraysEqual(a, b) == ArraysEqual(b, a)
    ensures ArraysEqual(a, a) <==> forall i | 0 <= i < |a| :: a[i].Fin?
  {
  }
}
