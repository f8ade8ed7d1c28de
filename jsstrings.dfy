/** The JavaScript string operations the modelled code relies on:
    `startsWith`, `includes`, `replace` with a string pattern, `parseInt`
    and the decimal rendering of integers. */
module JsStrings {
  import opened Wrappers

  predicate StartsWith(s: string, prefix: string) {
    |prefix| <= |s| && s[..|prefix|] == prefix
  }

  /** `sub` occurs in `s` at position `i`. */
  predicate OccursAt(s: string, sub: string, i: int) {
    0 <= i <= |s| - |sub| && s[i..i + |sub|] == sub
  }

  /** `s.includes(sub)`. */
  predicate Includes(s: string, sub: string) {
    exists i :: 0 <= i <= |s| && OccursAt(s, sub, i)
  }

  /** `i` is the first position where `sub` occurs in `s`. */
  predicate FirstOccurrence(s: string, sub: string, i: int) {
    OccursAt(s, sub, i) && forall j :: 0 <= j < i ==> !OccursAt(s, sub, j)
  }

  /** Position of the first occurrence of `pat` in `s` (`indexOf`). */
  function IndexOf(s: string, pat: string): (r: Option<nat>)
    ensures r.Some? ==> r.value + |pat| <= |s|
    decreases |s|
  {
    if |pat| > |s| then None
    else if s[..|pat|] == pat then Some(0)
    else
      var k := IndexOf(s[1..], pat);
      if k.None? then None else Some(k.value + 1)
  }

  /** Occurrences in `s` past its first character are occurrences in `s[1..]`, one place earlier. */
  lemma OccursInTail(s: string, pat: string, j: int)
    requires s != [] && 1 <= j
    ensures OccursAt(s, pat, j) <==> OccursAt(s[1..], pat, j - 1)
  {
    if j <= |s| - |pat| {
      var tail := s[1..];
      assert s[j..j + |pat|] == tail[j - 1..j - 1 + |pat|];
    }
  }

  /** `indexOf` finds the first occurrence, and finds none only when there is none. */
  lemma {:induction false} IndexOfMeaning(s: string, pat: string)
    ensures IndexOf(s, pat).Some? ==> FirstOccurrence(s, pat, IndexOf(s, pat).value)
    ensures IndexOf(s, pat).None? <==> !Includes(s, pat)
    decreases |s|
  {
    if |pat| > |s| {
    } else if s[..|pat|] == pat {
      assert OccursAt(s, pat, 0);
    } else {
      IndexOfMeaning(s[1..], pat);
      forall j | 1 <= j
        ensures OccursAt(s, pat, j) <==> OccursAt(s[1..], pat, j - 1)
      {
        OccursInTail(s, pat, j);
      }
      if Includes(s, pat) {
        var i :| 0 <= i <= |s| && OccursAt(s, pat, i);
        assert i != 0;
        assert OccursAt(s[1..], pat, i - 1);
      }
      if Includes(s[1..], pat) {
        var i :| 0 <= i <= |s[1..]| && OccursAt(s[1..], pat, i);
        assert OccursAt(s, pat, i + 1);
      }
    }
  }

  /** `s.replace(pat, rep)` with a string pattern: only the first occurrence is replaced. */
  function ReplaceFirst(s: string, pat: string, rep: string): string
  {
    match IndexOf(s, pat)
    case None => s
    case Some(i) => s[..i] + rep + s[i + |pat|..]
  }

  /** `replace` leaves a string without the pattern unchanged, and otherwise
      puts `rep` in place of the first occurrence. */
  lemma ReplaceFirstMeaning(s: string, pat: string, rep: string)
    ensures !Includes(s, pat) ==> ReplaceFirst(s, pat, rep) == s
    ensures Includes(s, pat) ==> IndexOf(s, pat).Some? && FirstOccurrence(s, pat, IndexOf(s, pat).value)
    ensures Includes(s, pat) ==> var i := IndexOf(s, pat).value;
      ReplaceFirst(s, pat, rep) == s[..i] + rep + s[i + |pat|..]
  {
    IndexOfMeaning(s, pat);
  }

  /** White space and line terminators that `parseInt` skips at the start. */
  predicate IsJsSpace(c: char) {
    c == '\t' || c == '\n' || c == '\U{B}' || c == '\U{C}' || c == '\r' || c == ' '
    || c == '\U{A0}' || c == '\U{1680}' || ('\U{2000}' <= c <= '\U{200A}')
    || c == '\U{2028}' || c == '\U{2029}' || c == '\U{202F}' || c == '\U{205F}'
    || c == '\U{3000}' || c == '\U{FEFF}'
  }

  function TrimStart(s: string): string {
    if s != [] && IsJsSpace(s[0]) then TrimStart(s[1..]) else s
  }

  /** `TrimStart` removes a prefix of `s` and leaves no white space at the front. */
  lemma {:induction false} TrimStartMeaning(s: string)
    ensures |TrimStart(s)| <= |s| && TrimStart(s) == s[|s| - |TrimStart(s)|..]
    ensures TrimStart(s) == [] || !IsJsSpace(TrimStart(s)[0])
  {
    if s != [] && IsJsSpace(s[0]) {
      TrimStartMeaning(s[1..]);
      assert s[1..][|s| - 1 - |TrimStart(s)|..] == s[|s| - |TrimStart(s)|..];
    } else {
      assert s[0..] == s;
    }
  }

  /** The two bases `parseInt` reads without an explicit radix. */
  type Radix = r: nat | r == 10 || r == 16 witness 10

  /** Value of a digit in base 10 or 16. */
  function DigitValue(c: char, radix: Radix): (d: Option<nat>)
    ensures d.Some? ==> d.value < radix
  {
    if '0' <= c <= '9' && (c as int - '0' as int) < radix then Some(c as int - '0' as int)
    else if radix == 16 && 'a' <= c <= 'f' then Some(c as int - 'a' as int + 10)
    else if radix == 16 && 'A' <= c <= 'F' then Some(c as int - 'A' as int + 10)
    else None
  }

  /** Length of the longest prefix of `s` made of digits of `radix`. */
  function DigitRun(s: string, radix: Radix): (n: nat)
    ensures n <= |s|
  {
    if s != [] && DigitValue(s[0], radix).Some? then 1 + DigitRun(s[1..], radix) else 0
  }

  /** The run is made of digits and is followed by a non-digit or the end. */
  lemma {:induction false} DigitRunMeaning(s: string, radix: Radix)
    ensures forall k :: 0 <= k < DigitRun(s, radix) ==> DigitValue(s[k], radix).Some?
    ensures DigitRun(s, radix) < |s| ==> DigitValue(s[DigitRun(s, radix)], radix).None?
  {
    if s != [] && DigitValue(s[0], radix).Some? {
      DigitRunMeaning(s[1..], radix);
      assert forall k :: 1 <= k < DigitRun(s, radix) ==> s[k] == s[1..][k - 1];
    }
  }

  /** Value of a digit, 0 for a character that is none; `DigitsValue` is only
      applied to runs of digits. */
  function DigitOrZero(c: char, radix: Radix): nat {
    match DigitValue(c, radix)
    case Some(d) => d
    case None => 0
  }

  /** Value of a string of digits, most significant first. */
  function DigitsValue(s: string, radix: Radix): nat {
    if s == [] then 0
    else
      var high := DigitsValue(s[..|s| - 1], radix);
      (if radix == 16 then 16 * high else 10 * high) + DigitOrZero(s[|s| - 1], radix)
  }

  /** `parseInt(s)` without a radix; None stands for NaN. After leading white
      space and an optional sign the unsigned part is read by `ParseUnsigned`. */
  function ParseInt(s: string): (r: Option<int>)
  {
    var t := TrimStart(s);
    var negative := t != [] && t[0] == '-';
    var u := if t != [] && (t[0] == '-' || t[0] == '+') then t[1..] else t;
    match ParseUnsigned(u)
    case None => None
    case Some(v) => Some(if negative then -(v as int) else v as int)
  }

  /** A `0x` or `0X` prefix selects base 16, otherwise base 10; the longest run
      of digits is read and the rest of the string ignored. */
  function ParseUnsigned(u: string): (r: Option<nat>)
  {
    var hex := |u| >= 2 && u[0] == '0' && (u[1] == 'x' || u[1] == 'X');
    var radix := if hex then 16 else 10;
    var body := if hex then u[2..] else u;
    var n := DigitRun(body, radix);
    if n == 0 then None else Some(DigitsValue(body[..n], radix))
  }

  function DigitChar(d: nat): (c: char)
    requires d < 10
    ensures DigitValue(c, 10) == Some(d)
  {
    ('0' as int + d) as char
  }

  /** Decimal rendering of a natural number, as `String(n)` gives it. */
  function NatToString(n: nat): (s: string)
    ensures |s| >= 1
    decreases n
  {
    if n < 10 then [DigitChar(n)] else NatToString(n / 10) + [DigitChar(n % 10)]
  }

  /** Decimal rendering of an integer (`String(i)` in the range where
      JavaScript does not switch to exponent notation). */
  function IntToString(i: int): string {
    if i < 0 then "-" + NatToString(-i) else NatToString(i)
  }

  lemma {:induction false} NatToStringDigits(n: nat)
    ensures forall k :: 0 <= k < |NatToString(n)| ==> DigitValue(NatToString(n)[k], 10).Some?
    ensures DigitsValue(NatToString(n), 10) == n
    ensures NatToString(n)[0] != '0' || n == 0
    ensures NatToString(n)[0] != '-' && NatToString(n)[0] != '+' && !IsJsSpace(NatToString(n)[0])
    decreases n
  {
    if n >= 10 {
      NatToStringDigits(n / 10);
      var s := NatToString(n);
      assert s[..|s| - 1] == NatToString(n / 10);
    }
  }

  /** `parseInt` reads back every decimal rendering of an integer. */
  lemma ParseIntOfIntToString(i: int)
    ensures ParseInt(IntToString(i)) == Some(i)
  {
    var m: nat := if i < 0 then -i else i;
    var d := NatToString(m);
    NatToStringDigits(m);
    var s := IntToString(i);
    if i < 0 {
      assert s[1..] == d;
    }
    ParseIntOfDigits(s, d);
  }

  /** `parseInt` of a decimal digit string without a redundant leading zero,
      bare or behind a minus sign. */
  lemma ParseIntOfDigits(s: string, d: string)
    requires |d| >= 1 && (d[0] != '0' || |d| == 1)
    requires forall k :: 0 <= k < |d| ==> DigitValue(d[k], 10).Some?
    requires s == d || (s != [] && s[0] == '-' && s[1..] == d)
    ensures ParseInt(s) == Some(if s == d then DigitsValue(d, 10) as int else -(DigitsValue(d, 10) as int))
  {
    ParseUnsignedOfDigits(d);
    assert DigitValue(d[0], 10).Some?;
    ParseIntOfUnsigned(s, DigitsValue(d, 10));
  }

  /** Leading white space absent, `parseInt` is the sign applied to `ParseUnsigned`. */
  lemma ParseIntOfUnsigned(s: string, v: nat)
    requires s != [] && !IsJsSpace(s[0])
    requires ParseUnsigned(if s[0] == '-' || s[0] == '+' then s[1..] else s) == Some(v)
    ensures ParseInt(s) == Some(if s[0] == '-' then -(v as int) else v as int)
  {
    TrimStartUnchanged(s);
  }

  lemma TrimStartUnchanged(s: string)
    requires s != [] && !IsJsSpace(s[0])
    ensures TrimStart(s) == s
  {
  }

  lemma ParseUnsignedOfDigits(d: string)
    requires |d| >= 1 && (d[0] != '0' || |d| == 1)
    requires forall k :: 0 <= k < |d| ==> DigitValue(d[k], 10).Some?
    ensures ParseUnsigned(d) == Some(DigitsValue(d, 10))
  {
    DigitRunAll(d, 10);
    assert d[..|d|] == d;
  }

  lemma {:induction false} DigitRunAll(s: string, radix: Radix)
    requires forall k :: 0 <= k < |s| ==> DigitValue(s[k], radix).Some?
    ensures DigitRun(s, radix) == |s|
  {
    if s != [] {
      DigitRunAll(s[1..], radix);
    }
  }
}
