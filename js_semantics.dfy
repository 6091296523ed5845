/** The parts of JavaScript's built-in semantics that the pages and controllers rely on:
    32-bit integer conversion, UTF-16 code units, decimal rendering of integers,
    `parseInt` and `Math.round`. */
module JsSemantics {
  import opened Common

  const TWO_32: int := 0x1_0000_0000
  const TWO_31: int := 0x8000_0000

  /** ECMAScript ToInt32 (applied by `x | 0` and `x << 5`): reduce modulo 2^32 into the signed range. */
  function ToInt32(x: int): (r: int)
    ensures -TWO_31 <= r < TWO_31
    ensures (x - r) % TWO_32 == 0
  {
    var m := x % TWO_32;
    if m >= TWO_31 then m - TWO_32 else m
  }

  /** ToInt32 only sees its argument modulo 2^32. */
  lemma ToInt32Congruent(x: int, y: int, k: int)
    requires x == y + k * TWO_32
    ensures ToInt32(x) == ToInt32(y)
  {
    var q, r := y / TWO_32, y % TWO_32;
    assert y == q * TWO_32 + r;
    assert x == (q + k) * TWO_32 + r;
    assert x % TWO_32 == r;
  }

  type CodeUnit = u: int | 0 <= u < 0x1_0000

  /** The UTF-16 code units of a string, as `charCodeAt` reads them: a character outside the
      Basic Multilingual Plane becomes a surrogate pair. */
  function CodeUnits(s: string): (u: seq<CodeUnit>)
    ensures |s| <= |u| <= 2 * |s|
    ensures (forall k :: 0 <= k < |s| ==> s[k] as int < 0x1_0000) ==>
              |u| == |s| && forall k :: 0 <= k < |s| ==> u[k] == s[k] as int
  {
    if s == [] then []
    else
      var c := s[0] as int;
      var head: seq<CodeUnit> :=
        if c < 0x1_0000 then [c]
        else [0xD800 + (c - 0x1_0000) / 0x400, 0xDC00 + (c - 0x1_0000) % 0x400];
      head + CodeUnits(s[1..])
  }

  predicate IsDecimalDigit(c: char) {
    '0' <= c <= '9'
  }

  function DigitChar(d: nat): (c: char)
    requires d < 10
    ensures IsDecimalDigit(c) && DigitValue(c) == d
  {
    (48 + d) as char
  }

  /** Decimal rendering of a natural number, as `String(n)` or a template literal writes it. */
  function NatToString(n: nat): (s: string)
    ensures |s| >= 1
    ensures forall k :: 0 <= k < |s| ==> IsDecimalDigit(s[k])
    decreases n
  {
    if n < 10 then [DigitChar(n)] else NatToString(n / 10) + [DigitChar(n % 10)]
  }

  /** Decimal rendering of an integer, with a leading '-' when it is negative. */
  function IntToString(i: int): (s: string)
    ensures |s| >= 1
    ensures s[0] == '-' <==> i < 0
  {
    if i < 0 then "-" + NatToString(-i) else NatToString(i)
  }

  /** The value of a character as a digit in bases up to 36; 36 when it is no digit at all. */
  function DigitValue(c: char): nat {
    if '0' <= c <= '9' then c as int - '0' as int
    else if 'a' <= c <= 'z' then c as int - 'a' as int + 10
    else if 'A' <= c <= 'Z' then c as int - 'A' as int + 10
    else 36
  }

  /** StrWhiteSpaceChar of ECMAScript: white space and line terminators. */
  predicate IsJsWhiteSpace(c: char) {
    || c == '\t' || c == '\n' || c == '\U{000B}' || c == '\U{000C}' || c == '\r' || c == ' '
    || c == '\U{00A0}' || c == '\U{1680}' || ('\U{2000}' <= c <= '\U{200A}')
    || c == '\U{2028}' || c == '\U{2029}' || c == '\U{202F}' || c == '\U{205F}'
    || c == '\U{3000}' || c == '\U{FEFF}'
  }

  /** The string with its leading white space removed. */
  function TrimStart(s: string): (t: string)
    ensures |t| <= |s| && t == s[|s| - |t|..]
    ensures t == [] || !IsJsWhiteSpace(t[0])
  {
    if s != [] && IsJsWhiteSpace(s[0]) then TrimStart(s[1..]) else s
  }

  /** The length of the longest prefix made of digits of the given radix. */
  function DigitPrefixLength(s: string, radix: nat): (n: nat)
    ensures n <= |s|
    ensures forall k :: 0 <= k < n ==> DigitValue(s[k]) < radix
    ensures n < |s| ==> DigitValue(s[n]) >= radix
  {
    if s == [] || DigitValue(s[0]) >= radix then 0 else 1 + DigitPrefixLength(s[1..], radix)
  }

  /** The value of a string of digits in the given radix (most significant first). */
  function DigitsValue(s: string, radix: nat): nat {
    if s == [] then 0
    else DigitsValue(s[..|s| - 1], radix) * radix + DigitValue(s[|s| - 1])
  }

  /** `parseInt(s)` without a radix: leading white space is skipped, one sign is read, and the
      rest is read by `ParseMagnitude`; no digit at all gives NaN (here `None`). */
  function ParseInt(s: string): Option<int> {
    var t := TrimStart(s);
    if t != [] && t[0] == '-' then
      match ParseMagnitude(t[1..])
      case None => None
      case Some(m) => Some(-(m as int))
    else if t != [] && t[0] == '+' then ParseMagnitude(t[1..])
    else ParseMagnitude(t)
  }

  /** The unsigned part of `parseInt`: a "0x" or "0X" prefix selects base 16, otherwise base 10,
      and the longest run of digits of that base is the value. */
  function ParseMagnitude(u: string): Option<nat> {
    var hex := |u| >= 2 && u[0] == '0' && (u[1] == 'x' || u[1] == 'X');
    var radix := if hex then 16 else 10;
    var body := if hex then u[2..] else u;
    var n := DigitPrefixLength(body, radix);
    if n == 0 then None else Some(DigitsValue(body[..n], radix))
  }

  lemma {:induction false} DigitsValueOfNatToString(n: nat)
    ensures DigitsValue(NatToString(n), 10) == n
    decreases n
  {
    if n >= 10 {
      var s := NatToString(n / 10);
      var t := s + [DigitChar(n % 10)];
      assert t[..|t| - 1] == s;
      DigitsValueOfNatToString(n / 10);
    }
  }

  /** parseInt reads back every decimal rendering: `parseInt(String(i)) === i`. */
  lemma ParseIntOfIntToString(i: int)
    ensures ParseInt(IntToString(i)) == Some(i)
  {
    var m: nat := if i < 0 then -i else i;
    var digits := NatToString(m);
    assert ParseMagnitude(digits) == Some(m) by {
      DigitsValueOfNatToString(m);
      ParseMagnitudeOfDigits(digits);
    }
    if i < 0 {
      ParseIntOfNegated(digits);
    } else {
      ParseIntOfUnsigned(digits);
    }
  }

  /** A string starting with a decimal digit is read by `ParseMagnitude` alone. */
  lemma ParseIntOfUnsigned(t: string)
    requires t != [] && IsDecimalDigit(t[0])
    ensures ParseInt(t) == ParseMagnitude(t)
  {
    assert TrimStart(t) == t by {
      assert !IsJsWhiteSpace(t[0]);
    }
  }

  /** A '-' followed by a decimal digit reads as the negated magnitude. */
  lemma ParseIntOfNegated(t: string)
    requires t != [] && IsDecimalDigit(t[0])
    requires ParseMagnitude(t).Some?
    ensures ParseInt("-" + t) == Some(-(ParseMagnitude(t).value as int))
  {
    var s := "-" + t;
    assert TrimStart(s) == s by {
      assert !IsJsWhiteSpace(s[0]);
    }
    assert s[0] == '-' && s[1..] == t;
  }

  lemma ParseMagnitudeOfDigits(digits: string)
    requires |digits| >= 1
    requires forall k :: 0 <= k < |digits| ==> IsDecimalDigit(digits[k])
    ensures ParseMagnitude(digits) == Some(DigitsValue(digits, 10))
  {
    assert !(|digits| >= 2 && digits[0] == '0' && (digits[1] == 'x' || digits[1] == 'X')) by {
      if |digits| >= 2 {
        assert IsDecimalDigit(digits[1]);
      }
    }
    assert DigitPrefixLength(digits, 10) == |digits| by {
      DigitPrefixOfDigits(digits);
    }
    assert digits[..|digits|] == digits;
  }

  lemma {:induction false} DigitPrefixOfDigits(s: string)
    requires forall k :: 0 <= k < |s| ==> IsDecimalDigit(s[k])
    ensures DigitPrefixLength(s, 10) == |s|
  {
    if s != [] {
      DigitPrefixOfDigits(s[1..]);
    }
  }

  /** `Math.round`: the nearest integer, halves rounded towards +infinity. */
  function JsRound(x: real): (r: int)
    ensures x - 0.5 < r as real <= x + 0.5
  {
    (x + 0.5).Floor
  }
}
