/** Option, shared by every module of the model. */
module Wrappers {
  datatype Option<+T> = None | Some(value: T)
}

/**
 * The few JavaScript number conversions the application relies on:
 * `parseInt` with no radix argument (a `NaN` result is `None`),
 * `Number.prototype.toString` on integers, and `Math.ceil(a / b)`.
 */
module JsNumber {
  import opened Wrappers

  /** The characters `parseInt` skips before the number (StrWhiteSpaceChar). */
  predicate IsSpace(c: char) {
    c == ' ' || c == '\t' || c == '\n' || c == '\r' || c == '\U{000B}' || c == '\U{000C}'
    || c == '\U{00A0}' || c == '\U{1680}' || ('\U{2000}' <= c <= '\U{200A}')
    || c == '\U{2028}' || c == '\U{2029}' || c == '\U{202F}' || c == '\U{205F}'
    || c == '\U{3000}' || c == '\U{FEFF}'
  }

  function TrimStart(s: string): (t: string)
    ensures |t| <= |s| && t == s[|s| - |t|..]
    ensures t == [] || !IsSpace(t[0])
    ensures forall i :: 0 <= i < |s| - |t| ==> IsSpace(s[i])
  {
    if s != [] && IsSpace(s[0]) then TrimStart(s[1..]) else s
  }

  /** The value of a character read as a digit in any radix up to 36; 36 when it is none. */
  function DigitValue(c: char): (d: nat)
    ensures d <= 36
    ensures '0' <= c <= '9' <==> d < 10
  {
    if '0' <= c <= '9' then c as nat - '0' as nat
    else if 'a' <= c <= 'z' then c as nat - 'a' as nat + 10
    else if 'A' <= c <= 'Z' then c as nat - 'A' as nat + 10
    else 36
  }

  predicate IsDigit(c: char, radix: nat) {
    DigitValue(c) < radix
  }

  /** The longest prefix of `s` made only of digits of `radix`. */
  function DigitPrefix(s: string, radix: nat): (z: string)
    ensures |z| <= |s| && z == s[..|z|]
    ensures forall i :: 0 <= i < |z| ==> IsDigit(z[i], radix)
    ensures |z| < |s| ==> !IsDigit(s[|z|], radix)
  {
    if s != [] && IsDigit(s[0], radix) then [s[0]] + DigitPrefix(s[1..], radix) else []
  }

  /** The number a digit string denotes in `radix`, most significant digit first. */
  function Value(z: string, radix: nat): nat {
    if z == [] then 0 else Value(z[..|z| - 1], radix) * radix + DigitValue(z[|z| - 1])
  }

  /**
   * The unsigned part of `parseInt`: a `0x`/`0X` prefix switches to radix 16,
   * then the longest run of digits is read; no digit at all gives `None`.
   */
  function ParseMagnitude(u: string): Option<nat> {
    var hex := |u| >= 2 && u[0] == '0' && (u[1] == 'x' || u[1] == 'X');
    var radix := if hex then 16 else 10;
    var z := DigitPrefix(if hex then u[2..] else u, radix);
    if z == [] then None else Some(Value(z, radix))
  }

  /**
   * JavaScript `parseInt(s)` with no radix: skip leading white space, read an
   * optional sign, then the magnitude; `NaN` is `None`. Trailing characters are ignored.
   */
  function ParseInt(s: string): Option<int> {
    var t := TrimStart(s);
    var signed := t != [] && (t[0] == '-' || t[0] == '+');
    match ParseMagnitude(if signed then t[1..] else t)
    case None => None
    case Some(m) => var v: int := m; Some(if signed && t[0] == '-' then -v else v)
  }

  function DigitChar(d: nat): (c: char)
    requires d < 10
    ensures IsDigit(c, 10) && DigitValue(c) == d
  {
    ('0' as nat + d) as char
  }

  /** The decimal digits of a natural number, without leading zeros. */
  function Digits(n: nat): (s: string)
    ensures s != []
    ensures forall i :: 0 <= i < |s| ==> IsDigit(s[i], 10)
  {
    if n < 10 then [DigitChar(n)] else Digits(n / 10) + [DigitChar(n % 10)]
  }

  /** `n.toString()` for an integer `n` (below 10^21 in magnitude, where JavaScript switches to exponent notation). */
  function IntToString(n: int): (s: string)
    ensures s != [] && (s[0] == '-' <==> n < 0)
  {
    if n < 0 then ['-'] + Digits(-n) else Digits(n)
  }

  lemma {:induction false} DigitsValue(n: nat)
    ensures Value(Digits(n), 10) == n
  {
    var s := Digits(n);
    if n >= 10 {
      DigitsValue(n / 10);
      assert s[..|s| - 1] == Digits(n / 10);
    }
  }

  lemma DigitPrefixOfDigits(s: string, radix: nat)
    requires forall i :: 0 <= i < |s| ==> IsDigit(s[i], radix)
    ensures DigitPrefix(s, radix) == s
  {
  }

  lemma ParseMagnitudeOfDigits(n: nat)
    ensures ParseMagnitude(Digits(n)) == Some(n)
  {
    var d := Digits(n);
    DigitsValue(n);
    DigitPrefixOfDigits(d, 10);
    assert |d| >= 2 ==> IsDigit(d[1], 10);
  }

  /** A string starting with a non-space is not trimmed. */
  lemma TrimStartNoSpace(s: string)
    requires s != [] && !IsSpace(s[0])
    ensures TrimStart(s) == s
  {
  }

  lemma ParseIntOfNonNegative(n: int)
    requires n >= 0
    ensures ParseInt(IntToString(n)) == Some(n)
  {
    var d := Digits(n);
    assert IntToString(n) == d;
    assert IsDigit(d[0], 10);
    TrimStartNoSpace(d);
    ParseMagnitudeOfDigits(n);
  }

  lemma ParseIntOfNegative(n: int)
    requires n < 0
    ensures ParseInt(IntToString(n)) == Some(n)
  {
    var m: nat := -n;
    var s := ['-'] + Digits(m);
    assert IntToString(n) == s;
    TrimStartNoSpace(s);
    assert s[1..] == Digits(m);
    ParseMagnitudeOfDigits(m);
    assert ParseMagnitude(s[1..]) == Some(m);
  }

  /** Reading back what `toString` wrote gives the same integer: the page number a client sends survives the trip. */
  lemma ParseIntOfIntToString(n: int)
    ensures ParseInt(IntToString(n)) == Some(n)
  {
    if n < 0 {
      ParseIntOfNegative(n);
    } else {
      ParseIntOfNonNegative(n);
    }
  }

  /** The defaults the handler falls back to parse to themselves. */
  lemma ParseIntOfDefaults()
    ensures ParseInt("1") == Some(1) && ParseInt("20") == Some(20)
  {
    assert Digits(1) == "1";
    assert Digits(2) == "2";
    assert Digits(20) == Digits(2) + "0";
    ParseIntOfIntToString(1);
    ParseIntOfIntToString(20);
  }

  /** JavaScript `Math.ceil(a / b)` for integers `a` and `b != 0`. */
  function CeilDiv(a: int, b: int): (r: int)
    requires b != 0
    ensures b > 0 ==> (r - 1) * b < a <= r * b
    ensures b < 0 ==> r * b <= a < (r - 1) * b
  {
    if b > 0 then -((-a) / b) else a / b
  }

  lemma MulMonotonic(x: int, y: int, b: int)
    requires x <= y && b >= 0
    ensures x * b <= y * b
  {
    var d := y - x;
    assert y * b == x * b + d * b;
  }

  /** `Math.ceil(a / b)` is the only `r` with `(r - 1) * b < a <= r * b`. */
  lemma CeilDivUnique(a: int, b: int, r: int)
    requires b > 0 && (r - 1) * b < a <= r * b
    ensures CeilDiv(a, b) == r
  {
    var c := CeilDiv(a, b);
    if c < r {
      MulMonotonic(c, r - 1, b);
    } else if c > r {
      MulMonotonic(r, c - 1, b);
    }
  }
}
