/**
 * The integer corner of JavaScript's number conversions that the payment
 * flow relies on: `Number.prototype.toString` on an integer, the global
 * `parseInt` (radix left undefined) and `Math.round` of a quotient.
 * Values are unbounded integers; NaN is `None`.
 */
module JsNumbers {
  import opened Common

  /** Character for a decimal digit. */
  function DigitChar(d: nat): (c: char)
    requires d < 10
    ensures DigitValue(c) == d
  {
    "0123456789"[d]
  }

  /**
   * Value of `c` as a digit in radices up to 36 ('0'-'9', then 'a'/'A' = 10
   * up to 'z'/'Z' = 35); 36 for anything that is a digit in no radix.
   */
  function DigitValue(c: char): (v: nat)
    ensures v <= 36
  {
    if '0' <= c <= '9' then c as int - '0' as int
    else if 'a' <= c <= 'z' then c as int - 'a' as int + 10
    else if 'A' <= c <= 'Z' then c as int - 'A' as int + 10
    else 36
  }

  /** Decimal digits of `n`, most significant first, without leading zeros. */
  function NatToDigits(n: nat): (s: string)
    ensures |s| > 0
    ensures forall i :: 0 <= i < |s| ==> DigitValue(s[i]) < 10
    decreases n
  {
    if n < 10 then [DigitChar(n)] else NatToDigits(n / 10) + [DigitChar(n % 10)]
  }

  /** `n.toString()` for an integral number (no exponent form: see README). */
  function IntToString(n: int): (s: string)
    ensures |s| > 0
    ensures s[0] == '-' <==> n < 0
    ensures forall i :: (if n < 0 then 1 else 0) <= i < |s| ==> DigitValue(s[i]) < 10
  {
    if n < 0 then "-" + NatToDigits(-n) else NatToDigits(n)
  }

  /**
   * The characters parseInt skips at the front: tab, vertical tab, form feed,
   * the byte order mark, the line terminators (LF, CR, U+2028, U+2029) and the
   * Unicode space separators (space, U+00A0, U+1680, U+2000-U+200A, U+202F,
   * U+205F, U+3000).
   */
  predicate IsJsSpace(c: char) {
    c == '\t' || c == '\U{000B}' || c == '\U{000C}' || c == '\U{FEFF}'
    || c == '\n' || c == '\r' || c == '\U{2028}' || c == '\U{2029}'
    || c == ' ' || c == '\U{00A0}' || c == '\U{1680}' || '\U{2000}' <= c <= '\U{200A}'
    || c == '\U{202F}' || c == '\U{205F}' || c == '\U{3000}'
  }

  /** Drops leading white space. */
  function TrimStart(s: string): (r: string)
    ensures |r| <= |s|
    ensures r == s[|s| - |r|..]
    ensures |r| > 0 ==> !IsJsSpace(r[0])
    ensures forall i :: 0 <= i < |s| - |r| ==> IsJsSpace(s[i])
  {
    if |s| > 0 && IsJsSpace(s[0]) then TrimStart(s[1..]) else s
  }

  /** Longest prefix of `s` made of digits of `radix`. */
  function DigitPrefix(s: string, radix: nat): (d: string)
    ensures |d| <= |s| && d == s[..|d|]
    ensures forall i :: 0 <= i < |d| ==> DigitValue(d[i]) < radix
    ensures |d| < |s| ==> DigitValue(s[|d|]) >= radix
  {
    if |s| == 0 || DigitValue(s[0]) >= radix then [] else [s[0]] + DigitPrefix(s[1..], radix)
  }

  /** Positional value of a digit string in `radix`. */
  function DigitsValue(d: string, radix: nat): (v: nat)
  {
    if |d| == 0 then 0
    else DigitsValue(d[..|d| - 1], radix) * radix + DigitValue(d[|d| - 1])
  }

  /**
   * `parseInt(s)`: skip leading white space, take an optional sign, switch to
   * radix 16 after a "0x"/"0X" prefix, then read the longest run of digits;
   * no digit at all gives NaN.
   */
  function ParseInt(s: string): (r: Option<int>)
    ensures r.None? <==> |DigitPrefix(Body(Unsigned(TrimStart(s))), Radix(Unsigned(TrimStart(s))))| == 0
  {
    var u := Unsigned(TrimStart(s));
    var digits := DigitPrefix(Body(u), Radix(u));
    if |digits| == 0 then None
    else
      var v: int := DigitsValue(digits, Radix(u));
      Some(if Negative(TrimStart(s)) then -v else v)
  }

  predicate Negative(t: string) {
    |t| > 0 && t[0] == '-'
  }

  function Unsigned(t: string): string {
    if |t| > 0 && (t[0] == '-' || t[0] == '+') then t[1..] else t
  }

  predicate HasHexPrefix(u: string) {
    |u| >= 2 && u[0] == '0' && (u[1] == 'x' || u[1] == 'X')
  }

  function Radix(u: string): nat {
    if HasHexPrefix(u) then 16 else 10
  }

  function Body(u: string): string {
    if HasHexPrefix(u) then u[2..] else u
  }

  lemma {:induction false} DigitsValueOfNat(n: nat)
    ensures DigitsValue(NatToDigits(n), 10) == n
    decreases n
  {
    if n >= 10 {
      DigitsValueOfNat(n / 10);
      var s := NatToDigits(n);
      assert s[..|s| - 1] == NatToDigits(n / 10);
    }
  }

  lemma DigitPrefixOfDigits(s: string, radix: nat)
    requires forall i :: 0 <= i < |s| ==> DigitValue(s[i]) < radix
    ensures DigitPrefix(s, radix) == s
  {
  }

  /** A decimal digit is neither white space nor a sign. */
  lemma DecimalDigitChar(c: char)
    requires DigitValue(c) < 10
    ensures '0' <= c <= '9' && !IsJsSpace(c) && c != '-' && c != '+'
  {
  }

  /** A run of decimal digits has no hex prefix and is its own digit prefix. */
  lemma DecimalBody(digits: string)
    requires |digits| > 0 && forall i :: 0 <= i < |digits| ==> DigitValue(digits[i]) < 10
    ensures Radix(digits) == 10 && Body(digits) == digits
    ensures DigitPrefix(Body(digits), Radix(digits)) == digits
  {
    if |digits| >= 2 {
      assert DigitValue(digits[1]) < 10;
    }
    DigitPrefixOfDigits(digits, 10);
  }

  /** The last step of parseInt, once the white space, sign and prefix are known. */
  lemma ParseBody(s: string, digits: string)
    requires |digits| > 0 && TrimStart(s) == s && Unsigned(s) == digits
    requires Radix(digits) == 10 && Body(digits) == digits && DigitPrefix(digits, 10) == digits
    ensures var v: int := DigitsValue(digits, 10); ParseInt(s) == Some(if Negative(s) then -v else v)
  {
  }

  /** parseInt of a run of decimal digits reads their value. */
  lemma ParseDigits(digits: string, m: nat)
    requires |digits| > 0 && forall i :: 0 <= i < |digits| ==> DigitValue(digits[i]) < 10
    requires DigitsValue(digits, 10) == m
    ensures ParseInt(digits) == Some(m)
  {
    DecimalDigitChar(digits[0]);
    assert TrimStart(digits) == digits;
    assert Unsigned(digits) == digits;
    DecimalBody(digits);
    ParseBody(digits, digits);
  }

  /** A leading minus is no white space, and is stripped as the sign. */
  lemma MinusPrefix(digits: string)
    requires |digits| > 0 && forall i :: 0 <= i < |digits| ==> DigitValue(digits[i]) < 10
    ensures TrimStart("-" + digits) == "-" + digits
    ensures Unsigned("-" + digits) == digits && Negative("-" + digits)
  {
  }

  /** parseInt of a minus sign followed by decimal digits reads their negated value. */
  lemma ParseNegativeDigits(digits: string, m: nat)
    requires |digits| > 0 && forall i :: 0 <= i < |digits| ==> DigitValue(digits[i]) < 10
    requires DigitsValue(digits, 10) == m
    ensures ParseInt("-" + digits) == Some(-(m as int))
  {
    MinusPrefix(digits);
    DecimalBody(digits);
    ParseBody("-" + digits, digits);
  }

  /** Writing a number with toString and reading it back with parseInt recovers it. */
  lemma ParseIntOfToString(n: int)
    ensures ParseInt(IntToString(n)) == Some(n)
  {
    if n < 0 {
      DigitsValueOfNat(-n);
      ParseNegativeDigits(NatToDigits(-n), -n);
    } else {
      DigitsValueOfNat(n);
      ParseDigits(NatToDigits(n), n);
    }
  }

  /** floor(a / b) for any non-zero divisor (Dafny's own `/` is Euclidean). */
  function FloorDiv(a: int, b: int): (q: int)
    requires b != 0
    ensures b > 0 ==> b * q <= a < b * q + b
    ensures b < 0 ==> b * q >= a > b * q + b
  {
    if b > 0 then a / b else (-a) / (-b)
  }

  /** `Math.round(num / den)`: the nearest integer, halves rounded up. */
  function RoundDiv(num: int, den: int): (r: int)
    requires den != 0
    ensures 2 * (r * den - num) <= (if den > 0 then den else -den)
    ensures 2 * (num - r * den) <= (if den > 0 then den else -den)
    ensures den > 0 ==> 2 * (num - r * den) < den
  {
    FloorDiv(2 * num + den, 2 * den)
  }
}
