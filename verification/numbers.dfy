/**
 * The number primitives the source borrows from JavaScript: `parseInt(text, 10)`,
 * the decimal rendering of a non-negative integer (as in a template literal), and
 * the `%` operator, whose result takes the sign of the dividend.
 */
module Numbers {
  import opened Options

  predicate IsDigit(c: char)
  {
    '0' <= c <= '9'
  }

  function DigitValue(c: char): nat
    requires IsDigit(c)
  {
    c as int - '0' as int
  }

  function DigitChar(d: nat): char
    requires d < 10
  {
    ('0' as int + d) as char
  }

  /** The characters `parseInt` skips before the number: ECMAScript's white space and line terminators. */
  predicate IsJsWhiteSpace(c: char)
  {
    var u := c as int;
    (0x09 <= u <= 0x0D)          // tab, line feed, vertical tab, form feed, carriage return
    || u == 0x20 || u == 0xA0 || u == 0x1680
    || (0x2000 <= u <= 0x200A)   // the space separators of general category Zs
    || u == 0x2028 || u == 0x2029 // line and paragraph separators
    || u == 0x202F || u == 0x205F || u == 0x3000
    || u == 0xFEFF               // byte order mark
  }

  function TrimStart(s: string): (r: string)
    ensures |r| <= |s|
    ensures r == [] || !IsJsWhiteSpace(r[0])
  {
    if s != [] && IsJsWhiteSpace(s[0]) then TrimStart(s[1..]) else s
  }

  /** The longest prefix of `s` made of decimal digits. */
  function LeadingDigits(s: string): (r: string)
    ensures |r| <= |s| && r == s[..|r|]
    ensures forall i :: 0 <= i < |r| ==> IsDigit(r[i])
    ensures |r| < |s| ==> !IsDigit(s[|r|])
  {
    if s != [] && IsDigit(s[0]) then [s[0]] + LeadingDigits(s[1..]) else []
  }

  /** The value of a string of decimal digits, most significant first. */
  function DigitsValue(ds: string): nat
    requires forall i :: 0 <= i < |ds| ==> IsDigit(ds[i])
  {
    if ds == [] then 0 else DigitsValue(ds[..|ds| - 1]) * 10 + DigitValue(ds[|ds| - 1])
  }

  /**
   * `parseInt(s, 10)`: skip leading white space, read an optional sign, then the longest
   * run of decimal digits; `None` stands for `NaN`, the result when there are no digits.
   */
  function ParseInt(s: string): Option<int>
  {
    var t := TrimStart(s);
    var negative := t != [] && t[0] == '-';
    var unsigned := if t != [] && (t[0] == '-' || t[0] == '+') then t[1..] else t;
    var ds := LeadingDigits(unsigned);
    if ds == [] then None
    else
      var magnitude: int := DigitsValue(ds);
      Some(if negative then -magnitude else magnitude)
  }

  /** The decimal rendering of `n`, as `${n}` produces it for a non-negative integer. */
  function NatToString(n: nat): (r: string)
    ensures |r| >= 1
    ensures forall i :: 0 <= i < |r| ==> IsDigit(r[i])
  {
    if n < 10 then [DigitChar(n)] else NatToString(n / 10) + [DigitChar(n % 10)]
  }

  /** Reading the digits of `NatToString(n)` gives `n` back. */
  lemma {:induction false} DigitsValueOfNatToString(n: nat)
    ensures DigitsValue(NatToString(n)) == n
    decreases n
  {
    var r := NatToString(n);
    if n >= 10 {
      DigitsValueOfNatToString(n / 10);
      assert r[..|r| - 1] == NatToString(n / 10);
    }
  }

  lemma {:induction false} LeadingDigitsOfDigits(s: string)
    requires forall i :: 0 <= i < |s| ==> IsDigit(s[i])
    ensures LeadingDigits(s) == s
    decreases |s|
  {
    if s != [] {
      LeadingDigitsOfDigits(s[1..]);
    }
  }

  /** `parseInt` undoes the decimal rendering of a non-negative integer. */
  lemma ParseIntOfNatToString(n: nat)
    ensures ParseInt(NatToString(n)) == Some(n)
  {
    var r := NatToString(n);
    assert TrimStart(r) == r;
    LeadingDigitsOfDigits(r);
    DigitsValueOfNatToString(n);
  }

  /** ... and of a negative one written with a leading minus sign. */
  lemma ParseIntOfNegative(n: nat)
    requires n > 0
    ensures ParseInt("-" + NatToString(n)) == Some(-(n as int))
  {
    var r := NatToString(n);
    var s := "-" + r;
    assert TrimStart(s) == s;
    assert s[1..] == r;
    LeadingDigitsOfDigits(r);
    DigitsValueOfNatToString(n);
  }

  /** Distinct numbers have distinct renderings. */
  lemma NatToStringInjective(a: nat, b: nat)
    requires NatToString(a) == NatToString(b)
    ensures a == b
  {
    ParseIntOfNatToString(a);
    ParseIntOfNatToString(b);
  }

  /** JavaScript's `a % n` for a positive divisor: the remainder has the sign of `a`. */
  function JsRem(a: int, n: int): (r: int)
    requires n > 0
    ensures a >= 0 ==> r == a % n
    ensures 0 <= a < n ==> r == a
    ensures n <= a < 2 * n ==> r == a - n
    ensures -n < a < 0 ==> r == a
  {
    if a >= 0 then
      SmallRemainders(a, n);
      a % n
    else
      SmallRemainders(-a, n);
      -((-a) % n)
  }

  /** Below one divisor the remainder is the dividend; below two it is one divisor less. */
  lemma SmallRemainders(a: int, n: int)
    requires 0 <= a && 0 < n
    ensures a < n ==> a % n == a
    ensures n <= a < 2 * n ==> a % n == a - n
  {
    if n <= a < 2 * n {
      assert a == 1 * n + (a - n);
    }
  }
}
