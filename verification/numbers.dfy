/**
 * The two string/number conversions the source relies on: JavaScript's
 * `parseInt(s)` (used as `parseInt(s) || 0` for typed amounts and quantities)
 * and `String(n)` for an integer (used to build transaction ids).
 * Numbers are unbounded integers here; JavaScript's doubles are not modelled.
 */
module Numbers {
  import opened Wrappers

  /** The characters `parseInt` skips before the number: ECMAScript's white space and line terminators. */
  predicate IsSpace(c: char) {
    var n := c as int;
    n == 0x09 || n == 0x0A || n == 0x0B || n == 0x0C || n == 0x0D || n == 0x20 || n == 0xA0
    || n == 0x1680 || (0x2000 <= n <= 0x200A) || n == 0x2028 || n == 0x2029 || n == 0x202F
    || n == 0x205F || n == 0x3000 || n == 0xFEFF
  }

  /** The value of `c` as a digit of base `radix` (10 or 16), or None if it is not one. */
  function DigitValue(c: char, radix: nat): Option<nat>
  {
    var v := if '0' <= c <= '9' then c as int - '0' as int
             else if 'a' <= c <= 'z' then c as int - 'a' as int + 10
             else if 'A' <= c <= 'Z' then c as int - 'A' as int + 10
             else 36;
    if v < radix then Some(v) else None
  }

  predicate AllDigits(s: string, radix: nat) {
    forall i :: 0 <= i < |s| ==> DigitValue(s[i], radix).Some?
  }

  /** Length of the longest prefix of `s` made of base-`radix` digits. */
  function DigitRun(s: string, radix: nat): (n: nat)
    ensures n <= |s| && AllDigits(s[..n], radix)
    ensures n < |s| ==> DigitValue(s[n], radix).None?
  {
    if s == [] || DigitValue(s[0], radix).None? then 0
    else
      var n := DigitRun(s[1..], radix);
      assert s[..1 + n] == [s[0]] + s[1..][..n];
      1 + n
  }

  /** Positional value of a digit string, most significant digit first. */
  function ValueOf(s: string, radix: nat): nat
    requires AllDigits(s, radix)
  {
    if s == [] then 0
    else ValueOf(s[..|s| - 1], radix) * radix + DigitValue(s[|s| - 1], radix).value
  }

  /** `s` without its leading white space. */
  function TrimStart(s: string): (t: string)
    ensures t == [] || !IsSpace(t[0])
    ensures |t| <= |s| && t == s[|s| - |t|..]
  {
    if s != [] && IsSpace(s[0]) then TrimStart(s[1..]) else s
  }

  /**
   * The magnitude `parseInt` reads once the sign is taken: base 16 after a
   * `0x`/`0X` prefix and base 10 otherwise, up to the first non-digit.  None
   * stands for NaN (no digit at all).
   */
  function ParseMagnitude(u: string): Option<nat>
  {
    if |u| >= 2 && u[0] == '0' && (u[1] == 'x' || u[1] == 'X') then ReadDigits(u[2..], 16)
    else ReadDigits(u, 10)
  }

  /** The value of the longest prefix of `body` made of base-`radix` digits, None if it is empty. */
  function ReadDigits(body: string, radix: nat): Option<nat>
  {
    var n := DigitRun(body, radix);
    if n == 0 then None else Some(ValueOf(body[..n], radix))
  }

  /**
   * `parseInt(s)` with no radix argument: skip leading white space, take an
   * optional sign, then read the magnitude.
   */
  function ParseInt(s: string): (r: Option<int>)
    ensures TrimStart(s) == [] ==> r.None?
    ensures r.Some? && r.value < 0 ==> TrimStart(s)[0] == '-'
  {
    var t := TrimStart(s);
    var negative := |t| > 0 && t[0] == '-';
    var u := if |t| > 0 && (t[0] == '-' || t[0] == '+') then t[1..] else t;
    match ParseMagnitude(u)
    case None => None
    case Some(m) =>
      var v: int := if negative then -(m as int) else m;
      Some(v)
  }

  /** `parseInt(s) || 0`: NaN (and minus zero) become 0. */
  function ParseIntOr0(s: string): (v: int)
    ensures ParseInt(s).None? ==> v == 0
    ensures v != 0 ==> ParseInt(s) == Some(v)
  {
    match ParseInt(s)
    case None => 0
    case Some(v) => v
  }

  function DigitChar(d: nat): (c: char)
    requires d < 10
    ensures DigitValue(c, 10) == Some(d)
  {
    ('0' as int + d) as char
  }

  /** Decimal digits of `n`, without leading zeros. */
  function NatDecimal(n: nat): (s: string)
    ensures |s| >= 1 && AllDigits(s, 10)
  {
    if n < 10 then [DigitChar(n)]
    else
      var init := NatDecimal(n / 10);
      assert forall i :: 0 <= i < |init| ==> (init + [DigitChar(n % 10)])[i] == init[i];
      init + [DigitChar(n % 10)]
  }

  /** `String(n)` (or `${n}`) for an integer: an optional minus sign and the decimal digits. */
  function Decimal(n: int): (d: string)
    ensures |d| >= 1 && (d[0] == '-' <==> n < 0)
    ensures AllDigits(if n < 0 then d[1..] else d, 10)
  {
    if n < 0 then "-" + NatDecimal(-n) else NatDecimal(n)
  }

  /** Reading back the digits that `NatDecimal` writes gives the number. */
  lemma {:induction false} NatDecimalValue(n: nat)
    ensures ValueOf(NatDecimal(n), 10) == n
  {
    if n >= 10 {
      NatDecimalValue(n / 10);
      var s := NatDecimal(n);
      assert s[..|s| - 1] == NatDecimal(n / 10);
    }
  }

  /** A run of digits is read to its end. */
  lemma DigitRunOfDigits(s: string, radix: nat)
    requires AllDigits(s, radix)
    ensures DigitRun(s, radix) == |s|
  {
    var n := DigitRun(s, radix);
    if n < |s| {
      assert false;
    }
  }

  /** A non-empty run of decimal digits is read whole, as a decimal number. */
  lemma MagnitudeOfDigits(d: string)
    requires |d| >= 1 && AllDigits(d, 10)
    ensures ParseMagnitude(d) == Some(ValueOf(d, 10))
  {
    DigitRunOfDigits(d, 10);
    assert d[..|d|] == d;
  }

  /** The digits written for `m` read back as `m`. */
  lemma MagnitudeOfDecimal(m: nat)
    ensures ParseMagnitude(NatDecimal(m)) == Some(m)
  {
    NatDecimalValue(m);
    MagnitudeOfDigits(NatDecimal(m));
  }

  /** A minus sign followed by text whose magnitude is `m` reads as `-m`. */
  lemma ParseMinus(d: string, m: nat)
    requires ParseMagnitude(d) == Some(m)
    ensures ParseInt("-" + d) == Some(-(m as int))
  {
    var s := "-" + d;
    assert s[0] == '-' && !IsSpace(s[0]);
    assert TrimStart(s) == s;
    assert s[1..] == d;
  }

  /** Text starting with a decimal digit reads as its magnitude. */
  lemma ParseDigitFirst(s: string)
    requires |s| > 0 && '0' <= s[0] <= '9'
    ensures ParseInt(s) == ParseMagnitude(s)
  {
    assert !IsSpace(s[0]);
    assert TrimStart(s) == s;
  }

  /** The text of a negative number reads back as that number. */
  lemma ParseNegativeDecimal(n: int)
    requires n < 0
    ensures ParseInt(Decimal(n)) == Some(n)
  {
    MagnitudeOfDecimal(-n);
    ParseMinus(NatDecimal(-n), -n);
    assert Decimal(n) == "-" + NatDecimal(-n);
  }

  /** The text of a number that is not negative reads back as that number. */
  lemma ParseNonNegativeDecimal(n: int)
    requires n >= 0
    ensures ParseInt(Decimal(n)) == Some(n)
  {
    var d := NatDecimal(n);
    assert Decimal(n) == d;
    assert DigitValue(d[0], 10).Some?;
    MagnitudeOfDecimal(n);
    ParseDigitFirst(d);
  }

  /** `parseInt(String(n)) == n` for every integer `n`: the two conversions are inverse. */
  lemma ParseDecimal(n: int)
    ensures ParseInt(Decimal(n)) == Some(n)
    ensures ParseIntOr0(Decimal(n)) == n
  {
    if n < 0 {
      ParseNegativeDecimal(n);
    } else {
      ParseNonNegativeDecimal(n);
    }
  }

  /** Different integers give different decimal strings. */
  lemma DecimalInjective(a: int, b: int)
    requires Decimal(a) == Decimal(b)
    ensures a == b
  {
    ParseDecimal(a);
    ParseDecimal(b);
  }

  /** Input made only of white space (the empty input included) reads as 0. */
  lemma {:induction false} BlankReadsAsZero(s: string)
    requires forall i :: 0 <= i < |s| ==> IsSpace(s[i])
    ensures TrimStart(s) == []
    ensures ParseInt(s) == None && ParseIntOr0(s) == 0
  {
    if s != [] {
      BlankReadsAsZero(s[1..]);
    }
  }
}
