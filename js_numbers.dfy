/**
 * The JavaScript number operations the editor's code relies on: `Math.max`,
 * `Math.min`, `parseInt(s, 10)` and `Number.prototype.toString()`. A number
 * is a mathematical real or NaN; IEEE-754 rounding is not modelled.
 */
module JsNumbers {
  import opened JsStrings

  /** A JavaScript number: a real value, or NaN (what `parseInt` returns when no digit is found). */
  datatype JsNumber = Num(value: real) | NaN

  /** `Math.max(a, b)`: NaN when either argument is NaN. */
  function MathMax(a: JsNumber, b: JsNumber): (r: JsNumber)
    ensures r.Num? <==> a.Num? && b.Num?
    ensures r.Num? ==> r.value >= a.value && r.value >= b.value
    ensures r.Num? ==> r.value == a.value || r.value == b.value
  {
    if a.NaN? || b.NaN? then NaN
    else if a.value >= b.value then a else b
  }

  /** `Math.min(a, b)`: NaN when either argument is NaN. */
  function MathMin(a: JsNumber, b: JsNumber): (r: JsNumber)
    ensures r.Num? <==> a.Num? && b.Num?
    ensures r.Num? ==> r.value <= a.value && r.value <= b.value
    ensures r.Num? ==> r.value == a.value || r.value == b.value
  {
    if a.NaN? || b.NaN? then NaN
    else if a.value <= b.value then a else b
  }

  // ---------------------------------------------------------------------
  // Decimal digits
  // ---------------------------------------------------------------------

  predicate IsDigit(c: char)
  {
    '0' <= c <= '9'
  }

  predicate AllDigits(s: string)
  {
    forall i :: 0 <= i < |s| ==> IsDigit(s[i])
  }

  function DigitChar(d: nat): (c: char)
    requires d < 10
    ensures IsDigit(c) && c as int - '0' as int == d
  {
    ('0' as int + d) as char
  }

  /** The decimal numeral of `n`, without leading zeros. */
  function DecimalDigits(n: nat): (r: string)
    ensures r != [] && AllDigits(r)
  {
    if n < 10 then [DigitChar(n)] else DecimalDigits(n / 10) + [DigitChar(n % 10)]
  }

  /** The value of a numeral. */
  function DigitsValue(d: string): nat
    requires AllDigits(d)
  {
    if d == [] then 0
    else DigitsValue(d[..|d| - 1]) * 10 + (d[|d| - 1] as int - '0' as int)
  }

  lemma {:induction false} DigitsValueOfDecimal(n: nat)
    ensures DigitsValue(DecimalDigits(n)) == n
  {
    if n >= 10 {
      var d := DecimalDigits(n);
      assert d[..|d| - 1] == DecimalDigits(n / 10);
      DigitsValueOfDecimal(n / 10);
    }
  }

  /** The length of the longest prefix of `s` made of digits. */
  function LeadingDigits(s: string): (k: nat)
    ensures k <= |s| && AllDigits(s[..k])
    ensures k < |s| ==> !IsDigit(s[k])
  {
    if s != [] && IsDigit(s[0]) then
      var k := 1 + LeadingDigits(s[1..]);
      assert s[..k] == [s[0]] + s[1..][..k - 1];
      k
    else 0
  }

  lemma {:induction false} LeadingDigitsOfNumeral(d: string, tail: string)
    requires AllDigits(d)
    requires tail == [] || !IsDigit(tail[0])
    ensures LeadingDigits(d + tail) == |d|
  {
    if d != [] {
      assert (d + tail)[1..] == d[1..] + tail;
      LeadingDigitsOfNumeral(d[1..], tail);
    } else {
      assert d + tail == tail;
    }
  }

  // ---------------------------------------------------------------------
  // parseInt and toString
  // ---------------------------------------------------------------------

  /**
   * `parseInt(s, 10)`: leading white space is skipped, an optional sign is
   * read, then the longest run of decimal digits; without a digit the result
   * is NaN. Whatever follows the digits is ignored.
   */
  function ParseInt(s: string): (r: JsNumber)
    ensures r.Num? ==> r.value == r.value.Floor as real
  {
    var t := TrimStart(s);
    var negative := t != [] && t[0] == '-';
    var rest := if t != [] && (t[0] == '-' || t[0] == '+') then t[1..] else t;
    var k := LeadingDigits(rest);
    if k == 0 then NaN
    else
      Num(Signed(negative, DigitsValue(rest[..k])) as real)
  }

  /** The integer part of a real, rounded toward zero. */
  function Truncate(r: real): (i: int)
    ensures r >= 0.0 ==> 0 <= i && i as real <= r < i as real + 1.0
    ensures r < 0.0 ==> i as real - 1.0 < r <= i as real <= 0.0
  {
    if r >= 0.0 then r.Floor else -((-r).Floor)
  }

  /** Up to `n` digits of the decimal expansion of a fraction in [0, 1). */
  function FractionDigits(f: real, n: nat): (r: string)
    requires 0.0 <= f < 1.0
    ensures AllDigits(r)
    decreases n
  {
    if n == 0 || f == 0.0 then ""
    else
      var d := (f * 10.0).Floor;
      [DigitChar(d)] + FractionDigits(f * 10.0 - d as real, n - 1)
  }

  /**
   * `x.toString()`: "NaN", or an optional minus sign, the decimal integer
   * part and, for a value that is not an integer, a point and the fraction's
   * digits (cut after 17 of them).
   */
  function NumberToString(x: JsNumber): string
  {
    match x
    case NaN => "NaN"
    case Num(r) => if r < 0.0 then "-" + MagnitudeText(-r) else MagnitudeText(r)
  }

  /** The written form of a non-negative number. */
  function MagnitudeText(m: real): string
    requires m >= 0.0
  {
    DecimalDigits(m.Floor) + FractionText(m - m.Floor as real)
  }

  /** The written fraction of a number: nothing for an integer, else a point and digits. */
  function FractionText(f: real): (r: string)
    requires 0.0 <= f < 1.0
    ensures r == [] || r[0] == '.'
  {
    if f == 0.0 then "" else "." + FractionDigits(f, 17)
  }

  /** `m`, negated when `negative`. */
  function Signed(negative: bool, m: nat): int
  {
    var v: int := m;
    if negative then -v else v
  }

  /** Text starting with a digit parses to the value of its leading digits. */
  lemma ParseIntOfDigitFirst(rest: string)
    requires rest != [] && IsDigit(rest[0])
    ensures ParseInt(rest) == Num(DigitsValue(rest[..LeadingDigits(rest)]) as real)
  {
    assert !IsJsWhitespace(rest[0]);
    assert TrimStart(rest) == rest;
  }

  /** A minus sign followed by a digit parses to the negated value of the digits. */
  lemma ParseIntOfMinus(rest: string)
    requires rest != [] && IsDigit(rest[0])
    ensures ParseInt("-" + rest) == Num(Signed(true, DigitsValue(rest[..LeadingDigits(rest)])) as real)
  {
    var s := "-" + rest;
    assert s[0] == '-' && s[1..] == rest;
    assert !IsJsWhitespace(s[0]);
    assert TrimStart(s) == s;
  }

  /** A signed numeral followed by text that does not start with a digit parses to its value. */
  lemma ParseIntOfNumeral(negative: bool, digits: string, tail: string)
    requires digits != [] && AllDigits(digits)
    requires tail == [] || tail[0] == '.'
    ensures negative ==> ParseInt("-" + (digits + tail)) == Num(Signed(true, DigitsValue(digits)) as real)
    ensures !negative ==> ParseInt(digits + tail) == Num(DigitsValue(digits) as real)
  {
    var rest := digits + tail;
    LeadingDigitsOfNumeral(digits, tail);
    assert rest[..|digits|] == digits;
    assert IsDigit(rest[0]);
    if negative {
      ParseIntOfMinus(rest);
    } else {
      ParseIntOfDigitFirst(rest);
    }
  }

  /** "NaN" has no digit. */
  lemma ParseIntOfNaNText()
    ensures ParseInt("NaN") == NaN
  {
    assert !IsJsWhitespace('N');
    assert TrimStart("NaN") == "NaN";
    assert LeadingDigits("NaN") == 0;
  }

  /** A finite number reads back as its integer part. */
  lemma ParseIntOfWrittenNum(r: real)
    ensures ParseInt(NumberToString(Num(r))) == Num(Truncate(r) as real)
  {
    if r < 0.0 {
      ParseIntOfWrittenNegative(r);
    } else {
      ParseIntOfWrittenMagnitude(r);
    }
  }

  /** The written form of a non-negative number reads back as its integer part. */
  lemma ParseIntOfWrittenMagnitude(m: real)
    requires m >= 0.0
    ensures ParseInt(MagnitudeText(m)) == Num(Truncate(m) as real)
    ensures ParseInt(NumberToString(Num(m))) == Num(Truncate(m) as real)
  {
    var k: nat := m.Floor;
    var tail := FractionText(m - k as real);
    assert MagnitudeText(m) == DecimalDigits(k) + tail;
    ParseIntOfDecimal(false, k, tail);
  }

  /** The written form of a negative number reads back as its integer part. */
  lemma ParseIntOfWrittenNegative(r: real)
    requires r < 0.0
    ensures ParseInt(NumberToString(Num(r))) == Num(Truncate(r) as real)
  {
    var k: nat := (-r).Floor;
    var tail := FractionText(-r - k as real);
    assert MagnitudeText(-r) == DecimalDigits(k) + tail;
    assert NumberToString(Num(r)) == "-" + (DecimalDigits(k) + tail);
    ParseIntOfDecimal(true, k, tail);
    assert Truncate(r) == Signed(true, k);
  }

  /** The decimal numeral of `k`, signed, followed by nothing or a point, parses back to ±`k`. */
  lemma ParseIntOfDecimal(negative: bool, k: nat, tail: string)
    requires tail == [] || tail[0] == '.'
    ensures negative ==> ParseInt("-" + (DecimalDigits(k) + tail)) == Num(Signed(true, k) as real)
    ensures !negative ==> ParseInt(DecimalDigits(k) + tail) == Num(k as real)
  {
    ParseIntOfNumeral(negative, DecimalDigits(k), tail);
    DigitsValueOfDecimal(k);
  }

  /**
   * Reading back a written number gives its integer part: integers survive
   * the round trip exactly, and a fractional value loses its fraction.
   */
  lemma ParseIntOfNumberToString(x: JsNumber)
    ensures x.NaN? ==> ParseInt(NumberToString(x)) == NaN
    ensures x.Num? ==> ParseInt(NumberToString(x)) == Num(Truncate(x.value) as real)
  {
    if x.NaN? {
      ParseIntOfNaNText();
    } else {
      ParseIntOfWrittenNum(x.value);
    }
  }
}
