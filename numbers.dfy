/** Python's `float(x)` and `int(x)` on decoded JSON values, without binary
    floating point: a price becomes an exact `Decimal`, a volume an `int`. */
module Numbers {
  import opened Wrappers
  import opened Json

  predicate IsDigit(c: char) {
    '0' <= c <= '9'
  }

  function DigitValue(c: char): nat
    requires IsDigit(c)
  {
    (c as int) - ('0' as int)
  }

  function DigitChar(d: nat): (c: char)
    requires d < 10
    ensures IsDigit(c) && DigitValue(c) == d
  {
    (('0' as int) + d) as char
  }

  predicate AllDigits(s: string) {
    forall i :: 0 <= i < |s| ==> IsDigit(s[i])
  }

  /** The number a string of decimal digits denotes ("" denotes 0). */
  function DigitsValue(s: string): nat
    requires AllDigits(s)
  {
    if s == [] then 0 else DigitsValue(s[..|s| - 1]) * 10 + DigitValue(s[|s| - 1])
  }

  /** The shortest decimal spelling of `n`. */
  function NatToDigits(n: nat): (s: string)
    ensures |s| > 0 && AllDigits(s)
  {
    if n < 10 then [DigitChar(n)] else NatToDigits(n / 10) + [DigitChar(n % 10)]
  }

  function Zeros(k: nat): (z: string)
    ensures |z| == k && AllDigits(z)
  {
    if k == 0 then "" else Zeros(k - 1) + "0"
  }

  function Pow10(k: nat): (p: nat)
    ensures p >= 1
  {
    if k == 0 then 1 else 10 * Pow10(k - 1)
  }

  /** A magnitude with a sign in front. */
  function Signed(negative: bool, magnitude: nat): int {
    if negative then -(magnitude as int) else magnitude
  }

  function Abs(i: int): nat {
    if i < 0 then -i else i
  }

  lemma {:induction false} NatToDigitsValue(n: nat)
    ensures DigitsValue(NatToDigits(n)) == n
  {
    if n >= 10 {
      var s := NatToDigits(n);
      assert s[..|s| - 1] == NatToDigits(n / 10);
      NatToDigitsValue(n / 10);
    }
  }

  lemma {:induction false} ZerosValue(k: nat)
    ensures DigitsValue(Zeros(k)) == 0
  {
    if k > 0 {
      var z := Zeros(k);
      assert z[..k - 1] == Zeros(k - 1);
      ZerosValue(k - 1);
    }
  }

  /** Leading zeros do not change the value of a digit string. */
  lemma {:induction false} LeadingZerosValue(k: nat, s: string)
    requires AllDigits(s)
    ensures AllDigits(Zeros(k) + s)
    ensures DigitsValue(Zeros(k) + s) == DigitsValue(s)
  {
    var z := Zeros(k) + s;
    assert AllDigits(z) by {
      forall i | 0 <= i < |z| ensures IsDigit(z[i]) {
        if i >= k { assert z[i] == s[i - k]; }
      }
    }
    if s == [] {
      assert z == Zeros(k);
      ZerosValue(k);
    } else {
      var s' := s[..|s| - 1];
      assert z[..|z| - 1] == Zeros(k) + s';
      LeadingZerosValue(k, s');
    }
  }

  /** The position of the first '.' in `s`, or `|s|` when there is none. */
  function FindDot(s: string): (i: nat)
    ensures i <= |s|
    ensures i < |s| ==> s[i] == '.'
    ensures forall j :: 0 <= j < i ==> s[j] != '.'
  {
    if s == [] || s[0] == '.' then 0 else 1 + FindDot(s[1..])
  }

  /** An optional leading sign: whether it is '-', and the text after it. */
  function SplitSign(s: string): (bool, string) {
    if |s| > 0 && s[0] == '-' then (true, s[1..])
    else if |s| > 0 && s[0] == '+' then (false, s[1..])
    else (false, s)
  }

  /** `float(s)` for decimal text: an optional sign, digits, and optionally a
      '.' followed by digits, with at least one digit in all. */
  function ParseDecimal(s: string): Option<Decimal> {
    var (negative, body) := SplitSign(s);
    ParseUnsignedDecimal(negative, body)
  }

  /** The text before the first '.' and the text after it ("" without one). */
  function SplitAtDot(body: string): (string, string) {
    var dot := FindDot(body);
    (body[..dot], if dot < |body| then body[dot + 1..] else "")
  }

  /** The decimal after the sign: digits, then optionally '.' and digits. */
  function ParseUnsignedDecimal(negative: bool, body: string): Option<Decimal> {
    var (intPart, fracPart) := SplitAtDot(body);
    var digits := intPart + fracPart;
    if |digits| > 0 && AllDigits(digits) then
      Some(Decimal(Signed(negative, DigitsValue(digits)), |fracPart|))
    else
      None
  }

  /** `int(s)` for decimal text: an optional sign followed by one or more digits. */
  function ParseInteger(s: string): Option<int> {
    var (negative, body) := SplitSign(s);
    if |body| > 0 && AllDigits(body) then
      Some(Signed(negative, DigitsValue(body)))
    else
      None
  }

  /** The digits of the mantissa's magnitude, with leading zeros so that
      there is at least one digit before the point. */
  function PaddedDigits(d: Decimal): string {
    var magnitude := NatToDigits(Abs(d.mantissa));
    if |magnitude| <= d.scale then Zeros(d.scale + 1 - |magnitude|) + magnitude else magnitude
  }

  /** `digits` with a '.' before its last `scale` digits (none when `scale` is 0). */
  function PointAt(digits: string, scale: nat): string
    requires scale < |digits|
  {
    var split := |digits| - scale;
    digits[..split] + (if scale > 0 then "." + digits[split..] else "")
  }

  /** The canonical spelling of a decimal: a '-' for a negative mantissa,
      at least one integer digit, and exactly `scale` fraction digits. */
  function FormatDecimal(d: Decimal): string {
    PaddedDigitsFacts(d);
    (if d.mantissa < 0 then "-" else "") + PointAt(PaddedDigits(d), d.scale)
  }

  function FormatInteger(i: int): string {
    (if i < 0 then "-" else "") + NatToDigits(Abs(i))
  }

  lemma PaddedDigitsFacts(d: Decimal)
    ensures AllDigits(PaddedDigits(d)) && |PaddedDigits(d)| > d.scale
    ensures DigitsValue(PaddedDigits(d)) == Abs(d.mantissa)
  {
    var magnitude := NatToDigits(Abs(d.mantissa));
    NatToDigitsValue(Abs(d.mantissa));
    if |magnitude| <= d.scale {
      LeadingZerosValue(d.scale + 1 - |magnitude|, magnitude);
    }
  }

  /** A pointed digit string splits at its point into the digits on either side. */
  lemma PointAtParts(digits: string, scale: nat)
    requires AllDigits(digits) && scale < |digits|
    ensures SplitAtDot(PointAt(digits, scale)) == (digits[..|digits| - scale], digits[|digits| - scale..])
  {
    var split := |digits| - scale;
    var body := PointAt(digits, scale);
    assert forall j :: 0 <= j < split ==> body[j] == digits[j];
    if scale > 0 {
      assert body[split] == '.';
      assert FindDot(body) == split;
      assert body[split + 1..] == digits[split..];
    } else {
      assert body == digits;
    }
  }

  /** Reading back a pointed digit string gives its value at that scale. */
  lemma ParsePointed(negative: bool, digits: string, scale: nat)
    requires AllDigits(digits) && scale < |digits|
    ensures ParseUnsignedDecimal(negative, PointAt(digits, scale))
         == Some(Decimal(Signed(negative, DigitsValue(digits)), scale))
  {
    PointAtParts(digits, scale);
    var split := |digits| - scale;
    assert digits[..split] + digits[split..] == digits;
  }

  /** A sign followed by the magnitude gives back the number. */
  lemma SignedAbs(i: int)
    ensures Signed(i < 0, Abs(i)) == i
  {
  }

  /** The sign of a formatted decimal is split off its digits. */
  lemma FormattedSign(d: Decimal)
    ensures SplitSign(FormatDecimal(d)) == (d.mantissa < 0, PointAt(PaddedDigits(d), d.scale))
  {
    PaddedDigitsFacts(d);
    var body := PointAt(PaddedDigits(d), d.scale);
    var text := FormatDecimal(d);
    assert body[0] == PaddedDigits(d)[0];
    if d.mantissa < 0 { assert text[1..] == body; } else { assert text == body; }
  }

  /** Parsing undoes formatting: every decimal has a spelling that
      `float()` reads back to the same mantissa and scale. */
  lemma DecimalRoundTrip(d: Decimal)
    ensures ParseDecimal(FormatDecimal(d)) == Some(d)
  {
    PaddedDigitsFacts(d);
    FormattedSign(d);
    ParsePointed(d.mantissa < 0, PaddedDigits(d), d.scale);
    SignedAbs(d.mantissa);
  }

  /** Parsing undoes formatting for integers too. */
  lemma IntegerRoundTrip(i: int)
    ensures ParseInteger(FormatInteger(i)) == Some(i)
  {
    var digits := NatToDigits(Abs(i));
    NatToDigitsValue(Abs(i));
    var text := FormatInteger(i);
    assert SplitSign(text) == (i < 0, digits) by {
      if i < 0 { assert text[1..] == digits; } else { assert text == digits; }
    }
    SignedAbs(i);
  }

  /** Python's `int()` of a float: the quotient rounded toward zero, which
      Dafny's Euclidean division does not do for negative numbers. */
  function TruncateTowardZero(d: Decimal): (r: int)
    ensures d.mantissa >= 0 ==> 0 <= d.mantissa - r * Pow10(d.scale) < Pow10(d.scale)
    ensures d.mantissa < 0 ==> 0 <= r * Pow10(d.scale) - d.mantissa < Pow10(d.scale)
  {
    var p := Pow10(d.scale);
    if d.mantissa >= 0 then
      var q := d.mantissa / p;
      assert d.mantissa == q * p + d.mantissa % p;
      q
    else
      var n := -d.mantissa;
      var q := n / p;
      assert n == q * p + n % p;
      assert (-q) * p == -(q * p);
      -q
  }

  /** `float(x)` on a decoded JSON value; None where Python raises. */
  function PyFloat(x: Json): Option<Decimal> {
    match x
    case JString(s) => ParseDecimal(s)
    case JInt(i) => Some(Decimal(i, 0))
    case JFloat(d) => Some(d)
    case JBool(b) => Some(Decimal(if b then 1 else 0, 0))
    case _ => None
  }

  /** `int(x)` on a decoded JSON value; None where Python raises. */
  function PyInt(x: Json): Option<int> {
    match x
    case JString(s) => ParseInteger(s)
    case JInt(i) => Some(i)
    case JFloat(d) => Some(TruncateTowardZero(d))
    case JBool(b) => Some(if b then 1 else 0)
    case _ => None
  }
}
