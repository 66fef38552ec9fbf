/** The two numeric parses the core relies on: `Double.valueOf(s).longValue()`,
    which turns the block-size option into a block size, and `Integer.valueOf(s)`,
    which turns the text of a LIMIT clause into a row count. */
module JavaNumbers {
  import opened Results
  import opened Text

  const LongMin: int := -0x8000_0000_0000_0000
  const LongMax: int := 0x7fff_ffff_ffff_ffff
  const IntMin: int := -0x8000_0000
  const IntMax: int := 0x7fff_ffff
  /** Integers up to this magnitude are exactly representable as a double. */
  const TwoTo53: int := 0x20_0000_0000_0000

  datatype NumberFormatError = NumberFormatError(input: string)

  predicate InLongRange(x: int) {
    LongMin <= x <= LongMax
  }

  predicate InIntRange(x: int) {
    IntMin <= x <= IntMax
  }

  /** The narrowing of a double to `long`: values beyond the range stick to its ends. */
  function SaturateToLong(x: int): (r: int)
    ensures InLongRange(r)
    ensures InLongRange(x) ==> r == x
    ensures x > LongMax ==> r == LongMax
    ensures x < LongMin ==> r == LongMin
  {
    if x > LongMax then LongMax else if x < LongMin then LongMin else x
  }

  function Pow10(n: nat): (r: nat)
    ensures r >= 1
  {
    if n == 0 then 1 else 10 * Pow10(n - 1)
  }

  /** `String.trim`: characters up to U+0020 are dropped from both ends. */
  function TrimStart(s: string): (r: string)
    ensures |r| <= |s|
    ensures |r| > 0 ==> r[0] > ' '
    decreases |s|
  {
    if |s| > 0 && s[0] <= ' ' then TrimStart(s[1..]) else s
  }

  function TrimEnd(s: string): (r: string)
    ensures |r| <= |s|
    ensures |r| > 0 ==> r[|r| - 1] > ' '
    decreases |s|
  {
    if |s| > 0 && s[|s| - 1] <= ' ' then TrimEnd(s[..|s| - 1]) else s
  }

  function Trim(s: string): string {
    TrimEnd(TrimStart(s))
  }

  /** The end of the run of decimal digits that starts at `i`. */
  function DigitRun(s: string, i: nat): (j: nat)
    requires i <= |s|
    ensures i <= j <= |s|
    ensures AllDigits(s[i..j])
    ensures j < |s| ==> !IsDigit(s[j])
    decreases |s| - i
  {
    if i < |s| && IsDigit(s[i]) then
      var j := DigitRun(s, i + 1);
      assert s[i..j] == [s[i]] + s[i + 1..j];
      j
    else i
  }

  /** A parsed Java floating-point literal; a finite one is
      (-1)^negative * mantissa * 10^exponent, kept exact. */
  datatype Decimal = NaN | Infinity(negative: bool) | Finite(negative: bool, mantissa: nat, exponent: int)

  /** The decimal literal grammar of `Double.valueOf` on an already trimmed
      string: optional sign, `NaN` or `Infinity`, or digits with an optional
      fraction (at least one digit in all), an optional exponent with at least
      one digit, and an optional `f`/`F`/`d`/`D` type suffix. */
  function ParseDecimal(s: string): (r: Result<Decimal, NumberFormatError>)
    ensures |s| == 0 ==> r.Failure?
  {
    if |s| == 0 then Failure(NumberFormatError(s))
    else
      var negative := s[0] == '-';
      var i0: nat := if s[0] == '-' || s[0] == '+' then 1 else 0;
      if s[i0..] == "NaN" then Success(NaN)
      else if s[i0..] == "Infinity" then Success(Infinity(negative))
      else ParseFinite(s, i0, negative)
  }

  /** The digits, with an optional fraction, that start at `i0`; at least one
      digit in all. */
  function ParseFinite(s: string, i0: nat, negative: bool): (r: Result<Decimal, NumberFormatError>)
    requires i0 <= |s|
  {
    var i1 := DigitRun(s, i0);
    var hasPoint := i1 < |s| && s[i1] == '.';
    var i2 := if hasPoint then DigitRun(s, i1 + 1) else i1;
    var intDigits := s[i0..i1];
    var fracDigits := if hasPoint then s[i1 + 1..i2] else "";
    if |intDigits| + |fracDigits| == 0 then Failure(NumberFormatError(s))
    else ParseExponent(s, i2, negative, DigitsValue(intDigits + fracDigits), |fracDigits|)
  }

  /** The optional exponent, with at least one digit, and the optional type
      suffix that end the literal; `scale` is the number of fraction digits
      already read into `mantissa`. */
  function ParseExponent(s: string, i2: nat, negative: bool, mantissa: nat, scale: nat): (r: Result<Decimal, NumberFormatError>)
    requires i2 <= |s|
    ensures i2 == |s| ==> r == Success(Finite(negative, mantissa, -(scale as int)))
  {
    var hasExp := i2 < |s| && (s[i2] == 'e' || s[i2] == 'E');
    var signedExp := hasExp && i2 + 1 < |s| && (s[i2 + 1] == '-' || s[i2 + 1] == '+');
    var expNegative := signedExp && s[i2 + 1] == '-';
    var e0: nat := if signedExp then i2 + 2 else if hasExp then i2 + 1 else i2;
    var i3 := DigitRun(s, e0);
    if hasExp && i3 == e0 then Failure(NumberFormatError(s))
    else
      var end := if hasExp then i3 else i2;
      var expMagnitude := if hasExp then DigitsValue(s[e0..i3]) else 0;
      var exp := if expNegative then -expMagnitude else expMagnitude;
      var rest := s[end..];
      if rest == "" || (|rest| == 1 && rest[0] in "fFdD") then
        Success(Finite(negative, mantissa, exp - scale))
      else Failure(NumberFormatError(s))
  }

  /** The whole part of `mantissa * 10^exponent` (see `WholePartBounds`). */
  function WholePart(mantissa: nat, exponent: int): int {
    if exponent >= 0 then mantissa * Pow10(exponent) else mantissa / Pow10(-exponent)
  }

  /** The whole part is the largest natural number not above the value: the
      value itself for a non-negative exponent, and otherwise bounded by the
      mantissa from both sides once scaled back. */
  lemma WholePartBounds(mantissa: nat, exponent: int)
    ensures exponent >= 0 ==> WholePart(mantissa, exponent) == mantissa * Pow10(exponent)
    ensures exponent < 0 ==>
              var q, p := WholePart(mantissa, exponent), Pow10(-exponent);
              q * p <= mantissa < (q + 1) * p
  {
    if exponent < 0 {
      DivisionBounds(mantissa, Pow10(-exponent));
    }
  }

  /** Natural division rounds down: the quotient times the divisor is at most
      the dividend, and one more times the divisor exceeds it. */
  lemma DivisionBounds(m: nat, p: nat)
    requires p >= 1
    ensures (m / p) * p <= m < (m / p + 1) * p
  {
    var q, rest := m / p, m % p;
    assert m == q * p + rest && 0 <= rest < p;
    assert (q + 1) * p == q * p + p;
  }

  /** `Double.longValue`: NaN is 0, infinities stick to the range ends, and a
      finite value is truncated toward zero and then saturated. */
  function TruncateToLong(d: Decimal): (r: int)
    ensures InLongRange(r)
    ensures d.NaN? ==> r == 0
    ensures d.Infinity? ==> r == (if d.negative then LongMin else LongMax)
    ensures d.Finite? && d.exponent >= 0 && InLongRange(d.mantissa * Pow10(d.exponent)) ==>
              r == (if d.negative then -1 else 1) * d.mantissa * Pow10(d.exponent)
    ensures d.Finite? ==>
              var q := WholePart(d.mantissa, d.exponent);
              var v := if d.negative then -q else q;
              && (InLongRange(v) ==> r == v)
              && (v > LongMax ==> r == LongMax)
              && (v < LongMin ==> r == LongMin)
  {
    match d
    case NaN => 0
    case Infinity(negative) => if negative then LongMin else LongMax
    case Finite(negative, mantissa, exponent) =>
      var magnitude := WholePart(mantissa, exponent);
      var v := if negative then -magnitude else magnitude;
      SaturateToLong(v)
  }

  /** Truncation toward zero on both signs, an integral value written with a
      fraction digit, and saturation above the range. */
  lemma TruncateToLongExamples()
    ensures TruncateToLong(Finite(false, 10000000, -1)) == 1000000
    ensures TruncateToLong(Finite(false, 25, -1)) == 2
    ensures TruncateToLong(Finite(true, 25, -1)) == -2
    ensures TruncateToLong(Finite(false, 1, 19)) == LongMax
  {
    assert Pow10(1) == 10;
    assert WholePart(10000000, -1) == 1000000;
    assert WholePart(25, -1) == 2;
    assert Pow10(19) == 10000000000000000000 by {
      assert Pow10(2) == 100;
      assert Pow10(4) == 10000;
      assert Pow10(8) == 100000000;
      assert Pow10(16) == 10000000000000000;
      assert Pow10(19) == 1000 * Pow10(16);
    }
  }

  /** `Double.valueOf(s).longValue()`. */
  function ParseDoubleToLong(s: string): (r: Result<int, NumberFormatError>)
    ensures r.Success? ==> InLongRange(r.value)
    ensures Trim(s) == "" ==> r.Failure?
  {
    var d :- ParseDecimal(Trim(s));
    Success(TruncateToLong(d))
  }

  lemma TrimOfUnpadded(s: string)
    requires |s| > 0 && s[0] > ' ' && s[|s| - 1] > ' '
    ensures Trim(s) == s
  {
  }

  lemma DigitRunToEnd(s: string, i: nat)
    requires i <= |s|
    requires AllDigits(s[i..])
    ensures DigitRun(s, i) == |s|
    decreases |s| - i
  {
    if i < |s| {
      assert s[i..][0] == s[i];
      assert s[i + 1..] == s[i..][1..];
      DigitRunToEnd(s, i + 1);
    }
  }

  /** A plain run of digits after an optional minus sign reads as an integer
      literal with exponent zero. */
  lemma ParseDecimalOfSignedDigits(s: string, i0: nat)
    requires i0 < |s| && (i0 == 1 <==> s[0] == '-') && i0 <= 1
    requires AllDigits(s[i0..])
    ensures ParseDecimal(s) == Success(Finite(s[0] == '-', DigitsValue(s[i0..]), 0))
  {
    assert s[i0..] != "NaN" && s[i0..] != "Infinity" by {
      assert IsDigit(s[i0..][0]);
    }
    assert i0 == 0 ==> s[0] != '+' by {
      if i0 == 0 {
        assert IsDigit(s[0..][0]);
      }
    }
    DigitRunToEnd(s, i0);
    assert DigitRun(s, |s|) == |s|;
    assert s[i0..|s|] + "" == s[i0..];
    assert ParseFinite(s, i0, s[0] == '-') == ParseExponent(s, |s|, s[0] == '-', DigitsValue(s[i0..]), 0);
  }

  /** A `long` of at most 2^53 in magnitude, written by `Long.toString`, is
      read back unchanged, so such a block size given to the coordinator's
      constructor survives its round trip through the options map. Beyond
      2^53 Java's double rounds, so the round trip is claimed only here. */
  lemma {:induction false} ParseDoubleToLongOfIntToString(n: int)
    requires -TwoTo53 <= n <= TwoTo53
    ensures ParseDoubleToLong(IntToString(n)) == Success(n)
  {
    var s := IntToString(n);
    var m: nat := if n < 0 then -n else n;
    var i0: nat := if n < 0 then 1 else 0;
    assert s[i0..] == NatToString(m);
    assert s[|s| - 1] > ' ' by {
      assert s[|s| - 1] == s[i0..][|s| - 1 - i0];
    }
    TrimOfUnpadded(s);
    ParseDecimalOfSignedDigits(s, i0);
    DigitsValueOfNatToString(m);
    assert (s[0] == '-') == (n < 0);
    var d := Finite(n < 0, m, 0);
    assert ParseDecimal(Trim(s)) == Success(d);
    TruncateOfInteger(n);
  }

  /** An integer literal within the `long` range truncates to itself. */
  lemma TruncateOfInteger(n: int)
    requires InLongRange(n)
    ensures TruncateToLong(Finite(n < 0, if n < 0 then -n else n, 0)) == n
  {
    assert Pow10(0) == 1;
  }

  /** The default block-size option "1e6" denotes one million rows. */
  lemma DefaultBlockSizeIsOneMillion()
    ensures ParseDoubleToLong("1e6") == Success(1000000)
  {
    var s := "1e6";
    TrimOfUnpadded(s);
    assert DigitRun(s, 2) == 3;
    assert DigitRun(s, 1) == 1;
    assert DigitRun(s, 0) == 1;
    assert s[2..3] == "6";
    assert DigitsValue("6") == 6;
    assert DigitsValue("1") == 1;
    assert s[0..1] + "" == "1";
    assert ParseDecimal(s) == Success(Finite(false, 1, 6));
    assert Pow10(6) == 1000000;
  }

  /** `Integer.valueOf(s)`: optional sign, at least one decimal digit, and a
      value inside the 32-bit range; anything else is a format error. */
  function ParseInt(s: string): (r: Result<int, NumberFormatError>)
    ensures r.Success? ==> InIntRange(r.value)
    ensures r.Success? ==> |s| > 0 && AllDigits(s[if s[0] == '-' || s[0] == '+' then 1 else 0..])
    ensures |s| == 0 ==> r.Failure?
  {
    if |s| == 0 then Failure(NumberFormatError(s))
    else
      var i0 := if s[0] == '-' || s[0] == '+' then 1 else 0;
      var digits := s[i0..];
      if |digits| == 0 || !AllDigits(digits) then Failure(NumberFormatError(s))
      else
        var magnitude: int := DigitsValue(digits);
        var v := if s[0] == '-' then -magnitude else magnitude;
        if InIntRange(v) then Success(v) else Failure(NumberFormatError(s))
  }

  lemma {:induction false} ParseIntOfIntToString(n: int)
    requires InIntRange(n)
    ensures ParseInt(IntToString(n)) == Success(n)
  {
    var s := IntToString(n);
    var m: nat := if n < 0 then -n else n;
    var i0 := if n < 0 then 1 else 0;
    assert s[i0..] == NatToString(m);
    DigitsValueOfNatToString(m);
  }
}
