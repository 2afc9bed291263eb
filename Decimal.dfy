/**
 * The JVM `Double` values the Lua tokenizer can produce. A number lexeme is made of
 * an optional '-', digits and '.', so every value it parses to is a finite decimal;
 * the model keeps it exactly, as a canonical sign/mantissa/scale triple (Java's
 * -0.0 is the negative zero). `Render` is Double.toString for the plain notation
 * Java uses between 10^-3 and 10^7.
 */
module Decimal {
  import opened Wrappers
  import opened Text

  /** (-1)^negative * mantissa / 10^scale. */
  datatype Decimal = Decimal(negative: bool, mantissa: nat, scale: nat)

  /** No trailing zero after the decimal point: one representation per double. */
  predicate Canonical(d: Decimal) {
    d.scale > 0 ==> d.mantissa % 10 != 0
  }

  function Value(d: Decimal): real {
    (if d.negative then -1.0 else 1.0) * (d.mantissa as real) / (Pow10(d.scale) as real)
  }

  lemma ScaleDown(negative: bool, m: nat, s: nat)
    requires s > 0 && m % 10 == 0
    ensures Value(Decimal(negative, m / 10, s - 1)) == Value(Decimal(negative, m, s))
  {
    var q := m / 10;
    var p := Pow10(s - 1) as real;
    assert m as real == 10.0 * q as real;
    assert Pow10(s) as real == 10.0 * p;
    assert (m as real) / (10.0 * p) == (q as real) / p;
  }

  /** Drops trailing fraction zeros. */
  function Normalize(d: Decimal): (r: Decimal)
    ensures Canonical(r)
    ensures Value(r) == Value(d) && r.negative == d.negative
    decreases d.scale
  {
    if d.scale > 0 && d.mantissa % 10 == 0 then
      ScaleDown(d.negative, d.mantissa, d.scale);
      Normalize(Decimal(d.negative, d.mantissa / 10, d.scale - 1))
    else d
  }

  /**
   * Double.parseDouble on strings over the alphabet [0-9.-], the only characters a
   * number lexeme holds: an optional leading '-', digits with at most one '.', and
   * at least one digit.
   */
  function ParseDouble(s: string): (r: Option<Decimal>)
    ensures r.Some? ==> Canonical(r.value)
  {
    var negative := |s| > 0 && s[0] == '-';
    ParseUnsigned(negative, if negative then s[1..] else s)
  }

  function ParseUnsigned(negative: bool, body: string): (r: Option<Decimal>)
    ensures r.Some? ==> Canonical(r.value)
  {
    match IndexOf(body, ".")
    case None =>
      if |body| > 0 && AllDigits(body) then Some(Normalize(Decimal(negative, DigitsValue(body), 0)))
      else None
    case Some(k) =>
      var ints := body[..k];
      var frac := body[k + 1..];
      if |ints| + |frac| > 0 && AllDigits(ints) && AllDigits(frac) then
        DigitsValueAppend(ints, frac);
        Some(Normalize(Decimal(negative, DigitsValue(ints + frac), |frac|)))
      else None
  }

  lemma ParseUnsignedPoint(negative: bool, ints: string, frac: string)
    requires |ints| > 0 && AllDigits(ints) && AllDigits(frac)
    ensures AllDigits(ints + frac)
    ensures ParseUnsigned(negative, ints + "." + frac)
         == Some(Normalize(Decimal(negative, DigitsValue(ints + frac), |frac|)))
  {
    var body := ints + "." + frac;
    forall j | 0 <= j < |ints| ensures !OccursAt(body, ".", j) {
      assert body[j] == ints[j];
    }
    assert body[|ints|..|ints| + 1] == ".";
    IndexOfIs(body, ".", |ints|);
    assert body[..|ints|] == ints;
    assert body[|ints| + 1..] == frac;
    DigitsValueAppend(ints, frac);
  }

  /** The digits of the mantissa, left-padded with zeros so that one digit stands before the point. */
  function Padded(d: Decimal): (r: string)
    ensures AllDigits(r) && |r| > d.scale
  {
    var digits := NatToString(d.mantissa);
    if |digits| <= d.scale then Zeros(d.scale + 1 - |digits|) + digits else digits
  }

  /** Double.toString in plain notation: "1.0", "-0.5", "250.0", "0.05". */
  function Render(d: Decimal): string {
    (if d.negative then "-" else "") + IntegerDigits(d) + "." + FractionDigits(d)
  }

  /** The digits before the point: at least one. */
  function IntegerDigits(d: Decimal): (r: string)
    ensures |r| > 0 && AllDigits(r)
  {
    var padded := Padded(d);
    padded[..|padded| - d.scale]
  }

  /** The digits after the point: "0" for a whole number. */
  function FractionDigits(d: Decimal): (r: string)
    ensures |r| > 0 && AllDigits(r)
  {
    var padded := Padded(d);
    if d.scale == 0 then "0" else padded[|padded| - d.scale..]
  }

  /** The range Double.toString writes in plain notation: zero, and 10^-3 <= |x| < 10^7. */
  predicate PlainRange(d: Decimal) {
    d.mantissa == 0 || (d.mantissa < 10_000_000 * Pow10(d.scale) && 1000 * d.mantissa >= Pow10(d.scale))
  }

  /** A run of digits without its trailing zeros; one digit is always kept. */
  function StripZeros(s: string): (r: string)
    requires |s| > 0
    ensures 0 < |r| <= |s| && r == s[..|r|]
    ensures |r| > 1 ==> r[|r| - 1] != '0'
  {
    if |s| > 1 && s[|s| - 1] == '0' then StripZeros(s[..|s| - 1]) else s
  }

  /** Computerized scientific notation: one digit, the point, at least one more digit, 'E' and the exponent. */
  function Scientific(d: Decimal): string {
    (if d.negative then "-" else "") + Unsigned(d)
  }

  /** Scientific notation without the sign; it starts with the mantissa's first digit. */
  function Unsigned(d: Decimal): (r: string)
    ensures |r| > 0 && IsDigit(r[0])
  {
    SignificandText(d) + "E" + LongToString(ExponentOf(d))
  }

  /** The digits of the scientific significand, the point left out: one digit, then at least one more. */
  function SignificandDigits(d: Decimal): (r: string)
    ensures |r| >= 2 && AllDigits(r)
  {
    var digits := StripZeros(NatToString(d.mantissa));
    if |digits| == 1 then digits + "0" else digits
  }

  /** The significand as written: one digit, the point, and the remaining digits (at least "0"). */
  function SignificandText(d: Decimal): (r: string)
    ensures |r| >= 3 && IsDigit(r[0]) && r[1] == '.' && AllDigits(r[2..])
    ensures [r[0]] + r[2..] == SignificandDigits(d)
  {
    var digits := StripZeros(NatToString(d.mantissa));
    var r := [digits[0]] + "." + (if |digits| == 1 then "0" else digits[1..]);
    assert r[2..] == (if |digits| == 1 then "0" else digits[1..]);
    r
  }

  /** The exponent of the scientific notation: the position of the mantissa's first digit. */
  function ExponentOf(d: Decimal): int {
    |NatToString(d.mantissa)| - 1 - d.scale
  }

  /** A positive mantissa's significand does not start with '0'. */
  lemma SignificandLead(d: Decimal)
    requires d.mantissa > 0
    ensures SignificandText(d)[0] != '0'
  {
    var all := NatToString(d.mantissa);
    NatToStringLead(d.mantissa);
    assert StripZeros(all)[0] == all[0];
  }

  /**
   * Double.toString, for doubles that hold a finite decimal exactly. The ensures only
   * unfold which notation applies; what the text means is DoubleToStringReadBack.
   */
  function DoubleToString(d: Decimal): (r: string)
    ensures PlainRange(d) ==> r == Render(d)
    ensures !PlainRange(d) ==> r == Scientific(d)
  {
    if PlainRange(d) then Render(d) else Scientific(d)
  }

  /**
   * Either notation of Double.toString reads back: the plain one as the same double,
   * the scientific one as its value.
   */
  lemma DoubleToStringReadBack(d: Decimal)
    requires Canonical(d)
    ensures PlainRange(d) ==> ParseDouble(DoubleToString(d)) == Some(d)
    ensures !PlainRange(d) ==> ReadScientific(DoubleToString(d)) == Some(Value(d))
  {
    if PlainRange(d) {
      ParseRender(d);
    } else {
      ScientificReadBack(d);
    }
  }

  /** Ten to an integer power, negative exponents included. */
  function Pow10Real(k: int): (r: real)
    ensures r > 0.0
  {
    if k >= 0 then Pow10(k) as real else 1.0 / (Pow10(-k) as real)
  }

  /** A decimal exponent: an optional '-' and at least one digit. */
  function ReadExponent(s: string): Option<int> {
    if |s| > 1 && s[0] == '-' && AllDigits(s[1..]) then Some(0 - DigitsValue(s[1..]) as int)
    else if |s| > 0 && AllDigits(s) then Some(DigitsValue(s))
    else None
  }

  /**
   * The value of a text in computerized scientific notation: an optional '-', one
   * digit other than '0', the point, one or more digits, 'E' and the exponent.
   * The significand's digits are read as an integer and scaled by ten to the
   * exponent minus the number of fraction digits.
   */
  function ReadScientific(s: string): Option<real> {
    var negative := |s| > 0 && s[0] == '-';
    var body := if negative then s[1..] else s;
    match IndexOf(body, "E")
    case None => None
    case Some(k) =>
      var significand := body[..k];
      match ReadExponent(body[k + 1..])
      case None => None
      case Some(exponent) =>
        if |significand| >= 3 && IsDigit(significand[0]) && significand[0] != '0' && significand[1] == '.'
           && AllDigits(significand[2..])
        then
          var digits := [significand[0]] + significand[2..];
          DigitsAppendFree([significand[0]], significand[2..]);
          Some(Scaled(negative, DigitsValue(digits), exponent - (|significand| - 2)))
        else None
  }

  lemma DigitsAppendFree(a: string, b: string)
    requires AllDigits(a) && AllDigits(b)
    ensures AllDigits(a + b)
  {
    assert forall i :: 0 <= i < |a + b| ==> (a + b)[i] == (if i < |a| then a[i] else b[i - |a|]);
  }

  /** Stripping trailing zeros divides by ten once per zero. */
  lemma {:induction false} StripZerosValue(s: string)
    requires |s| > 0 && AllDigits(s)
    ensures AllDigits(StripZeros(s))
    ensures DigitsValue(s) == DigitsValue(StripZeros(s)) * Pow10(|s| - |StripZeros(s)|)
    decreases |s|
  {
    if |s| > 1 && s[|s| - 1] == '0' {
      var init := s[..|s| - 1];
      StripZerosValue(init);
      var q, z := DigitsValue(StripZeros(init)), |init| - |StripZeros(init)|;
      assert DigitsValue(s) == DigitsValue(init) * 10;
      assert DigitsValue(init) == q * Pow10(z);
      assert Pow10(z + 1) == 10 * Pow10(z);
      MulAssoc(q, 10, Pow10(z));
    }
  }

  /** A positive number's decimal rendering does not start with '0'. */
  lemma {:induction false} NatToStringLead(n: nat)
    requires n > 0
    ensures NatToString(n)[0] != '0'
    decreases n
  {
    if n >= 10 {
      NatToStringLead(n / 10);
    }
  }

  /** The exponent's rendering reads back, whatever its size. */
  lemma ReadExponentBack(x: int)
    ensures ReadExponent(LongToString(x)) == Some(x)
  {
    if x < 0 {
      var t := NatToString(-x);
      NatToStringValue(-x);
      assert ("-" + t)[0] == '-' && ("-" + t)[1..] == t;
    } else {
      NatToStringValue(x);
    }
  }

  /** Ten to `z - s` is the ratio of the two natural powers. */
  lemma Pow10RealRatio(z: nat, s: nat)
    ensures Pow10Real(z - s) == (Pow10(z) as real) / (Pow10(s) as real)
  {
    if z >= s {
      RatioAbove(z, s);
    } else {
      RatioBelow(z, s);
    }
  }

  lemma RatioAbove(z: nat, s: nat)
    requires z >= s
    ensures (Pow10(z - s) as real) == (Pow10(z) as real) / (Pow10(s) as real)
  {
    var k: nat := z - s;
    Pow10Add(s, k);
    DivideProduct(Pow10(s), Pow10(k), Pow10(z));
  }

  lemma RatioBelow(z: nat, s: nat)
    requires z < s
    ensures 1.0 / (Pow10(s - z) as real) == (Pow10(z) as real) / (Pow10(s) as real)
  {
    var k: nat := s - z;
    Pow10Add(z, k);
    DivideByProduct(Pow10(z), Pow10(k), Pow10(s));
  }

  lemma DivideProduct(a: nat, b: nat, c: nat)
    requires a >= 1 && c == a * b
    ensures (c as real) / (a as real) == b as real
  {
    CastProduct(a, b);
    CancelFactor(a as real, b as real);
  }

  lemma DivideByProduct(a: nat, b: nat, c: nat)
    requires a >= 1 && b >= 1 && c == a * b
    ensures (a as real) / (c as real) == 1.0 / (b as real)
  {
    CastProduct(a, b);
    CancelNumerator(a as real, b as real);
  }

  lemma CastProduct(a: nat, b: nat)
    ensures ((a * b) as real) == (a as real) * (b as real)
  {
  }

  lemma CancelFactor(a: real, b: real)
    requires a > 0.0
    ensures (a * b) / a == b
  {
  }

  lemma CancelNumerator(a: real, b: real)
    requires a > 0.0 && b > 0.0
    ensures a / (a * b) == 1.0 / b
  {
  }

  lemma Pow10RealStep(k: int)
    ensures 10.0 * Pow10Real(k - 1) == Pow10Real(k)
  {
    if k <= 0 {
      assert Pow10(-(k - 1)) == 10 * Pow10(-k);
    }
  }

  /** (-1)^negative * digits * 10^exponent. */
  function Scaled(negative: bool, digits: nat, exponent: int): real {
    (if negative then -1.0 else 1.0) * (digits as real) * Pow10Real(exponent)
  }

  /** The scientific rendering is read as its significand's digits scaled by ten to the exponent less the fraction digits. */
  lemma ScientificText(d: Decimal)
    requires d.mantissa > 0
    ensures ReadScientific(Scientific(d)) ==
      Some(Scaled(d.negative, DigitsValue(SignificandDigits(d)), ExponentOf(d) - (|SignificandDigits(d)| - 1)))
  {
    SignificandLead(d);
    ReadExponentBack(ExponentOf(d));
    ReadScientificOf(d.negative, SignificandText(d), LongToString(ExponentOf(d)), ExponentOf(d));
  }

  /** ReadScientific on a text assembled from a sign, a significand, 'E' and an exponent. */
  lemma ReadScientificOf(negative: bool, significand: string, tail: string, exponent: int)
    requires |significand| >= 3 && IsDigit(significand[0]) && significand[0] != '0' && significand[1] == '.'
    requires AllDigits(significand[2..])
    requires ReadExponent(tail) == Some(exponent)
    ensures AllDigits([significand[0]] + significand[2..])
    ensures ReadScientific((if negative then "-" else "") + (significand + "E" + tail)) ==
      Some(Scaled(negative, DigitsValue([significand[0]] + significand[2..]), exponent - (|significand| - 2)))
  {
    var u := significand + "E" + tail;
    var text := (if negative then "-" else "") + u;
    assert (if negative then text[1..] else text) == u;
    assert 'E' !in significand by {
      forall i | 0 <= i < |significand| ensures significand[i] != 'E' {
        if i >= 2 { assert significand[i] == significand[2..][i - 2]; }
      }
    }
    FirstOccurrence(u, significand, 'E', tail);
    assert u[..|significand|] == significand;
    assert u[|significand| + 1..] == tail;
    DigitsAppendFree([significand[0]], significand[2..]);
  }

  /** A character not in a prefix is first found just after it. */
  lemma FirstOccurrence(u: string, prefix: string, c: char, rest: string)
    requires u == prefix + [c] + rest && c !in prefix
    ensures IndexOf(u, [c]) == Some(|prefix|)
  {
    forall j | 0 <= j < |prefix| ensures !OccursAt(u, [c], j) {
      assert u[j] == prefix[j];
    }
    assert u[|prefix|..|prefix| + 1] == [c];
    IndexOfIs(u, [c], |prefix|);
  }

  /** The scientific rendering of a decimal outside the plain range reads back as its value. */
  lemma ScientificReadBack(d: Decimal)
    requires !PlainRange(d)
    ensures ReadScientific(Scientific(d)) == Some(Value(d))
  {
    ScientificText(d);
    ScientificValue(d);
  }

  /** The significand's digits scaled by ten to the exponent less the fraction digits are the decimal's value. */
  lemma ScientificValue(d: Decimal)
    requires d.mantissa > 0
    ensures Value(d) == Scaled(d.negative, DigitsValue(SignificandDigits(d)), ExponentOf(d) - (|SignificandDigits(d)| - 1))
  {
    var all := NatToString(d.mantissa);
    var digits := StripZeros(all);
    StrippedValue(d);
    var q, k := DigitsValue(digits), |all| - |digits| - d.scale;
    var sig := SignificandDigits(d);
    if |digits| == 1 {
      DigitsValueAppend(digits, "0");
      assert DigitsValue(sig) == q * 10;
      ScaledShift(d.negative, q, k);
    } else {
      assert sig == digits;
    }
  }

  /** The mantissa without its trailing zeros, scaled by ten to the zeros less the scale, is the value. */
  lemma StrippedValue(d: Decimal)
    ensures AllDigits(StripZeros(NatToString(d.mantissa)))
    ensures Value(d) == Scaled(d.negative, DigitsValue(StripZeros(NatToString(d.mantissa))),
                               |NatToString(d.mantissa)| - |StripZeros(NatToString(d.mantissa))| - d.scale)
  {
    var all := NatToString(d.mantissa);
    var digits := StripZeros(all);
    StripZerosValue(all);
    NatToStringValue(d.mantissa);
    var q, z := DigitsValue(digits), |all| - |digits|;
    Pow10RealRatio(z, d.scale);
    ValueScaled(d, q, z - d.scale, Pow10(z));
  }

  lemma ValueScaled(d: Decimal, q: nat, k: int, p: nat)
    requires d.mantissa == q * p
    requires Pow10Real(k) == (p as real) / (Pow10(d.scale) as real)
    ensures Value(d) == Scaled(d.negative, q, k)
  {
    ScaledValue(d, q, p);
  }


  /** One more digit in the significand is one less in the exponent. */
  lemma ScaledShift(negative: bool, q: nat, k: int)
    ensures Scaled(negative, q * 10, k - 1) == Scaled(negative, q, k)
  {
    Pow10RealStep(k);
    CastProduct(q, 10);
    TimesTenShift(if negative then -1.0 else 1.0, q as real, Pow10Real(k - 1));
  }

  lemma TimesTenShift(sign: real, q: real, p: real)
    ensures sign * (q * 10.0) * p == sign * q * (10.0 * p)
  {
  }

  lemma ScaledValue(d: Decimal, q: nat, p: nat)
    requires d.mantissa == q * p
    ensures Value(d) == (if d.negative then -1.0 else 1.0) * (q as real) * ((p as real) / (Pow10(d.scale) as real))
  {
    var sign := if d.negative then -1.0 else 1.0;
    var m, qq, pp, ps := d.mantissa as real, q as real, p as real, Pow10(d.scale) as real;
    assert Value(d) == sign * m / ps;
    CastProduct(q, p);
    Regroup(sign, qq, pp, ps);
  }

  lemma Regroup(sign: real, q: real, p: real, ps: real)
    requires ps > 0.0
    ensures sign * (q * p) / ps == sign * q * (p / ps)
  {
  }


  /** Double.toString starts with the sign or a digit, in either notation. */
  lemma DoubleToStringStart(d: Decimal)
    ensures |DoubleToString(d)| > 0
    ensures DoubleToString(d)[0] == '-' <==> d.negative
    ensures !d.negative ==> IsDigit(DoubleToString(d)[0])
  {
    var sign := if d.negative then "-" else "";
    if PlainRange(d) {
      var body := IntegerDigits(d) + "." + FractionDigits(d);
      assert Render(d) == sign + body;
      SignedStart(sign, body);
    } else {
      SignedStart(sign, Unsigned(d));
    }
  }

  /** A text made of an optional minus sign and digits-first text starts with the sign or with a digit. */
  lemma SignedStart(sign: string, body: string)
    requires sign == "-" || sign == ""
    requires |body| > 0 && IsDigit(body[0])
    ensures |sign + body| > 0
    ensures (sign + body)[0] == '-' <==> sign == "-"
    ensures sign == "" ==> IsDigit((sign + body)[0])
  {
  }

  /** Plain notation, as Java writes it: whole numbers keep one fraction digit. */
  lemma PlainWholeExamples()
    ensures DoubleToString(Decimal(false, 1, 0)) == "1.0"
    ensures DoubleToString(Decimal(false, 250, 0)) == "250.0"
    ensures DoubleToString(Decimal(true, 0, 0)) == "-0.0"
  {
    assert PlainRange(Decimal(false, 1, 0)) && PlainRange(Decimal(false, 250, 0)) && PlainRange(Decimal(true, 0, 0));
    assert NatToString(1) == "1" && NatToString(0) == "0";
    assert NatToString(25) == "25";
    assert NatToString(250) == "250";
    assert Render(Decimal(false, 1, 0)) == "1.0";
    assert Render(Decimal(false, 250, 0)) == "250.0";
    assert Render(Decimal(true, 0, 0)) == "-0.0";
  }

  /** Plain notation down to 10^-3, with the zeros after the point written out. */
  lemma PlainFractionExample()
    ensures DoubleToString(Decimal(false, 15, 4)) == "0.0015"
  {
    var d := Decimal(false, 15, 4);
    assert PlainRange(d);
    assert NatToString(15) == "15";
    assert Zeros(3) == "000";
    assert Padded(d) == "00015";
    assert IntegerDigits(d) == "0";
    assert FractionDigits(d) == "0015";
  }

  /** Scientific notation from 10^7 up, as Java writes it. */
  lemma ScientificLarge()
    ensures DoubleToString(Decimal(false, 10_000_000, 0)) == "1.0E7"
  {
    assert !PlainRange(Decimal(false, 10_000_000, 0));
    TenMillionDigits();
    StripTenMillion();
    assert LongToString(7) == "7";
  }

  /** Scientific notation below 10^-3, as Java writes it. */
  lemma ScientificSmall()
    ensures DoubleToString(Decimal(false, 15, 5)) == "1.5E-4"
  {
    var d := Decimal(false, 15, 5);
    assert !PlainRange(d);
    assert NatToString(15) == "15";
    assert StripZeros("15") == "15";
    assert SignificandText(d) == "1.5";
    assert ExponentOf(d) == -4;
    assert LongToString(-4) == "-4";
  }

  lemma TenMillionDigits()
    ensures NatToString(10_000_000) == "10000000"
  {
    assert NatToString(10) == "10";
    assert NatToString(100) == "100";
    assert NatToString(1000) == "1000";
    assert NatToString(10_000) == "10000";
    assert NatToString(100_000) == "100000";
    assert NatToString(1_000_000) == "1000000";
  }

  lemma StripTenMillion()
    ensures StripZeros("10000000") == "1"
  {
    assert StripZeros("10") == "1";
    assert StripZeros("100") == StripZeros("10");
    assert StripZeros("1000") == StripZeros("100");
    assert StripZeros("10000") == StripZeros("1000");
    assert StripZeros("100000") == StripZeros("10000");
    assert StripZeros("1000000") == StripZeros("100000");
  }

  /** Java's toLong on a double: truncation toward zero, saturating at the Long bounds. */
  function ToLong(d: Decimal): (r: int)
    ensures LONG_MIN <= r <= LONG_MAX
    ensures Value(d) >= LONG_MAX as real ==> r == LONG_MAX
    ensures Value(d) <= LONG_MIN as real ==> r == LONG_MIN
    ensures LONG_MIN as real < Value(d) < LONG_MAX as real ==>
      (Value(d) >= 0.0 ==> r as real <= Value(d) < r as real + 1.0) &&
      (Value(d) <= 0.0 ==> r as real - 1.0 < Value(d) <= r as real)
  {
    var magnitude := d.mantissa / Pow10(d.scale);
    TruncatedValue(d);
    var t := if d.negative then -magnitude else magnitude;
    if t < LONG_MIN then LONG_MIN else if t > LONG_MAX then LONG_MAX else t
  }

  /** The value of a decimal lies between its truncation toward zero and the next integer away from zero. */
  lemma TruncatedValue(d: Decimal)
    ensures var q := (d.mantissa / Pow10(d.scale)) as real;
      if d.negative then -q - 1.0 < Value(d) <= -q else q <= Value(d) < q + 1.0
  {
    var m, p := d.mantissa as real, Pow10(d.scale) as real;
    FloorDivision(d.mantissa, Pow10(d.scale));
    if d.negative {
      assert Value(d) == -1.0 * m / p;
      assert -1.0 * m / p == -(m / p);
    } else {
      assert Value(d) == 1.0 * m / p;
      assert 1.0 * m / p == m / p;
    }
  }

  /** Integer division is the floor of real division. */
  lemma FloorDivision(m: nat, p: nat)
    requires p >= 1
    ensures (m / p) as real <= (m as real) / (p as real) < (m / p) as real + 1.0
  {
    var q, rest := m / p, m % p;
    assert (m as real) == (q as real) * (p as real) + (rest as real);
    assert (m as real) / (p as real) == (q as real) + (rest as real) / (p as real);
    assert 0.0 <= (rest as real) / (p as real) < 1.0;
  }

  lemma PaddedValue(d: Decimal)
    ensures DigitsValue(Padded(d)) == d.mantissa
  {
    var digits := NatToString(d.mantissa);
    NatToStringValue(d.mantissa);
    if |digits| <= d.scale {
      LeadingZeros(d.scale + 1 - |digits|, digits);
    }
  }

  lemma NormalizeCanonical(d: Decimal)
    requires Canonical(d)
    ensures Normalize(d) == d
  {
  }

  lemma ParseSigned(negative: bool, body: string)
    requires |body| > 0 && body[0] != '-'
    ensures ParseDouble((if negative then "-" else "") + body) == ParseUnsigned(negative, body)
  {
    var s := (if negative then "-" else "") + body;
    if negative {
      assert s[1..] == body;
    } else {
      assert s == body;
    }
  }

  lemma DigitsOfRender(d: Decimal)
    ensures d.scale == 0 ==> IntegerDigits(d) == Padded(d) && FractionDigits(d) == "0"
    ensures d.scale > 0 ==> IntegerDigits(d) + FractionDigits(d) == Padded(d)
  {
  }

  /** Rendering is parsed back to the same double: Double.parseDouble inverts Render. */
  lemma ParseRender(d: Decimal)
    requires Canonical(d)
    ensures ParseDouble(Render(d)) == Some(d)
  {
    var ints := IntegerDigits(d);
    var frac := FractionDigits(d);
    RenderParse(d);
    ParseUnsignedPoint(d.negative, ints, frac);
    PaddedValue(d);
    DigitsOfRender(d);
    if d.scale == 0 {
      WholeDigits(d);
      assert |frac| == 1;
    } else {
      assert |frac| == d.scale;
      assert DigitsValue(ints + frac) == d.mantissa;
      assert Decimal(d.negative, d.mantissa, d.scale) == d;
      NormalizeCanonical(d);
    }
  }

  lemma RenderParse(d: Decimal)
    ensures ParseDouble(Render(d)) == ParseUnsigned(d.negative, IntegerDigits(d) + "." + FractionDigits(d))
  {
    var body := IntegerDigits(d) + "." + FractionDigits(d);
    assert Render(d) == (if d.negative then "-" else "") + body;
    assert body[0] == IntegerDigits(d)[0];
    ParseSigned(d.negative, body);
  }

  lemma WholeDigits(d: Decimal)
    requires d.scale == 0
    ensures AllDigits(IntegerDigits(d) + FractionDigits(d))
    ensures Normalize(Decimal(d.negative, DigitsValue(IntegerDigits(d) + FractionDigits(d)), 1)) == d
  {
    var ints := IntegerDigits(d);
    var frac := FractionDigits(d);
    DigitsOfRender(d);
    PaddedValue(d);
    DigitsValueAppend(ints, frac);
    assert DigitsValue(frac) == 0 by { assert frac[..0] == []; }
    var ten := Decimal(d.negative, d.mantissa * 10, 1);
    assert DigitsValue(ints + frac) == d.mantissa * 10;
    TimesTenMod(d.mantissa);
    assert Normalize(ten) == Normalize(Decimal(d.negative, (d.mantissa * 10) / 10, 0));
  }

  /** Equal values with positive denominators cross-multiply. */
  lemma CrossMultiply(m1: nat, p1: nat, m2: nat, p2: nat)
    requires p1 > 0 && p2 > 0
    requires (m1 as real) / (p1 as real) == (m2 as real) / (p2 as real)
    ensures m1 * p2 == m2 * p1
  {
    var x := (m1 as real) / (p1 as real);
    assert m1 as real == x * (p1 as real);
    assert m2 as real == x * (p2 as real);
    assert (m1 as real) * (p2 as real) == x * (p1 as real) * (p2 as real);
    assert (m2 as real) * (p1 as real) == x * (p2 as real) * (p1 as real);
    assert ((m1 * p2) as real) == (m1 as real) * (p2 as real);
    assert ((m2 * p1) as real) == (m2 as real) * (p1 as real);
  }

  lemma MantissaRatio(a: Decimal, b: Decimal)
    requires a.negative == b.negative && Value(a) == Value(b)
    ensures a.mantissa * Pow10(b.scale) == b.mantissa * Pow10(a.scale)
  {
    var sign := if a.negative then -1.0 else 1.0;
    var x := (a.mantissa as real) / (Pow10(a.scale) as real);
    var y := (b.mantissa as real) / (Pow10(b.scale) as real);
    assert Value(a) == sign * x;
    assert Value(b) == sign * y;
    assert x == y;
    CrossMultiply(a.mantissa, Pow10(a.scale), b.mantissa, Pow10(b.scale));
  }

  /** Two canonical decimals with the same sign and value are identical. */
  lemma CanonicalUnique(a: Decimal, b: Decimal)
    requires Canonical(a) && Canonical(b)
    requires a.negative == b.negative && Value(a) == Value(b)
    ensures a == b
  {
    MantissaRatio(a, b);
    if a.scale <= b.scale {
      SameRatio(a, b);
    } else {
      SameRatio(b, a);
    }
  }

  lemma SameRatio(a: Decimal, b: Decimal)
    requires Canonical(b) && a.scale <= b.scale
    requires a.mantissa * Pow10(b.scale) == b.mantissa * Pow10(a.scale)
    ensures a.mantissa == b.mantissa && a.scale == b.scale
  {
    var k := b.scale - a.scale;
    var pa := Pow10(a.scale);
    var pk := Pow10(k);
    Pow10Add(a.scale, k);
    assert a.scale + k == b.scale;
    assert Pow10(b.scale) == pa * pk;
    MulAssoc(a.mantissa, pk, pa);
    CancelRight(a.mantissa * pk, b.mantissa, pa);
    if k > 0 {
      TenDivides(a.mantissa, k);
      assert false;
    }
  }

  /** A multiple of a positive power of ten ends in the digit zero. */
  lemma TenDivides(q: nat, k: nat)
    requires k > 0
    ensures (q * Pow10(k)) % 10 == 0
  {
    var r := Pow10(k - 1);
    assert Pow10(k) == 10 * r;
    MulAssoc(q, 10, r);
    TimesTenMod(q * r);
  }

  lemma TimesTenMod(q: nat)
    ensures (q * 10) % 10 == 0
  {
  }

  lemma MulAssoc(x: nat, y: nat, z: nat)
    ensures x * (z * y) == (x * y) * z
  {
  }

  lemma CancelRight(x: nat, y: nat, p: nat)
    requires p > 0 && x * p == y * p
    ensures x == y
  {
  }

  lemma {:induction false} Pow10Add(a: nat, b: nat)
    ensures Pow10(a + b) == Pow10(a) * Pow10(b)
    decreases b
  {
    if b > 0 {
      Pow10Add(a, b - 1);
    }
  }
}
