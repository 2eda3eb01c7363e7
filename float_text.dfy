/** Decimal numbers as text: the part of Python's `float()` that reads plain decimal
    literals, and `format(x, '.2f')`. Values are exact; binary floating point is not
    modelled. */
module FloatText {
  import opened Wrappers
  import opened Text

  function Abs(h: int): (r: nat) {
    if h < 0 then -h else h
  }

  // ----- exact decimal literals -----

  /** A decimal literal `sign units . fraction` whose fraction has `places` digits. */
  datatype Decimal = Decimal(negative: bool, units: nat, fraction: nat, places: nat)

  /** `n` shifted `places` decimal places to the right: `n / 10^places`. */
  function Shifted(n: nat, places: nat): (v: real)
    ensures v >= 0.0
  {
    if places == 0 then n as real else Shifted(n, places - 1) / 10.0
  }

  /** The exact number a decimal literal denotes. */
  function DecimalValue(x: Decimal): (v: real)
    ensures x.negative ==> v <= 0.0
    ensures !x.negative ==> v >= 0.0
  {
    var magnitude := x.units as real + Shifted(x.fraction, x.places);
    if x.negative then -magnitude else magnitude
  }

  /** The whole part and the two decimals of `|h|` hundredths, with the sign of `h`,
      denote `h / 100`. */
  lemma CentsValue(h: int)
    ensures DecimalValue(Decimal(h < 0, Abs(h) / 100, Abs(h) % 100, 2)) == h as real / 100.0
  {
    var a := Abs(h);
    assert Shifted(a % 100, 1) == (a % 100) as real / 10.0;
    assert Shifted(a % 100, 2) == (a % 100) as real / 100.0;
    assert a == (a / 100) * 100 + a % 100;
    assert a as real == (a / 100) as real * 100.0 + (a % 100) as real;
  }

  // ----- writing two decimals -----

  /** The integer part of `m` hundredths in shortest decimal form. */
  function IntegerDigits(m: nat): (r: string)
    ensures |r| >= 1 && AllDigits(r) && DigitsValue(r) == m / 100
  {
    NatToDigits(m / 100)
  }

  /** The two digits after the point for `m` hundredths. */
  function CentDigits(m: nat): (r: string)
    ensures |r| == 2 && AllDigits(r) && DigitsValue(r) == m % 100
  {
    var c := m % 100;
    var r := [DigitChar(c / 10), DigitChar(c % 10)];
    assert r[..1] == [DigitChar(c / 10)] && r[..1][..0] == [];
    assert DigitsValue(r[..1]) == c / 10;
    r
  }

  /** `m` hundredths written with a point and exactly two decimals. */
  function FixedPoint2(m: nat): (r: string)
    ensures |r| >= 4 && r[|r| - 3] == '.'
  {
    IntegerDigits(m) + "." + CentDigits(m)
  }

  /** `x * 100` rounded to the nearest integer, ties to the even one. */
  function RoundCents(x: real): (c: int)
    ensures -0.5 <= c as real - x * 100.0 <= 0.5
    ensures x >= 0.0 ==> c >= 0
    ensures x <= 0.0 ==> c <= 0
  {
    var y := x * 100.0;
    var f := y.Floor;
    var rest := y - f as real;
    if rest < 0.5 then f
    else if rest > 0.5 then f + 1
    else if f % 2 == 0 then f
    else f + 1
  }

  /** `format(x, '.2f')`: a minus sign for a negative number (kept even when the
      rounded value is zero), then the rounded magnitude with two decimals. */
  function FormatFixed2(x: real): (r: string) {
    (if x < 0.0 then "-" else "") + FixedPoint2(Abs(RoundCents(x)))
  }

  /** A two-decimal rendering has at least one digit before the point and two after. */
  lemma FormatFixed2Shape(x: real)
    ensures |FormatFixed2(x)| >= 4 && FormatFixed2(x)[|FormatFixed2(x)| - 3] == '.'
  {
  }

  // ----- reading -----

  /** The characters a plain decimal literal is made of. */
  predicate IsLiteralChar(c: char) {
    IsDigit(c) || IsSign(c) || c == '.'
  }

  /** An unsigned literal: digits, or digits with one point, with at least one digit. */
  function ScanUnsigned(body: string): (r: Option<Decimal>) {
    var p := IndexOf(body, '.');
    if p == |body| then
      if body != [] && AllDigits(body) then Some(Decimal(false, DigitsValue(body), 0, 0)) else None
    else
      var ip := body[..p];
      var fp := body[p + 1..];
      if AllDigits(ip) && AllDigits(fp) && |ip| + |fp| >= 1 then
        Some(Decimal(false, DigitsValue(ip), DigitsValue(fp), |fp|))
      else None
  }

  /** The literal `float()` reads from `s`: surrounding whitespace is ignored, then an
      optional sign and an unsigned literal. */
  function ScanFloat(s: string): (r: Option<Decimal>) {
    var t := Strip(s);
    if t != [] && IsSign(t[0]) then
      match ScanUnsigned(t[1..])
      case None => None
      case Some(x) => Some(x.(negative := t[0] == '-'))
    else ScanUnsigned(t)
  }

  /** An unsigned literal is not empty, is read as a non-negative number, and is made
      of digits and the point. */
  lemma ScanUnsignedShape(body: string)
    ensures var r := ScanUnsigned(body);
      r.Some? ==> body != [] && !r.value.negative &&
                  forall k :: 0 <= k < |body| ==> IsDigit(body[k]) || body[k] == '.'
  {
    var p := IndexOf(body, '.');
    if p < |body| {
      var fp := body[p + 1..];
      assert forall k :: p < k < |body| ==> body[k] == fp[k - p - 1];
    }
  }

  /** `float()` accepts only a text whose stripped form is a non-empty run of digits,
      signs and points. */
  lemma ScanFloatShape(s: string)
    ensures ScanFloat(s).Some? ==>
      Strip(s) != [] && forall k :: 0 <= k < |Strip(s)| ==> IsLiteralChar(Strip(s)[k])
  {
    var t := Strip(s);
    if t != [] && IsSign(t[0]) {
      ScanUnsignedShape(t[1..]);
      assert forall k :: 1 <= k < |t| ==> t[k] == t[1..][k - 1];
    } else {
      ScanUnsignedShape(t);
    }
  }

  /** `float(s)` for plain decimal literals: the value, or `None` where Python raises
      `ValueError`. */
  function ParseFloat(s: string): (r: Option<real>)
  {
    match ScanFloat(s)
    case None => None
    case Some(x) => Some(DecimalValue(x))
  }

  /** Whitespace around the text does not change what `float()` reads. */
  lemma ParseFloatIgnoresSpace(s: string)
    ensures ParseFloat(Strip(s)) == ParseFloat(s)
  {
    StripIdempotent(s);
  }

  /** A text that is empty or all whitespace is not a number. */
  lemma ParseFloatRejectsBlank(s: string)
    requires forall k :: 0 <= k < |s| ==> IsSpace(s[k])
    ensures ParseFloat(s).None?
  {
    StripEmptyIff(s);
  }

  /** The literal `[-]ip.fp`. */
  function Literal(negative: bool, ip: string, fp: string): (r: string) {
    (if negative then "-" else "") + (ip + "." + fp)
  }

  /** `float()` reads `sign digits . digits` as the number it denotes. */
  lemma ScanFloatLiteral(negative: bool, ip: string, fp: string)
    requires AllDigits(ip) && AllDigits(fp) && |ip| + |fp| >= 1
    ensures ScanFloat(Literal(negative, ip, fp)) ==
            Some(Decimal(negative, DigitsValue(ip), DigitsValue(fp), |fp|))
  {
    var body := ip + "." + fp;
    var s := Literal(negative, ip, fp);
    ScanUnsignedLiteral(ip, fp);
    LiteralUnpadded(negative, ip, fp);
    if negative {
      assert s[1..] == body;
    } else {
      assert s == body;
      assert !IsSign(s[0]) by {
        if ip == [] { assert s[0] == '.'; } else { assert s[0] == ip[0]; }
      }
    }
  }

  lemma ScanUnsignedLiteral(ip: string, fp: string)
    requires AllDigits(ip) && AllDigits(fp) && |ip| + |fp| >= 1
    ensures ScanUnsigned(ip + "." + fp) == Some(Decimal(false, DigitsValue(ip), DigitsValue(fp), |fp|))
  {
    var body := ip + "." + fp;
    assert body[..|ip|] == ip && body[|ip| + 1..] == fp;
    assert IndexOf(body, '.') == |ip| by {
      assert body[|ip|] == '.';
      assert forall k :: 0 <= k < |ip| ==> body[k] == ip[k];
    }
  }

  /** A literal neither starts nor ends with whitespace, so stripping keeps it. */
  lemma LiteralUnpadded(negative: bool, ip: string, fp: string)
    requires AllDigits(ip) && AllDigits(fp)
    ensures Strip(Literal(negative, ip, fp)) == Literal(negative, ip, fp)
  {
    var body := ip + "." + fp;
    var s := Literal(negative, ip, fp);
    assert s[|s| - 1] == body[|body| - 1];
    assert !IsSpace(s[|s| - 1]) by {
      if fp == [] { assert body[|body| - 1] == '.'; } else { assert body[|body| - 1] == fp[|fp| - 1]; }
    }
    assert !IsSpace(s[0]) by {
      if !negative { if ip == [] { assert s[0] == '.'; } else { assert s[0] == ip[0]; } }
    }
    StripUnpadded(s);
  }

  /** What `.2f` writes, `float()` reads back: the number rounded to hundredths. */
  lemma ParseFormatFixed2(x: real)
    ensures ParseFloat(FormatFixed2(x)) == Some(RoundCents(x) as real / 100.0)
  {
    ParseSignedCents(x < 0.0, RoundCents(x));
  }

  lemma ParseSignedCents(negative: bool, c: int)
    requires negative ==> c <= 0
    requires !negative ==> c >= 0
    ensures ParseFloat((if negative then "-" else "") + FixedPoint2(Abs(c))) == Some(c as real / 100.0)
  {
    var s := (if negative then "-" else "") + FixedPoint2(Abs(c));
    ParseSignedFixed(negative, Abs(c));
    SignedCentsValue(negative, c);
    ParseOfScan(s, Decimal(negative, Abs(c) / 100, Abs(c) % 100, 2), c as real / 100.0);
  }

  lemma ParseOfScan(s: string, d: Decimal, v: real)
    requires ScanFloat(s) == Some(d) && DecimalValue(d) == v
    ensures ParseFloat(s) == Some(v)
  {
  }

  lemma ParseSignedFixed(negative: bool, a: nat)
    ensures ScanFloat((if negative then "-" else "") + FixedPoint2(a)) == Some(Decimal(negative, a / 100, a % 100, 2))
  {
    var s := (if negative then "-" else "") + FixedPoint2(a);
    assert s == Literal(negative, IntegerDigits(a), CentDigits(a));
    ScanFloatLiteral(negative, IntegerDigits(a), CentDigits(a));
  }

  lemma SignedCentsValue(negative: bool, c: int)
    requires negative ==> c <= 0
    requires !negative ==> c >= 0
    ensures DecimalValue(Decimal(negative, Abs(c) / 100, Abs(c) % 100, 2)) == c as real / 100.0
  {
    if c == 0 {
      assert Shifted(0, 1) == 0.0;
      assert Shifted(0, 2) == 0.0;
    } else {
      CentsValue(c);
    }
  }
}
