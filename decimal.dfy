/**
 * Python's `float(text)` restricted to plain decimal numerals: an optional
 * sign, digits, and an optional point followed by digits, with at least one
 * digit in all. Values are exact reals.
 */
module Decimal {
  import opened Wrappers

  predicate IsDigit(c: char) { '0' <= c <= '9' }

  predicate AllDigits(s: string) { forall i :: 0 <= i < |s| ==> IsDigit(s[i]) }

  /** The characters a numeral of this grammar is made of. */
  predicate IsNumeralChar(c: char) { IsDigit(c) || c == '+' || c == '-' || c == '.' }

  function DigitValue(c: char): nat
    requires IsDigit(c)
  {
    c as int - '0' as int
  }

  /** The value of a run of decimal digits, most significant first. */
  function DigitsValue(s: string): nat
    requires AllDigits(s)
    decreases |s|
  {
    if s == [] then 0 else DigitsValue(s[..|s| - 1]) * 10 + DigitValue(s[|s| - 1])
  }

  function Pow10(n: nat): (r: nat)
    ensures r >= 1
  {
    if n == 0 then 1 else 10 * Pow10(n - 1)
  }

  /** The value of the digits after a point: the first digit counts tenths,
      the next hundredths, and so on. */
  function Fraction(f: string): (r: real)
    requires AllDigits(f)
    ensures 0.0 <= r < 1.0
    decreases |f|
  {
    if f == [] then 0.0 else (DigitValue(f[0]) as real + Fraction(f[1..])) / 10.0
  }

  /** The length of the run of digits that starts `s`. */
  function LeadingDigits(s: string): (k: nat)
    ensures k <= |s| && AllDigits(s[..k])
    ensures k < |s| ==> !IsDigit(s[k])
    decreases |s|
  {
    if s != [] && IsDigit(s[0]) then
      var k := 1 + LeadingDigits(s[1..]);
      assert s[..k] == [s[0]] + s[1..][..k - 1];
      k
    else 0
  }

  /** An unsigned numeral: `digits`, `digits.`, `.digits` or `digits.digits`. */
  function ParseUnsigned(s: string): (r: Option<real>)
    ensures r.Some? ==> r.value >= 0.0 && s != []
    ensures r.Some? ==> forall i :: 0 <= i < |s| ==> IsDigit(s[i]) || s[i] == '.'
  {
    var k := LeadingDigits(s);
    var whole := DigitsValue(s[..k]) as real;
    if k == |s| then
      if k > 0 then Some(whole) else None
    else if s[k] == '.' && AllDigits(s[k + 1..]) && (k > 0 || k + 1 < |s|) then
      var frac := s[k + 1..];
      assert forall i :: k + 1 <= i < |s| ==> s[i] == frac[i - k - 1];
      Some(whole + Fraction(frac))
    else None
  }

  /** `float(s)` for a string with no surrounding white space. */
  function ParseDecimal(s: string): (r: Option<real>)
    ensures r.Some? ==> s != [] && forall i :: 0 <= i < |s| ==> IsNumeralChar(s[i])
    ensures r.Some? && r.value < 0.0 ==> s[0] == '-'
  {
    if s != [] && (s[0] == '+' || s[0] == '-') then
      match ParseUnsigned(s[1..])
      case None => None
      case Some(v) => Some(if s[0] == '-' then -v else v)
    else ParseUnsigned(s)
  }

  /** The decimal rendering of a natural number, without leading zeros. */
  function NatToDigits(n: nat): (s: string)
    ensures s != [] && AllDigits(s) && DigitsValue(s) == n
    decreases n
  {
    var d := ['0' + (n % 10) as char];
    if n < 10 then d
    else
      var s := NatToDigits(n / 10) + d;
      assert s[..|s| - 1] == NatToDigits(n / 10);
      s
  }

  /** A string made only of digits is read back as its digit value. */
  lemma {:induction false} ParseDigits(s: string)
    requires s != [] && AllDigits(s)
    ensures ParseDecimal(s) == Some(DigitsValue(s) as real)
  {
    assert LeadingDigits(s) == |s|;
    assert s[..|s|] == s;
  }

  /** Rendering a natural number and parsing it back gives the number. */
  lemma RenderThenParse(n: nat)
    ensures ParseDecimal(NatToDigits(n)) == Some(n as real)
  {
    ParseDigits(NatToDigits(n));
  }

  /** A minus sign in front of a rendered number negates it. */
  lemma RenderNegativeThenParse(n: nat)
    ensures ParseDecimal("-" + NatToDigits(n)) == Some(-(n as real))
  {
    var s := "-" + NatToDigits(n);
    assert s[1..] == NatToDigits(n);
    ParseDigits(NatToDigits(n));
  }

  /** The numeral with sign `sign` ("", "+" or "-"), whole digits `d` and,
      when `point` holds, a point followed by the fraction digits `f`. */
  function Numeral(sign: string, d: string, point: bool, f: string): string
  {
    sign + d + (if point then "." + f else "")
  }

  /** The shapes the grammar admits: at least one digit, and fraction digits
      only after a point. */
  predicate WellFormed(sign: string, d: string, point: bool, f: string)
  {
    (sign == "" || sign == "+" || sign == "-") &&
    AllDigits(d) && AllDigits(f) && (point || f == []) && |d| + |f| > 0
  }

  /** The value a numeral denotes: whole part plus fraction, negated by a minus. */
  function NumeralValue(sign: string, d: string, f: string): real
    requires AllDigits(d) && AllDigits(f)
  {
    var v := DigitsValue(d) as real + Fraction(f);
    if sign == "-" then -v else v
  }

  /** The run of leading digits of `d + rest` is `d` when `rest` does not start with a digit. */
  lemma {:induction false} LeadingDigitsOf(d: string, rest: string)
    requires AllDigits(d) && (rest == [] || !IsDigit(rest[0]))
    ensures LeadingDigits(d + rest) == |d|
    decreases |d|
  {
    if d != [] {
      assert (d + rest)[1..] == d[1..] + rest;
      LeadingDigitsOf(d[1..], rest);
    }
  }

  /** An unsigned numeral without a point is read as its digits. */
  lemma UnsignedWhole(d: string)
    requires d != [] && AllDigits(d)
    ensures ParseUnsigned(d) == Some(DigitsValue(d) as real)
  {
    LeadingDigitsOf(d, "");
    assert d + "" == d && d[..|d|] == d;
  }

  /** How `d + "." + f` splits: the digit run is `d`, then the point, then `f`. */
  lemma PointShape(d: string, f: string)
    requires AllDigits(d) && AllDigits(f) && |d| + |f| > 0
    ensures var u := d + ("." + f);
      LeadingDigits(u) == |d| && |d| < |u| && u[|d|] == '.' && u[..|d|] == d && u[|d| + 1..] == f &&
      (|d| > 0 || |d| + 1 < |u|)
  {
    var u := d + ("." + f);
    assert u[..|d|] == d;
    assert u[|d| + 1..] == f;
    LeadingDigitsOf(d, "." + f);
  }

  /** An unsigned numeral with a point is read as whole part plus fraction. */
  lemma UnsignedWithPoint(d: string, f: string)
    requires AllDigits(d) && AllDigits(f) && |d| + |f| > 0
    ensures ParseUnsigned(d + ("." + f)) == Some(DigitsValue(d) as real + Fraction(f))
  {
    PointShape(d, f);
    UnsignedPointValue(d + ("." + f), d, f);
  }

  /** The point branch, read back in terms of the two digit runs. */
  lemma UnsignedPointValue(u: string, d: string, f: string)
    requires AllDigits(d) && AllDigits(f)
    requires LeadingDigits(u) == |d| && |d| < |u| && u[|d|] == '.' && u[..|d|] == d && u[|d| + 1..] == f
    requires |d| > 0 || |d| + 1 < |u|
    ensures ParseUnsigned(u) == Some(DigitsValue(d) as real + Fraction(f))
  {
    UnsignedSplit(u, |d|);
  }

  /** The point branch of the unsigned grammar. */
  lemma UnsignedSplit(u: string, k: nat)
    requires k == LeadingDigits(u) && k < |u| && u[k] == '.' && AllDigits(u[k + 1..]) && (k > 0 || k + 1 < |u|)
    ensures ParseUnsigned(u) == Some(DigitsValue(u[..k]) as real + Fraction(u[k + 1..]))
  {
  }

  /** The sign step of the grammar: an optional leading sign, then an
      unsigned numeral `u` worth `v`. */
  lemma SignedValue(s: string, sign: string, u: string, v: real)
    requires ParseUnsigned(u) == Some(v)
    requires sign == "" ==> s == u && u != [] && u[0] != '+' && u[0] != '-'
    requires sign != "" ==> (sign == "+" || sign == "-") && s != [] && s[0] == sign[0] && s[1..] == u
    ensures ParseDecimal(s) == Some(if sign == "-" then -v else v)
  {
  }

  /** How a signed numeral splits into its sign and its unsigned part. */
  lemma SignShape(sign: string, u: string)
    requires sign == "" || sign == "+" || sign == "-"
    ensures sign != "" ==> (sign + u) != [] && (sign + u)[0] == sign[0] && (sign + u)[1..] == u
    ensures sign == "" ==> sign + u == u
  {
  }

  /** The unsigned part of a well-formed numeral is read as its value. */
  lemma UnsignedNumeral(d: string, point: bool, f: string)
    requires AllDigits(d) && AllDigits(f) && (point || f == []) && |d| + |f| > 0
    ensures ParseUnsigned(d + (if point then "." + f else "")) == Some(DigitsValue(d) as real + Fraction(f))
  {
    if point {
      UnsignedWithPoint(d, f);
    } else {
      assert d + "" == d;
      UnsignedWhole(d);
    }
  }

  /** The unsigned part of a well-formed numeral does not start with a sign. */
  lemma UnsignedStart(d: string, point: bool, f: string)
    requires AllDigits(d) && (point || d != [])
    ensures var u := d + (if point then "." + f else "");
      u != [] && u[0] != '+' && u[0] != '-'
  {
    var u := d + (if point then "." + f else "");
    assert u[0] == (if d != [] then d[0] else '.');
  }

  /** A signed numeral: a sign followed by an unsigned numeral worth `v`. */
  lemma SignedNumeral(n: string, sign: string, u: string, v: real)
    requires sign == "" || sign == "+" || sign == "-"
    requires n == sign + u
    requires ParseUnsigned(u) == Some(v) && u != [] && u[0] != '+' && u[0] != '-'
    ensures ParseDecimal(n) == Some(if sign == "-" then -v else v)
  {
    SignShape(sign, u);
    SignedValue(n, sign, u, v);
  }

  /** A numeral is its sign followed by its unsigned part. */
  lemma NumeralSplit(sign: string, d: string, point: bool, f: string)
    ensures Numeral(sign, d, point, f) == sign + (d + (if point then "." + f else ""))
  {
  }

  /** Every well-formed numeral is accepted, with the value it denotes. */
  lemma ParseNumeral(sign: string, d: string, point: bool, f: string)
    requires WellFormed(sign, d, point, f)
    ensures ParseDecimal(Numeral(sign, d, point, f)) == Some(NumeralValue(sign, d, f))
  {
    var u := d + (if point then "." + f else "");
    var v := DigitsValue(d) as real + Fraction(f);
    assert ParseUnsigned(u) == Some(v) && u != [] && u[0] != '+' && u[0] != '-' by {
      UnsignedNumeral(d, point, f);
      UnsignedStart(d, point, f);
    }
    NumeralSplit(sign, d, point, f);
    SignedNumeral(Numeral(sign, d, point, f), sign, u, v);
    assert NumeralValue(sign, d, f) == (if sign == "-" then -v else v);
  }

  /** The sign a text starts with, if any. */
  function SignOf(s: string): string
  {
    if s != [] && (s[0] == '+' || s[0] == '-') then s[..1] else ""
  }

  /** An accepted unsigned text is a well-formed unsigned numeral. */
  lemma UnsignedIsNumeral(u: string)
    requires ParseUnsigned(u).Some?
    ensures exists d, point, f :: WellFormed("", d, point, f) && u == Numeral("", d, point, f)
  {
    var k := LeadingDigits(u);
    var d := u[..k];
    if k == |u| {
      assert u == Numeral("", d, false, "");
      assert WellFormed("", d, false, "");
    } else {
      var f := u[k + 1..];
      assert u == Numeral("", d, true, f);
      assert WellFormed("", d, true, f);
    }
  }

  /** A text that is a well-formed numeral is accepted with that numeral's value. */
  lemma WellFormedAccepted(s: string)
    ensures forall sign, d, point, f :: WellFormed(sign, d, point, f) && s == Numeral(sign, d, point, f) ==>
              ParseDecimal(s) == Some(NumeralValue(sign, d, f))
  {
    forall sign, d, point, f | WellFormed(sign, d, point, f) && s == Numeral(sign, d, point, f)
      ensures ParseDecimal(s) == Some(NumeralValue(sign, d, f))
    {
      ParseNumeral(sign, d, point, f);
    }
  }

  /** Conversely, every accepted text is a well-formed numeral, read as its value. */
  lemma ParsedIsNumeral(s: string)
    requires ParseDecimal(s).Some?
    ensures exists sign, d, point, f :: WellFormed(sign, d, point, f) && s == Numeral(sign, d, point, f) &&
              ParseDecimal(s) == Some(NumeralValue(sign, d, f))
  {
    var sign := SignOf(s);
    var u := s[|sign|..];
    assert s == sign + u;
    assert ParseUnsigned(u).Some?;
    UnsignedIsNumeral(u);
    var d, point, f :| WellFormed("", d, point, f) && u == Numeral("", d, point, f);
    assert s == Numeral(sign, d, point, f);
    ParseNumeral(sign, d, point, f);
  }

  /** The grammar rejects exponents, `inf`, `nan` and digit-group underscores,
      all of which Python's `float` would accept. */
  lemma ExcludedForms()
    ensures ParseDecimal("1e3") == None
    ensures ParseDecimal("inf") == None
    ensures ParseDecimal("nan") == None
    ensures ParseDecimal("1_000") == None
  {
    assert !IsNumeralChar('e') && "1e3"[1] == 'e';
    assert !IsNumeralChar('i') && "inf"[0] == 'i';
    assert !IsNumeralChar('n') && "nan"[0] == 'n';
    assert !IsNumeralChar('_') && "1_000"[1] == '_';
  }

  /** Worked examples of the accepted forms. */
  lemma AcceptedWhole()
    ensures ParseDecimal("3000") == Some(3000.0)
  {
    ParseDigits("3000");
    assert "3000"[..3] == "300" && "300"[..2] == "30" && "30"[..1] == "3";
  }

  lemma AcceptedFraction()
    ensures ParseDecimal("23.50") == Some(23.5)
  {
    assert DigitsValue("50") == 50;
  }

  /** Either side of the point may be empty, but not both. */
  lemma AcceptedBarePoint()
    ensures ParseDecimal(".5") == Some(0.5)
    ensures ParseDecimal("7.") == Some(7.0)
  {
  }

  lemma AcceptedNegative()
    ensures ParseDecimal("-500") == Some(-500.0)
  {
    assert "-500"[1..] == "500";
    ParseDigits("500");
    assert "500"[..2] == "50" && "50"[..1] == "5";
  }

  lemma RejectedBare()
    ensures ParseDecimal(".") == None
    ensures ParseDecimal("") == None
    ensures ParseDecimal("-") == None
  {
  }
}
