/** `format_number_to_string` and `format_number`: an integer rendering when the
    precision is 0 and fixed-point text otherwise. */
module NumberFormat {
  import opened Numerals

  /** Digits after the point for a non-zero precision: a negative precision is
      taken as if it were omitted, which means 6 for fixed notation (section
      7.21.6.1 of the C standard, which the stream's fixed output follows). */
  function FixedDigits(precision: int32): (p: nat)
    requires precision != 0
    ensures p >= 1
    ensures precision > 0 ==> p == precision as int
    ensures precision < 0 ==> p == 6
  {
    if precision < 0 then 6 else precision as nat
  }

  /** The integer nearest to a non-negative real, ties going to the even
      neighbour (the default rounding of the fixed-point conversion). */
  function RoundHalfEven(x: real): (q: nat)
    requires x >= 0.0
    ensures Abs(q as real - x) <= 0.5
    ensures Abs(q as real - x) == 0.5 ==> q % 2 == 0
  {
    var f := x.Floor;
    var frac := x - f as real;
    if frac < 0.5 then f
    else if frac > 0.5 then f + 1
    else if f % 2 == 0 then f
    else f + 1
  }

  /** `v` is a whole number of units `10^-p`. */
  predicate IsQuantized(v: real, p: nat) {
    Up(v, p).Floor as real == Up(v, p)
  }

  /** `v` is a multiple of `10^-p` nearest to `x`. */
  predicate IsNearestAt(v: real, x: real, p: nat) {
    IsQuantized(v, p) && Abs(v - x) <= Down(0.5, p)
  }

  /** `|x|` rounded to a whole number of units `10^-p`. */
  function RoundedUnits(x: real, p: nat): (q: nat) {
    RoundHalfEven(Up(Abs(x), p))
  }

  /** The fixed-point text of `q` units of `10^-p`, negative when `negative`: a
      minus sign, the whole units, the point, and exactly `p` fraction digits. */
  function UnitsText(negative: bool, q: nat, p: nat): (s: string) {
    (if negative then "-" else "") + NatDigits(WholeUnits(q, p)) + "." + PadDigits(FractionUnits(q, p), p)
  }

  /** The value `q` units of `10^-p` denote, negated when `negative`. */
  function UnitsValue(negative: bool, q: nat, p: nat): real {
    if negative then -Down(q as real, p) else Down(q as real, p)
  }

  /** The text `std::fixed << std::setprecision(p) << x` produces for `p >= 1`. */
  function FixedText(x: real, p: nat): (s: string)
    requires p >= 1
  {
    UnitsText(x < 0.0, RoundedUnits(x, p), p)
  }

  /** The point of `s` is followed by exactly `p` digits. */
  predicate HasFractionDigits(s: string, p: nat) {
    var i := DotIndex(s);
    i < |s| && |s| - i - 1 == p && AllDigits(s[i + 1..])
  }

  /** Between the sign (one character when `negative`) and the point stand one
      or more digits with no leading zero. */
  predicate HasPlainWholePart(s: string, negative: bool) {
    var start, i := if negative then 1 else 0, DotIndex(s);
    start < i <= |s| && AllDigits(s[start..i]) && (i - start > 1 ==> s[start] != '0')
  }

  lemma UnitsTextShape(negative: bool, q: nat, p: nat)
    ensures HasFractionDigits(UnitsText(negative, q, p), p)
    ensures UnitsText(negative, q, p)[0] == '-' <==> negative
  {
    var sign: string := if negative then "-" else "";
    var a := sign + NatDigits(WholeUnits(q, p));
    var b := PadDigits(FractionUnits(q, p), p);
    NatDigitsMeaning(WholeUnits(q, p));
    PadDigitsMeaning(FractionUnits(q, p), p);
    assert UnitsText(negative, q, p) == a + "." + b;
    SignedDotIndex(sign, NatDigits(WholeUnits(q, p)), b);
    assert (a + "." + b)[|a| + 1..] == b;
  }

  lemma UnitsTextWhole(negative: bool, q: nat, p: nat)
    ensures HasPlainWholePart(UnitsText(negative, q, p), negative)
  {
    var sign: string := if negative then "-" else "";
    var w := NatDigits(WholeUnits(q, p));
    var b := PadDigits(FractionUnits(q, p), p);
    NatDigitsMeaning(WholeUnits(q, p));
    assert UnitsText(negative, q, p) == sign + w + "." + b;
    SignedDotIndex(sign, w, b);
    assert (sign + w + "." + b)[|sign|..|sign| + |w|] == w;
  }

  lemma SignedDotIndex(sign: string, whole: seq<char>, b: seq<char>)
    requires sign == "" || sign == "-"
    requires AllDigits(whole)
    ensures DotIndex(sign + whole + "." + b) == |sign| + |whole|
  {
    DotIndexAfterDigits(whole, b);
    if sign == "-" {
      assert (sign + whole + "." + b)[1..] == whole + "." + b;
    } else {
      assert sign + whole + "." + b == whole + "." + b;
    }
  }

  lemma UnsignedUnitsValue(q: nat, p: nat)
    ensures UnsignedValue(UnitsText(false, q, p)) == Some(Down(q as real, p))
  {
    var whole, frac := NatDigits(WholeUnits(q, p)), PadDigits(FractionUnits(q, p), p);
    NatDigitsMeaning(WholeUnits(q, p));
    PadDigitsMeaning(FractionUnits(q, p), p);
    assert UnitsText(false, q, p) == whole + "." + frac;
    UnsignedValueOfPoint(whole, frac);
    DownOfParts(q, p);
    assert PointValue(whole, frac) == Down(q as real, p);
  }

  /** Reading the fixed-point text back gives the value of its units. */
  lemma UnitsTextValue(negative: bool, q: nat, p: nat)
    ensures DecimalValue(UnitsText(negative, q, p)) == Some(UnitsValue(negative, q, p))
  {
    var t := UnitsText(false, q, p);
    UnsignedUnitsValue(q, p);
    if negative {
      assert UnitsText(negative, q, p) == "-" + t;
      assert ("-" + t)[1..] == t;
    }
  }

  lemma UnitsValueIsQuantized(negative: bool, q: nat, p: nat)
    ensures IsQuantized(UnitsValue(negative, q, p), p)
  {
    DownUp(q as real, p);
    UpNegate(Down(q as real, p), p);
    FloorOfInt(q);
    FloorOfInt(-(q as int));
  }

  lemma FloorOfInt(i: int)
    ensures (i as real).Floor == i
  {
  }

  lemma HalfUnitBound(u: real, q: real, p: nat)
    requires Abs(q - u) <= 0.5
    ensures Abs(Down(q, p) - Down(u, p)) <= Down(0.5, p)
  {
    var e := q - u;
    assert -0.5 <= e <= 0.5;
    DownAdditive(q, u, p);
    DownMonotone(e, 0.5, p);
    DownMonotone(-0.5, e, p);
    DownNegate(0.5, p);
  }

  /** The rounded value is a nearest multiple of `10^-p` to `x`. */
  lemma RoundedIsNearest(x: real, p: nat)
    ensures IsNearestAt(UnitsValue(x < 0.0, RoundedUnits(x, p), p), x, p)
  {
    UnitsValueIsQuantized(x < 0.0, RoundedUnits(x, p), p);
    var u := Up(Abs(x), p);
    DownUp(Abs(x), p);
    HalfUnitBound(u, RoundedUnits(x, p) as real, p);
  }

  /** When the value of `s` lies exactly half a unit `10^-p` from `x`, so that
      both neighbours are nearest, the last digit of `s` is even. */
  predicate EvenAtTie(s: string, x: real, p: nat) {
    DecimalValue(s).Some? && Abs(DecimalValue(s).value - x) == Down(0.5, p) ==>
      0 < |s| && IsDigit(s[|s| - 1]) && DigitValue(s[|s| - 1]) % 2 == 0
  }

  lemma {:induction false} FractionUnitsLastDigit(q: nat, k: nat)
    requires k >= 1
    ensures FractionUnits(q, k) % 10 == q % 10
  {
    var m := FractionUnits(q / 10, k - 1);
    assert FractionUnits(q, k) == q % 10 + 10 * m;
  }

  lemma LastDigitParity(q: nat)
    ensures (q % 10) % 2 == q % 2
  {
    var k, r := q / 10, q % 10;
    DivTen(q);
    ShiftByEven(5 * k, r);
    assert q == 2 * (5 * k) + r;
  }

  lemma ShiftByEven(k: nat, r: nat)
    ensures (2 * k + r) % 2 == r % 2
  {
  }

  /** A tie at the scale of `10^-p` is a tie between whole units. */
  lemma TieOfUnits(q: real, u: real, p: nat)
    requires Abs(Down(q, p) - Down(u, p)) == Down(0.5, p)
    ensures Abs(q - u) == 0.5
  {
    var e := q - u;
    DownAdditive(q, u, p);
    DownNegate(e, p);
    DownUp(e, p);
    DownUp(-e, p);
    DownUp(0.5, p);
    if Down(e, p) == Down(0.5, p) {
      assert Up(Down(e, p), p) == Up(Down(0.5, p), p);
    } else {
      assert Up(Down(-e, p), p) == Up(Down(0.5, p), p);
    }
  }

  /** The fixed-point text breaks a tie towards an even last digit. */
  lemma RoundedTieIsEven(x: real, p: nat)
    requires p >= 1
    ensures EvenAtTie(FixedText(x, p), x, p)
  {
    var neg, q, u := x < 0.0, RoundedUnits(x, p), Up(Abs(x), p);
    var s := FixedText(x, p);
    UnitsTextValue(neg, q, p);
    if Abs(UnitsValue(neg, q, p) - x) == Down(0.5, p) {
      DownUp(Abs(x), p);
      assert Abs(Down(q as real, p) - Down(u, p)) == Down(0.5, p);
      TieOfUnits(q as real, u, p);
      var f := FractionUnits(q, p);
      var a := (if neg then "-" else "") + NatDigits(WholeUnits(q, p)) + ".";
      assert s == a + PadDigits(f, p);
      assert PadDigits(f, p) == PadDigits(f / 10, p - 1) + [DigitChar(f % 10)];
      assert s[|s| - 1] == DigitChar(f % 10);
      FractionUnitsLastDigit(q, p);
      LastDigitParity(q);
    }
  }

  /** `format_number_to_string(number, precision)`; the precision defaults to 2. */
  function FormatNumberToString(number: real, precision: int32 := 2): string
    requires precision == 0 ==> CastsToInt32(number)
  {
    if precision == 0 then IntToString(CastToInt32(number) as int)
    else FixedText(number, FixedDigits(precision))
  }

  /** Precision 0 gives the `int` truncation as integer text. Any other
      precision gives fixed-point text with a sign exactly for negative numbers,
      a whole part without leading zeros and the precision's count of fraction
      digits, whose value is a nearest multiple of that many decimal places,
      with an even last digit when the number lies midway between two. */
  lemma FormatNumberToStringMeaning(number: real, precision: int32)
    requires precision == 0 ==> CastsToInt32(number)
    ensures var s := FormatNumberToString(number, precision);
      precision == 0 ==> IsIntegerText(s) && DecimalValue(s) == Some(Trunc(number) as real)
    ensures var s := FormatNumberToString(number, precision);
      precision != 0 ==> HasFractionDigits(s, FixedDigits(precision)) && (s[0] == '-' <==> number < 0.0)
    ensures var s := FormatNumberToString(number, precision);
      precision != 0 ==> HasPlainWholePart(s, number < 0.0)
    ensures var s := FormatNumberToString(number, precision);
      precision != 0 ==> DecimalValue(s).Some? && IsNearestAt(DecimalValue(s).value, number, FixedDigits(precision))
    ensures var s := FormatNumberToString(number, precision);
      precision != 0 ==> EvenAtTie(s, number, FixedDigits(precision))
  {
    if precision == 0 {
      IntToStringShape(CastToInt32(number) as int);
      IntToStringValue(CastToInt32(number) as int);
    } else {
      var p := FixedDigits(precision);
      UnitsTextShape(number < 0.0, RoundedUnits(number, p), p);
      UnitsTextWhole(number < 0.0, RoundedUnits(number, p), p);
      UnitsTextValue(number < 0.0, RoundedUnits(number, p), p);
      RoundedIsNearest(number, p);
      RoundedTieIsEven(number, p);
    }
  }

  /** A character that appears in the formatter's output: a digit, the minus
      sign or the point. */
  predicate IsNumeralChar(c: char) {
    IsDigit(c) || c == '-' || c == '.'
  }

  predicate IsNumeralText(s: string) {
    forall i :: 0 <= i < |s| ==> IsNumeralChar(s[i])
  }

  lemma DigitsAreNumeral(s: string)
    requires AllDigits(s)
    ensures IsNumeralText(s)
  {
  }

  /** The formatter's output holds nothing but digits, a sign and a point. */
  lemma FormatNumberChars(number: real, precision: int32)
    requires precision == 0 ==> CastsToInt32(number)
    ensures IsNumeralText(FormatNumberToString(number, precision))
  {
    var s := FormatNumberToString(number, precision);
    if precision == 0 {
      FormatNumberToStringMeaning(number, precision);
      if s[0] == '-' {
        assert s == [s[0]] + s[1..];
        DigitsAreNumeral(s[1..]);
      } else {
        DigitsAreNumeral(s);
      }
    } else {
      var p := FixedDigits(precision);
      var q := RoundedUnits(number, p);
      var sign: string := if number < 0.0 then "-" else "";
      var whole, fraction := NatDigits(WholeUnits(q, p)), PadDigits(FractionUnits(q, p), p);
      NatDigitsMeaning(WholeUnits(q, p));
      PadDigitsMeaning(FractionUnits(q, p), p);
      assert s == sign + whole + "." + fraction;
      DigitsAreNumeral(whole);
      DigitsAreNumeral(fraction);
    }
  }

  /** `format_number(number, precision)`: the value of the formatted text read
      back with `std::stod`; the precision defaults to 2. */
  function FormatNumber(number: real, precision: int32 := 2): (r: real)
    requires precision == 0 ==> CastsToInt32(number)
    ensures precision == 0 ==> r == Trunc(number) as real
    ensures precision != 0 ==> IsNearestAt(r, number, FixedDigits(precision))
  {
    FormatNumberToStringMeaning(number, precision);
    DecimalValue(FormatNumberToString(number, precision)).value
  }

}
