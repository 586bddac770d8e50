/** Integers of the C++ `int` width, truncation of a real toward zero (`std::modf`
    and the `(int)` cast), decimal digit text (`std::to_string(int)` and the digit
    strings of fixed-point output), and a reader for plain decimal text (the part
    of `std::stod` that the formatter's own output needs). */
module Numerals {

  /** The C++ `int` of the platforms the library targets. */
  newtype int32 = x: int | -0x8000_0000 <= x < 0x8000_0000

  datatype Option<T> = None | Some(value: T)

  function Abs(x: real): (r: real)
    ensures r >= 0.0 && (r == x || r == -x)
  {
    if x < 0.0 then -x else x
  }

  function Pow10(k: nat): (r: nat)
    ensures r >= 1
  {
    if k == 0 then 1 else 10 * Pow10(k - 1)
  }

  /** The integral part that `std::modf` stores: `x` with its fraction
      discarded, rounding toward zero. */
  function Trunc(x: real): (r: int)
    ensures 0.0 <= x ==> r as real <= x < r as real + 1.0
    ensures x < 0.0 ==> r as real - 1.0 < x <= r as real
  {
    if x >= 0.0 then x.Floor else -((-x).Floor)
  }

  predicate FitsInt32(i: int) {
    -0x8000_0000 <= i < 0x8000_0000
  }

  /** The conversion `(int)x` of a double is defined exactly when the
      truncated value is representable. */
  predicate CastsToInt32(x: real) {
    FitsInt32(Trunc(x))
  }

  /** `(int)x` / `static_cast<int>(x)`: truncation toward zero. */
  function CastToInt32(x: real): (r: int32)
    requires CastsToInt32(x)
    ensures Abs(r as real) <= Abs(x) < Abs(r as real) + 1.0
    ensures r == 0 || (r < 0 <==> x < 0.0)
  {
    Trunc(x) as int32
  }

  // ---------------------------------------------------------------- digits

  predicate IsDigit(c: char) {
    '0' <= c <= '9'
  }

  predicate AllDigits(s: seq<char>) {
    forall i :: 0 <= i < |s| ==> IsDigit(s[i])
  }

  function DigitValue(c: char): (d: nat)
    requires IsDigit(c)
    ensures d < 10
  {
    c as int - '0' as int
  }

  function DigitChar(d: nat): (c: char)
    requires d < 10
    ensures IsDigit(c) && DigitValue(c) == d
  {
    (d + '0' as int) as char
  }

  /** The number a string of decimal digits denotes (most significant first). */
  function DigitsValue(s: seq<char>): (n: nat)
    requires AllDigits(s)
    ensures n < Pow10(|s|)
  {
    if s == [] then 0 else DigitsValue(s[..|s| - 1]) * 10 + DigitValue(s[|s| - 1])
  }

  lemma DigitsValueAppend(s: seq<char>, c: char)
    requires AllDigits(s) && IsDigit(c)
    ensures AllDigits(s + [c])
    ensures DigitsValue(s + [c]) == DigitsValue(s) * 10 + DigitValue(c)
  {
    assert (s + [c])[..|s|] == s;
  }

  /** The shortest decimal text of `n`, most significant digit first. */
  function NatDigits(n: nat): (s: seq<char>)
    ensures |s| >= 1 && IsDigit(s[0])
    decreases n
  {
    if n < 10 then [DigitChar(n)] else NatDigits(n / 10) + [DigitChar(n % 10)]
  }

  /** The text of `NatDigits(n)` is digits denoting `n`, without a leading zero. */
  lemma {:induction false} NatDigitsMeaning(n: nat)
    ensures AllDigits(NatDigits(n)) && DigitsValue(NatDigits(n)) == n
    ensures |NatDigits(n)| > 1 ==> NatDigits(n)[0] != '0'
    decreases n
  {
    if n >= 10 {
      var hi := NatDigits(n / 10);
      NatDigitsMeaning(n / 10);
      DigitsValueAppend(hi, DigitChar(n % 10));
      if n / 10 < 10 {
        assert DigitValue(hi[0]) == n / 10;
      }
    }
  }

  /** The last `width` decimal digits of `n`, with leading zeros: the fraction
      digits of fixed-point output. */
  function PadDigits(n: nat, width: nat): (s: seq<char>)
    ensures |s| == width
  {
    if width == 0 then [] else PadDigits(n / 10, width - 1) + [DigitChar(n % 10)]
  }

  /** When `n` has at most `width` digits, `PadDigits(n, width)` denotes `n`. */
  lemma {:induction false} PadDigitsMeaning(n: nat, width: nat)
    requires n < Pow10(width)
    ensures AllDigits(PadDigits(n, width)) && DigitsValue(PadDigits(n, width)) == n
  {
    if width > 0 {
      PadDigitsMeaning(n / 10, width - 1);
      DigitsValueAppend(PadDigits(n / 10, width - 1), DigitChar(n % 10));
    }
  }

  /** The text `std::to_string(int)` produces: an optional minus sign, then
      digits without a leading zero. */
  predicate IsIntegerText(s: seq<char>) {
    |s| >= 1 &&
    (s[0] == '-' ==> |s| >= 2 && AllDigits(s[1..]) && (|s| > 2 ==> s[1] != '0') && s[1..] != "0") &&
    (s[0] != '-' ==> AllDigits(s) && (|s| > 1 ==> s[0] != '0'))
  }

  /** `std::to_string(i)` for an `int`. */
  function IntToString(i: int): (s: seq<char>)
    ensures |s| >= 1 && (s[0] == '-' <==> i < 0)
  {
    if i < 0 then "-" + NatDigits(-i) else NatDigits(i)
  }

  /** `std::to_string(i)` is integer text with no point. */
  lemma IntToStringShape(i: int)
    ensures IsIntegerText(IntToString(i)) && '.' !in IntToString(i)
  {
    var n := if i < 0 then -i else i;
    NatDigitsMeaning(n);
    if i < 0 {
      assert IntToString(i)[1..] == NatDigits(n);
    }
  }

  // ------------------------------------------------------- reading decimals

  /** Index of the first '.' in `s`, or `|s|` when there is none. */
  function DotIndex(s: seq<char>): (i: nat)
    ensures i <= |s|
    ensures i < |s| ==> s[i] == '.'
  {
    if s == [] || s[0] == '.' then 0 else 1 + DotIndex(s[1..])
  }

  /** `r` times ten to the power `k`. */
  function Up(r: real, k: nat): (u: real)
    ensures r >= 0.0 ==> u >= 0.0
  {
    if k == 0 then r else Up(r, k - 1) * 10.0
  }

  /** `r` times ten to the power `-k`. */
  function Down(r: real, k: nat): real {
    if k == 0 then r else Down(r, k - 1) / 10.0
  }

  lemma {:induction false} DownUp(r: real, k: nat)
    ensures Down(Up(r, k), k) == r && Up(Down(r, k), k) == r
  {
    if k > 0 {
      DownUp(r, k - 1);
      ScaleByTen(Up(r, k - 1), k - 1);
      ScaleByTen(Down(r, k - 1), k - 1);
    }
  }

  lemma {:induction false} ScaleByTen(c: real, k: nat)
    ensures Down(c * 10.0, k) == Down(c, k) * 10.0
    ensures Up(c / 10.0, k) == Up(c, k) / 10.0
  {
    if k > 0 {
      ScaleByTen(c, k - 1);
    }
  }

  /** `Down` distributes over sums and differences. */
  lemma {:induction false} DownAdditive(a: real, b: real, k: nat)
    ensures Down(a + b, k) == Down(a, k) + Down(b, k)
    ensures Down(a - b, k) == Down(a, k) - Down(b, k)
  {
    if k > 0 {
      DownAdditive(a, b, k - 1);
    }
  }

  lemma {:induction false} DownMonotone(a: real, b: real, k: nat)
    requires a <= b
    ensures Down(a, k) <= Down(b, k)
  {
    if k > 0 {
      DownMonotone(a, b, k - 1);
    }
  }

  lemma {:induction false} DownNegate(a: real, k: nat)
    ensures Down(-a, k) == -Down(a, k)
  {
    if k > 0 {
      DownNegate(a, k - 1);
    }
  }

  lemma {:induction false} UpNegate(a: real, k: nat)
    ensures Up(-a, k) == -Up(a, k)
  {
    if k > 0 {
      UpNegate(a, k - 1);
    }
  }

  lemma {:induction false} UpOfNat(n: nat, k: nat)
    ensures Up(n as real, k) == (n * Pow10(k)) as real
  {
    if k > 0 {
      UpOfNat(n, k - 1);
      assert n * Pow10(k) == n * Pow10(k - 1) * 10;
    }
  }

  /** The count of whole units in `q` units of `10^-k`: `q` with its last `k`
      digits dropped. */
  function WholeUnits(q: nat, k: nat): nat {
    if k == 0 then q else WholeUnits(q / 10, k - 1)
  }

  /** The units of `10^-k` left over in `q` after the whole units: the last `k`
      digits of `q`. */
  function FractionUnits(q: nat, k: nat): (r: nat)
    ensures r < Pow10(k)
  {
    if k == 0 then 0 else q % 10 + 10 * FractionUnits(q / 10, k - 1)
  }

  /** Whole units and the rest make up the count. */
  lemma {:induction false} UnitsSplit(q: nat, k: nat)
    ensures q == WholeUnits(q, k) * Pow10(k) + FractionUnits(q, k)
  {
    if k > 0 {
      var w, P, f := WholeUnits(q / 10, k - 1), Pow10(k - 1), FractionUnits(q / 10, k - 1);
      UnitsSplit(q / 10, k - 1);
      assert q / 10 == w * P + f;
      DivTen(q);
      assert q == 10 * (w * P) + 10 * f + q % 10;
      MulTen(w, P);
      assert WholeUnits(q, k) == w && Pow10(k) == 10 * P;
      assert WholeUnits(q, k) * Pow10(k) == 10 * (w * P);
      assert FractionUnits(q, k) == q % 10 + 10 * f;
    }
  }

  lemma DivTen(q: nat)
    ensures q == 10 * (q / 10) + q % 10
  {
  }

  lemma MulTen(w: nat, P: nat)
    ensures w * (10 * P) == 10 * (w * P)
  {
  }

  /** Splitting a count of `10^-k` units into whole units and the rest. */
  lemma DownOfParts(q: nat, k: nat)
    ensures Down(q as real, k) == WholeUnits(q, k) as real + Down(FractionUnits(q, k) as real, k)
  {
    var a, b := WholeUnits(q, k), FractionUnits(q, k);
    UnitsSplit(q, k);
    UpOfNat(a, k);
    assert Up(a as real, k) + b as real == q as real;
    DownOfSum(q as real, a as real, b as real, k);
  }

  lemma DownOfSum(q: real, a: real, b: real, k: nat)
    requires Up(a, k) + b == q
    ensures Down(q, k) == a + Down(b, k)
  {
    DownUp(a, k);
    DownAdditive(Up(a, k), b, k);
  }

  /** Value of the text `whole '.' fraction`. */
  function PointValue(whole: seq<char>, fraction: seq<char>): real
    requires AllDigits(whole) && AllDigits(fraction)
  {
    DigitsValue(whole) as real + Down(DigitsValue(fraction) as real, |fraction|)
  }

  /** Value of unsigned decimal text `digits [ '.' digits ]`; None for any
      other text. */
  function UnsignedValue(t: seq<char>): Option<real> {
    var i := DotIndex(t);
    if i == 0 || !AllDigits(t[..i]) then None
    else if i == |t| then Some(DigitsValue(t[..i]) as real)
    else if !AllDigits(t[i + 1..]) then None
    else Some(PointValue(t[..i], t[i + 1..]))
  }

  /** Value of plain decimal text `[ '-' ] digits [ '.' digits ]`, read exactly;
      None for any other text. */
  function DecimalValue(s: seq<char>): Option<real> {
    if |s| > 0 && s[0] == '-' then
      match UnsignedValue(s[1..])
      case Some(v) => Some(-v)
      case None => None
    else
      UnsignedValue(s)
  }

  lemma UnsignedValueOfDigits(a: seq<char>)
    requires |a| >= 1 && AllDigits(a)
    ensures UnsignedValue(a) == Some(DigitsValue(a) as real)
  {
    assert a[..|a|] == a;
  }

  lemma UnsignedValueOfPoint(a: seq<char>, b: seq<char>)
    requires |a| >= 1 && AllDigits(a) && AllDigits(b)
    ensures UnsignedValue(a + "." + b) == Some(PointValue(a, b))
  {
    DotIndexAfterDigits(a, b);
    PointSlices(a, b);
  }

  lemma PointSlices(a: seq<char>, b: seq<char>)
    ensures (a + "." + b)[..|a|] == a && (a + "." + b)[|a| + 1..] == b
  {
  }

  lemma {:induction false} DotIndexAfterDigits(a: seq<char>, b: seq<char>)
    requires AllDigits(a)
    ensures DotIndex(a + "." + b) == |a|
  {
    if a != [] {
      assert (a + "." + b)[1..] == a[1..] + "." + b;
      DotIndexAfterDigits(a[1..], b);
    }
  }

  /** Reading back `std::to_string(i)` gives `i`. */
  lemma {:induction false} IntToStringValue(i: int)
    ensures DecimalValue(IntToString(i)) == Some(i as real)
  {
    var s := IntToString(i);
    if i < 0 {
      NatDigitsMeaning(-i);
      assert s[1..] == NatDigits(-i);
      UnsignedValueOfDigits(NatDigits(-i));
    } else {
      NatDigitsMeaning(i);
      UnsignedValueOfDigits(NatDigits(i));
    }
  }

  /** Two integers with the same `std::to_string` text are equal. */
  lemma IntToStringInjective(i: int, j: int)
    requires IntToString(i) == IntToString(j)
    ensures i == j
  {
    IntToStringValue(i);
    IntToStringValue(j);
  }
}
