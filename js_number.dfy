/** The numbers a Food record carries (`rating`), as finite decimals, with the two
    JavaScript operations the front end applies to them: reading the value
    (FoodCard floors it) and `Number.prototype.toString` (the edit form copies the
    rating into a text field). */
module JsNumber {
  import opened JsText

  type Digit = d: nat | d < 10

  /** A finite decimal number: sign, integer part and fraction digits
      (`Decimal(false, 4, [5])` is 4.5). */
  datatype Decimal = Decimal(negative: bool, units: nat, fraction: seq<Digit>)

  predicate AllZero(f: seq<Digit>) {
    forall i | 0 <= i < |f| :: f[i] == 0
  }

  /** The value of the digits after the decimal point, 0.f0f1f2... */
  function FractionValue(f: seq<Digit>): (r: real)
    ensures 0.0 <= r < 1.0
    ensures r == 0.0 <==> AllZero(f)
  {
    if f == [] then 0.0
    else
      var rest := FractionValue(f[1..]);
      assert AllZero(f) <==> f[0] == 0 && AllZero(f[1..]) by {
        if f[0] == 0 && AllZero(f[1..]) {
          forall i | 0 <= i < |f| ensures f[i] == 0 {
            if i > 0 { assert f[i] == f[1..][i - 1]; }
          }
        }
      }
      (f[0] as real + rest) / 10.0
  }

  /** The real number a Decimal stands for; its magnitude lies in
      [units, units + 1). */
  function Value(d: Decimal): (r: real)
    ensures d.units as real <= (if d.negative then -r else r) < d.units as real + 1.0
    ensures r == 0.0 <==> d.units == 0 && AllZero(d.fraction)
  {
    var m := d.units as real + FractionValue(d.fraction);
    if d.negative then -m else m
  }

  /** `Math.floor` of a Decimal: the integer part for a non-negative number, one
      below the negated integer part for a negative number with a fraction. */
  lemma FloorOfValue(d: Decimal)
    ensures Value(d).Floor == if !d.negative then d.units as int
                              else -(d.units as int) - (if AllZero(d.fraction) then 0 else 1)
  {
    var f := FractionValue(d.fraction);
    if !d.negative {
      assert Value(d) == d.units as real + f;
    } else if AllZero(d.fraction) {
      assert Value(d) == -(d.units as real);
    } else {
      assert Value(d) == -(d.units as real) - f && 0.0 < f < 1.0;
    }
  }

  /** Appending zero digits to a fraction does not change its value. */
  lemma {:induction false} TrailingZerosAddNothing(f: seq<Digit>, z: seq<Digit>)
    requires AllZero(z)
    ensures FractionValue(f + z) == FractionValue(f)
  {
    if f != [] {
      assert (f + z)[0] == f[0] && (f + z)[1..] == f[1..] + z;
      TrailingZerosAddNothing(f[1..], z);
    }
  }

  /** The fraction without its trailing zeros. */
  function TrimTrailingZeros(f: seq<Digit>): (r: seq<Digit>)
    ensures |r| <= |f| && r == f[..|r|] && AllZero(f[|r|..])
    ensures r == [] || r[|r| - 1] != 0
  {
    if f != [] && f[|f| - 1] == 0 then
      var r := TrimTrailingZeros(f[..|f| - 1]);
      assert f[|r|..] == f[..|f| - 1][|r|..] + [0];
      r
    else
      f
  }

  /** Dropping trailing zeros keeps the value of a fraction. */
  lemma TrimTrailingZerosKeepsValue(f: seq<Digit>)
    ensures FractionValue(TrimTrailingZeros(f)) == FractionValue(f)
  {
    var r := TrimTrailingZeros(f);
    assert f == r + f[|r|..];
    TrailingZerosAddNothing(r, f[|r|..]);
  }

  function DigitChar(n: Digit): (c: char)
    ensures IsDecimalDigit(c)
  {
    (48 + n) as char
  }

  /** The digit a character stands for (0 for a character that is not a digit). */
  function DigitOf(c: char): (n: Digit)
    ensures IsDecimalDigit(c) ==> DigitChar(n) == c
  {
    if IsDecimalDigit(c) then (c as int - 48) else 0
  }

  /** The decimal digits of a natural number, without leading zeros. */
  function NatText(n: nat): (r: string)
    ensures IsDecimalDigits(r)
    ensures |r| > 1 ==> r[0] != '0'
  {
    if n < 10 then [DigitChar(n)]
    else NatText(n / 10) + [DigitChar(n % 10)]
  }

  /** The value of a string of decimal digits, most significant first. */
  function DigitsValue(s: string): nat {
    if s == [] then 0 else 10 * DigitsValue(s[..|s| - 1]) + DigitOf(s[|s| - 1])
  }

  lemma {:induction false} NatTextValue(n: nat)
    ensures DigitsValue(NatText(n)) == n
  {
    var r := NatText(n);
    if n >= 10 {
      NatTextValue(n / 10);
      assert r[..|r| - 1] == NatText(n / 10);
    }
  }

  /** The characters of a sequence of digits. */
  function FractionText(f: seq<Digit>): (r: string)
    ensures |r| == |f| && AllDecimal(r)
    ensures forall i | 0 <= i < |f| :: r[i] == DigitChar(f[i])
  {
    seq(|f|, i requires 0 <= i < |f| => DigitChar(f[i]))
  }

  /** The value of the digits after a decimal point, read from text. */
  function FractionTextValue(s: string): real {
    if s == [] then 0.0 else (DigitOf(s[0]) as real + FractionTextValue(s[1..])) / 10.0
  }

  lemma {:induction false} FractionTextRoundTrip(f: seq<Digit>)
    ensures FractionTextValue(FractionText(f)) == FractionValue(f)
  {
    if f != [] {
      var t := FractionText(f);
      assert t[1..] == FractionText(f[1..]);
      assert DigitOf(t[0]) == f[0];
      FractionTextRoundTrip(f[1..]);
    }
  }

  /** `x.toString()` for a finite decimal: "0" for zero (also negative zero),
      otherwise an optional minus sign, the integer digits and, when the fraction
      is not zero, a point and the fraction digits without trailing zeros. */
  function NumberText(d: Decimal): (r: string)
    ensures r != [] && JsNumeric(r)
  {
    if d.units == 0 && AllZero(d.fraction) then
      assert IsDecimalDigits("0") && AllDecimal("");
      DecimalLiteralIsNumeric(false, "0", "");
      assert DecimalLiteral(false, "0", "") == "0";
      "0"
    else
      DecimalLiteralIsNumeric(d.negative, NatText(d.units), FractionText(TrimTrailingZeros(d.fraction)));
      DecimalLiteral(d.negative, NatText(d.units), FractionText(TrimTrailingZeros(d.fraction)))
  }

  /** What `Number(t)` gives for a numeral `t` of the form `[-]digits[.digits]`:
      split at the sign and at the decimal point and read both parts. */
  function NumeralValue(t: string): real {
    if t != [] && t[0] == '-' then -UnsignedNumeralValue(t[1..]) else UnsignedNumeralValue(t)
  }

  /** What `Number(u)` gives for an unsigned numeral `digits[.digits]`. */
  function UnsignedNumeralValue(u: string): real {
    var k := IndexOfAny(u, {'.'});
    DigitsValue(u[..k]) as real + (if k < |u| then FractionTextValue(u[k + 1..]) else 0.0)
  }

  /** Where the decimal point of an unsigned numeral `whole[.frac]` is found. */
  lemma {:induction false} PointOfLiteral(whole: string, frac: string)
    requires IsDecimalDigits(whole) && AllDecimal(frac)
    ensures var u := DecimalLiteral(false, whole, frac);
            var k := IndexOfAny(u, {'.'});
            && u[..k] == whole
            && (if frac == [] then k == |u| else k < |u| && u[k + 1..] == frac)
  {
    var u := DecimalLiteral(false, whole, frac);
    assert u == whole + (if frac == [] then "" else "." + frac);
    assert forall i | 0 <= i < |whole| :: u[i] == whole[i];
    if frac == [] {
      IndexOfAnyAt(u, {'.'}, |u|);
      assert u[..|u|] == whole;
    } else {
      IndexOfAnyAt(u, {'.'}, |whole|);
      assert u[..|whole|] == whole;
      assert u[|whole| + 1..] == frac;
    }
  }

  /** Reading a numeral back splits it into the parts it was built from. */
  lemma {:induction false} NumeralValueOfLiteral(negative: bool, whole: string, frac: string)
    requires IsDecimalDigits(whole) && AllDecimal(frac)
    ensures var m := DigitsValue(whole) as real + FractionTextValue(frac);
            NumeralValue(DecimalLiteral(negative, whole, frac)) == if negative then -m else m
  {
    var t := DecimalLiteral(negative, whole, frac);
    var u := DecimalLiteral(false, whole, frac);
    DecimalLiteralShape(negative, whole, frac);
    PointOfLiteral(whole, frac);
    assert UnsignedNumeralValue(u) == DigitsValue(whole) as real + FractionTextValue(frac);
    if negative {
      assert t[0] == '-' && t[1..] == u;
    } else {
      assert t == u && t[0] != '-';
    }
  }

  /** `Number(x.toString())` gives back `x`: the text the edit form shows for a
      rating denotes the rating's value. */
  lemma NumberTextRoundTrip(d: Decimal)
    ensures NumeralValue(NumberText(d)) == Value(d)
  {
    if d.units == 0 && AllZero(d.fraction) {
      assert NumberText(d) == DecimalLiteral(false, "0", "");
      assert IsDecimalDigits("0") && AllDecimal("");
      NumeralValueOfLiteral(false, "0", "");
      assert DigitsValue("0") == 0 by {
        assert "0"[..0] == "";
      }
    } else {
      var f := TrimTrailingZeros(d.fraction);
      NumeralValueOfLiteral(d.negative, NatText(d.units), FractionText(f));
      NatTextValue(d.units);
      FractionTextRoundTrip(f);
      TrimTrailingZerosKeepsValue(d.fraction);
    }
  }
}
