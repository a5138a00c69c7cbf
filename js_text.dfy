/** The JavaScript string semantics the forms depend on:
    `String.prototype.trim` and the test `!isNaN(Number(s))`, which holds exactly
    when StringToNumber (ECMA-262, section 7.1.4.1.1) accepts `s`, that is when `s`
    matches the StringNumericLiteral grammar of section 7.1.4.1. */
module JsText {

  /** WhiteSpace (ECMA-262 section 12.2, including every Zs code point) and
      LineTerminator (section 12.3): what `trim` removes and what StringToNumber
      skips around a numeral. */
  predicate IsJsSpace(c: char) {
    var n := c as int;
    n == 0x09 || n == 0x0A || n == 0x0B || n == 0x0C || n == 0x0D || n == 0x20
    || n == 0xA0 || n == 0x1680 || (0x2000 <= n <= 0x200A) || n == 0x2028
    || n == 0x2029 || n == 0x202F || n == 0x205F || n == 0x3000 || n == 0xFEFF
  }

  predicate AllSpace(s: string) {
    forall i | 0 <= i < |s| :: IsJsSpace(s[i])
  }

  /** Every character of `s` at a position in [lo, hi) is white space. */
  predicate SpaceBetween(s: string, lo: int, hi: int)
    requires 0 <= lo <= hi <= |s|
  {
    forall k | lo <= k < hi :: IsJsSpace(s[k])
  }

  /** `r` is what is left of `s` once a white-space prefix and a white-space
      suffix are cut off. */
  ghost predicate Unpadding(r: string, s: string) {
    exists i, j | 0 <= i <= j <= |s| :: r == s[i..j] && SpaceBetween(s, 0, i) && SpaceBetween(s, j, |s|)
  }

  /** Cutting one more white-space character off the front keeps `r` an
      unpadding. */
  lemma UnpaddingOfTail(r: string, s: string)
    requires s != [] && IsJsSpace(s[0]) && Unpadding(r, s[1..])
    ensures Unpadding(r, s)
  {
    var t := s[1..];
    var i, j :| 0 <= i <= j <= |t| && r == t[i..j] && SpaceBetween(t, 0, i) && SpaceBetween(t, j, |t|);
    assert forall k | 0 <= k < |t| :: t[k] == s[k + 1];
    assert r == s[i + 1..j + 1] && SpaceBetween(s, 0, i + 1) && SpaceBetween(s, j + 1, |s|);
  }

  /** Cutting one more white-space character off the back keeps `r` an
      unpadding. */
  lemma UnpaddingOfInit(r: string, s: string)
    requires s != [] && IsJsSpace(s[|s| - 1]) && Unpadding(r, s[..|s| - 1])
    ensures Unpadding(r, s)
  {
    var t := s[..|s| - 1];
    var i, j :| 0 <= i <= j <= |t| && r == t[i..j] && SpaceBetween(t, 0, i) && SpaceBetween(t, j, |t|);
    assert forall k | 0 <= k < |t| :: t[k] == s[k];
    assert r == s[i..j] && SpaceBetween(s, 0, i) && SpaceBetween(s, j, |s|);
  }

  /** `s.trim()`: white space is dropped from the start, then from the end, until
      neither end is white space; the result is empty exactly when `s` is all
      white space. `TrimCharacterized` states what the result is. */
  function Trim(s: string): (r: string)
    ensures r == [] <==> AllSpace(s)
    ensures r == [] || (!IsJsSpace(r[0]) && !IsJsSpace(r[|r| - 1]))
    ensures |r| <= |s|
  {
    if s != [] && IsJsSpace(s[0]) then
      assert AllSpace(s) <==> AllSpace(s[1..]) by {
        if AllSpace(s[1..]) {
          forall i | 0 <= i < |s| ensures IsJsSpace(s[i]) {
            if i > 0 { assert s[i] == s[1..][i - 1]; }
          }
        }
      }
      Trim(s[1..])
    else if s != [] && IsJsSpace(s[|s| - 1]) then
      assert AllSpace(s) <==> AllSpace(s[..|s| - 1]) by {
        if AllSpace(s[..|s| - 1]) {
          forall i | 0 <= i < |s| ensures IsJsSpace(s[i]) {
            if i < |s| - 1 { assert s[i] == s[..|s| - 1][i]; }
          }
        }
      }
      Trim(s[..|s| - 1])
    else
      assert s != [] ==> !AllSpace(s);
      s
  }

  /** `Trim` removes padding and nothing else: its result is an unpadding of
      its input. */
  lemma {:induction false} TrimUnpads(s: string)
    ensures Unpadding(Trim(s), s)
  {
    if s != [] && IsJsSpace(s[0]) {
      TrimUnpads(s[1..]);
      UnpaddingOfTail(Trim(s), s);
    } else if s != [] && IsJsSpace(s[|s| - 1]) {
      TrimUnpads(s[..|s| - 1]);
      UnpaddingOfInit(Trim(s), s);
    } else {
      assert Trim(s) == s[0..|s|] && SpaceBetween(s, 0, 0) && SpaceBetween(s, |s|, |s|);
    }
  }

  /** Two cuts that each leave a white-space prefix and suffix and a non-space
      first and last character are the same cut. */
  lemma CutsAgree(s: string, i: nat, j: nat, i': nat, j': nat)
    requires i < j <= |s| && i' < j' <= |s|
    requires SpaceBetween(s, 0, i) && SpaceBetween(s, j, |s|)
    requires SpaceBetween(s, 0, i') && SpaceBetween(s, j', |s|)
    requires !IsJsSpace(s[i]) && !IsJsSpace(s[j - 1]) && !IsJsSpace(s[i']) && !IsJsSpace(s[j' - 1])
    ensures i == i' && j == j'
  {
  }

  /** Text whose empty unpadding exists is all white space. */
  lemma EmptyUnpadding(s: string)
    requires Unpadding([], s)
    ensures SpaceBetween(s, 0, |s|)
  {
    var i, j :| 0 <= i <= j <= |s| && [] == s[i..j] && SpaceBetween(s, 0, i) && SpaceBetween(s, j, |s|);
    assert i == j;
  }

  /** A non-empty unpadding with non-space ends: the cut that produces it. */
  lemma NonEmptyUnpadding(s: string, r: string) returns (i: nat, j: nat)
    requires Unpadding(r, s) && r != [] && !IsJsSpace(r[0]) && !IsJsSpace(r[|r| - 1])
    ensures i < j <= |s| && r == s[i..j]
    ensures SpaceBetween(s, 0, i) && SpaceBetween(s, j, |s|)
    ensures !IsJsSpace(s[i]) && !IsJsSpace(s[j - 1])
  {
    i, j :| 0 <= i <= j <= |s| && r == s[i..j] && SpaceBetween(s, 0, i) && SpaceBetween(s, j, |s|);
    assert r[0] == s[i] && r[|r| - 1] == s[j - 1];
  }

  /** Two unpaddings of the same text whose ends are not white space are equal. */
  lemma UnpaddingsAgree(s: string, r: string, t: string)
    requires Unpadding(r, s) && (r == [] || (!IsJsSpace(r[0]) && !IsJsSpace(r[|r| - 1])))
    requires Unpadding(t, s) && (t == [] || (!IsJsSpace(t[0]) && !IsJsSpace(t[|t| - 1])))
    ensures r == t
  {
    if r == [] && t != [] {
      EmptyUnpadding(s);
      var i, j := NonEmptyUnpadding(s, t);
    } else if r != [] && t == [] {
      EmptyUnpadding(s);
      var i, j := NonEmptyUnpadding(s, r);
    } else if r != [] {
      var i, j := NonEmptyUnpadding(s, r);
      var i', j' := NonEmptyUnpadding(s, t);
      CutsAgree(s, i, j, i', j');
    }
  }

  /** `s.trim()` is exactly the text left once a white-space prefix and a
      white-space suffix are cut off from `s` so that neither end of what is
      left is white space. */
  lemma TrimCharacterized(s: string, r: string)
    ensures r == Trim(s) <==> Unpadding(r, s) && (r == [] || (!IsJsSpace(r[0]) && !IsJsSpace(r[|r| - 1])))
  {
    TrimUnpads(s);
    if Unpadding(r, s) && (r == [] || (!IsJsSpace(r[0]) && !IsJsSpace(r[|r| - 1]))) {
      UnpaddingsAgree(s, r, Trim(s));
    }
  }

  /** A string with no white space at either end trims to itself. */
  lemma TrimUnpadded(s: string)
    requires s == [] || (!IsJsSpace(s[0]) && !IsJsSpace(s[|s| - 1]))
    ensures Trim(s) == s
  {
  }

  /** JavaScript truthiness of a string: only the empty string is falsy. */
  predicate Truthy(s: string) {
    s != []
  }

  predicate IsDecimalDigit(c: char) { '0' <= c <= '9' }
  predicate IsHexDigit(c: char) { IsDecimalDigit(c) || 'a' <= c <= 'f' || 'A' <= c <= 'F' }
  predicate IsOctalDigit(c: char) { '0' <= c <= '7' }
  predicate IsBinaryDigit(c: char) { c == '0' || c == '1' }

  /** Every character is a decimal digit (the empty string included). */
  predicate AllDecimal(s: string) {
    forall i | 0 <= i < |s| :: IsDecimalDigit(s[i])
  }

  /** DecimalDigits: one or more decimal digits. */
  predicate IsDecimalDigits(s: string) {
    s != [] && AllDecimal(s)
  }

  /** The position of the first character of `s` that is in `cs`, or `|s|`. */
  function IndexOfAny(s: string, cs: set<char>): (k: nat)
    ensures k <= |s|
    ensures k < |s| ==> s[k] in cs
    ensures forall i | 0 <= i < k :: s[i] !in cs
  {
    if s == [] || s[0] in cs then 0 else 1 + IndexOfAny(s[1..], cs)
  }

  /** NonDecimalIntegerLiteral without separators: 0x.., 0o.. or 0b.. (no sign). */
  predicate IsNonDecimalInteger(t: string) {
    |t| >= 3 && t[0] == '0' &&
    ((t[1] in {'x', 'X'} && forall i | 2 <= i < |t| :: IsHexDigit(t[i])) ||
     (t[1] in {'o', 'O'} && forall i | 2 <= i < |t| :: IsOctalDigit(t[i])) ||
     (t[1] in {'b', 'B'} && forall i | 2 <= i < |t| :: IsBinaryDigit(t[i])))
  }

  /** `DecimalDigits . DecimalDigits?`, `. DecimalDigits` or `DecimalDigits`. */
  predicate IsMantissa(m: string) {
    var k := IndexOfAny(m, {'.'});
    if k == |m| then IsDecimalDigits(m)
    else |m| > 1 && AllDecimal(m[..k]) && AllDecimal(m[k + 1..])
  }

  /** What follows the `e` or `E` of an ExponentPart: a signed integer. */
  predicate IsExponent(e: string) {
    if e != [] && (e[0] == '+' || e[0] == '-') then IsDecimalDigits(e[1..])
    else IsDecimalDigits(e)
  }

  /** StrUnsignedDecimalLiteral. */
  predicate IsUnsignedDecimal(u: string) {
    u == "Infinity" ||
    var k := IndexOfAny(u, {'e', 'E'});
    IsMantissa(u[..k]) && (k == |u| || IsExponent(u[k + 1..]))
  }

  /** StrDecimalLiteral: an optionally signed StrUnsignedDecimalLiteral. */
  predicate IsStrDecimal(t: string) {
    if t != [] && (t[0] == '+' || t[0] == '-') then IsUnsignedDecimal(t[1..])
    else IsUnsignedDecimal(t)
  }

  /** `!isNaN(Number(s))`: after trimming, the string is empty (Number gives 0)
      or is a StrNumericLiteral. In particular empty or white-space text is
      numeric. */
  predicate JsNumeric(s: string)
    ensures AllSpace(s) ==> JsNumeric(s)
  {
    var t := Trim(s);
    t == [] || IsNonDecimalInteger(t) || IsStrDecimal(t)
  }

  /** IndexOfAny is determined by its contract. */
  lemma IndexOfAnyAt(s: string, cs: set<char>, k: nat)
    requires k <= |s| && (k < |s| ==> s[k] in cs)
    requires forall i | 0 <= i < k :: s[i] !in cs
    ensures IndexOfAny(s, cs) == k
  {
  }

  /** The numeral `[-]whole[.frac]` with the fraction part left out when empty. */
  function DecimalLiteral(negative: bool, whole: string, frac: string): string {
    (if negative then "-" else "") + whole + (if frac == [] then "" else "." + frac)
  }

  /** An unsigned numeral `whole[.frac]` is a StrUnsignedDecimalLiteral. */
  lemma {:induction false} UnsignedLiteralIsDecimal(whole: string, frac: string)
    requires IsDecimalDigits(whole) && AllDecimal(frac)
    ensures IsUnsignedDecimal(DecimalLiteral(false, whole, frac))
  {
    var u := DecimalLiteral(false, whole, frac);
    assert u == whole + (if frac == [] then "" else "." + frac);
    forall i | 0 <= i < |u| ensures IsDecimalDigit(u[i]) || u[i] == '.' {
      if i >= |whole| + 1 {
        assert u[i] == frac[i - |whole| - 1];
      }
    }
    IndexOfAnyAt(u, {'e', 'E'}, |u|);
    assert u[..|u|] == u;
    if frac == [] {
      IndexOfAnyAt(u, {'.'}, |u|);
    } else {
      IndexOfAnyAt(u, {'.'}, |whole|);
      assert u[..|whole|] == whole;
      assert u[|whole| + 1..] == frac;
    }
  }

  /** A sign in front of a StrUnsignedDecimalLiteral that starts with a digit
      gives a StrDecimalLiteral. */
  lemma SignedIsDecimal(negative: bool, u: string)
    requires IsUnsignedDecimal(u) && u != [] && IsDecimalDigit(u[0])
    ensures IsStrDecimal((if negative then "-" else "") + u)
  {
    var t := (if negative then "-" else "") + u;
    if negative {
      assert t[0] == '-' && t[1..] == u;
    } else {
      assert t == u;
    }
  }

  /** A StrDecimalLiteral with no white space around it is numeric. */
  lemma UnpaddedDecimalIsNumeric(t: string)
    requires t != [] && !IsJsSpace(t[0]) && !IsJsSpace(t[|t| - 1])
    requires IsStrDecimal(t)
    ensures JsNumeric(t)
  {
    TrimUnpadded(t);
  }

  /** The shape of `[-]whole[.frac]`: an optional minus sign in front of the
      unsigned numeral, a first character that is a sign or a digit, and a last
      character that is a digit. */
  lemma {:induction false} DecimalLiteralShape(negative: bool, whole: string, frac: string)
    requires IsDecimalDigits(whole) && AllDecimal(frac)
    ensures var t := DecimalLiteral(negative, whole, frac);
            var u := DecimalLiteral(false, whole, frac);
            && t == (if negative then "-" else "") + u
            && u != [] && IsDecimalDigit(u[0])
            && !IsJsSpace(t[0]) && IsDecimalDigit(t[|t| - 1])
  {
    var t := DecimalLiteral(negative, whole, frac);
    var u := DecimalLiteral(false, whole, frac);
    UnsignedLiteralEnds(whole, frac);
    if negative {
      assert t == "-" + u;
      assert t[0] == '-' && t[|t| - 1] == u[|u| - 1];
    } else {
      assert t == u;
    }
  }

  /** An unsigned numeral `whole[.frac]` starts and ends with a digit. */
  lemma UnsignedLiteralEnds(whole: string, frac: string)
    requires IsDecimalDigits(whole) && AllDecimal(frac)
    ensures var u := DecimalLiteral(false, whole, frac);
            u != [] && IsDecimalDigit(u[0]) && IsDecimalDigit(u[|u| - 1])
  {
    var u := DecimalLiteral(false, whole, frac);
    if frac == [] {
      assert u == whole;
    } else {
      assert u == whole + ("." + frac);
      assert u[0] == whole[0] && u[|u| - 1] == frac[|frac| - 1];
    }
  }

  /** Every numeral `[-]whole[.frac]` passes `!isNaN(Number(...))`. */
  lemma {:induction false} DecimalLiteralIsNumeric(negative: bool, whole: string, frac: string)
    requires IsDecimalDigits(whole) && AllDecimal(frac)
    ensures JsNumeric(DecimalLiteral(negative, whole, frac))
  {
    var t := DecimalLiteral(negative, whole, frac);
    var u := DecimalLiteral(false, whole, frac);
    UnsignedLiteralIsDecimal(whole, frac);
    DecimalLiteralShape(negative, whole, frac);
    SignedIsDecimal(negative, u);
    UnpaddedDecimalIsNumeric(t);
  }

  /** StringToNumber strips the same white space as `trim` before reading the
      numeral, so padding never decides whether text is numeric. */
  lemma NumericIgnoresPadding(s: string)
    ensures JsNumeric(s) <==> JsNumeric(Trim(s))
  {
    TrimUnpadded(Trim(s));
  }

  /** Number("4.5") is 4.5, not NaN. */
  lemma FractionalSample()
    ensures JsNumeric("4.5")
  {
    assert IsDecimalDigits("4") && AllDecimal("5");
    DecimalLiteralIsNumeric(false, "4", "5");
    assert DecimalLiteral(false, "4", "5") == "4.5";
  }

  /** Number("12") is 12, not NaN. */
  lemma IntegerSample()
    ensures JsNumeric("12")
  {
    assert IsDecimalDigits("12") && AllDecimal("");
    DecimalLiteralIsNumeric(false, "12", "");
    assert DecimalLiteral(false, "12", "") == "12";
  }

  /** A numeral with two decimal points is NaN. */
  lemma TwoPointsNotNumeric()
    ensures !JsNumeric("1.2.3")
  {
    var t := "1.2.3";
    TrimUnpadded(t);
    assert Trim(t) == t;
    IndexOfAnyAt(t, {'e', 'E'}, 5);
    assert t[..5] == t;
    IndexOfAnyAt(t, {'.'}, 1);
    assert !AllDecimal(t[2..]) by { assert t[2..][1] == '.'; }
    assert !IsMantissa(t);
    assert !IsNonDecimalInteger(t) by { assert t[1] == '.'; }
  }
}
