/**
 * Numbers as read from decimal numerals and turned into text: exact decimals, compared by value, and
 * written like JavaScript writes its numbers, the large and the very small ones with an exponent.
 */
module Decimals {
  import opened Text

  /** So many units of the last decimal place. */
  datatype Fraction = Fraction(units: int, places: nat)

  predicate Lowest(f: Fraction) {
    f.places > 0 ==> f.units % 10 != 0
  }

  /** Without zeros at the end of the decimal places, so that equal numbers are the same. */
  type Decimal = f: Fraction | Lowest(f) witness Fraction(0, 0)

  function Reduced(f: Fraction): Decimal
    decreases f.places
  {
    if f.places > 0 && f.units % 10 == 0 then Reduced(Fraction(f.units / 10, f.places - 1)) else f
  }

  function Pow10(n: nat): (p: nat)
    ensures p > 0
  {
    if n == 0 then 1 else 10 * Pow10(n - 1)
  }

  function Value(f: Fraction): real {
    f.units as real / Pow10(f.places) as real
  }

  // ---- reading ----

  predicate IsDigits(s: string) {
    s != "" && AllDigits(s)
  }

  function Unsigned(s: string): string {
    if s != "" && s[0] == '-' then s[1..] else s
  }

  /** An optional minus sign, digits, and optionally a dot and more digits. */
  predicate IsNumeral(s: string) {
    var parts := SplitOn(Unsigned(s), '.');
    |parts| <= 2 && IsDigits(parts[0]) && (|parts| == 2 ==> IsDigits(parts[1]))
  }

  /** What a numeral says, as it says it. */
  function Stated(s: string): Fraction
    requires IsNumeral(s)
  {
    var parts := SplitOn(Unsigned(s), '.');
    var decimals := if |parts| == 2 then parts[1] else "";
    Fraction(Signed(s[0] == '-', NumeralValue(parts[0] + decimals)), |decimals|)
  }

  function Signed(negative: bool, n: int): int {
    if negative then -n else n
  }

  function ReadNumeral(s: string): Decimal
    requires IsNumeral(s)
  {
    Reduced(Stated(s))
  }

  // ---- writing ----

  function Size(n: int): nat {
    if n < 0 then -n else n
  }

  /** The digits before the dot; less than one when zeros follow the dot. */
  function Magnitude(d: Decimal): int {
    |Numeral(Size(d.units))| - d.places
  }

  predicate Positional(d: Decimal) {
    d.units == 0 || -6 < Magnitude(d) <= 21
  }

  function Zeros(n: nat): string {
    seq(n, _ => '0')
  }

  function Padded(digits: string, length: nat): string {
    if |digits| < length then Zeros(length - |digits|) + digits else digits
  }

  /** A dot before the last places. */
  function Dotted(digits: string, places: nat): string
    requires places <= |digits|
  {
    digits[..|digits| - places] + "." + digits[|digits| - places..]
  }

  function PositionalText(n: nat, places: nat): string {
    if places == 0 then Numeral(n) else Dotted(Padded(Numeral(n), places + 1), places)
  }

  function Significant(digits: string): string {
    if |digits| > 1 && digits[|digits| - 1] == '0' then Significant(digits[..|digits| - 1]) else digits
  }

  function Exponent(e: int): string {
    if e < 0 then "e-" + Numeral(-e) else "e+" + Numeral(e)
  }

  function ExponentText(n: nat, magnitude: int): string {
    SignificantDigits(n);
    var digits, tail := Significant(Numeral(n)), Exponent(magnitude - 1);
    if |digits| == 1 then digits + tail else digits[..1] + "." + (digits[1..] + tail)
  }

  function UnsignedText(d: Decimal): string {
    if Positional(d) then PositionalText(Size(d.units), d.places) else ExponentText(Size(d.units), Magnitude(d))
  }

  function Spelled(d: Decimal): string {
    if d.units < 0 then "-" + UnsignedText(d) else UnsignedText(d)
  }

  // ---- values ----

  lemma {:induction false} ReducedKeepsValue(f: Fraction)
    ensures Value(Reduced(f)) == Value(f)
    decreases f.places
  {
    if f.places > 0 && f.units % 10 == 0 {
      var next := Fraction(f.units / 10, f.places - 1);
      ReducedKeepsValue(next);
      assert f.units == 10 * next.units && Pow10(f.places) == 10 * Pow10(next.places);
      TenTimes(next.units as real, Pow10(next.places) as real);
    }
  }

  lemma TenTimes(x: real, p: real)
    requires p > 0.0
    ensures (10.0 * x) / (10.0 * p) == x / p
  {
  }

  lemma {:induction false} PowSum(m: nat, n: nat)
    ensures Pow10(m + n) == Pow10(m) * Pow10(n)
  {
    if m > 0 {
      PowSum(m - 1, n);
    }
  }

  lemma EqualQuotients(x: real, p: real, y: real, q: real)
    requires p > 0.0 && q > 0.0
    ensures x / p == y / q <==> x * q == y * p
  {
    assert x == x / p * p && y == y / q * q;
    if x / p == y / q {
      var z := x / p;
      assert x * q == z * p * q && y * p == z * q * p;
    }
  }

  /** A decimal with more places has units that the other one's cannot reach. */
  lemma MorePlacesDiffer(a: Decimal, b: Decimal)
    requires a.places > b.places
    ensures Value(a) != Value(b)
  {
    var p, q := Pow10(a.places), Pow10(b.places);
    UnitsDiffer(a.units, b.units, a.places, b.places);
    EqualQuotients(a.units as real, p as real, b.units as real, q as real);
    ProductOfInts(a.units, q);
    ProductOfInts(b.units, p);
    hide Pow10;
  }

  lemma ProductOfInts(x: int, y: int)
    ensures (x * y) as real == x as real * y as real
  {
  }

  lemma UnitsDiffer(x: int, y: int, m: nat, n: nat)
    requires m > n && x % 10 != 0
    ensures x * Pow10(n) != y * Pow10(m)
  {
    var q, half := Pow10(n), Pow10(m - n - 1);
    PowSum(m - n, n);
    assert Pow10(m) == (10 * half) * q;
    hide Pow10;
    if x * q == y * Pow10(m) {
      Regroup(y, half, q);
      CancelFactor(x, 10 * (y * half), q);
      assert false;
    }
  }

  lemma Regroup(y: int, half: int, q: int)
    ensures y * ((10 * half) * q) == (10 * (y * half)) * q
  {
  }

  lemma CancelFactor(x: int, y: int, q: int)
    requires q > 0 && x * q == y * q
    ensures x == y
  {
    assert (x - y) * q == 0;
  }

  /** Equal numbers are the same decimal. */
  lemma SameValue(a: Decimal, b: Decimal)
    ensures Value(a) == Value(b) <==> a == b
  {
    if a.places > b.places {
      MorePlacesDiffer(a, b);
    } else if b.places > a.places {
      MorePlacesDiffer(b, a);
    } else {
      EqualQuotients(a.units as real, Pow10(a.places) as real, b.units as real, Pow10(b.places) as real);
    }
  }

  /** Numerals are read as the same number exactly when they state the same value. */
  lemma NumeralsAgreeWhen(s: string, t: string)
    requires IsNumeral(s) && IsNumeral(t)
    ensures ReadNumeral(s) == ReadNumeral(t) <==> Value(Stated(s)) == Value(Stated(t))
  {
    ReducedKeepsValue(Stated(s));
    ReducedKeepsValue(Stated(t));
    SameValue(ReadNumeral(s), ReadNumeral(t));
  }

  // ---- reading what was written ----

  lemma {:induction false} ZerosAreNothing(k: nat, s: string)
    requires AllDigits(s)
    ensures AllDigits(Zeros(k) + s) && NumeralValue(Zeros(k) + s) == NumeralValue(s)
    decreases |s|, k
  {
    var text := Zeros(k) + s;
    if s != "" {
      var front := s[..|s| - 1];
      ZerosAreNothing(k, front);
      assert text[..|text| - 1] == Zeros(k) + front;
    } else if k > 0 {
      ZerosAreNothing(k - 1, "");
      assert text[..k - 1] == Zeros(k - 1) + "";
    }
  }

  lemma DigitsHaveNo(s: string, c: char)
    requires AllDigits(s) && !IsDigit(c)
    ensures c !in s
  {
  }

  /** The text states the fraction, and with a minus sign its negative. */
  predicate States(text: string, n: nat, places: nat) {
    && text != "" && IsDigit(text[0]) && IsNumeral(text) && Stated(text) == Fraction(n, places)
    && IsNumeral("-" + text) && Stated("-" + text) == Fraction(Signed(true, n), places)
  }

  lemma WholeStates(whole: string)
    requires IsDigits(whole)
    ensures States(whole, NumeralValue(whole), 0)
  {
    hide NumeralValue;
    DigitsHaveNo(whole, '.');
    SplitPrefix(whole, "", '.');
    assert ("-" + whole)[1..] == whole && whole + "" == whole;
  }

  lemma DecimalsState(whole: string, decimals: string)
    requires IsDigits(whole) && IsDigits(decimals)
    ensures States(whole + "." + decimals, NumeralValue(whole + decimals), |decimals|)
  {
    hide NumeralValue;
    var text := whole + "." + decimals;
    DigitsHaveNo(whole, '.');
    DigitsHaveNo(decimals, '.');
    SplitPrefix(whole, decimals, '.');
    SplitPrefix(decimals, "", '.');
    assert text == whole + ['.'] + decimals && ("-" + text)[1..] == text;
    hide SplitOn, AllDigits;
  }

  lemma PaddedReads(n: nat, length: nat)
    ensures var digits := Padded(Numeral(n), length);
      AllDigits(digits) && NumeralValue(digits) == n && |digits| >= length && digits != ""
  {
    NumeralRoundTrip(n);
    if |Numeral(n)| < length {
      ZerosAreNothing(length - |Numeral(n)|, Numeral(n));
    }
  }

  lemma CutStates(digits: string, places: nat)
    requires AllDigits(digits) && |digits| > places > 0
    ensures States(Dotted(digits, places), NumeralValue(digits), places)
  {
    hide NumeralValue, States;
    var whole, decimals := digits[..|digits| - places], digits[|digits| - places..];
    assert whole + decimals == digits;
    DecimalsState(whole, decimals);
  }

  lemma PositionalReads(n: nat, places: nat)
    ensures States(PositionalText(n, places), n, places)
  {
    if places == 0 {
      NumeralRoundTrip(n);
      WholeStates(Numeral(n));
    } else {
      PaddedReads(n, places + 1);
      hide Numeral, NumeralValue, Padded, States, Dotted;
      CutStates(Padded(Numeral(n), places + 1), places);
    }
  }

  /** Numbers that are written without exponent are read back. */
  lemma PositionalReadsBack(d: Decimal)
    requires Positional(d)
    ensures IsNumeral(Spelled(d)) && ReadNumeral(Spelled(d)) == d
  {
    PositionalReads(Size(d.units), d.places);
    hide PositionalText, IsNumeral, Positional;
    assert Reduced(d) == d;
  }

  lemma {:induction false} SignificantAreDigits(digits: string)
    requires IsDigits(digits)
    ensures IsDigits(Significant(digits)) && Significant(digits) <= digits
    ensures |Significant(digits)| > 1 ==> Significant(digits)[|Significant(digits)| - 1] != '0'
    ensures NumeralValue(digits) == NumeralValue(Significant(digits)) * Pow10(|digits| - |Significant(digits)|)
  {
    if |digits| > 1 && digits[|digits| - 1] == '0' {
      var front := digits[..|digits| - 1];
      SignificantAreDigits(front);
      TenMore(NumeralValue(front), NumeralValue(Significant(front)), |front| - |Significant(front)|);
    }
  }

  lemma TenMore(x: int, y: int, n: nat)
    requires x == y * Pow10(n)
    ensures 10 * x == y * Pow10(n + 1)
  {
  }

  lemma ExponentHasNoDot(e: int)
    ensures '.' !in Exponent(e) && Exponent(e) != "" && Exponent(e)[0] == 'e'
  {
    NumeralRoundTrip(Size(e));
    DigitsHaveNo(Numeral(Size(e)), '.');
  }

  predicate NoNumeral(text: string) {
    text != "" && IsDigit(text[0]) && !IsNumeral(text) && !IsNumeral("-" + text)
  }

  lemma WholeIsNoNumeral(text: string)
    requires text != "" && IsDigit(text[0]) && '.' !in text && !AllDigits(text)
    ensures NoNumeral(text)
  {
    SplitPrefix(text, "", '.');
    assert ("-" + text)[1..] == text;
    hide AllDigits, SplitOn;
  }

  lemma DecimalsAreNoNumeral(whole: string, decimals: string)
    requires IsDigits(whole) && '.' !in decimals && !AllDigits(decimals)
    ensures NoNumeral(whole + "." + decimals)
  {
    var text := whole + "." + decimals;
    DigitsHaveNo(whole, '.');
    SplitPrefix(whole, decimals, '.');
    SplitPrefix(decimals, "", '.');
    assert text == whole + ['.'] + decimals && ("-" + text)[1..] == text && text[0] == whole[0];
    hide AllDigits, SplitOn;
  }

  lemma SignificantDigits(n: nat)
    ensures IsDigits(Significant(Numeral(n)))
  {
    NumeralRoundTrip(n);
    SignificantAreDigits(Numeral(n));
  }

  lemma ExponentIsNoNumeral(n: nat, magnitude: int)
    ensures NoNumeral(ExponentText(n, magnitude))
  {
    hide Numeral, Exponent, Significant, NoNumeral;
    SignificantDigits(n);
    ExponentHasNoDot(magnitude - 1);
    var digits, tail := Significant(Numeral(n)), Exponent(magnitude - 1);
    DigitsHaveNo(digits, '.');
    if |digits| == 1 {
      assert (digits + tail)[1] == 'e';
      WholeIsNoNumeral(digits + tail);
    } else {
      var last := digits[1..] + tail;
      assert last[|digits| - 1] == 'e';
      DecimalsAreNoNumeral(digits[..1], last);
    }
  }

  /** A number is read back from its text if and only if it is written without exponent. */
  lemma SpelledReadsBackWhen(d: Decimal)
    ensures IsNumeral(Spelled(d)) <==> Positional(d)
    ensures IsNumeral(Spelled(d)) ==> ReadNumeral(Spelled(d)) == d
  {
    if Positional(d) {
      PositionalReadsBack(d);
    } else {
      ExponentIsNoNumeral(Size(d.units), Magnitude(d));
    }
  }

  predicate IsNumberChar(c: char) {
    IsDigit(c) || c == '.' || c == '-' || c == '+' || c == 'e'
  }

  predicate IsNumberText(s: string) {
    forall k :: 0 <= k < |s| ==> IsNumberChar(s[k])
  }

  lemma PositionalChars(n: nat, places: nat)
    ensures IsNumberText(PositionalText(n, places))
  {
    NumeralRoundTrip(n);
    PaddedReads(n, places + 1);
    hide Numeral, NumeralValue, Padded, Dotted;
    if places > 0 {
      DottedChars(Padded(Numeral(n), places + 1), places);
    }
  }

  lemma DottedChars(digits: string, places: nat)
    requires AllDigits(digits) && places <= |digits|
    ensures IsNumberText(Dotted(digits, places))
  {
  }

  lemma ExponentChars(n: nat, magnitude: int)
    ensures IsNumberText(ExponentText(n, magnitude))
  {
    SignificantDigits(n);
    NumeralRoundTrip(Size(magnitude - 1));
    hide Numeral, NumeralValue, Significant;
  }

  lemma SpelledChars(d: Decimal)
    ensures Spelled(d) != "" && IsNumberText(Spelled(d)) && (Spelled(d)[0] == '-' || IsDigit(Spelled(d)[0]))
  {
    var n := Size(d.units);
    if Positional(d) {
      PositionalReads(n, d.places);
      PositionalChars(n, d.places);
    } else {
      ExponentIsNoNumeral(n, Magnitude(d));
      ExponentChars(n, Magnitude(d));
    }
    hide PositionalText, ExponentText, Positional, IsNumeral, Stated;
  }

  /** One ten-millionth has too small a magnitude to be written without exponent. */
  lemma SmallNumberTexts()
    ensures PositionalText(1, 7) == "0.0000001"
    ensures !Positional(Fraction(1, 7)) && Spelled(Fraction(1, 7)) == "1e-7"
  {
    assert Numeral(1) == "1" && Numeral(7) == "7";
    assert Significant("1") == "1";
    assert Zeros(7) == "0000000";
    assert Padded("1", 8) == "00000001";
  }

  // ---- what the texts are ----

  /** A minus sign or none, digits, and a dot with more digits or nothing. */
  predicate IsWritten(s: string, sign: string, whole: string, decimals: string) {
    && (sign == "" || sign == "-") && IsDigits(whole) && AllDigits(decimals)
    && s == sign + WithDecimals(whole, decimals)
  }

  function WithDecimals(whole: string, decimals: string): string {
    if decimals == "" then whole else whole + "." + decimals
  }

  lemma NumeralWas(s: string)
    requires IsNumeral(s)
    ensures exists sign, whole, decimals :: IsWritten(s, sign, whole, decimals)
  {
    var parts := SplitOn(Unsigned(s), '.');
    var sign := if s != "" && s[0] == '-' then "-" else "";
    var decimals := if |parts| == 2 then parts[1] else "";
    JoinOfSplit(Unsigned(s), '.');
    assert |parts| == 2 ==> parts[1..] == [parts[1]];
    hide SplitOn, AllDigits;
    assert Unsigned(s) == WithDecimals(parts[0], decimals);
    assert s == sign + Unsigned(s);
    assert IsWritten(s, sign, parts[0], decimals);
  }

  lemma WrittenIsNumeral(s: string, sign: string, whole: string, decimals: string)
    requires IsWritten(s, sign, whole, decimals)
    ensures IsNumeral(s)
  {
    var text := WithDecimals(whole, decimals);
    if decimals == "" {
      WholeStates(whole);
    } else {
      DecimalsState(whole, decimals);
    }
    hide IsNumeral, Stated, NumeralValue, AllDigits, WithDecimals;
    assert "" + text == text;
  }

  /** The texts so written are numerals, and nothing else is. */
  lemma NumeralsAre(s: string)
    ensures IsNumeral(s) <==> exists sign, whole, decimals :: IsWritten(s, sign, whole, decimals)
  {
    hide IsNumeral, IsWritten;
    if IsNumeral(s) {
      NumeralWas(s);
    }
    if sign, whole, decimals :| IsWritten(s, sign, whole, decimals) {
      WrittenIsNumeral(s, sign, whole, decimals);
    }
  }

  lemma {:induction false} NumeralSize(n: nat)
    requires n > 0
    ensures |Numeral(n)| > 0 && Pow10(|Numeral(n)| - 1) <= n < Pow10(|Numeral(n)|)
  {
    if n >= 10 {
      NumeralSize(n / 10);
    } else {
      assert Pow10(0) == 1 && Pow10(1) == 10;
    }
  }

  lemma {:induction false} PowGrows(m: nat, n: nat)
    requires m <= n
    ensures Pow10(m) <= Pow10(n)
  {
    if m < n {
      PowGrows(m, n - 1);
    }
  }

  lemma LargeEnough(n: nat, k: nat, p: nat)
    requires k > 0 && Pow10(k - 1) <= n < Pow10(k)
    ensures p < k + 6 <==> Pow10(p) <= n * Pow10(6)
  {
    if p < k + 6 {
      PowSum(k - 1, 6);
      PowGrows(p, k + 5);
      hide Pow10;
      Larger(Pow10(k - 1), n, Pow10(6));
    } else {
      PowSum(k, 6);
      PowGrows(k + 6, p);
      Larger(n + 1, Pow10(k), Pow10(6));
      assert (n + 1) * Pow10(6) == n * Pow10(6) + Pow10(6);
      hide Pow10;
    }
  }

  lemma SmallEnough(n: nat, k: nat, p: nat)
    requires k > 0 && Pow10(k - 1) <= n < Pow10(k)
    ensures k <= p + 21 <==> n < Pow10(21) * Pow10(p)
  {
    PowSum(21, p);
    hide Pow10;
    if k <= p + 21 {
      PowGrows(k, p + 21);
    } else {
      PowGrows(p + 21, k - 1);
    }
  }

  /** Without exponent are written: zero, and numbers from one millionth up to below 10 to the power of 21. */
  lemma PositionalMeans(d: Decimal)
    ensures Positional(d) <==>
      d.units == 0
      || (Pow10(d.places) <= Size(d.units) * Pow10(6) && Size(d.units) < Pow10(21) * Pow10(d.places))
  {
    if d.units != 0 {
      var n := Size(d.units);
      NumeralSize(n);
      hide Pow10, Numeral;
      LargeEnough(n, |Numeral(n)|, d.places);
      SmallEnough(n, |Numeral(n)|, d.places);
    }
  }

  lemma Larger(a: int, b: int, c: nat)
    requires a <= b && c > 0
    ensures a * c <= b * c
  {
  }

  /** The sign is written for negative numbers only, and zero is one digit. */
  lemma SpelledSign(d: Decimal)
    ensures Spelled(d) != "" && (Spelled(d)[0] == '-' <==> d.units < 0)
    ensures d.units == 0 ==> Spelled(d) == "0"
  {
    var n := Size(d.units);
    PositionalReads(n, d.places);
    ExponentIsNoNumeral(n, Magnitude(d));
    hide PositionalText, ExponentText, IsNumeral, Positional;
    if d.units == 0 {
      ZeroIsPlain(d);
    }
  }

  lemma ZeroIsPlain(d: Decimal)
    requires d.units == 0
    ensures Spelled(d) == "0"
  {
    assert d.places == 0;
  }

  /** The first digit, a dot, the others if there are any, and the power of ten with its sign. */
  function Scientific(digits: string, power: int): string
    requires digits != ""
  {
    (if |digits| == 1 then digits else digits[..1] + "." + digits[1..])
    + ("e" + if power < 0 then "-" + Numeral(-power) else "+" + Numeral(power))
  }

  lemma ExponentIsScientific(n: nat, magnitude: int)
    ensures Significant(Numeral(n)) != ""
    ensures ExponentText(n, magnitude) == Scientific(Significant(Numeral(n)), magnitude - 1)
  {
    SignificantDigits(n);
    var digits, power := Significant(Numeral(n)), magnitude - 1;
    hide Numeral, Significant;
    var tail := "e" + if power < 0 then "-" + Numeral(-power) else "+" + Numeral(power);
    assert Exponent(power) == tail;
    hide Exponent;
    assert digits[..1] + "." + (digits[1..] + tail) == (digits[..1] + "." + digits[1..]) + tail;
  }

  /** With exponent: significant digits without zeros at the end, and the power of ten of the first. */
  lemma ExponentSpelled(d: Decimal)
    requires !Positional(d)
    ensures var all := Numeral(Size(d.units));
      var digits := Significant(all);
      && IsDigits(digits) && digits <= all && (|digits| > 1 ==> digits[|digits| - 1] != '0')
      && Size(d.units) == NumeralValue(digits) * Pow10(|all| - |digits|)
      && UnsignedText(d) == Scientific(digits, |all| - 1 - d.places)
  {
    NumeralRoundTrip(Size(d.units));
    SignificantAreDigits(Numeral(Size(d.units)));
    ExponentIsScientific(Size(d.units), Magnitude(d));
    hide Numeral, NumeralValue, Significant, Positional, Pow10, ExponentText, Scientific;
  }
}
