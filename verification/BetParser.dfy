/** The bid expressions of the auction house: advatoi and parsebet (auction.cpp). */
module BetParser {
  import opened Arith
  import opened Decimal
  import opened Text

  const MAX_INPUT_LENGTH: nat := 160

  function Upper(c: char): char {
    if 'a' <= c <= 'z' then ((c as int) - ('a' as int) + ('A' as int)) as char else c
  }

  /** The character under a pointer into a C string: NUL at its end. */
  function At(s: string, i: nat): char {
    if i < |s| then s[i] else '\0'
  }

  /** What strncpy into a buffer of MAX_INPUT_LENGTH characters keeps. */
  function Clip(s: string): string {
    if |s| <= MAX_INPUT_LENGTH - 1 then s else s[..MAX_INPUT_LENGTH - 1]
  }

  // ---------------------------------------------------------------- decimal numerals

  lemma ValueSnoc(s: string, c: char)
    requires AllDigits(s) && IsDigit(c)
    ensures AllDigits(s + [c]) && Value(s + [c]) == Value(s) * 10 + DigitOf(c)
  {
    assert (s + [c])[..|s + [c]| - 1] == s;
  }

  function Pow10(n: nat): nat {
    if n == 0 then 1 else 10 * Pow10(n - 1)
  }

  function Zeros(n: nat): (s: string)
    ensures |s| == n && AllDigits(s)
  {
    seq(n, _ => '0')
  }

  lemma ScaleStep(n: int, d: int, p: int)
    ensures (n * 10 + d) * p == n * (10 * p) + d * p
  {
  }

  lemma {:induction false} ValueZeros(s: string, n: nat)
    requires AllDigits(s)
    ensures AllDigits(s + Zeros(n)) && Value(s + Zeros(n)) == Value(s) * Pow10(n)
  {
    if n == 0 {
      assert s + Zeros(n) == s;
    } else {
      ValueZeros(s, n - 1);
      assert s + Zeros(n) == (s + Zeros(n - 1)) + ['0'];
      ValueSnoc(s + Zeros(n - 1), '0');
      ScaleStep(Value(s), 0, Pow10(n - 1));
      assert Value(s) * Pow10(n - 1) * 10 == Value(s) * (10 * Pow10(n - 1));
    }
  }

  // ---------------------------------------------------------------- advatoi

  function DigitPrefix(s: string): (p: string)
    ensures p <= s && AllDigits(p) && (|p| < |s| ==> !IsDigit(s[|p|]))
  {
    if s == "" || !IsDigit(s[0]) then "" else [s[0]] + DigitPrefix(s[1..])
  }

  /** The digit prefix is the only prefix of digits that stops at a non-digit. */
  lemma {:induction false} DigitPrefixIs(s: string, n: nat)
    requires n <= |s| && (forall i :: 0 <= i < n ==> IsDigit(s[i])) && (n < |s| ==> !IsDigit(s[n]))
    ensures DigitPrefix(s) == s[..n]
  {
    var p := DigitPrefix(s);
    assert forall i :: 0 <= i < |p| ==> p[i] == s[i];
  }

  /** The number of decimal places a suffix letter stands for; 0 for no suffix. */
  function Places(c: char): nat {
    if Upper(c) == 'K' then 3 else if Upper(c) == 'M' then 6 else 0
  }

  /** The fractional digits that count: the first `places`, filled up with zeros. */
  function Fraction(f: string, places: nat): (g: string)
    requires AllDigits(f)
    ensures AllDigits(g) && |g| == places
  {
    if |f| >= places then f[..places] else f + Zeros(places - |f|)
  }

  function ValueConcat(a: string, b: string): nat
    requires AllDigits(a) && AllDigits(b)
  {
    Value(a + b)
  }

  /** The meaning of an amount: "12", "3k5" or "1M25", read as a fixed-point decimal numeral.
      Anything else is worth 0; but the text after a long enough fraction is never looked at. */
  function Amount(s: string): nat {
    var whole := DigitPrefix(s);
    var rest := s[|whole|..];
    if rest == "" then Value(whole)
    else if Places(rest[0]) == 0 then 0
    else
      var fraction := DigitPrefix(rest[1..]);
      if |fraction| < |rest[1..]| && |fraction| <= Places(rest[0]) then 0
      else ValueConcat(whole, Fraction(fraction, Places(rest[0])))
  }

  /** Digits, a suffix and digits are a fixed-point numeral, in which only the first 3 (or 6) fractional
      digits count: longer fractions are cut, whatever follows them, and shorter ones must end the text. */
  lemma AmountOfSuffixed(whole: string, c: char, fraction: string, junk: string)
    requires AllDigits(whole) && AllDigits(fraction) && Places(c) > 0
    requires junk != "" ==> !IsDigit(junk[0])
    ensures Amount(whole + [c] + fraction + junk) ==
            if junk != "" && |fraction| <= Places(c) then 0 else ValueConcat(whole, Fraction(fraction, Places(c)))
  {
    var s := whole + [c] + fraction + junk;
    assert forall i :: 0 <= i < |whole| ==> s[i] == whole[i];
    DigitPrefixIs(s, |whole|);
    assert s[..|whole|] == whole;
    var tail := s[|whole|..][1..];
    assert tail == fraction + junk;
    assert forall i :: 0 <= i < |fraction| ==> tail[i] == fraction[i];
    assert junk != "" ==> tail[|fraction|] == junk[0];
    DigitPrefixIs(tail, |fraction|);
    assert tail[..|fraction|] == fraction;
  }

  /** Digits alone are worth their decimal value. */
  lemma AmountOfDigits(s: string)
    requires AllDigits(s)
    ensures Amount(s) == Value(s)
  {
    DigitPrefixIs(s, |s|);
    assert s[..|s|] == s;
  }

  /** Padding with zeros scales by the places that are left. */
  lemma PaddedFraction(whole: string, f: string, places: nat)
    requires AllDigits(whole) && AllDigits(f) && |f| <= places
    ensures AllDigits(whole + f) && ValueConcat(whole, Fraction(f, places)) == Value(whole + f) * Pow10(places - |f|)
  {
    ValueZeros(whole + f, places - |f|);
    if |f| == places {
      assert Fraction(f, places) == f;
      assert whole + f + Zeros(0) == whole + f;
    } else {
      assert whole + Fraction(f, places) == whole + f + Zeros(places - |f|);
    }
  }

  /** The value of the whole part and the first j fractional digits, in units of the last place. */
  function Scaled(whole: string, f: string, places: nat, j: nat): nat
    requires AllDigits(whole) && AllDigits(f) && j <= |f| && j <= places
  {
    ValueConcat(whole, f[..j]) * Pow10(places - j)
  }

  function PlaceValue(c: char, unit: nat): (v: nat)
    requires IsDigit(c)
  {
    DigitOf(c) * unit
  }

  /** One more digit, at its place value. */
  lemma ScaledStep(whole: string, f: string, places: nat, j: nat, unit: nat)
    requires AllDigits(whole) && AllDigits(f) && j < |f| && j < places
    requires unit == Pow10(places - j) / 10
    ensures unit == Pow10(places - (j + 1))
    ensures Scaled(whole, f, places, j + 1) == Scaled(whole, f, places, j) + PlaceValue(f[j], unit)
  {
    var before := whole + f[..j];
    assert AllDigits(before);
    assert whole + f[..j + 1] == before + [f[j]];
    ValueSnoc(before, f[j]);
    ScaleStep(Value(before), DigitOf(f[j]), Pow10(places - j - 1));
  }

  lemma ScaledStart(whole: string, f: string, places: nat)
    requires AllDigits(whole) && AllDigits(f)
    ensures Scaled(whole, f, places, 0) == Value(whole) * Pow10(places)
  {
    assert whole + f[..0] == whole;
  }

  lemma TimesOne(n: int, p: int)
    requires p == 1
    ensures n * p == n
  {
  }

  lemma ScaledEnd(whole: string, f: string, places: nat, j: nat)
    requires AllDigits(whole) && AllDigits(f)
    requires j == if |f| <= places then |f| else places
    ensures Scaled(whole, f, places, j) == ValueConcat(whole, Fraction(f, places))
  {
    if |f| <= places {
      assert f[..j] == f;
      PaddedFraction(whole, f, places);
    } else {
      assert Fraction(f, places) == f[..j];
      TimesOne(ValueConcat(whole, f[..j]), Pow10(places - j));
    }
  }

  lemma PowersOfTen()
    ensures Pow10(3) == 1000 && Pow10(6) == 1000000
  {
    assert Pow10(2) == 100;
    assert Pow10(4) == 10000;
  }

  lemma PowPositive(n: nat)
    ensures Pow10(n) >= 1 && (Pow10(n) == 1 <==> n == 0)
  {
  }

  /** The digits before the suffix, accumulated one by one. */
  method ScanWhole(str: string) returns (number: nat, i: nat)
    ensures i == |DigitPrefix(str)| && number == Value(DigitPrefix(str))
  {
    i, number := 0, 0;
    while IsDigit(At(str, i))
      invariant i <= |str| && AllDigits(str[..i]) && number == Value(str[..i])
      decreases |str| - i
    {
      assert str[..i + 1] == str[..i] + [str[i]];
      ValueSnoc(str[..i], str[i]);
      number := number * 10 + DigitOf(str[i]);
      i := i + 1;
    }
    DigitPrefixIs(str, i);
  }

  /** How many fractional digits count. */
  function Used(f: string, places: nat): nat {
    if |f| <= places then |f| else places
  }

  /** Among the digits of the prefix, position j of the tail is a digit exactly below its length. */
  lemma InPrefix(str: string, start: nat, j: nat)
    requires start <= |str| && j <= |DigitPrefix(str[start..])|
    ensures var f := DigitPrefix(str[start..]);
      (IsDigit(At(str, start + j)) <==> j < |f|) && (j < |f| ==> f[j] == str[start + j])
  {
    var tail := str[start..];
    var f := DigitPrefix(tail);
    assert j < |tail| ==> tail[j] == str[start + j];
    assert j < |f| ==> f[j] == tail[j];
  }

  /** Whether there is another turn of the loop over the fractional digits. */
  lemma FractionGuard(str: string, start: nat, places: nat, j: nat, multiplier: nat)
    requires start <= |str| && j <= Used(DigitPrefix(str[start..]), places) && multiplier == Pow10(places - j)
    ensures (IsDigit(At(str, start + j)) && multiplier > 1) <==> j < Used(DigitPrefix(str[start..]), places)
  {
    InPrefix(str, start, j);
    PowPositive(places - j);
  }

  /** What such a turn adds. */
  lemma FractionStep(str: string, start: nat, whole: string, places: nat, j: nat, unit: nat)
    requires start <= |str| && AllDigits(whole) && j < Used(DigitPrefix(str[start..]), places)
    requires unit == Pow10(places - j) / 10
    ensures var f := DigitPrefix(str[start..]);
      && unit == Pow10(places - (j + 1)) && start + j < |str| && IsDigit(str[start + j])
      && Scaled(whole, f, places, j + 1) == Scaled(whole, f, places, j) + PlaceValue(str[start + j], unit)
  {
    InPrefix(str, start, j);
    ScaledStep(whole, DigitPrefix(str[start..]), places, j, unit);
  }

  /** One turn of that loop. */
  method AddDigit(str: string, i: nat, before: nat, multiplier: nat,
                  ghost start: nat, ghost whole: string, ghost places: nat, ghost j: nat)
    returns (number: nat, unit: nat)
    requires start <= |str| && AllDigits(whole) && j < Used(DigitPrefix(str[start..]), places) && i == start + j < |str|
    requires multiplier == Pow10(places - j) && before == Scaled(whole, DigitPrefix(str[start..]), places, j)
    ensures unit == Pow10(places - (j + 1))
    ensures number == Scaled(whole, DigitPrefix(str[start..]), places, j + 1)
  {
    unit := multiplier / 10;
    FractionStep(str, start, whole, places, j, unit);
    number := before + PlaceValue(str[i], unit);
  }

  /** The digits after the suffix: each adds its own place value, until the multiplier has come down to 1. */
  method ScanFraction(str: string, start: nat, ghost whole: string, ghost places: nat, scaled: nat, scale: nat)
    returns (number: nat, i: nat)
    requires start <= |str| && AllDigits(whole)
    requires scale == Pow10(places) && scaled == Value(whole) * Pow10(places)
    ensures var f := DigitPrefix(str[start..]);
      i == start + Used(f, places) && number == ValueConcat(whole, Fraction(f, places))
  {
    ghost var f := DigitPrefix(str[start..]);
    ghost var used := Used(f, places);
    ScaledStart(whole, f, places);
    i, number := start, scaled;
    var multiplier := scale;
    ghost var j := 0;
    while IsDigit(At(str, i)) && multiplier > 1
      invariant j <= used && i == start + j
      invariant multiplier == Pow10(places - j)
      invariant number == Scaled(whole, f, places, j)
      decreases used - j
    {
      FractionGuard(str, start, places, j, multiplier);
      assert j < used;
      number, multiplier := AddDigit(str, i, number, multiplier, start, whole, places, j);
      i := i + 1;
      j := j + 1;
    }
    FractionGuard(str, start, places, j, multiplier);
    ScaledEnd(whole, f, places, j);
  }

  /** The part of advatoi after the suffix, at position i. */
  method AddFraction(str: string, i: nat, whole: nat, multiplier: nat) returns (number: nat)
    requires '\0' !in str && i == |DigitPrefix(str)| < |str| && whole == Value(DigitPrefix(str))
    requires Places(str[i]) > 0 && multiplier == Pow10(Places(str[i]))
    ensures number == Amount(str)
  {
    var end;
    number, end := ScanFraction(str, i + 1, DigitPrefix(str), Places(str[i]), whole * multiplier, multiplier);
    assert str[i..][1..] == str[i + 1..];
    if At(str, end) != '\0' && !IsDigit(At(str, end)) {
      return 0;
    }
  }

  method AdvAtoi(s: string) returns (number: nat)
    requires '\0' !in s
    ensures number == Amount(Clip(s))
  {
    var str := Clip(s);
    var i;
    number, i := ScanWhole(str);
    PowersOfTen();
    var multiplier := 0;
    match Upper(At(str, i)) {
      case 'K' => multiplier := 1000;
      case 'M' => multiplier := 1000000;
      case '\0' => return;
      case _ => return 0;
    }
    number := AddFraction(str, i, number, multiplier);
  }

  // ---------------------------------------------------------------- parsebet

  /** atoi: blanks, an optional sign, then as many digits as there are. */
  function Atoi(s: string): int {
    var t := SkipSpace(s);
    if t != "" && t[0] == '-' then 0 - Value(DigitPrefix(t[1..]))
    else if t != "" && t[0] == '+' then Value(DigitPrefix(t[1..]))
    else Value(DigitPrefix(t))
  }

  /** The bid raised by a percentage. */
  function Raised(current: int, percent: int): int {
    TruncDiv(current * (100 + percent), 100)
  }

  /** parsebet: an amount, "+" or "+percent" over the current bid, or "*" / "x" and a factor. */
  function ParseBet(current: int, argument: string): int {
    var s := Clip(argument);
    if s == "" then 0
    else if IsDigit(s[0]) then Amount(s)
    else if s[0] == '+' then
      if |s| == 1 then TruncDiv(current * 125, 100) else Raised(current, Atoi(s[1..]))
    else if s[0] == '*' || s[0] == 'x' then
      if |s| == 1 then current * 2 else current * Atoi(s[1..])
    else 0
  }

  /** A bare "+" raises by a quarter, which is the required step of 100 exactly from 400 upward; a bare "*"
      doubles, which is enough exactly from 100 upward. */
  lemma BareRaise(current: nat)
    ensures ParseBet(current, "+") >= current + 100 <==> current >= 400
    ensures ParseBet(current, "*") >= current + 100 <==> current >= 100
    ensures ParseBet(current, "x") == ParseBet(current, "*")
  {
  }

  lemma PrefixOfDigits(n: string)
    requires AllDigits(n)
    ensures DigitPrefix(n) == n
  {
    DigitPrefixIs(n, |n|);
    assert n[..|n|] == n;
  }

  lemma AtoiOfDigits(n: string)
    requires n != "" && AllDigits(n)
    ensures Atoi(n) == Value(n)
  {
    assert IsDigit(n[0]);
    PrefixOfDigits(n);
  }

  lemma ScaledDown(current: nat, n: nat)
    ensures TruncDiv(current * (100 + (0 - n)), 100) <= current
    ensures current * (0 - n) <= current
  {
    assert current * (100 + (0 - n)) == 100 * current - current * n;
    assert current * n >= 0;
  }

  lemma SignedRaise(current: int, c: char, n: string)
    requires n != "" && |n| < MAX_INPUT_LENGTH - 1 && c in ['+', '*', 'x']
    ensures ParseBet(current, [c] + n) ==
            if c == '+' then Raised(current, Atoi(n)) else current * Atoi(n)
  {
    var s := [c] + n;
    assert s[1..] == n && Clip(s) == s;
  }

  /** A sign before the number: nothing below 0 ever raises a bid. */
  lemma NegativeRaise(current: nat, c: char, n: string)
    requires n != "" && AllDigits(n) && |n| < MAX_INPUT_LENGTH - 2 && c in ['+', '*', 'x']
    ensures ParseBet(current, [c] + (['-'] + n)) <= current
  {
    var signed := ['-'] + n;
    SignedRaise(current, c, signed);
    assert signed[0] == '-' && signed[1..] == n;
    PrefixOfDigits(n);
    assert Atoi(signed) == 0 - Value(n);
    ScaledDown(current, Value(n));
  }

  /** "*" or "x" and a whole number multiplies. */
  lemma NumberedFactor(current: nat, c: char, n: string)
    requires n != "" && AllDigits(n) && |n| < MAX_INPUT_LENGTH - 1 && c in ['*', 'x']
    ensures ParseBet(current, [c] + n) == current * Value(n)
  {
    SignedRaise(current, c, n);
    AtoiOfDigits(n);
  }

  lemma PercentOver(current: nat, percent: nat)
    ensures Raised(current, percent) == current + current * percent / 100
  {
    assert current * (100 + percent) == 100 * current + current * percent;
  }

  /** "+" and a whole number raises by that percentage, rounded down. */
  lemma NumberedRaise(current: nat, n: string)
    requires n != "" && AllDigits(n) && |n| < MAX_INPUT_LENGTH - 1
    ensures ParseBet(current, ['+'] + n) == current + current * Value(n) / 100
  {
    SignedRaise(current, '+', n);
    AtoiOfDigits(n);
    PercentOver(current, Value(n));
  }

  /** A raise by percentage meets the required step of 100 exactly when the percentage is worth that much. */
  lemma PercentIsEnough(current: nat, n: string)
    requires n != "" && AllDigits(n) && |n| < MAX_INPUT_LENGTH - 1
    ensures ParseBet(current, ['+'] + n) >= current + 100 <==> current * Value(n) >= 10000
  {
    NumberedRaise(current, n);
  }
}
