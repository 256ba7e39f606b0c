/** Decimal numerals, printed and read back: Python's str and int on integers. */
module Decimal {
  import opened Options

  function DigitChar(d: nat): (c: char)
    requires d < 10
    ensures '0' <= c <= '9'
  {
    '0' + d as char
  }

  function DigitOf(c: char): (d: nat)
    requires '0' <= c <= '9'
    ensures d < 10
  {
    c as int - '0' as int
  }

  predicate IsDigit(c: char) {
    '0' <= c <= '9'
  }

  predicate AllDigits(s: string) {
    forall i :: 0 <= i < |s| ==> IsDigit(s[i])
  }

  /** str(n) */
  function Print(n: nat): (s: string)
    ensures s != "" && AllDigits(s)
  {
    if n < 10 then [DigitChar(n)] else Print(n / 10) + [DigitChar(n % 10)]
  }

  function Value(s: string): nat
    requires AllDigits(s)
  {
    if s == "" then 0 else 10 * Value(s[..|s| - 1]) + DigitOf(s[|s| - 1])
  }

  /** int(s) on plain digits; None is the ValueError. */
  function Parse(s: string): Option<nat> {
    if s != "" && AllDigits(s) then Some(Value(s)) else None
  }

  lemma {:induction false} ValueOfPrint(n: nat)
    ensures Value(Print(n)) == n
  {
    if n >= 10 {
      ValueOfPrint(n / 10);
      assert Print(n)[..|Print(n)| - 1] == Print(n / 10);
    }
  }

  lemma ParsePrint(n: nat)
    ensures Parse(Print(n)) == Some(n)
  {
    ValueOfPrint(n);
  }

  /** str(i) */
  function PrintInt(i: int): (s: string)
    ensures s != ""
  {
    if i < 0 then "-" + Print(-i) else Print(i)
  }

  /** The value of -?\d+, as int reads it; None for any other text. */
  function ParseInt(s: string): Option<int> {
    if s != "" && s[0] == '-' then
      var m := Parse(s[1..]);
      if m.Some? then Some(0 - m.value) else None
    else
      var m := Parse(s);
      if m.Some? then Some(m.value) else None
  }

  lemma ParsePrintInt(i: int)
    ensures ParseInt(PrintInt(i)) == Some(i)
  {
    if i < 0 {
      ParsePrint(-i);
    } else {
      ParsePrint(i);
    }
  }

  // ---------------------------------------------------------------- int, on any text without blanks around it

  /** Digits, with single underscores between them. */
  predicate Grouped(s: string)
    decreases |s|
  {
    s != "" && IsDigit(s[0]) && (|s| == 1 || Grouped(if s[1] == '_' then s[2..] else s[1..]))
  }

  /** The digits of a text. */
  function Digits(s: string): (d: string)
    ensures AllDigits(d)
  {
    if s == "" then "" else (if IsDigit(s[0]) then [s[0]] else []) + Digits(s[1..])
  }

  /** A text without its sign. */
  function Body(s: string): string {
    if s != "" && (s[0] == '-' || s[0] == '+') then s[1..] else s
  }

  function Signed(negative: bool, body: string): Option<int> {
    if !Grouped(body) then None else if negative then Some(0 - Value(Digits(body))) else Some(Value(Digits(body)))
  }

  /** int(s): an optional sign and grouped digits; None is the ValueError. */
  function ReadInt(s: string): Option<int> {
    Signed(s != "" && s[0] == '-', Body(s))
  }

  lemma {:induction false} DigitsOfDigits(s: string)
    requires AllDigits(s)
    ensures Digits(s) == s && (s != "" ==> Grouped(s))
  {
    if s == "" {
    } else {
      DigitsOfDigits(s[1..]);
      assert s == [s[0]] + s[1..];
    }
  }

  lemma SignedDigits(negative: bool, s: string)
    requires s != "" && AllDigits(s)
    ensures Signed(negative, s) == Some(if negative then 0 - Value(s) else Value(s))
  {
    DigitsOfDigits(s);
  }

  lemma BodyOf(s: string)
    requires s != "" && AllDigits(s)
    ensures Body(s) == s && s[0] != '-' && Body("-" + s) == s
  {
    assert IsDigit(s[0]);
    assert ("-" + s)[1..] == s;
  }

  lemma ReadIntOfDigits(s: string)
    requires s != "" && AllDigits(s)
    ensures ReadInt(s) == Some(Value(s))
  {
    BodyOf(s);
    SignedDigits(false, s);
  }

  lemma ReadIntOfNegative(s: string)
    requires s != "" && AllDigits(s)
    ensures ReadInt("-" + s) == Some(0 - Value(s))
  {
    BodyOf(s);
    SignedDigits(true, s);
  }

  lemma ReadIntOf(s: string, digits: string, i: int)
    requires digits != "" && AllDigits(digits) && Value(digits) == (if i < 0 then -i else i)
    requires s == if i < 0 then "-" + digits else digits
    ensures ReadInt(s) == Some(i)
  {
    if i < 0 {
      ReadIntOfNegative(digits);
    } else {
      ReadIntOfDigits(digits);
    }
  }

  /** What str prints, int reads. */
  lemma ReadPrintInt(i: int)
    ensures ReadInt(PrintInt(i)) == Some(i)
  {
    var n := if i < 0 then -i else i;
    ValueOfPrint(n);
    ReadIntOf(PrintInt(i), Print(n), i);
  }

  lemma {:induction false} DigitsConcat(a: string, b: string)
    ensures Digits(a + b) == Digits(a) + Digits(b)
  {
    if a == "" {
      assert a + b == b;
    } else {
      var first := if IsDigit(a[0]) then [a[0]] else [];
      DigitsConcat(a[1..], b);
      assert (a + b)[0] == a[0] && (a + b)[1..] == a[1..] + b;
      assert first + (Digits(a[1..]) + Digits(b)) == first + Digits(a[1..]) + Digits(b);
    }
  }

  lemma {:induction false} GroupedConcat(a: string, b: string)
    requires a != "" && b != "" && AllDigits(a) && AllDigits(b)
    ensures Grouped(a + ['_'] + b)
  {
    DigitsOfDigits(b);
    var s := a + ['_'] + b;
    if |a| == 1 {
      assert s[2..] == b;
    } else {
      GroupedConcat(a[1..], b);
      assert s[1..] == a[1..] + ['_'] + b;
    }
  }

  lemma {:induction false} NoTrailingGroup(a: string)
    requires a != "" && AllDigits(a)
    ensures !Grouped(a + ['_'])
  {
    var s := a + ['_'];
    if |a| == 1 {
      assert s[2..] == "";
    } else {
      NoTrailingGroup(a[1..]);
      assert s[1..] == a[1..] + ['_'];
    }
  }

  lemma NoDigit(c: char)
    requires !IsDigit(c)
    ensures Digits([c]) == ""
  {
  }

  lemma GroupedDigits(a: string, b: string)
    requires AllDigits(a) && AllDigits(b)
    ensures Digits(a + ['_'] + b) == a + b
  {
    calc {
      Digits(a + ['_'] + b);
    == { DigitsConcat(a + ['_'], b); DigitsOfDigits(b); }
      Digits(a + ['_']) + b;
    == { DigitsConcat(a, ['_']); DigitsOfDigits(a); NoDigit('_'); }
      a + "" + b;
    ==
      a + b;
    }
  }

  /** int drops an underscore between digits, and refuses one at an end. */
  lemma {:induction false} IntReadsGroups(a: string, b: string)
    requires a != "" && b != "" && AllDigits(a) && AllDigits(b)
    ensures AllDigits(a + b) && ReadInt(a + ['_'] + b) == Some(Value(a + b))
    ensures ReadInt(['_'] + a) == None && ReadInt(a + ['_']) == None
  {
    GroupedConcat(a, b);
    GroupedDigits(a, b);
    NoTrailingGroup(a);
    assert IsDigit((a + ['_'] + b)[0]) && IsDigit((a + ['_'])[0]);
  }

  lemma SignedBody(a: string, sign: char)
    requires a != "" && sign in ['+', '-']
    ensures Body([sign] + a) == a && ([sign] + a)[0] == sign
  {
    assert ([sign] + a)[1..] == a;
  }

  /** It drops a plus sign, too, and takes one sign only. */
  lemma IntReadsSigns(a: string, sign: char, other: char)
    requires a != "" && AllDigits(a) && sign in ['+', '-'] && other in ['+', '-']
    ensures ReadInt([sign] + a) == Some(if sign == '-' then 0 - Value(a) else Value(a))
    ensures ReadInt([other] + ([sign] + a)) == None
  {
    SignedDigits(sign == '-', a);
    SignedBody(a, sign);
    SignedBody([sign] + a, other);
    assert !Grouped([sign] + a);
  }
}
