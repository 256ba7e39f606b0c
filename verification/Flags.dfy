/** Bit fields written as sums of powers of two, "1|16|256" (scripts/generate-procarea-mobs.py). */
module Flags {
  import opened Arith
  import opened Options
  import opened Sums
  import opened Decimal
  import opened Text

  // ---------------------------------------------------------------- bits of an integer

  /** The k-th bit; a negative number has infinitely many, as in Python. */
  predicate Bit(n: int, k: nat)
    decreases k
  {
    if k == 0 then n % 2 == 1 else Bit(n / 2, k - 1)
  }

  /** a | b */
  function Or(a: int, b: int): (r: int)
    ensures r < 0 <==> a < 0 || b < 0
    decreases if a < 0 then -a else a
  {
    if a == 0 then b else if a == -1 then -1
    else 2 * Or(a / 2, b / 2) + (if a % 2 == 1 || b % 2 == 1 then 1 else 0)
  }

  /** a & ~mask */
  function Clear(a: int, mask: nat): (r: int)
    ensures r < 0 <==> a < 0
    decreases if a < 0 then -a else a
  {
    if a == 0 then 0 else if a == -1 then -1 - mask
    else 2 * Clear(a / 2, mask / 2) + (if a % 2 == 1 && mask % 2 == 0 then 1 else 0)
  }

  lemma {:induction false} BitOfZero(k: nat)
    ensures !Bit(0, k) && Bit(-1, k)
  {
    if k == 0 {
    } else {
      BitOfZero(k - 1);
    }
  }

  lemma {:induction false} BitOfNot(mask: nat, k: nat)
    ensures Bit(-1 - mask, k) <==> !Bit(mask, k)
  {
    if k == 0 {
    } else {
      BitOfNot(mask / 2, k - 1);
      assert (-1 - mask) / 2 == -1 - mask / 2;
    }
  }

  lemma {:induction false} BitOfOr(a: int, b: int, k: nat)
    ensures Bit(Or(a, b), k) <==> Bit(a, k) || Bit(b, k)
    decreases k
  {
    if a == 0 || a == -1 {
      BitOfZero(k);
    } else if k > 0 {
      BitOfOr(a / 2, b / 2, k - 1);
    }
  }

  lemma {:induction false} BitOfClear(a: int, mask: nat, k: nat)
    ensures Bit(Clear(a, mask), k) <==> Bit(a, k) && !Bit(mask, k)
    decreases k
  {
    if a == 0 || a == -1 {
      BitOfZero(k);
      BitOfNot(mask, k);
    } else if k > 0 {
      BitOfClear(a / 2, mask / 2, k - 1);
    }
  }

  /** Numbers without common bits: or is plus. */
  lemma {:induction false} OrIsPlus(a: nat, k: nat, m: nat)
    requires a < Pow2(k)
    ensures Or(a, Pow2(k) * m) == a + Pow2(k) * m
  {
    if k == 0 {
    } else {
      var b := Pow2(k - 1) * m;
      assert Pow2(k) * m == 2 * b;
      OrIsPlus(a / 2, k - 1, m);
    }
  }

  // ---------------------------------------------------------------- printing and reading

  /** The powers of two in n, lowest first, times `power`. */
  function Powers(n: nat, power: nat): seq<nat> {
    if n == 0 then [] else (if n % 2 == 1 then [power] else []) + Powers(n / 2, 2 * power)
  }

  function PrintAll(ns: seq<nat>): (parts: seq<string>)
    ensures |parts| == |ns| && forall i :: 0 <= i < |ns| ==> parts[i] == Print(ns[i])
  {
    if ns == [] then [] else [Print(ns[0])] + PrintAll(ns[1..])
  }

  /** The parts of flags_to_str before they are joined. */
  function Parts(n: nat, power: nat): seq<string> {
    PrintAll(Powers(n, power))
  }

  /** flags_to_str.  Its loop never ends on a negative number, whose shifts stop at -1. */
  function FlagsToStr(total: nat): string {
    if total == 0 then "0" else Join(Parts(total, 1), '|')
  }

  /** s.strip() */
  function Strip(s: string): string
    decreases |s|
  {
    if s == "" then ""
    else if IsSpace(s[0]) then Strip(s[1..])
    else if IsSpace(s[|s| - 1]) then Strip(s[..|s| - 1])
    else s
  }

  /** The loop of flags_or: parts that are not blank are read as numbers and or-ed; None is a ValueError. */
  function OrParts(total: int, parts: seq<string>): Option<int>
    decreases |parts|
  {
    if parts == [] then Some(total)
    else
      var part := Strip(parts[0]);
      if part == "" then OrParts(total, parts[1..])
      else
        var n := ReadInt(part);
        if n.None? then None else OrParts(Or(total, n.value), parts[1..])
  }

  /** flags_or */
  function FlagsOr(text: string): Option<int> {
    OrParts(0, Split(text, '|'))
  }

  predicate Blank(s: string) {
    forall i :: 0 <= i < |s| ==> IsSpace(s[i])
  }

  /** What is stripped is blank, and what is left neither begins nor ends with a blank. */
  lemma {:induction false} StripMeans(s: string) returns (before: string, after: string)
    ensures s == before + Strip(s) + after && Blank(before) && Blank(after)
    ensures Strip(s) != "" ==> !IsSpace(Strip(s)[0]) && !IsSpace(Strip(s)[|Strip(s)| - 1])
    decreases |s|
  {
    before, after := "", "";
    if s == "" {
    } else if IsSpace(s[0]) {
      before, after := StripMeans(s[1..]);
      assert s == [s[0]] + (before + Strip(s) + after);
      before := [s[0]] + before;
    } else if IsSpace(s[|s| - 1]) {
      before, after := StripMeans(s[..|s| - 1]);
      assert s == (before + Strip(s) + after) + [s[|s| - 1]];
      after := after + [s[|s| - 1]];
    }
  }

  /** A part that is not blank and no number either. */
  predicate BadPart(part: string) {
    Strip(part) != "" && ReadInt(Strip(part)).None?
  }

  /** A part that is not blank and has that bit. */
  predicate HasBit(part: string, k: nat) {
    Strip(part) != "" && ReadInt(Strip(part)).Some? && Bit(ReadInt(Strip(part)).value, k)
  }

  lemma FirstOrRest(parts: seq<string>, k: nat)
    requires parts != []
    ensures (exists part :: part in parts && BadPart(part)) <==>
            BadPart(parts[0]) || exists part :: part in parts[1..] && BadPart(part)
    ensures (exists part :: part in parts && HasBit(part, k)) <==>
            HasBit(parts[0], k) || exists part :: part in parts[1..] && HasBit(part, k)
  {
    assert parts[0] in parts && forall part :: part in parts[1..] ==> part in parts;
    assert forall part :: part in parts ==> part == parts[0] || part in parts[1..];
  }

  lemma {:induction false} OrPartsMeans(total: int, parts: seq<string>, k: nat)
    ensures OrParts(total, parts).None? <==> exists part :: part in parts && BadPart(part)
    ensures OrParts(total, parts).Some? ==>
      (Bit(OrParts(total, parts).value, k) <==> Bit(total, k) || exists part :: part in parts && HasBit(part, k))
    decreases |parts|
  {
    if parts == [] {
    } else {
      var rest, n := parts[1..], ReadInt(Strip(parts[0]));
      FirstOrRest(parts, k);
      if Strip(parts[0]) == "" {
        OrPartsMeans(total, rest, k);
      } else if n.Some? {
        OrPartsMeans(Or(total, n.value), rest, k);
        BitOfOr(total, n.value, k);
      }
    }
  }

  /** A field is unreadable exactly if one of its parts is; otherwise it has exactly the bits its parts have, whatever
      their order and however often they come. */
  lemma FlagsOrMeans(text: string, k: nat)
    ensures FlagsOr(text).None? <==> exists part :: part in Split(text, '|') && BadPart(part)
    ensures FlagsOr(text).Some? ==>
      (Bit(FlagsOr(text).value, k) <==> exists part :: part in Split(text, '|') && HasBit(part, k))
  {
    OrPartsMeans(0, Split(text, '|'), k);
    BitOfZero(k);
  }

  lemma {:induction false} DigitsStrip(s: string)
    requires AllDigits(s)
    ensures Strip(s) == s
  {
    if s == "" {
    } else {
      assert IsDigit(s[0]) && IsDigit(s[|s| - 1]);
    }
  }

  /** The lowest bit goes to the accumulator, the rest one place further. */
  lemma HalfStep(acc: nat, n: nat, k: nat) returns (acc': nat)
    requires acc < Pow2(k)
    ensures acc' == if n % 2 == 1 then acc + Pow2(k) else acc
    ensures acc + Pow2(k) * n == acc' + Pow2(k + 1) * (n / 2)
    ensures acc' < Pow2(k + 1)
    ensures n % 2 == 1 ==> Or(acc, Pow2(k)) == acc'
  {
    var p, h, b := Pow2(k), n / 2, n % 2;
    assert n == b + 2 * h;
    assert p * (b + 2 * h) == p * b + (2 * p) * h;
    OrIsPlus(acc, k, 1);
    acc' := if b == 1 then acc + p else acc;
  }

  lemma PartsStep(n: nat, power: nat)
    requires n != 0
    ensures Parts(n, power) == (if n % 2 == 1 then [Print(power)] else []) + Parts(n / 2, 2 * power)
  {
    var rest := Powers(n / 2, 2 * power);
    if n % 2 == 1 {
      assert ([power] + rest)[1..] == rest;
    } else {
      assert [] + rest == rest;
    }
  }

  lemma OrOnePart(acc: nat, n: nat, rest: seq<string>)
    ensures OrParts(acc, [Print(n)] + rest) == OrParts(Or(acc, n), rest)
  {
    assert ([Print(n)] + rest)[1..] == rest;
    DigitsStrip(Print(n));
    ReadIntOfDigits(Print(n));
    ValueOfPrint(n);
  }

  lemma OrStep(acc: nat, n: nat, k: nat) returns (acc': nat)
    requires acc < Pow2(k) && n != 0
    ensures acc + Pow2(k) * n == acc' + Pow2(k + 1) * (n / 2) && acc' < Pow2(k + 1)
    ensures OrParts(acc, Parts(n, Pow2(k))) == OrParts(acc', Parts(n / 2, Pow2(k + 1)))
  {
    acc' := HalfStep(acc, n, k);
    PartsStep(n, Pow2(k));
    var rest := Parts(n / 2, Pow2(k + 1));
    OrOnePart(acc, Pow2(k), rest);
    assert [] + rest == rest;
  }

  lemma OrNothing(acc: nat, power: nat)
    ensures OrParts(acc, Parts(0, power)) == Some(acc)
  {
    assert Parts(0, power) == [];
  }

  lemma {:induction false} OrPowers(acc: nat, n: nat, k: nat, sum: nat)
    requires acc < Pow2(k) && sum == acc + Pow2(k) * n
    ensures OrParts(acc, Parts(n, Pow2(k))) == Some(sum)
    decreases n
  {
    if n == 0 {
      OrNothing(acc, Pow2(k));
    } else {
      var acc' := OrStep(acc, n, k);
      OrPowers(acc', n / 2, k + 1, sum);
    }
  }

  lemma {:induction false} PowersNonEmpty(n: nat, power: nat)
    requires n > 0
    ensures Powers(n, power) != []
  {
    if n % 2 == 0 {
      PowersNonEmpty(n / 2, 2 * power);
    }
  }

  lemma ZeroRoundTrip()
    ensures FlagsToStr(0) == "0" && OrParts(0, ["0"]) == Some(0) && FlagsOr("0") == Some(0)
  {
    assert Print(0) == "0" && ["0"] == [Print(0)] + [];
    OrOnePart(0, 0, []);
    SplitFree("0", '|');
  }

  lemma PartsRoundTrip(n: nat)
    requires n > 0
    ensures Split(FlagsToStr(n), '|') == Parts(n, 1)
  {
    var parts := Parts(n, 1);
    PowersNonEmpty(n, 1);
    forall i | 0 <= i < |parts| ensures Free(parts[i], '|') {
      assert AllDigits(parts[i]);
    }
    SplitJoin(parts, '|');
  }

  /** flags_or undoes flags_to_str, for every non-negative number. */
  lemma {:induction false} FlagsRoundTrip(n: nat)
    ensures FlagsOr(FlagsToStr(n)) == Some(n)
  {
    if n == 0 {
      ZeroRoundTrip();
    } else {
      PartsRoundTrip(n);
      OrPowers(0, n, 0, n);
    }
  }

  // ---------------------------------------------------------------- susceptibilities and charm

  const IMM_SLEEP: nat := 1024
  const IMM_CHARM: nat := 2048
  const IMM_HOLD: nat := 4096

  const SLEEP_BIT: nat := 10
  const CHARM_BIT: nat := 11
  const HOLD_BIT: nat := 12

  /** The three bits sanitize_susc takes away, one after the other. */
  function Cleaned(n: int): int {
    Clear(Clear(Clear(n, IMM_SLEEP), IMM_HOLD), IMM_CHARM)
  }

  /** How a call ends: with a value, with a ValueError, or never. */
  datatype Outcome<+T> = Done(value: T) | Fails | Hangs

  /** Printing what may be negative. */
  function Printed(total: int): Outcome<string> {
    if total < 0 then Hangs else Done(FlagsToStr(total))
  }

  /** sanitize_susc */
  function SanitizeSusc(flags: string): Outcome<string> {
    if flags == "" || Strip(flags) == "0" then Done("0")
    else
      var total := FlagsOr(flags);
      if total.None? then Fails else Printed(Cleaned(total.value))
  }

  /** apply_charm_immunity, which reads and prints M_immune before it looks at susc. */
  function ApplyCharmImmunity(immune: string, mImmune: string, susc: string): Outcome<(string, string, string)> {
    var m, s := FlagsOr(mImmune), FlagsOr(susc);
    if m.None? then Fails
    else if m.value < 0 then Hangs
    else if s.None? then Fails
    else if s.value < 0 then Hangs
    else Done((immune, FlagsToStr(Or(m.value, IMM_CHARM)), FlagsToStr(Clear(s.value, IMM_CHARM))))
  }

  lemma {:induction false} BitOfPow2(j: nat, k: nat)
    ensures Bit(Pow2(j), k) <==> j == k
  {
    PowPositive(j);
    if k > 0 {
      if j > 0 {
        assert Pow2(j) / 2 == Pow2(j - 1);
        BitOfPow2(j - 1, k - 1);
      } else {
        BitOfZero(k - 1);
      }
    } else if j > 0 {
      assert Pow2(j) % 2 == 0;
    }
  }

  lemma MaskBits(k: nat)
    ensures Bit(IMM_SLEEP, k) <==> k == SLEEP_BIT
    ensures Bit(IMM_CHARM, k) <==> k == CHARM_BIT
    ensures Bit(IMM_HOLD, k) <==> k == HOLD_BIT
  {
    assert Pow2(5) == 32;
    assert Pow2(9) == 16 * Pow2(5);
    assert Pow2(10) == IMM_SLEEP && Pow2(11) == IMM_CHARM && Pow2(12) == IMM_HOLD;
    BitOfPow2(10, k);
    BitOfPow2(11, k);
    BitOfPow2(12, k);
  }

  lemma BitOfCleaned(n: int, k: nat)
    ensures Bit(Cleaned(n), k) <==> Bit(n, k) && k != SLEEP_BIT && k != HOLD_BIT && k != CHARM_BIT
  {
    MaskBits(k);
    BitOfClear(n, IMM_SLEEP, k);
    BitOfClear(Clear(n, IMM_SLEEP), IMM_HOLD, k);
    BitOfClear(Clear(Clear(n, IMM_SLEEP), IMM_HOLD), IMM_CHARM, k);
  }

  lemma {:induction false} StripKeepsFree(s: string)
    requires Strip(s) == "0"
    ensures Free(s, '|')
    decreases |s|
  {
    if IsSpace(s[0]) {
      StripKeepsFree(s[1..]);
      assert s == [s[0]] + s[1..];
    } else if IsSpace(s[|s| - 1]) {
      StripKeepsFree(s[..|s| - 1]);
      assert s == s[..|s| - 1] + [s[|s| - 1]];
    }
  }

  lemma {:induction false} ZeroText(flags: string)
    requires flags == "" || Strip(flags) == "0"
    ensures FlagsOr(flags) == Some(0)
  {
    if flags == "" {
      assert OrParts(0, [""]) == Some(0);
    } else {
      StripKeepsFree(flags);
      SplitFree(flags, '|');
      ZeroRoundTrip();
      assert OrParts(0, [flags]) == OrParts(0, ["0"]);
    }
  }

  /** sanitize_susc keeps every bit of a field but sleep, hold and charm, which it clears.  It fails exactly when
      the field cannot be read, and never ends exactly when the field is a negative number. */
  lemma {:induction false} SanitizeMeans(flags: string, k: nat)
    ensures SanitizeSusc(flags).Fails? <==> FlagsOr(flags).None?
    ensures SanitizeSusc(flags).Hangs? <==> FlagsOr(flags).Some? && FlagsOr(flags).value < 0
    ensures SanitizeSusc(flags).Done? ==>
      var before, after := FlagsOr(flags), FlagsOr(SanitizeSusc(flags).value);
      after.Some? && (Bit(after.value, k) <==>
                      Bit(before.value, k) && k != SLEEP_BIT && k != HOLD_BIT && k != CHARM_BIT)
  {
    if flags == "" || Strip(flags) == "0" {
      ZeroText(flags);
      FlagsRoundTrip(0);
      assert FlagsToStr(0) == "0";
      BitOfZero(k);
    } else if FlagsOr(flags).Some? && FlagsOr(flags).value >= 0 {
      FlagsRoundTrip(Cleaned(FlagsOr(flags).value));
      BitOfCleaned(FlagsOr(flags).value, k);
    }
  }

  /** A field that can be read, as a non-negative number. */
  predicate Readable(text: string) {
    FlagsOr(text).Some? && FlagsOr(text).value >= 0
  }

  /** apply_charm_immunity adds charm to M_immune, takes it out of susc, and changes nothing else; it comes to an
      end with a value exactly when both fields are readable. */
  lemma {:induction false} CharmImmunityMeans(immune: string, mImmune: string, susc: string, k: nat)
    ensures ApplyCharmImmunity(immune, mImmune, susc).Done? <==> Readable(mImmune) && Readable(susc)
    ensures ApplyCharmImmunity(immune, mImmune, susc).Done? ==>
      var r := ApplyCharmImmunity(immune, mImmune, susc).value;
      && r.0 == immune && FlagsOr(r.1).Some? && FlagsOr(r.2).Some?
      && (Bit(FlagsOr(r.1).value, k) <==> Bit(FlagsOr(mImmune).value, k) || k == CHARM_BIT)
      && (Bit(FlagsOr(r.2).value, k) <==> Bit(FlagsOr(susc).value, k) && k != CHARM_BIT)
  {
    if Readable(mImmune) && Readable(susc) {
      var m, s := FlagsOr(mImmune).value, FlagsOr(susc).value;
      FlagsRoundTrip(Or(m, IMM_CHARM));
      FlagsRoundTrip(Clear(s, IMM_CHARM));
      MaskBits(k);
      BitOfOr(m, IMM_CHARM, k);
      BitOfClear(s, IMM_CHARM, k);
    }
  }

  // ---------------------------------------------------------------- the loops

  lemma PartsMove(bits: seq<string>, value: nat, power: nat)
    requires value != 0
    ensures bits + Parts(value, power) ==
            (bits + if value % 2 == 1 then [Print(power)] else []) + Parts(value / 2, 2 * power)
  {
    PartsStep(value, power);
    ConcatAssoc(bits, if value % 2 == 1 then [Print(power)] else [], Parts(value / 2, 2 * power));
  }

  /** The loop of flags_to_str and of the end of sanitize_susc. */
  method CollectBits(total: nat) returns (bits: seq<string>)
    ensures bits == Parts(total, 1)
  {
    bits := [];
    var power: nat, value: nat := 1, total;
    while value != 0
      invariant bits + Parts(value, power) == Parts(total, 1)
      decreases value
    {
      PartsMove(bits, value, power);
      bits := bits + if value % 2 == 1 then [Print(power)] else [];
      value := value / 2;
      power := 2 * power;
    }
    assert Parts(0, power) == [];
  }

  method PrintFlags(total: nat) returns (text: string)
    ensures text == FlagsToStr(total)
  {
    if total == 0 {
      return "0";
    }
    var bits := CollectBits(total);
    text := Join(bits, '|');
  }

  /** The loop of flags_or. */
  method ReadFlags(text: string) returns (total: Option<int>)
    ensures total == FlagsOr(text)
  {
    var parts := Split(text, '|');
    var sum := 0;
    for i := 0 to |parts|
      invariant OrParts(sum, parts[i..]) == FlagsOr(text)
    {
      assert parts[i..][1..] == parts[i + 1..];
      var part := Strip(parts[i]);
      if part != "" {
        var n := ReadInt(part);
        if n.None? {
          return None;
        }
        sum := Or(sum, n.value);
      }
    }
    total := Some(sum);
  }
}
