/** The combat figures of the procedural mobs (scripts/generate-procarea-mobs.py): build_stats prints them as
    lines of a .mob file, and combat_from_build reads those lines back. */
module MobStats {
  import opened Arith
  import opened Options
  import opened Decimal
  import opened Text
  import opened Flags
  import Floats

  datatype Role = Boss | Mob | Trap

  /** The parts of a mob description that matter here. */
  datatype Desc = Desc(tier: nat, role: Role, slot: nat, race: int, sex: nat)

  datatype Range = Range(lo: int, hi: int)

  datatype Triple = Triple(immune: string, mImmune: string, susc: string)

  /** The act line: the act and affected bits, the alignment, the type of the mob and its number of attacks. */
  datatype Act = Act(flags: string, affected: string, align: int, mobType: string, attacks: nat)

  /** A tier profile; a die "2d6" is given by its two numbers. */
  datatype Profile = Profile(act: Act, level: Range, hitroll: Range, damroll: Range, ac: Range, dice: seq<(nat, nat)>,
                             diceBonus: Range, gold: Range, triples: seq<Triple>, aff: seq<string>, immune: seq<string>)

  const MOB_TYPES: seq<string> := ["L", "A", "B", "N", "S"]

  /** A bit field as the tables write them: digits and bars. */
  predicate FlagText(s: string) {
    s != "" && forall i :: 0 <= i < |s| ==> IsDigit(s[i]) || s[i] == '|'
  }

  predicate ValidAct(a: Act) {
    FlagText(a.flags) && FlagText(a.affected) && a.mobType in MOB_TYPES
  }

  ghost predicate ValidProfile(p: Profile) {
    && p.level.lo <= p.level.hi && p.hitroll.lo <= p.hitroll.hi && p.damroll.lo <= p.damroll.hi
    && p.ac.lo <= p.ac.hi && p.diceBonus.lo <= p.diceBonus.hi && 0 <= p.gold.lo <= p.gold.hi
    && p.dice != [] && p.triples != [] && p.aff != [] && p.immune != [] && ValidAct(p.act)
    && (forall i :: 0 <= i < |p.triples| ==>
          FlagText(p.triples[i].immune) && FlagText(p.triples[i].mImmune) && FlagText(p.triples[i].susc))
    && (forall i :: 0 <= i < |p.aff| ==> FlagText(p.aff[i]))
    && (forall i :: 0 <= i < |p.immune| ==> FlagText(p.immune[i]))
  }

  // ---------------------------------------------------------------- the figures

  function MixSeed(tier: nat, role: Role, slot: nat): nat {
    tier * 1000 + (match role case Mob => 17 case Trap => 43 case Boss => 71) * 10 + slot
  }

  function Pick<T>(seed: nat, pool: seq<T>): (x: T)
    requires pool != []
    ensures x in pool
  {
    pool[seed % |pool|]
  }

  function PickRange(seed: nat, r: Range, salt: nat): (x: int)
    requires r.lo <= r.hi
    ensures r.lo <= x <= r.hi
  {
    r.lo + (seed * 13 + salt * 7) % (r.hi - r.lo + 1)
  }

  lemma AtLeastOnce(k: int, n: nat)
    requires k >= 1
    ensures k * n >= n
  {
    assert k * n == (k - 1) * n + n;
    assert (k - 1) * n >= 0;
  }

  /** There is only one way to divide with a remainder. */
  lemma DivisionIsUnique(q: int, r: int, q': int, r': int, n: nat)
    requires q * n + r == q' * n + r' && 0 <= r < n && 0 <= r' < n
    ensures r == r'
  {
    assert (q - q') * n == r' - r;
    if q > q' {
      AtLeastOnce(q - q', n);
    } else if q < q' {
      assert (q' - q) * n == r - r';
      AtLeastOnce(q' - q, n);
    }
  }

  lemma Rounds(a: nat, b: nat, n: nat) returns (k: int)
    requires n > 0
    ensures (a + b) % n == a % n + b - k * n
  {
    k := (a + b) / n - a / n;
    assert ((a + b) / n) * n - (a / n) * n == k * n;
  }

  /** Seeds count through a pool and start again at its end. */
  lemma PickCycles<T>(seed: nat, pool: seq<T>)
    requires pool != []
    ensures seed < |pool| ==> Pick(seed, pool) == pool[seed]
    ensures Pick(seed + |pool|, pool) == Pick(seed, pool)
  {
    var n := |pool|;
    var q, q' := seed / n, (seed + n) / n;
    assert (q + 1) * n == q * n + n;
    DivisionIsUnique(q', (seed + n) % n, q + 1, seed % n, n);
  }

  /** The next seed goes on by 13 places around the range, and the next salt by 7. */
  lemma PickRangeSteps(seed: nat, r: Range, salt: nat) returns (rounds: int, saltRounds: int)
    requires r.lo <= r.hi
    ensures PickRange(0, r, 0) == r.lo
    ensures PickRange(seed + 1, r, salt) == PickRange(seed, r, salt) + 13 - rounds * (r.hi - r.lo + 1)
    ensures PickRange(seed, r, salt + 1) == PickRange(seed, r, salt) + 7 - saltRounds * (r.hi - r.lo + 1)
  {
    rounds := Rounds(seed * 13 + salt * 7, 13, r.hi - r.lo + 1);
    saltRounds := Rounds(seed * 13 + salt * 7, 7, r.hi - r.lo + 1);
  }

  datatype Figures = Figures(level: int, hitroll: int, damroll: int, ac: int, die: (nat, nat), plus: int, gold: int)

  /** The numbers of build_stats. */
  function FiguresOf(d: Desc, p: Profile): Figures
    requires ValidProfile(p)
  {
    var seed := MixSeed(d.tier, d.role, d.slot);
    var level := PickRange(seed, p.level, 1);
    var hitroll := PickRange(seed, p.hitroll, 2);
    var damroll := PickRange(seed, p.damroll, 3);
    var ac := PickRange(seed, p.ac, 4);
    var die := Pick(seed, p.dice);
    var plus := PickRange(seed, p.diceBonus, 5);
    var gold := PickRange(seed, p.gold, 6);
    match d.role
    case Boss =>
      Figures(Min(p.level.hi + 3, level + 2),
              hitroll + (if p.hitroll.hi >= 0 then 1 else -1),
              damroll + (if p.damroll.hi >= 0 then 1 else -1),
              Max(p.ac.lo, ac - 1), die, plus + 2, Floats.Times14(gold))
    case Trap =>
      Figures(level, hitroll + (if hitroll >= 0 then 1 else -1), damroll, Max(p.ac.lo, ac - 2), die, plus, gold)
    case Mob =>
      Figures(level, hitroll, damroll, ac, die, plus, gold)
  }

  /** The immunities before they are cleaned up: which pool they come from depends on role and tier. */
  function RawTriple(d: Desc, p: Profile): Triple
    requires ValidProfile(p)
  {
    var seed := MixSeed(d.tier, d.role, d.slot);
    var t := Pick(seed, p.triples);
    match d.role
    case Trap => t.(susc := Pick(seed + 5, p.immune))
    case Mob => if d.tier >= 2 then t.(susc := "0") else t
    case Boss =>
      var aff, immune := Pick(seed + 1, p.aff), Pick(seed + 2, p.immune);
      if d.tier < 5 then
        t.(mImmune := if aff != "0" then aff else t.mImmune, susc := if immune != "0" then immune else t.susc)
      else
        t.(immune := if aff != "0" then aff else t.immune, mImmune := if immune != "0" then immune else t.mImmune)
  }

  /** A bit field as it is written in the script: the numbers joined by bars. */
  function Field(bits: seq<nat>): string {
    Join(PrintAll(bits), '|')
  }

  /** The act line of the profile, or of a boss of the higher tiers. */
  function ActOf(d: Desc, p: Profile): Act {
    if d.tier >= 5 && d.role.Boss? then
      Act("2", Field([8, 128, 2048, 32768, 65536, 16777216, 33554432, 134217728]), -1000, "A", 5)
    else if d.tier == 4 && d.role.Boss? then
      Act(Field([2, 2097152]), Field([8, 128, 2048, 32768, 65536, 134217728]), -1000, "A", 2)
    else p.act
  }

  /** sanitize_susc, then apply_charm_immunity. */
  function CleanTriple(t: Triple): Outcome<Triple> {
    match SanitizeSusc(t.susc)
    case Fails => Fails
    case Hangs => Hangs
    case Done(susc) =>
      match ApplyCharmImmunity(t.immune, t.mImmune, susc)
      case Fails => Fails
      case Hangs => Hangs
      case Done(r) => Done(Triple(r.0, r.1, r.2))
  }

  // ---------------------------------------------------------------- printing

  function DiceText(f: Figures): string {
    Print(f.die.0) + "d" + Print(f.die.1) + "+" + PrintInt(f.plus)
  }

  function FightWords(f: Figures): seq<string> {
    [PrintInt(f.level), PrintInt(f.hitroll), PrintInt(f.damroll), PrintInt(f.ac), DiceText(f)]
  }

  function ExtraWords(f: Figures, d: Desc): seq<string> {
    ["-1", PrintInt(f.gold), "0", PrintInt(d.race)]
  }

  function StatWords(t: Triple, d: Desc): seq<string> {
    ["8", "8", Print(3 + d.sex), t.immune, t.mImmune, t.susc]
  }

  function ActWords(a: Act): seq<string> {
    [a.flags, a.affected, PrintInt(a.align), a.mobType, Print(a.attacks)]
  }

  datatype Sheet = Sheet(fight: string, extras: string, statLine: string, act: string)

  /** The four lines, for figures and immunities that are settled. */
  function Lines(f: Figures, t: Triple, a: Act, d: Desc): Sheet {
    Sheet(Join(FightWords(f), ' '), Join(ExtraWords(f, d), ' '), Join(StatWords(t, d), ' '), Join(ActWords(a), ' '))
  }

  /** build_stats */
  function BuildStats(d: Desc, p: Profile): Outcome<Sheet>
    requires ValidProfile(p)
  {
    match CleanTriple(RawTriple(d, p))
    case Fails => Fails
    case Hangs => Hangs
    case Done(t) => Done(Lines(FiguresOf(d, p), t, ActOf(d, p), d))
  }

  // ---------------------------------------------------------------- reading

  datatype Combat = Combat(level: int, hitroll: int, armor: int, hpBonus: int, damN: nat, damS: nat, damPlus: int,
                           gold: int, sex: nat, immune: int, mImmune: int, susc: int,
                           act: int, affectedBy: int, multAtt: nat)

  /** DICE_RE: digits, 'd', digits, '+', an integer. */
  function ReadDice(s: string): Option<(nat, nat, int)> {
    var a := Split(s, 'd');
    if |a| != 2 then None
    else
      var b := Split(a[1], '+');
      if |b| != 2 then None
      else
        var n, m, plus := Parse(a[0]), Parse(b[0]), ParseInt(b[1]);
        if n.None? || m.None? || plus.None? then None else Some((n.value, m.value, plus.value))
  }

  datatype Fight = Fight(level: int, thac0: int, armor: int, hp: int, dice: (nat, nat, int))

  /** Five words that have been read. */
  function FightOf(level: Option<int>, thac0: Option<int>, armor: Option<int>, hp: Option<int>,
                   dice: Option<(nat, nat, int)>): Option<Fight> {
    if level.None? || thac0.None? || armor.None? || hp.None? || dice.None? then None
    else Some(Fight(level.value, thac0.value, armor.value, hp.value, dice.value))
  }

  /** The fight line: five words. */
  function ReadFight(words: seq<string>): Option<Fight> {
    if |words| != 5 then None
    else FightOf(ReadInt(words[0]), ReadInt(words[1]), ReadInt(words[2]), ReadInt(words[3]), ReadDice(words[4]))
  }

  /** The second word of the extras, or nothing. */
  function ReadGold(words: seq<string>): Option<int> {
    if |words| > 1 then ReadInt(words[1]) else Some(0)
  }

  /** STAT_LINE_RE: "8 8", a sex from 3 to 5, and three words. */
  predicate StatHead(words: seq<string>) {
    && |words| == 6 && words[0] == "8" && words[1] == "8" && words[2] in ["3", "4", "5"]
    && Solid(words[3]) && Solid(words[4]) && Solid(words[5])
  }

  function ThreeFields(immune: Option<int>, mImmune: Option<int>, susc: Option<int>): Option<(int, int, int)> {
    if immune.None? || mImmune.None? || susc.None? then None else Some((immune.value, mImmune.value, susc.value))
  }

  function ReadImmunities(words: seq<string>): Option<(int, int, int)> {
    if StatHead(words) then ThreeFields(FlagsOr(words[3]), FlagsOr(words[4]), FlagsOr(words[5])) else None
  }

  function TwoFields(act: Option<int>, affected: Option<int>): Option<(int, int)> {
    if act.None? || affected.None? then None else Some((act.value, affected.value))
  }

  /** parse_act_line */
  function ReadAct(words: seq<string>): Option<(int, int)> {
    if words == [] then Some((0, 0))
    else TwoFields(FlagsOr(words[0]), if |words| > 1 then FlagsOr(words[1]) else Some(0))
  }

  /** parse_mult_att: the number after the first word that is a type of mob, and 1 if there is none. */
  function ReadAttacks(words: seq<string>): nat {
    if |words| < 2 then 1
    else if words[0] in MOB_TYPES then
      var n := Parse(words[1]); if n.Some? then n.value else 1
    else ReadAttacks(words[1..])
  }

  /** The values reported for lines that have been read; None stands for a ValueError. */
  function Report(fight: Option<Fight>, gold: Option<int>, flags: Option<(int, int, int)>, act: Option<(int, int)>,
                  attacks: nat, sex: nat): Outcome<Combat> {
    if fight.None? || gold.None? || flags.None? || act.None? then Fails
    else
      var f := fight.value;
      Done(Combat(f.level, 20 - f.thac0, 10 * f.armor, f.hp, f.dice.0, f.dice.1, f.dice.2, gold.value, sex,
                  flags.value.0, flags.value.1, flags.value.2, act.value.0, act.value.1, attacks))
  }

  /** The reading half of combat_from_build. */
  function ReadSheet(s: Sheet, sex: nat): Outcome<Combat> {
    Report(ReadFight(Words(s.fight)), ReadGold(Words(s.extras)), ReadImmunities(Split(s.statLine, ' ')),
           ReadAct(Words(s.act)), ReadAttacks(Words(s.act)), sex)
  }

  /** combat_from_build */
  function CombatFromBuild(d: Desc, p: Profile): Outcome<Combat>
    requires ValidProfile(p)
  {
    match BuildStats(d, p)
    case Fails => Fails
    case Hangs => Hangs
    case Done(s) => ReadSheet(s, d.sex)
  }

  // ---------------------------------------------------------------- what is read is what was meant

  lemma {:induction false} SplitDigits(s: string)
    requires forall i :: 0 <= i < |s| ==> IsDigit(s[i]) || s[i] == '|'
    ensures forall i :: 0 <= i < |Split(s, '|')| ==> AllDigits(Split(s, '|')[i])
  {
    if s == "" {
    } else {
      SplitDigits(s[1..]);
    }
  }

  lemma {:induction false} OrDigits(total: nat, parts: seq<string>)
    requires forall i :: 0 <= i < |parts| ==> AllDigits(parts[i])
    ensures OrParts(total, parts).Some? && OrParts(total, parts).value >= 0
    decreases |parts|
  {
    if parts == [] {
    } else {
      DigitsStrip(parts[0]);
      if parts[0] == "" {
        OrDigits(total, parts[1..]);
      } else {
        ReadIntOfDigits(parts[0]);
        OrDigits(Or(total, Value(parts[0])), parts[1..]);
      }
    }
  }

  /** Such a field can be read, and has no blanks. */
  lemma FlagTextReads(s: string)
    requires FlagText(s)
    ensures Readable(s) && Solid(s) && Free(s, ' ')
  {
    SplitDigits(s);
    OrDigits(0, Split(s, '|'));
  }

  lemma DigitsFree(s: string, c: char)
    requires AllDigits(s) && !IsDigit(c)
    ensures Free(s, c)
  {
  }

  lemma IntFree(i: int, c: char)
    requires !IsDigit(c) && c != '-'
    ensures Free(PrintInt(i), c)
  {
    DigitsFree(if i < 0 then Print(-i) else Print(i), c);
  }

  lemma FreeConcat(a: string, b: string, c: char)
    requires Free(a, c) && Free(b, c)
    ensures Free(a + b, c)
  {
  }

  lemma DigitsSolid(s: string)
    requires s != "" && AllDigits(s)
    ensures Solid(s)
  {
    assert forall c: char :: IsSpace(c) ==> !IsDigit(c);
  }

  lemma SolidConcat(a: string, b: string)
    requires Solid(a) && Solid(b)
    ensures Solid(a + b)
  {
  }

  lemma IntSolid(i: int)
    ensures Solid(PrintInt(i))
  {
    DigitsSolid(Print(if i < 0 then -i else i));
    if i < 0 {
      SolidConcat("-", Print(-i));
    }
  }

  /** The two splits of a printed die. */
  lemma DiceSplits(n: string, m: string, plus: string)
    requires AllDigits(n) && AllDigits(m) && Free(plus, 'd') && Free(plus, '+')
    ensures Split(n + ['d'] + (m + ['+'] + plus), 'd') == [n, m + ['+'] + plus]
    ensures Split(m + ['+'] + plus, '+') == [m, plus]
  {
    var tail := m + ['+'] + plus;
    DigitsFree(n, 'd');
    DigitsFree(m, 'd');
    FreeConcat(m, ['+'], 'd');
    FreeConcat(m + ['+'], plus, 'd');
    SplitFirst(n, 'd', tail);
    SplitFree(tail, 'd');
    DigitsFree(m, '+');
    SplitFirst(m, '+', plus);
    SplitFree(plus, '+');
  }

  lemma DiceTextIs(f: Figures)
    ensures DiceText(f) == Print(f.die.0) + ['d'] + (Print(f.die.1) + ['+'] + PrintInt(f.plus))
  {
  }

  lemma DiceTextSolid(f: Figures)
    ensures Solid(DiceText(f))
  {
    var n, m, plus := Print(f.die.0), Print(f.die.1), PrintInt(f.plus);
    DigitsSolid(n);
    DigitsSolid(m);
    IntSolid(f.plus);
    SolidConcat(m, ['+']);
    SolidConcat(m + ['+'], plus);
    SolidConcat(n, ['d']);
    SolidConcat(n + ['d'], m + ['+'] + plus);
    DiceTextIs(f);
  }

  /** A die is read back. */
  lemma ReadDiceBack(f: Figures)
    ensures ReadDice(DiceText(f)) == Some((f.die.0, f.die.1, f.plus))
  {
    IntFree(f.plus, 'd');
    IntFree(f.plus, '+');
    DiceSplits(Print(f.die.0), Print(f.die.1), PrintInt(f.plus));
    DiceTextIs(f);
    ParsePrint(f.die.0);
    ParsePrint(f.die.1);
    ParsePrintInt(f.plus);
  }

  lemma FightWordsBack(f: Figures)
    ensures ReadFight(FightWords(f)) == Some(Fight(f.level, f.hitroll, f.damroll, f.ac, (f.die.0, f.die.1, f.plus)))
  {
    ReadPrintInt(f.level);
    ReadPrintInt(f.hitroll);
    ReadPrintInt(f.damroll);
    ReadPrintInt(f.ac);
    ReadDiceBack(f);
  }

  lemma FiveSolid(a: string, b: string, c: string, d: string, e: string)
    requires Solid(a) && Solid(b) && Solid(c) && Solid(d) && Solid(e)
    ensures Words(Join([a, b, c, d, e], ' ')) == [a, b, c, d, e]
  {
    WordsJoin([a, b, c, d, e]);
  }

  lemma FightWordsSolid(f: Figures)
    ensures Words(Join(FightWords(f), ' ')) == FightWords(f)
  {
    IntSolid(f.level);
    IntSolid(f.hitroll);
    IntSolid(f.damroll);
    IntSolid(f.ac);
    DiceTextSolid(f);
    FiveSolid(PrintInt(f.level), PrintInt(f.hitroll), PrintInt(f.damroll), PrintInt(f.ac), DiceText(f));
  }

  lemma GoldBack(f: Figures, d: Desc)
    ensures ReadGold(Words(Join(ExtraWords(f, d), ' '))) == Some(f.gold)
  {
    IntSolid(f.gold);
    IntSolid(d.race);
    WordsJoin(ExtraWords(f, d));
    ReadPrintInt(f.gold);
  }

  lemma SexDigit(sex: nat)
    requires sex <= 2
    ensures Print(3 + sex) in ["3", "4", "5"] && Free(Print(3 + sex), ' ')
  {
    assert sex == 0 || sex == 1 || sex == 2;
  }

  /** The three fields of t, read. */
  ghost predicate Reads(t: Triple, fields: (int, int, int)) {
    FlagsOr(t.immune) == Some(fields.0) && FlagsOr(t.mImmune) == Some(fields.1) && FlagsOr(t.susc) == Some(fields.2)
  }

  predicate FlagTriple(t: Triple) {
    FlagText(t.immune) && FlagText(t.mImmune) && FlagText(t.susc)
  }

  lemma SixFree(a: string, b: string, c: string, d: string, e: string, f: string, sep: char)
    requires Free(a, sep) && Free(b, sep) && Free(c, sep) && Free(d, sep) && Free(e, sep) && Free(f, sep)
    ensures Split(Join([a, b, c, d, e, f], sep), sep) == [a, b, c, d, e, f]
  {
    SplitJoin([a, b, c, d, e, f], sep);
  }

  lemma StatWordsSplit(t: Triple, d: Desc)
    requires d.sex <= 2 && FlagTriple(t)
    ensures Split(Join(StatWords(t, d), ' '), ' ') == StatWords(t, d)
  {
    SexDigit(d.sex);
    FlagTextReads(t.immune);
    FlagTextReads(t.mImmune);
    FlagTextReads(t.susc);
    SixFree("8", "8", Print(3 + d.sex), t.immune, t.mImmune, t.susc, ' ');
  }

  lemma StatHeadBack(t: Triple, d: Desc)
    requires d.sex <= 2 && Solid(t.immune) && Solid(t.mImmune) && Solid(t.susc)
    ensures StatHead(StatWords(t, d))
  {
    SexDigit(d.sex);
  }

  lemma StatWordsBack(t: Triple, d: Desc)
    requires d.sex <= 2 && FlagTriple(t)
    ensures ReadImmunities(StatWords(t, d)).Some? && Reads(t, ReadImmunities(StatWords(t, d)).value)
  {
    FlagTextReads(t.immune);
    FlagTextReads(t.mImmune);
    FlagTextReads(t.susc);
    StatHeadBack(t, d);
  }

  /** A bit field is no type of mob, and neither is a number. */
  lemma NoMobType(s: string)
    requires s != "" && (IsDigit(s[0]) || s[0] == '|' || s[0] == '-')
    ensures s !in MOB_TYPES
  {
  }

  lemma PrintIntStart(i: int)
    ensures IsDigit(PrintInt(i)[0]) || PrintInt(i)[0] == '-'
  {
  }

  lemma ActWordsBack(a: Act)
    requires ValidAct(a)
    ensures ReadAct(ActWords(a)).Some?
    ensures FlagsOr(a.flags) == Some(ReadAct(ActWords(a)).value.0)
    ensures FlagsOr(a.affected) == Some(ReadAct(ActWords(a)).value.1)
  {
    FlagTextReads(a.flags);
    FlagTextReads(a.affected);
  }

  lemma AttacksBack(a: Act)
    requires ValidAct(a)
    ensures ReadAttacks(ActWords(a)) == a.attacks
  {
    var words := ActWords(a);
    PrintIntStart(a.align);
    NoMobType(a.flags);
    NoMobType(a.affected);
    NoMobType(PrintInt(a.align));
    ParsePrint(a.attacks);
    assert words[1..] == [a.affected, PrintInt(a.align), a.mobType, Print(a.attacks)];
    assert words[1..][1..] == [PrintInt(a.align), a.mobType, Print(a.attacks)];
    assert words[1..][1..][1..] == [a.mobType, Print(a.attacks)];
    assert ReadAttacks([a.mobType, Print(a.attacks)]) == a.attacks;
    assert ReadAttacks(words[1..][1..]) == a.attacks;
  }

  /** Without a type of mob that something follows, it is one. */
  lemma {:induction false} AttacksByDefault(words: seq<string>)
    requires forall i :: 0 <= i < |words| - 1 ==> words[i] !in MOB_TYPES
    ensures ReadAttacks(words) == 1
  {
    if |words| < 2 {
    } else {
      AttacksByDefault(words[1..]);
    }
  }

  lemma MobTypeSolid(s: string)
    requires s in MOB_TYPES
    ensures Solid(s)
  {
  }

  lemma ActWordsSolid(a: Act)
    requires ValidAct(a)
    ensures Words(Join(ActWords(a), ' ')) == ActWords(a)
  {
    FlagTextReads(a.flags);
    FlagTextReads(a.affected);
    IntSolid(a.align);
    DigitsSolid(Print(a.attacks));
    MobTypeSolid(a.mobType);
    FiveSolid(a.flags, a.affected, PrintInt(a.align), a.mobType, Print(a.attacks));
  }

  lemma {:induction false} JoinDigits(parts: seq<string>)
    requires parts != [] && forall i :: 0 <= i < |parts| ==> parts[i] != "" && AllDigits(parts[i])
    ensures FlagText(Join(parts, '|'))
  {
    if |parts| == 1 {
    } else {
      JoinDigits(parts[1..]);
    }
  }

  /** Everything flags_to_str prints is such a field. */
  lemma {:induction false} PrintedFlagText(n: nat)
    ensures FlagText(FlagsToStr(n))
  {
    if n == 0 {
    } else {
      PowersNonEmpty(n, 1);
      JoinDigits(Parts(n, 1));
    }
  }

  lemma FieldIsFlags(bits: seq<nat>)
    requires bits != []
    ensures FlagText(Field(bits))
  {
    JoinDigits(PrintAll(bits));
  }

  lemma {:induction false} RawTripleIsFlags(d: Desc, p: Profile)
    requires ValidProfile(p)
    ensures FlagTriple(RawTriple(d, p))
  {
    PrintedFlagText(0);
    assert FlagsToStr(0) == "0";
  }

  lemma ActIsValid(d: Desc, p: Profile)
    requires ValidProfile(p)
    ensures ValidAct(ActOf(d, p))
  {
    if d.role.Boss? && d.tier >= 5 {
      assert FlagText("2");
      FieldIsFlags([8, 128, 2048, 32768, 65536, 16777216, 33554432, 134217728]);
    } else if d.role.Boss? && d.tier == 4 {
      FieldIsFlags([2, 2097152]);
      FieldIsFlags([8, 128, 2048, 32768, 65536, 134217728]);
    }
  }

  /** The cleaned triple, bit by bit. */
  lemma {:induction false} CleanTripleMeans(t: Triple, k: nat)
    requires FlagTriple(t)
    ensures CleanTriple(t).Done? && FlagsOr(t.mImmune).Some? && FlagsOr(t.susc).Some?
    ensures var c := CleanTriple(t).value;
      && c.immune == t.immune && FlagTriple(c) && FlagsOr(c.mImmune).Some? && FlagsOr(c.susc).Some?
      && (Bit(FlagsOr(c.mImmune).value, k) <==> Bit(FlagsOr(t.mImmune).value, k) || k == CHARM_BIT)
      && (Bit(FlagsOr(c.susc).value, k) <==>
          Bit(FlagsOr(t.susc).value, k) && k != SLEEP_BIT && k != HOLD_BIT && k != CHARM_BIT)
  {
    FlagTextReads(t.mImmune);
    FlagTextReads(t.susc);
    SanitizeMeans(t.susc, k);
    var susc := SanitizeSusc(t.susc).value;
    PrintedFlagText(if t.susc == "" || Strip(t.susc) == "0" then 0 else Cleaned(FlagsOr(t.susc).value));
    assert FlagsToStr(0) == "0";
    FlagTextReads(susc);
    CharmImmunityMeans(t.immune, t.mImmune, susc, k);
    PrintedFlagText(Or(FlagsOr(t.mImmune).value, IMM_CHARM));
    PrintedFlagText(Clear(FlagsOr(susc).value, IMM_CHARM));
    FlagTextReads(CleanTriple(t).value.mImmune);
    FlagTextReads(CleanTriple(t).value.susc);
  }

  /** The figures as combat_from_build reports them: 20 minus the hit roll, ten times the damage roll. */
  function Rescaled(f: Figures, sex: nat, fields: (int, int, int), act: (int, int), attacks: nat): Combat {
    Combat(f.level, 20 - f.hitroll, 10 * f.damroll, f.ac, f.die.0, f.die.1, f.plus, f.gold, sex,
           fields.0, fields.1, fields.2, act.0, act.1, attacks)
  }

  lemma ReportBack(f: Figures, sex: nat, fields: (int, int, int), act: (int, int), attacks: nat)
    ensures var fight := Fight(f.level, f.hitroll, f.damroll, f.ac, (f.die.0, f.die.1, f.plus));
      Report(Some(fight), Some(f.gold), Some(fields), Some(act), attacks, sex)
      == Done(Rescaled(f, sex, fields, act, attacks))
  {
  }

  lemma LinesBack(f: Figures, t: Triple, a: Act, d: Desc) returns (fields: (int, int, int), act: (int, int))
    requires d.sex <= 2 && FlagTriple(t) && ValidAct(a)
    ensures Reads(t, fields) && FlagsOr(a.flags) == Some(act.0) && FlagsOr(a.affected) == Some(act.1)
    ensures ReadSheet(Lines(f, t, a, d), d.sex) == Done(Rescaled(f, d.sex, fields, act, a.attacks))
  {
    FightWordsSolid(f);
    FightWordsBack(f);
    GoldBack(f, d);
    StatWordsSplit(t, d);
    StatWordsBack(t, d);
    ActWordsSolid(a);
    ActWordsBack(a);
    AttacksBack(a);
    fields := ReadImmunities(StatWords(t, d)).value;
    act := ReadAct(ActWords(a)).value;
    ReportBack(f, d.sex, fields, act, a.attacks);
  }

  /** What c has to be, given the figures, the immunities and the act line that were meant. */
  ghost predicate Recovered(c: Combat, f: Figures, t: Triple, a: Act, sex: nat) {
    && c == Rescaled(f, sex, (c.immune, c.mImmune, c.susc), (c.act, c.affectedBy), a.attacks)
    && FlagsOr(a.flags) == Some(c.act) && FlagsOr(a.affected) == Some(c.affectedBy)
    && FlagsOr(t.immune) == Some(c.immune) && FlagsOr(t.mImmune).Some? && FlagsOr(t.susc).Some?
    && (forall k: nat :: Bit(c.mImmune, k) <==> Bit(FlagsOr(t.mImmune).value, k) || k == CHARM_BIT)
    && (forall k: nat :: Bit(c.susc, k) <==>
                         Bit(FlagsOr(t.susc).value, k) && k != SLEEP_BIT && k != HOLD_BIT && k != CHARM_BIT)
  }

  lemma CleanLinesRecovered(f: Figures, t: Triple, a: Act, d: Desc)
    requires d.sex <= 2 && FlagTriple(t) && ValidAct(a)
    ensures CleanTriple(t).Done?
    ensures var c := ReadSheet(Lines(f, CleanTriple(t).value, a, d), d.sex);
      c.Done? && Recovered(c.value, f, t, a, d.sex)
  {
    CleanTripleMeans(t, 0);
    var fields, act := LinesBack(f, CleanTriple(t).value, a, d);
    forall k: nat {
      CleanTripleMeans(t, k);
    }
  }

  /** For every archetype and every valid profile, what is read back from the printed lines is exactly what was
      computed: the figures, rescaled, the act line, and the immunities, with charm always among M_immune and with
      sleep, hold and charm never among the susceptibilities. */
  lemma CombatRecoversBuild(d: Desc, p: Profile)
    requires ValidProfile(p) && d.sex <= 2
    ensures var c := CombatFromBuild(d, p);
      c.Done? && Recovered(c.value, FiguresOf(d, p), RawTriple(d, p), ActOf(d, p), d.sex)
  {
    RawTripleIsFlags(d, p);
    ActIsValid(d, p);
    CleanLinesRecovered(FiguresOf(d, p), RawTriple(d, p), ActOf(d, p), d);
  }

  // ---------------------------------------------------------------- how strong a mob can be

  /** A range moved by one, away from zero as its upper end says. */
  function Moved(r: Range): Range {
    if r.hi >= 0 then Range(r.lo + 1, r.hi + 1) else Range(r.lo - 1, r.hi - 1)
  }

  predicate In(x: int, r: Range) {
    r.lo <= x <= r.hi
  }

  /** A boss hits and damages by one more than the profile says, away from zero; a trap's hit roll is never 0 and moves
      by one; the armor of a boss is a point better, and that of a trap two, down to the profile's best. */
  lemma RollsByRole(d: Desc, p: Profile)
    requires ValidProfile(p)
    ensures var f := FiguresOf(d, p);
      && In(f.hitroll, if d.role.Boss? then Moved(p.hitroll) else if d.role.Mob? then p.hitroll
                       else Range(p.hitroll.lo - 1, p.hitroll.hi + 1))
      && (d.role.Trap? ==>
            f.hitroll != 0 && (p.hitroll.lo >= 0 || p.hitroll.hi < 0 ==> In(f.hitroll, Moved(p.hitroll))))
      && In(f.damroll, if d.role.Boss? then Moved(p.damroll) else p.damroll)
      && p.ac.lo <= f.ac <= Max(p.ac.lo, p.ac.hi - if d.role.Boss? then 1 else if d.role.Trap? then 2 else 0)
  {
  }

  /** Where the immunities come from: a trap takes its susceptibilities from the pool of immunities; a boss up to tier
      4 takes M_immune from the affects and the susceptibilities from the immunities; one of a higher tier takes the
      immunities from the affects, and M_immune from the immunities.  A "0" there leaves what the triple says. */
  lemma ImmunitiesByRole(d: Desc, p: Profile)
    requires ValidProfile(p)
    ensures var r := RawTriple(d, p);
      && (d.role.Trap? ==> r.susc in p.immune)
      && (d.role.Boss? && d.tier < 5 ==>
            && ("0" !in p.aff ==> r.mImmune in p.aff) && ("0" !in p.immune ==> r.susc in p.immune)
            && (exists t :: t in p.triples && t.immune == r.immune))
      && (d.role.Boss? && d.tier >= 5 ==>
            && ("0" !in p.aff ==> r.immune in p.aff) && ("0" !in p.immune ==> r.mImmune in p.immune)
            && (exists t :: t in p.triples && t.susc == r.susc))
      && (!d.role.Boss? ==> exists t :: t in p.triples && t.immune == r.immune && t.mImmune == r.mImmune)
  {
    assert Pick(MixSeed(d.tier, d.role, d.slot), p.triples) in p.triples;
  }

  /** The figures stay within the profile, but for the bonus of a boss or trap: a boss is two levels and two
      points of dice bonus up, which never reaches the cap of three levels over the profile; hit and damage
      rolls move by at most one, and armor only down to the profile's best. */
  lemma FiguresWithinProfile(d: Desc, p: Profile)
    requires ValidProfile(p)
    ensures var f, up := FiguresOf(d, p), if d.role.Boss? then 2 else 0;
      && p.level.lo + up <= f.level <= p.level.hi + up
      && p.hitroll.lo - 1 <= f.hitroll <= p.hitroll.hi + 1 && p.damroll.lo - 1 <= f.damroll <= p.damroll.hi + 1
      && p.ac.lo <= f.ac <= p.ac.hi
      && p.diceBonus.lo + up <= f.plus <= p.diceBonus.hi + up && f.die in p.dice
      && (!d.role.Boss? ==> p.gold.lo <= f.gold <= p.gold.hi)
    ensures d.role.Boss? && p.gold.hi <= 0xffff_ffff ==>
      14 * p.gold.lo - 10 <= 10 * FiguresOf(d, p).gold <= 14 * p.gold.hi
    ensures d.role.Mob? ==> p.hitroll.lo <= FiguresOf(d, p).hitroll <= p.hitroll.hi
                            && p.damroll.lo <= FiguresOf(d, p).damroll <= p.damroll.hi
  {
    var gold := PickRange(MixSeed(d.tier, d.role, d.slot), p.gold, 6);
    if p.gold.hi <= 0xffff_ffff {
      Floats.Times14Bounds(gold);
    }
  }

  // ---------------------------------------------------------------- tier and role

  /** The seeds of the three roles and of the tiers, from 170 for the first mob of tier 0. */
  lemma SeedsOfRoles(tier: nat, role: Role, slot: nat)
    ensures MixSeed(0, Mob, 0) == 170
    ensures MixSeed(tier, Trap, slot) == MixSeed(tier, Mob, slot) + 260
    ensures MixSeed(tier, Boss, slot) == MixSeed(tier, Trap, slot) + 280
    ensures MixSeed(tier + 1, Mob, slot) == MixSeed(tier, Boss, slot) + 460
    ensures MixSeed(tier, role, slot + 1) == MixSeed(tier, role, slot) + 1
  {
  }

  /** So with fewer than 260 slots no two descriptions share a seed. */
  lemma SeedsDiffer(a: Desc, b: Desc)
    requires a.slot < 260 && b.slot < 260
    ensures MixSeed(a.tier, a.role, a.slot) == MixSeed(b.tier, b.role, b.slot) <==>
            a.tier == b.tier && a.role == b.role && a.slot == b.slot
  {
  }

  lemma {:induction false} NoBits(n: int)
    requires forall k: nat :: !Bit(n, k)
    ensures n == 0
    decreases if n < 0 then -n else n
  {
    assert !Bit(n, 0);
    if n != 0 {
      forall k: nat ensures !Bit(n / 2, k) {
        assert Bit(n, k + 1) == Bit(n / 2, k);
      }
      NoBits(n / 2);
    }
  }

  /** What tier and role come to in the game: from tier 2 on an ordinary mob is susceptible to nothing, only a boss
      from tier 4 on brings its own number of attacks, and a boss is at least two levels over the profile's lowest. */
  lemma {:induction false} CombatByRole(d: Desc, p: Profile)
    requires ValidProfile(p) && d.sex <= 2
    ensures CombatFromBuild(d, p).Done?
    ensures var c := CombatFromBuild(d, p).value;
      && (d.role.Mob? && d.tier >= 2 ==> c.susc == 0)
      && c.multAtt == (if !d.role.Boss? || d.tier < 4 then p.act.attacks else if d.tier == 4 then 2 else 5)
      && p.level.lo + (if d.role.Boss? then 2 else 0) <= c.level <= p.level.hi + (if d.role.Boss? then 2 else 0)
  {
    CombatRecoversBuild(d, p);
    FiguresWithinProfile(d, p);
    if d.role.Mob? && d.tier >= 2 {
      ZeroText("0");
      forall k: nat {
        BitOfZero(k);
      }
      NoBits(CombatFromBuild(d, p).value.susc);
    }
  }
}
