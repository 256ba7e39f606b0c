/** Drink containers: do_pour, do_sip, do_drink and weight_change_object (act.obj.cpp). */
module Liquids {
  import opened Arith
  import opened Sums

  const KINDS: nat := 17

  /** The DRUNK column of drink_aff (constants.cpp): how much a unit of each liquid makes drunk. */
  function DrunkEffect(kind: nat): nat {
    if kind == 1 then 3 else if kind == 2 then 5 else if kind == 3 then 2 else if kind == 4 then 1
    else if kind == 5 then 6 else if kind == 7 || kind == 8 then 10 else 0
  }

  /** value[0] to value[3] of a drink container, and its weight. */
  datatype Drink = Drink(capacity: int, fill: int, kind: nat, poison: bool, perm: bool, weight: int)

  type Store = seq<Drink>

  /** What no command breaks: a fill of at least 0 and a kind of the tables. */
  predicate Fluid(d: Drink) {
    0 <= d.fill && d.kind < KINDS
  }

  predicate AllFluid(s: Store) {
    forall i :: 0 <= i < |s| ==> Fluid(s[i])
  }

  /** The fill is also within the capacity. */
  predicate Sound(d: Drink) {
    Fluid(d) && d.fill <= d.capacity
  }

  predicate AllSound(s: Store) {
    forall i :: 0 <= i < |s| ==> Sound(s[i])
  }

  // ---------------------------------------------------------------- the commands

  /** weight_change_object: the weight never ends below 1. */
  function WeightChanged(d: Drink, weight: int): (r: Drink)
    ensures r.weight >= 1
  {
    d.(weight := if d.weight + weight < 1 then 1 else d.weight + weight)
  }

  function Drained(d: Drink): Drink {
    d.(kind := 0, poison := false, perm := false)
  }

  /** What an empty container turns into after a sip, a drink or a pour. */
  function Settled(d: Drink): Drink {
    if d.fill == 0 then Drained(d) else d
  }

  predicate PourAccepted(s: Store, from: nat, to: nat)
    requires from < |s| && to < |s|
  {
    && s[from].fill != 0
    && !(s[to].fill != 0 && s[to].kind != s[from].kind)
    && s[to].fill < s[to].capacity
  }

  /** The amount that fits. */
  function PourAmount(s: Store, from: nat, to: nat): int
    requires from < |s| && to < |s|
  {
    Min(s[from].fill, s[to].capacity - s[to].fill)
  }

  function PouredInto(from: Drink, to: Drink, amount: int): Drink {
    WeightChanged(to.(kind := from.kind, fill := to.fill + amount, poison := to.poison || from.poison), amount)
  }

  function PouredFrom(from: Drink, amount: int): Drink {
    Settled(WeightChanged(from.(fill := from.fill - amount), -amount))
  }

  /** do_pour into a container; nothing keeps one from pouring a container into itself. */
  function Pour(s: Store, from: nat, to: nat): (r: Store)
    requires from < |s| && to < |s|
    ensures |r| == |s|
  {
    if !PourAccepted(s, from, to) then s
    else
      var amount := PourAmount(s, from, to);
      if from == to then
        s[from := Settled(WeightChanged(WeightChanged(s[from], amount), -amount))]
      else s[from := PouredFrom(s[from], amount)][to := PouredInto(s[from], s[to], amount)]
  }

  /** do_pour with "out". */
  function PourOut(s: Store, i: nat): (r: Store)
    requires i < |s|
    ensures |r| == |s|
  {
    if s[i].fill == 0 then s else s[i := Drained(WeightChanged(s[i], -s[i].fill).(fill := 0))]
  }

  /** do_sip; `refused` stands for a drunk character. */
  function Sip(s: Store, i: nat, refused: bool): (r: Store)
    requires i < |s|
    ensures |r| == |s|
  {
    if refused || s[i].fill == 0 then s
    else s[i := Settled(if s[i].perm then s[i] else WeightChanged(s[i].(fill := s[i].fill - 1), -1))]
  }

  /** How much do_drink takes: a drunkard's gulp depends on the thirst, any other on the dice (3 to 10). */
  function Gulp(d: Drink, thirst: int, dice: int): int {
    var wanted := if DrunkEffect(d.kind) > 0 then TruncDiv(25 - thirst, DrunkEffect(d.kind)) else dice;
    Min(wanted, d.fill)
  }

  function DrinkUp(s: Store, i: nat, refused: bool, thirst: int, dice: int): (r: Store)
    requires i < |s|
    ensures |r| == |s|
  {
    if refused || s[i].fill <= 0 then s
    else
      var amount := Gulp(s[i], thirst, dice);
      s[i := Settled(if s[i].perm then s[i] else WeightChanged(s[i], -amount).(fill := s[i].fill - amount))]
  }

  datatype Event =
    | DoPour(from: nat, to: nat)
    | DoPourOut(i: nat)
    | DoSip(i: nat, refused: bool)
    | DoDrink(i: nat, refused: bool, thirst: int, dice: int)

  /** The containers exist, and the dice show 3 to 10.  Thirst is any number: gain_condition keeps it at 24 or
      less, but "set" and APPLY_MOD_THIRST do not. */
  predicate Possible(n: nat, e: Event) {
    match e
    case DoPour(from, to) => from < n && to < n
    case DoPourOut(i) => i < n
    case DoSip(i, refused) => i < n
    case DoDrink(i, refused, thirst, dice) => i < n && 3 <= dice <= 10
  }

  function Step(s: Store, e: Event): (r: Store)
    requires Possible(|s|, e)
    ensures |r| == |s|
  {
    match e
    case DoPour(from, to) => Pour(s, from, to)
    case DoPourOut(i) => PourOut(s, i)
    case DoSip(i, refused) => Sip(s, i, refused)
    case DoDrink(i, refused, thirst, dice) => DrinkUp(s, i, refused, thirst, dice)
  }

  ghost predicate PossibleRun(n: nat, es: seq<Event>) {
    forall i :: 0 <= i < |es| ==> Possible(n, es[i])
  }

  function Run(s: Store, es: seq<Event>): (r: Store)
    requires PossibleRun(|s|, es)
    ensures |r| == |s|
    decreases |es|
  {
    if es == [] then s else Run(Step(s, es[0]), es[1..])
  }

  // ---------------------------------------------------------------- fills and kinds

  lemma StepKeepsFluid(s: Store, e: Event)
    requires AllFluid(s) && Possible(|s|, e)
    ensures AllFluid(Step(s, e))
  {
  }

  /** The units of one kind of liquid in a container. */
  function UnitsIn(d: Drink, kind: nat): int {
    if d.kind == kind then d.fill else 0
  }

  function Amounts(s: Store, kind: nat): (a: seq<int>)
    ensures |a| == |s| && forall i :: 0 <= i < |s| ==> a[i] == UnitsIn(s[i], kind)
  {
    seq(|s|, i requires 0 <= i < |s| => UnitsIn(s[i], kind))
  }

  /** All there is of one kind. */
  function Units(s: Store, kind: nat): int {
    Sum(Amounts(s, kind))
  }

  lemma UnitsUpdate(s: Store, i: nat, d: Drink, kind: nat)
    requires i < |s|
    ensures Units(s[i := d], kind) == Units(s, kind) - UnitsIn(s[i], kind) + UnitsIn(d, kind)
  {
    SumUpdate(Amounts(s, kind), i, UnitsIn(d, kind));
    assert Amounts(s[i := d], kind) == Amounts(s, kind)[i := UnitsIn(d, kind)];
  }

  /** What is drunk or emptied out at a step, of one kind. */
  function Consumed(s: Store, e: Event, kind: nat): int
    requires Possible(|s|, e)
  {
    match e
    case DoPour(from, to) => 0
    case DoPourOut(i) => UnitsIn(s[i], kind)
    case DoSip(i, refused) => if refused || s[i].fill == 0 || s[i].perm || s[i].kind != kind then 0 else 1
    case DoDrink(i, refused, thirst, dice) =>
      if refused || s[i].fill <= 0 || s[i].perm || s[i].kind != kind then 0 else Gulp(s[i], thirst, dice)
  }

  lemma PourMovesUnits(s: Store, from: nat, to: nat, kind: nat)
    requires AllFluid(s) && from < |s| && to < |s| && from != to && PourAccepted(s, from, to)
    ensures Units(Pour(s, from, to), kind) == Units(s, kind)
  {
    var amount := PourAmount(s, from, to);
    var s1 := s[from := PouredFrom(s[from], amount)];
    UnitsUpdate(s, from, PouredFrom(s[from], amount), kind);
    UnitsUpdate(s1, to, PouredInto(s[from], s[to], amount), kind);
  }

  lemma StepAccountsForUnits(s: Store, e: Event, kind: nat)
    requires AllFluid(s) && Possible(|s|, e)
    ensures Units(Step(s, e), kind) == Units(s, kind) - Consumed(s, e, kind)
  {
    var r := Step(s, e);
    match e
    case DoPour(from, to) =>
      if PourAccepted(s, from, to) {
        if from == to {
          UnitsUpdate(s, from, r[from], kind);
        } else {
          PourMovesUnits(s, from, to, kind);
        }
      }
    case DoPourOut(i) => UnitsUpdate(s, i, r[i], kind);
    case DoSip(i, refused) => UnitsUpdate(s, i, r[i], kind);
    case DoDrink(i, refused, thirst, dice) => UnitsUpdate(s, i, r[i], kind);
  }

  function ConsumedBy(s: Store, es: seq<Event>, kind: nat): int
    requires PossibleRun(|s|, es)
    decreases |es|
  {
    if es == [] then 0 else Consumed(s, es[0], kind) + ConsumedBy(Step(s, es[0]), es[1..], kind)
  }

  /** Over every run each kind of liquid changes by exactly what is drunk or emptied out of it, and no fill is
      negative: kinds never turn into each other. */
  lemma {:induction false} RunAccountsForUnits(s: Store, es: seq<Event>, kind: nat)
    requires AllFluid(s) && PossibleRun(|s|, es)
    ensures AllFluid(Run(s, es))
    ensures Units(Run(s, es), kind) == Units(s, kind) - ConsumedBy(s, es, kind)
    decreases |es|
  {
    if es == [] {
    } else {
      StepKeepsFluid(s, es[0]);
      StepAccountsForUnits(s, es[0], kind);
      RunAccountsForUnits(Step(s, es[0]), es[1..], kind);
    }
  }

  /** Something is poured exactly when there is some, the target has room, and holds nothing else.  Then pouring stops
      only when the source is empty or the target full; what arrives is what leaves, of the same kind, and with the
      poison of either. */
  lemma PourEndsOrFills(s: Store, from: nat, to: nat)
    requires AllFluid(s) && from < |s| && to < |s| && from != to
    ensures var r := Pour(s, from, to);
      r != s <==> s[from].fill > 0 && s[to].fill < s[to].capacity && (s[to].fill == 0 || s[to].kind == s[from].kind)
    ensures var r := Pour(s, from, to); r != s ==>
      && (r[from].fill == 0 || r[to].fill == s[to].capacity) && r[from].fill < s[from].fill
      && r[from].fill + r[to].fill == s[from].fill + s[to].fill && r[to].fill <= s[to].capacity
      && r[to].kind == s[from].kind && (r[to].poison <==> s[from].poison || s[to].poison)
  {
  }

  /** An empty container holds plain water, is not poisoned and not permanent. */
  predicate Clean(d: Drink) {
    d.fill == 0 ==> d.kind == 0 && !d.poison && !d.perm
  }

  predicate AllClean(s: Store) {
    forall k :: 0 <= k < |s| ==> Clean(s[k])
  }

  lemma StepKeepsClean(s: Store, e: Event)
    requires AllFluid(s) && AllClean(s) && Possible(|s|, e)
    ensures AllClean(Step(s, e))
  {
  }

  /** Whoever empties a container, by pouring, drinking or sipping, leaves it clean. */
  lemma {:induction false} RunKeepsClean(s: Store, es: seq<Event>)
    requires AllFluid(s) && AllClean(s) && PossibleRun(|s|, es)
    ensures AllClean(Run(s, es))
    decreases |es|
  {
    if es == [] {
    } else {
      StepKeepsFluid(s, es[0]);
      StepKeepsClean(s, es[0]);
      RunKeepsClean(Step(s, es[0]), es[1..]);
    }
  }

  /** A drinker takes the dice, or as much as quenches the thirst where the drink makes drunk, or the rest; nobody
      else's container changes.  A sip takes one unit. */
  lemma DrinkTakes(s: Store, i: nat, thirst: int, dice: int)
    requires AllSound(s) && i < |s| && s[i].fill > 0 && !s[i].perm && thirst <= 24 && 3 <= dice <= 10
    ensures var left, effect := DrinkUp(s, i, false, thirst, dice)[i].fill, DrunkEffect(s[i].kind);
      if effect == 0 then left == (if dice < s[i].fill then s[i].fill - dice else 0)
      else left == 0 || (s[i].fill - left) * effect <= 25 - thirst < (s[i].fill - left + 1) * effect
    ensures Sip(s, i, false)[i].fill == s[i].fill - 1
  {
  }

  // ---------------------------------------------------------------- the capacity

  /** A drink that fills the container up instead: the thirst is so far above 25 that the amount is negative,
      and more is added than the container still holds. */
  predicate Overfills(s: Store, e: Event)
    requires Possible(|s|, e)
  {
    e.DoDrink? && !e.refused && s[e.i].fill > 0 && !s[e.i].perm && DrunkEffect(s[e.i].kind) > 0
    && s[e.i].fill - TruncDiv(25 - e.thirst, DrunkEffect(s[e.i].kind)) > s[e.i].capacity
  }

  lemma DrinkKeepsSoundIff(s: Store, i: nat, thirst: int, dice: int)
    requires AllSound(s) && i < |s| && s[i].fill > 0 && 3 <= dice <= 10
    ensures var r := DrinkUp(s, i, false, thirst, dice);
      AllSound(r) <==> s[i].perm || s[i].fill - Gulp(s[i], thirst, dice) <= s[i].capacity
  {
    var r := DrinkUp(s, i, false, thirst, dice);
    assert Sound(s[i]);
    forall k | 0 <= k < |r| && k != i ensures Sound(r[k]) {
      assert r[k] == s[k];
    }
    assert AllSound(r) <==> Sound(r[i]);
  }

  /** A command keeps all fills within their capacities exactly when it is not such a drink. */
  lemma {:induction false} StepKeepsSoundIff(s: Store, e: Event)
    requires AllSound(s) && Possible(|s|, e)
    ensures AllSound(Step(s, e)) <==> !Overfills(s, e)
  {
    if e.DoDrink? && !e.refused && s[e.i].fill > 0 {
      DrinkKeepsSoundIff(s, e.i, e.thirst, e.dice);
    }
  }

  /** A full cup of beer, drunk at thirst 100, holds 35 units of 10 afterwards. */
  lemma DrinkingOverfills()
    ensures var s := [Drink(10, 10, 1, false, false, 20)];
      && AllSound(s) && !AllSound(DrinkUp(s, 0, false, 100, 3))
      && DrinkUp(s, 0, false, 100, 3)[0].fill == 35
  {
  }

  /** No drink on the run overfills its container. */
  ghost predicate NeverOverfills(s: Store, es: seq<Event>)
    requires PossibleRun(|s|, es)
    decreases |es|
  {
    es != [] ==> !Overfills(s, es[0]) && NeverOverfills(Step(s, es[0]), es[1..])
  }

  /** The fills are within the capacities after every step of the run. */
  ghost predicate SoundThroughout(s: Store, es: seq<Event>)
    requires PossibleRun(|s|, es)
    decreases |es|
  {
    AllSound(s) && (es != [] ==> SoundThroughout(Step(s, es[0]), es[1..]))
  }

  /** Fills stay between 0 and the capacity all along a run exactly when no drink on it overfills. */
  lemma {:induction false} RunStaysSoundIff(s: Store, es: seq<Event>)
    requires AllSound(s) && PossibleRun(|s|, es)
    ensures SoundThroughout(s, es) <==> NeverOverfills(s, es)
    decreases |es|
  {
    if es == [] {
    } else {
      StepKeepsSoundIff(s, es[0]);
      if AllSound(Step(s, es[0])) {
        RunStaysSoundIff(Step(s, es[0]), es[1..]);
      }
    }
  }

  /** A drink of an alcoholic liquid so thirsty that the amount is negative. */
  predicate AddsLiquid(s: Store, e: Event)
    requires Possible(|s|, e)
  {
    e.DoDrink? && !e.refused && s[e.i].fill > 0 && !s[e.i].perm
    && DrunkEffect(s[e.i].kind) > 0 && e.thirst >= 25 + DrunkEffect(s[e.i].kind)
  }

  lemma NegativeAmount(thirst: int, b: nat)
    requires b in {1, 2, 3, 5, 6, 10}
    ensures TruncDiv(25 - thirst, b) < 0 <==> thirst >= 25 + b
  {
  }

  /** A command takes nothing back into the world exactly when it is not such a drink; what it adds is of the
      kind that is drunk. */
  lemma ConsumedIsNegativeIff(s: Store, e: Event, kind: nat)
    requires AllFluid(s) && Possible(|s|, e)
    ensures Consumed(s, e, kind) < 0 <==> AddsLiquid(s, e) && s[e.i].kind == kind
  {
    if e.DoDrink? && DrunkEffect(s[e.i].kind) > 0 {
      NegativeAmount(e.thirst, DrunkEffect(s[e.i].kind));
    }
  }

  /** The drinkers of the run are no thirstier than gain_condition allows. */
  predicate Temperate(es: seq<Event>) {
    forall i :: 0 <= i < |es| && es[i].DoDrink? ==> es[i].thirst <= 24
  }

  /** As long as thirst is where gain_condition keeps it, no drink overfills and none adds liquid. */
  lemma {:induction false} TemperateRunStaysSound(s: Store, es: seq<Event>, kind: nat)
    requires AllSound(s) && PossibleRun(|s|, es) && Temperate(es)
    ensures SoundThroughout(s, es) && ConsumedBy(s, es, kind) >= 0
    decreases |es|
  {
    if es == [] {
    } else {
      var e := es[0];
      ConsumedIsNegativeIff(s, e, kind);
      StepKeepsSoundIff(s, e);
      if e.DoDrink? && DrunkEffect(s[e.i].kind) > 0 {
        NegativeAmount(e.thirst, DrunkEffect(s[e.i].kind));
        assert Sound(s[e.i]);
      }
      assert Temperate(es[1..]);
      TemperateRunStaysSound(Step(s, e), es[1..], kind);
    }
  }

  // ---------------------------------------------------------------- weight

  /** The weight of the empty container. */
  function Tare(d: Drink): int {
    d.weight - d.fill
  }

  ghost predicate HonestWeights(s: Store) {
    forall i :: 0 <= i < |s| ==> Tare(s[i]) >= 1
  }

  lemma StepKeepsTare(s: Store, e: Event, k: nat)
    requires AllFluid(s) && HonestWeights(s) && Possible(|s|, e) && k < |s|
    ensures Tare(Step(s, e)[k]) == Tare(s[k])
  {
  }

  /** A container that weighs at least one more than its contents does so for good: the weight follows the
      contents exactly, and the lower bound of weight_change_object is never needed. */
  lemma {:induction false} RunKeepsTare(s: Store, es: seq<Event>, k: nat)
    requires AllFluid(s) && HonestWeights(s) && PossibleRun(|s|, es) && k < |s|
    ensures Tare(Run(s, es)[k]) == Tare(s[k]) && Run(s, es)[k].weight >= 1
    decreases |es|
  {
    if es == [] {
      assert Fluid(s[k]);
    } else {
      forall j: nat | j < |s| ensures Tare(Step(s, es[0])[j]) == Tare(s[j]) {
        StepKeepsTare(s, es[0], j);
      }
      StepKeepsFluid(s, es[0]);
      RunKeepsTare(Step(s, es[0]), es[1..], k);
    }
  }

  /** The weight changes by as much as the contents do, but never below 1; pouring a container into itself aside. */
  lemma WeightFollowsContents(s: Store, e: Event, k: nat)
    requires AllFluid(s) && Possible(|s|, e) && k < |s| && s[k].weight >= 1 && !(e.DoPour? && e.from == e.to)
    ensures var r := Step(s, e);
      r[k].weight == Max(1, s[k].weight + r[k].fill - s[k].fill)
  {
  }

  /** A command leaves a weight as it is, or at least 1. */
  lemma StepKeepsWeightPositive(s: Store, e: Event, k: nat)
    requires Possible(|s|, e) && k < |s|
    ensures Step(s, e)[k].weight >= 1 || Step(s, e)[k].weight == s[k].weight
  {
  }

  /** Whatever the contents and the tares, no run brings a weight below 1. */
  lemma {:induction false} RunKeepsWeightPositive(s: Store, es: seq<Event>, k: nat)
    requires PossibleRun(|s|, es) && k < |s| && s[k].weight >= 1
    ensures Run(s, es)[k].weight >= 1
    decreases |es|
  {
    if es == [] {
    } else {
      StepKeepsWeightPositive(s, es[0], k);
      RunKeepsWeightPositive(Step(s, es[0]), es[1..], k);
    }
  }
}
