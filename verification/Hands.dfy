/** The four slots that take up hands: light, wielded, held and shield (wear of act.obj_wear.cpp, with do_wear,
    do_wield, do_grab and do_remove). */
module Hands {
  import opened Options

  /** The wear flags that matter here, the weight, and value[2] of a light. */
  datatype Obj = Obj(id: nat, weight: int, wieldable: bool, holdable: bool, shield: bool, isLight: bool, fuel: int)

  datatype Hands = Hands(light: Option<Obj>, wield: Option<Obj>, hold: Option<Obj>, shield: Option<Obj>,
                         pack: multiset<Obj>, ground: multiset<Obj>)

  /** What the rest of wear decides before the slots are looked at: a refusal (ownership, class, sex), a
      barbarian's disgust, and the body and place of the character. */
  datatype Ctx = Ctx(denied: bool, disgusts: bool, humanoid: bool, hasHands: bool, underwater: bool)

  datatype Keyword = LightSource | Wield | Hold | Shield

  /** The words do_wear and do_wield pass on; only do_grab, for a light, asks for the light slot. */
  type Word = k: Keyword | !k.LightSource? witness Wield

  datatype Event =
    | Wear(o: Obj, keyword: Word, ctx: Ctx)
    | Grab(o: Obj, ctx: Ctx)
    | Remove(slot: Keyword, allowed: bool)

  // ---------------------------------------------------------------- wear

  /** A weapon over wield_w takes both hands. */
  predicate TwoHanded(w: nat, o: Option<Obj>) {
    o.Some? && o.value.weight > w
  }

  predicate LightFits(h: Hands, w: nat, o: Obj, ctx: Ctx) {
    h.light.None? && !TwoHanded(w, h.wield) && !(h.wield.Some? && h.hold.Some?) && !(ctx.underwater && o.fuel != -1)
  }

  predicate WieldFits(h: Hands, w: nat, o: Obj) {
    o.wieldable && h.wield.None? && !(h.light.Some? && h.hold.Some?)
    && (o.weight > w ==> o.weight < 3 * w / 2 && h.shield.None? && h.hold.None? && h.light.None?)
  }

  predicate HoldFits(h: Hands, w: nat, o: Obj) {
    o.holdable && h.hold.None? && !TwoHanded(w, h.wield) && !(h.light.Some? && h.wield.Some?)
    && (if o.wieldable then h.shield.None? && o.weight <= w / 2 else h.wield.Some? ==> o.weight <= w)
  }

  predicate ShieldFits(h: Hands, w: nat, o: Obj) {
    o.shield && h.shield.None? && !TwoHanded(w, h.wield) && !(h.hold.Some? && h.hold.value.wieldable)
  }

  predicate Fits(h: Hands, w: nat, o: Obj, k: Keyword, ctx: Ctx) {
    match k
    case LightSource => LightFits(h, w, o, ctx)
    case Wield => WieldFits(h, w, o)
    case Hold => HoldFits(h, w, o)
    case Shield => ShieldFits(h, w, o)
  }

  function Equip(h: Hands, o: Obj, k: Keyword): Hands {
    match k
    case LightSource => h.(pack := h.pack - multiset{o}, light := Some(o))
    case Wield => h.(pack := h.pack - multiset{o}, wield := Some(o))
    case Hold => h.(pack := h.pack - multiset{o}, hold := Some(o))
    case Shield => h.(pack := h.pack - multiset{o}, shield := Some(o))
  }

  /** wear, for an object that is carried. */
  function DoWear(h: Hands, w: nat, o: Obj, k: Keyword, ctx: Ctx): Hands {
    if o !in h.pack || ctx.denied then h
    else if ctx.disgusts then h.(pack := h.pack - multiset{o}, ground := h.ground + multiset{o})
    else if !ctx.humanoid && !(k.Hold? && ctx.hasHands) then h
    else if Fits(h, w, o, k, ctx) then Equip(h, o, k)
    else h
  }

  function InSlot(h: Hands, k: Keyword): Option<Obj> {
    match k
    case LightSource => h.light
    case Wield => h.wield
    case Hold => h.hold
    case Shield => h.shield
  }

  function Emptied(h: Hands, k: Keyword): Hands {
    match k
    case LightSource => h.(light := None)
    case Wield => h.(wield := None)
    case Hold => h.(hold := None)
    case Shield => h.(shield := None)
  }

  /** do_remove for one slot; `allowed` covers the curse, the ego save and the number of objects carried. */
  function DoRemove(h: Hands, k: Keyword, allowed: bool): Hands {
    var o := InSlot(h, k);
    if !allowed || o.None? then h else Emptied(h, k).(pack := h.pack + multiset{o.value})
  }

  function Step(h: Hands, w: nat, e: Event): Hands {
    match e
    case Wear(o, k, ctx) => DoWear(h, w, o, k, ctx)
    case Grab(o, ctx) => DoWear(h, w, o, if o.isLight then LightSource else Hold, ctx)
    case Remove(k, allowed) => DoRemove(h, k, allowed)
  }

  function Run(h: Hands, w: nat, es: seq<Event>): Hands
    decreases |es|
  {
    if es == [] then h else Run(Step(h, w, es[0]), w, es[1..])
  }

  // ---------------------------------------------------------------- two hands

  /** The hand rules: two hands only, a two-handed weapon needs both, a held weapon is a light one, and every slot
      holds what it is for. */
  predicate TwoHands(h: Hands, w: nat) {
    && !(h.light.Some? && h.wield.Some? && h.hold.Some?)
    && (TwoHanded(w, h.wield) ==>
          h.light.None? && h.hold.None? && h.shield.None? && h.wield.value.weight < 3 * w / 2)
    && (h.shield.Some? && h.hold.Some? ==> !h.hold.value.wieldable)
    && (h.hold.Some? && h.hold.value.wieldable ==> h.hold.value.weight <= w / 2)
    && (h.light.Some? ==> h.light.value.isLight)
    && (h.wield.Some? ==> h.wield.value.wieldable)
    && (h.hold.Some? ==> h.hold.value.holdable)
    && (h.shield.Some? ==> h.shield.value.shield)
  }

  lemma EquipKeepsTwoHands(h: Hands, w: nat, o: Obj, k: Keyword, ctx: Ctx)
    requires TwoHands(h, w) && Fits(h, w, o, k, ctx) && (k.LightSource? ==> o.isLight)
    ensures TwoHands(Equip(h, o, k), w)
  {
  }

  lemma WearKeepsTwoHands(h: Hands, w: nat, o: Obj, k: Keyword, ctx: Ctx)
    requires TwoHands(h, w) && (k.LightSource? ==> o.isLight)
    ensures TwoHands(DoWear(h, w, o, k, ctx), w)
  {
    if Fits(h, w, o, k, ctx) {
      EquipKeepsTwoHands(h, w, o, k, ctx);
    }
  }

  lemma RemoveKeepsTwoHands(h: Hands, w: nat, k: Keyword, allowed: bool)
    requires TwoHands(h, w)
    ensures TwoHands(DoRemove(h, k, allowed), w)
  {
  }

  lemma StepKeepsTwoHands(h: Hands, w: nat, e: Event)
    requires TwoHands(h, w)
    ensures TwoHands(Step(h, w, e), w)
  {
    match e
    case Wear(o, k, ctx) => WearKeepsTwoHands(h, w, o, k, ctx);
    case Grab(o, ctx) => WearKeepsTwoHands(h, w, o, if o.isLight then LightSource else Hold, ctx);
    case Remove(k, allowed) => RemoveKeepsTwoHands(h, w, k, allowed);
  }

  /** With the strength fixed, every run of wear, wield, grab and remove keeps the hand rules. */
  lemma {:induction false} RunKeepsTwoHands(h: Hands, w: nat, es: seq<Event>)
    requires TwoHands(h, w)
    ensures TwoHands(Run(h, w, es), w)
    decreases |es|
  {
    if es == [] {
    } else {
      StepKeepsTwoHands(h, w, es[0]);
      RunKeepsTwoHands(Step(h, w, es[0]), w, es[1..]);
    }
  }

  function InHand(o: Option<Obj>, x: Obj): nat {
    if o == Some(x) then 1 else 0
  }

  /** How often an object is there: in the inventory, on the ground, or in a slot. */
  function Count(h: Hands, x: Obj): nat {
    h.pack[x] + h.ground[x] + InHand(h.light, x) + InHand(h.wield, x) + InHand(h.hold, x) + InHand(h.shield, x)
  }

  lemma EquipKeepsCount(h: Hands, w: nat, o: Obj, k: Keyword, x: Obj)
    requires o in h.pack && InSlot(h, k).None?
    ensures Count(Equip(h, o, k), x) == Count(h, x)
  {
  }

  lemma WearKeepsCount(h: Hands, w: nat, o: Obj, k: Keyword, ctx: Ctx, x: Obj)
    ensures Count(DoWear(h, w, o, k, ctx), x) == Count(h, x)
  {
    if o in h.pack && Fits(h, w, o, k, ctx) {
      EquipKeepsCount(h, w, o, k, x);
    }
  }

  lemma RemoveKeepsCount(h: Hands, k: Keyword, allowed: bool, x: Obj)
    ensures Count(DoRemove(h, k, allowed), x) == Count(h, x)
  {
  }

  /** No object is lost or doubled: one that is there once stays in exactly one slot, in the inventory, or on
      the ground. */
  lemma {:induction false} RunKeepsCount(h: Hands, w: nat, es: seq<Event>, x: Obj)
    ensures Count(Run(h, w, es), x) == Count(h, x)
    decreases |es|
  {
    if es == [] {
    } else {
      var e := es[0];
      match e
      case Wear(o, k, ctx) => WearKeepsCount(h, w, o, k, ctx, x);
      case Grab(o, ctx) => WearKeepsCount(h, w, o, if o.isLight then LightSource else Hold, ctx, x);
      case Remove(k, allowed) => RemoveKeepsCount(h, k, allowed, x);
    }
    if es != [] {
      RunKeepsCount(Step(h, w, es[0]), w, es[1..], x);
    }
  }

  // ---------------------------------------------------------------- the rules are exact

  /** A held object that is no weapon may weigh more than wield_w, but then it has to be in the hand first. */
  predicate HeavyBesideWeapon(h: Hands, w: nat, o: Obj, k: Keyword) {
    k.Hold? && h.wield.Some? && !o.wieldable && o.weight > w
  }

  /** On whatever is worn so far, an object can be added exactly where the slot is free and the result obeys the
      rules; one pair has to be put on in the right order. */
  lemma FitsIff(h: Hands, w: nat, o: Obj, k: Keyword, ctx: Ctx)
    requires TwoHands(h, w) && (k.LightSource? ==> o.isLight)
    ensures Fits(h, w, o, k, ctx) <==>
      && InSlot(h, k).None? && TwoHands(Equip(h, o, k), w) && !HeavyBesideWeapon(h, w, o, k)
      && !(k.LightSource? && ctx.underwater && o.fuel != -1)
  {
  }

  /** Where an attempt to wear something ends: on the ground exactly for a barbarian's disgust, in the slot exactly if
      nothing speaks against it, and otherwise everything is as before.  Without a human form only things held in a
      hand are put on. */
  lemma WearEndsIff(h: Hands, w: nat, o: Obj, k: Keyword, ctx: Ctx)
    requires o in h.pack
    ensures var r := DoWear(h, w, o, k, ctx);
      && (r.ground != h.ground <==> ctx.disgusts && !ctx.denied)
      && (r == Equip(h, o, k) <==>
          !ctx.denied && !ctx.disgusts && (ctx.humanoid || (k.Hold? && ctx.hasHands)) && Fits(h, w, o, k, ctx))
      && (r == h || r == Equip(h, o, k) || (r.pack + multiset{o} == h.pack && r.ground == h.ground + multiset{o}))
  {
    assert (h.ground + multiset{o})[o] == h.ground[o] + 1;
    assert Equip(h, o, k).pack[o] == h.pack[o] - 1;
  }

  /** No refusal from outside the slots. */
  const PLAIN: Ctx := Ctx(false, false, true, true, false)

  function TakeOff(h: Hands, k: Keyword): Hands {
    DoRemove(h, k, true)
  }

  /** Putting on again what was taken off restores everything. */
  lemma EquipUndoesTakeOff(h: Hands, k: Keyword)
    requires InSlot(h, k).Some?
    ensures InSlot(h, k).value in TakeOff(h, k).pack
    ensures Equip(TakeOff(h, k), InSlot(h, k).value, k) == h
  {
    var o := InSlot(h, k).value;
    assert h.pack + multiset{o} - multiset{o} == h.pack;
  }

  function PutOn(o: Option<Obj>, k: Keyword): seq<Event> {
    if o.None? then [] else if k.LightSource? then [Grab(o.value, PLAIN)] else [Wear(o.value, k, PLAIN)]
  }

  lemma PutOnFirst(h: Hands, w: nat, k: Keyword, rest: seq<Event>)
    requires InSlot(h, k).Some? ==> Fits(TakeOff(h, k), w, InSlot(h, k).value, k, PLAIN)
    requires h.light.Some? ==> h.light.value.isLight
    ensures Run(TakeOff(h, k), w, PutOn(InSlot(h, k), k) + rest) == Run(h, w, rest)
  {
    var events := PutOn(InSlot(h, k), k) + rest;
    if InSlot(h, k).Some? {
      EquipUndoesTakeOff(h, k);
      assert events[1..] == rest;
    } else {
      assert events == rest;
    }
  }

  /** Grabbing fills only the light slot, with a light, or only the hand that holds, with anything else. */
  lemma GrabFillsOneSlot(h: Hands, w: nat, o: Obj, ctx: Ctx)
    ensures var r := Step(h, w, Grab(o, ctx));
      var fits := if o.isLight then LightFits(h, w, o, ctx) else HoldFits(h, w, o);
      && r.wield == h.wield && r.shield == h.shield
      && (r.light != h.light ==> o.isLight && r.light == Some(o))
      && (r.hold != h.hold ==> !o.isLight && r.hold == Some(o))
      && (o in h.pack && !ctx.denied && !ctx.disgusts && ctx.humanoid && fits ==> Some(o) in [r.light, r.hold])
  {
  }

  /** What is there and may come off comes off, into the inventory; the other slots stay as they are. */
  lemma RemoveEndsIff(h: Hands, w: nat, k: Keyword, allowed: bool)
    ensures var r := Step(h, w, Remove(k, allowed));
      && (r != h <==> allowed && InSlot(h, k).Some?)
      && (r != h ==> InSlot(r, k).None? && r.pack == h.pack + multiset{InSlot(h, k).value})
      && (forall j :: j != k ==> InSlot(r, j) == InSlot(h, j))
  {
  }

  /** What is held first, then the shield and the light, the weapon last. */
  function Outfit(h: Hands): seq<Event> {
    PutOn(h.hold, Hold) + (PutOn(h.shield, Shield) + (PutOn(h.light, LightSource) + (PutOn(h.wield, Wield) + [])))
  }

  function EmptyHanded(h: Hands): Hands {
    TakeOff(TakeOff(TakeOff(TakeOff(h, Wield), LightSource), Shield), Hold)
  }

  /** Nothing else is forbidden: every way of filling the slots that obeys the rules can be reached from empty
      hands. */
  lemma {:induction false} EveryOutfitCanBeWorn(h: Hands, w: nat)
    requires TwoHands(h, w)
    ensures Run(EmptyHanded(h), w, Outfit(h)) == h
  {
    var h3 := TakeOff(h, Wield);
    var h2 := TakeOff(h3, LightSource);
    var h1 := TakeOff(h2, Shield);
    PutOnFirst(h, w, Wield, []);
    PutOnFirst(h3, w, LightSource, PutOn(h.wield, Wield) + []);
    PutOnFirst(h2, w, Shield, PutOn(h.light, LightSource) + (PutOn(h.wield, Wield) + []));
    PutOnFirst(h1, w, Hold, PutOn(h.shield, Shield) + (PutOn(h.light, LightSource) + (PutOn(h.wield, Wield) + [])));
  }

  /** So the rules are exact: from empty hands a way of filling the slots can be reached if and only if it obeys
      them. */
  lemma {:induction false} OutfitReachableIff(h: Hands, w: nat)
    ensures (exists es :: Run(EmptyHanded(h), w, es) == h) <==> TwoHands(h, w)
  {
    if es :| Run(EmptyHanded(h), w, es) == h {
      RunKeepsTwoHands(EmptyHanded(h), w, es);
    }
    if TwoHands(h, w) {
      EveryOutfitCanBeWorn(h, w);
    }
  }
}
