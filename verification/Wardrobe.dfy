/** The equipment commands as they run, on the slots and lists of one character changed in place. */
module Wardrobe {
  import opened Options
  import opened Hands

  class Wearer {
    const wieldW: nat

    var light: Option<Obj>
    var wield: Option<Obj>
    var hold: Option<Obj>
    var shield: Option<Obj>
    var pack: multiset<Obj>
    var ground: multiset<Obj>

    function View(): Hands
      reads this
    {
      Hands(light, wield, hold, shield, pack, ground)
    }

    constructor (wieldW: nat, pack: multiset<Obj>)
      ensures View() == Hands(None, None, None, None, pack, multiset{}) && this.wieldW == wieldW
      ensures TwoHands(View(), wieldW)
    {
      this.wieldW, this.pack := wieldW, pack;
      light, wield, hold, shield, ground := None, None, None, None, multiset{};
    }

    /** obj_from_char, then equip_char. */
    method EquipChar(o: Obj, k: Keyword)
      requires InSlot(View(), k).None?
      modifies this
      ensures View() == Equip(old(View()), o, k)
    {
      pack := pack - multiset{o};
      match k {
        case LightSource => light := Some(o);
        case Wield => wield := Some(o);
        case Hold => hold := Some(o);
        case Shield => shield := Some(o);
      }
    }

    /** Cases 0, 12, 13 and 14 of wear. */
    method WearInHand(o: Obj, k: Keyword, ctx: Ctx)
      modifies this
      ensures View() == if Fits(old(View()), wieldW, o, k, ctx) then Equip(old(View()), o, k) else old(View())
    {
      match k {
        case LightSource =>
          if light.Some? || (wield.Some? && wield.value.weight > wieldW) || (wield.Some? && hold.Some?)
             || (ctx.underwater && o.fuel != -1) {
            return;
          }
        case Wield =>
          if !o.wieldable || wield.Some? || (light.Some? && hold.Some?) {
            return;
          }
          if o.weight > wieldW {
            if o.weight >= 3 * wieldW / 2 || shield.Some? || hold.Some? || light.Some? {
              return;
            }
          }
        case Hold =>
          if !o.holdable || hold.Some? || (wield.Some? && wield.value.weight > wieldW)
             || (light.Some? && wield.Some?) {
            return;
          }
          if o.wieldable {
            if shield.Some? || o.weight > wieldW / 2 {
              return;
            }
          } else if wield.Some? && o.weight > wieldW {
            return;
          }
        case Shield =>
          if !o.shield || shield.Some? || (wield.Some? && wield.value.weight > wieldW)
             || (hold.Some? && hold.value.wieldable) {
            return;
          }
      }
      EquipChar(o, k);
    }

    /** wear, for an object found in the inventory. */
    method WearObject(o: Obj, k: Keyword, ctx: Ctx)
      modifies this
      ensures View() == DoWear(old(View()), wieldW, o, k, ctx)
    {
      if o !in pack || ctx.denied {
        return;
      }
      if ctx.disgusts {
        pack := pack - multiset{o};
        ground := ground + multiset{o};
        return;
      }
      if !ctx.humanoid {
        if k != Hold || !ctx.hasHands {
          return;
        }
      }
      WearInHand(o, k, ctx);
    }

    /** do_grab. */
    method GrabObject(o: Obj, ctx: Ctx)
      modifies this
      ensures View() == Step(old(View()), wieldW, Grab(o, ctx))
    {
      if o.isLight {
        WearObject(o, LightSource, ctx);
      } else {
        WearObject(o, Hold, ctx);
      }
    }

    /** do_remove, for one slot. */
    method RemoveFrom(k: Keyword, allowed: bool)
      modifies this
      ensures View() == Step(old(View()), wieldW, Remove(k, allowed))
    {
      var o := InSlot(View(), k);
      if !allowed || o.None? {
        return;
      }
      match k {
        case LightSource => light := None;
        case Wield => wield := None;
        case Hold => hold := None;
        case Shield => shield := None;
      }
      pack := pack + multiset{o.value};
    }
  }
}
