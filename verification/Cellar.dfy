/** The drink commands as they run: on container records changed in place, so that pouring a container into
    itself changes one record twice. */
module Cellar {
  import opened Arith
  import opened Liquids

  method ChangeWeight(store: array<Drink>, i: nat, weight: int)
    requires i < store.Length
    modifies store
    ensures store[..] == old(store[..])[i := WeightChanged(old(store[i]), weight)]
  {
    var change := weight;
    if store[i].weight + weight < 1 {
      change := 0 - (store[i].weight - 1);
    }
    store[i] := store[i].(weight := store[i].weight + change);
  }

  method SettleIfEmpty(store: array<Drink>, i: nat)
    requires i < store.Length
    modifies store
    ensures store[..] == old(store[..])[i := Settled(old(store[i]))]
  {
    if store[i].fill == 0 {
      store[i] := store[i].(kind := 0, poison := false, perm := false);
    }
  }

  /** Contents and weights of both containers; they may be one container. */
  method Transfer(store: array<Drink>, from: nat, to: nat, temp: int)
    requires from < store.Length && to < store.Length
    modifies store
    ensures store[..] ==
      if from == to then old(store[..])[from := WeightChanged(WeightChanged(old(store[from]), temp), -temp)]
      else old(store[..])[from := WeightChanged(old(store[from]).(fill := old(store[from]).fill - temp), -temp)]
                         [to := WeightChanged(old(store[to]).(fill := old(store[to]).fill + temp), temp)]
  {
    store[from] := store[from].(fill := store[from].fill - temp);
    store[to] := store[to].(fill := store[to].fill + temp);
    ChangeWeight(store, to, temp);
    ChangeWeight(store, from, -temp);
  }

  method DoPourInto(store: array<Drink>, from: nat, to: nat)
    requires from < store.Length && to < store.Length
    modifies store
    ensures store[..] == Pour(old(store[..]), from, to)
  {
    if store[from].fill == 0 {
      return;
    }
    if store[to].fill != 0 && store[to].kind != store[from].kind {
      return;
    }
    if !(store[to].fill < store[to].capacity) {
      return;
    }
    store[to] := store[to].(kind := store[from].kind);
    var temp := Min(store[from].fill, store[to].capacity - store[to].fill);
    Transfer(store, from, to, temp);
    if store[from].poison {
      store[to] := store[to].(poison := true);
    }
    SettleIfEmpty(store, from);
  }

  method DoPourOut(store: array<Drink>, i: nat)
    requires i < store.Length
    modifies store
    ensures store[..] == PourOut(old(store[..]), i)
  {
    if store[i].fill == 0 {
      return;
    }
    ChangeWeight(store, i, -store[i].fill);
    store[i] := store[i].(fill := 0, kind := 0, poison := false, perm := false);
  }

  method DoSip(store: array<Drink>, i: nat, refused: bool)
    requires i < store.Length
    modifies store
    ensures store[..] == Sip(old(store[..]), i, refused)
  {
    if refused || store[i].fill == 0 {
      return;
    }
    if !store[i].perm {
      store[i] := store[i].(fill := store[i].fill - 1);
      ChangeWeight(store, i, -1);
    }
    SettleIfEmpty(store, i);
  }

  method DoDrink(store: array<Drink>, i: nat, refused: bool, thirst: int, dice: int)
    requires i < store.Length
    modifies store
    ensures store[..] == DrinkUp(old(store[..]), i, refused, thirst, dice)
  {
    if refused || store[i].fill <= 0 {
      return;
    }
    var amount := dice;
    if DrunkEffect(store[i].kind) > 0 {
      amount := TruncDiv(25 - thirst, DrunkEffect(store[i].kind));
    }
    amount := Min(amount, store[i].fill);
    if !store[i].perm {
      ChangeWeight(store, i, -amount);
      store[i] := store[i].(fill := store[i].fill - amount);
    }
    SettleIfEmpty(store, i);
  }
}
