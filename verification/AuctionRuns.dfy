/** What every run of the auction house keeps: gold, custody of objects, bid sizes and the clock. */
module AuctionRuns {
  import opened Options
  import opened Sums
  import opened Auction
  import BetParser
  import Decimal

  // ---------------------------------------------------------------- the kinds of steps

  predicate IsStop(h: House, roster: Roster, e: Event)
    requires ValidEvent(e, roster)
  {
    e.Cmd? && h.desk.item.Some? && e.command.arg1 != "" && !roster[e.command.ch].npc && roster[e.command.ch].immortal
    && (SameWord(e.command.arg1, "purge") || IsStopWord(e.command.arg1))
  }

  predicate IsBid(h: House, roster: Roster, e: Event)
    requires WellFormed(h, roster) && ValidEvent(e, roster)
  {
    e.Cmd? && e.command.arg1 != "" && !roster[e.command.ch].npc && e.command.bidding
    && !(roster[e.command.ch].immortal && (SameWord(e.command.arg1, "purge") || IsStopWord(e.command.arg1)))
    && BidAccepted(h, roster, e.env, e.command)
  }

  predicate IsOpening(h: House, roster: Roster, e: Event)
    requires WellFormed(h, roster) && ValidEvent(e, roster)
  {
    e.Cmd? && e.command.arg1 != "" && !roster[e.command.ch].npc && !e.command.bidding
    && !(roster[e.command.ch].immortal && (SameWord(e.command.arg1, "purge") || IsStopWord(e.command.arg1)))
    && OpenAccepted(h, roster, e.env, e.command)
  }

  predicate IsSettlement(h: House, e: Event) {
    e.Tick? && h.desk.item.Some? && h.desk.pulse <= 1 && h.desk.going == 2
  }

  // ---------------------------------------------------------------- the joint invariant

  ghost predicate Inv(h: House, roster: Roster) {
    && WellFormed(h, roster)
    && (forall p :: 0 <= p < |h.gold| ==> h.gold[p] >= 0)
    && (h.desk.item.None? ==> h.desk.bet == 0)
    && (h.desk.item.Some? ==> 1 <= h.desk.pulse <= WAIT_TICKS && 0 <= h.desk.going <= 2 && 0 <= h.desk.reserve)
    && (h.desk.bet == 0 || h.desk.bet >= 100)
  }

  lemma StopKeepsInv(h: House, roster: Roster, env: Env, ch: nat, confiscate: bool)
    requires Inv(h, roster) && h.desk.item.Some? && ch < |roster|
    ensures Inv(Stop(h, roster, env, ch, confiscate), roster)
  {
  }

  lemma BidKeepsInv(h: House, roster: Roster, env: Env, c: Command)
    requires Inv(h, roster) && c.ch < |roster| && BidAccepted(h, roster, env, c)
    ensures Inv(TakeBid(h, roster, env, c), roster)
  {
  }

  lemma OpenKeepsInv(h: House, roster: Roster, env: Env, c: Command)
    requires Inv(h, roster) && c.ch < |roster| && OpenAccepted(h, roster, env, c)
    ensures Inv(OpenLot(h, roster, env, c), roster)
  {
  }

  lemma UpdateKeepsInv(h: House, roster: Roster, env: Env)
    requires Inv(h, roster)
    ensures Inv(Update(h, roster, env), roster)
  {
  }

  /** No step makes anyone's gold negative, whoever the seller, the bidder and the outbid buyer are. */
  lemma StepKeepsInv(h: House, roster: Roster, e: Event)
    requires Inv(h, roster) && ValidEvent(e, roster)
    ensures Inv(Step(h, roster, e), roster)
  {
    if e.Tick? {
      UpdateKeepsInv(h, roster, e.env);
    } else if IsStop(h, roster, e) {
      StopKeepsInv(h, roster, e.env, e.command.ch, IsStopWord(e.command.arg1));
    } else if IsBid(h, roster, e) {
      BidKeepsInv(h, roster, e.env, e.command);
    } else if IsOpening(h, roster, e) {
      OpenKeepsInv(h, roster, e.env, e.command);
    } else {
      assert Step(h, roster, e) == h;
    }
  }

  lemma {:induction false} RunKeepsInv(h: House, roster: Roster, es: seq<Event>)
    requires Inv(h, roster) && ValidRun(es, roster)
    ensures Inv(Run(h, roster, es), roster)
    decreases |es|
  {
    if es == [] {
    } else {
      StepKeepsInv(h, roster, es[0]);
      RunKeepsInv(Step(h, roster, es[0]), roster, es[1..]);
    }
  }

  // ---------------------------------------------------------------- gold

  function Wealth(h: House): int {
    Sum(h.gold) + h.desk.bet
  }

  predicate BuyerAbsent(h: House, roster: Roster, e: Event) {
    Party(roster, e.env, h.desk, Buyer, h.desk.realBuyer).None?
  }

  predicate SellerAbsent(h: House, roster: Roster, e: Event) {
    Party(roster, e.env, h.desk, Seller, h.desk.realSeller).None?
  }

  /** The ledger entry of one step: the escrowed bet leaves escrow and nobody gets it.  That happens when a
      refund is due to an absent buyer, or when at settlement the buyer or the seller is absent. */
  function Unpaid(h: House, roster: Roster, e: Event): int
    requires WellFormed(h, roster) && ValidEvent(e, roster)
  {
    if (IsStop(h, roster, e) || IsBid(h, roster, e)) && BuyerAbsent(h, roster, e) then h.desk.bet
    else if IsSettlement(h, e) && (BuyerAbsent(h, roster, e) || SellerAbsent(h, roster, e)) then h.desk.bet
    else 0
  }

  lemma PaySum(gold: seq<int>, who: nat, amount: int)
    requires who < |gold|
    ensures Sum(Pay(gold, who, amount)) == Sum(gold) + amount
  {
    SumUpdate(gold, who, gold[who] + amount);
  }

  /** Paying back the outbid buyer and taking the new stake, seen as sums. */
  lemma EscrowExchange(gold: seq<int>, outbid: Option<nat>, bet: int, ch: nat, newbet: int)
    requires ch < |gold| && (outbid.Some? ==> outbid.value < |gold|)
    ensures Sum(Pay(if outbid.Some? then Pay(gold, outbid.value, bet) else gold, ch, -newbet)) ==
            Sum(gold) + (if outbid.Some? then bet else 0) - newbet
  {
    var paid := gold;
    if outbid.Some? {
      paid := Pay(gold, outbid.value, bet);
      PaySum(gold, outbid.value, bet);
    }
    PaySum(paid, ch, -newbet);
  }

  lemma BidAccountsForGold(h: House, roster: Roster, env: Env, ch: nat, newbet: int)
    requires Inv(h, roster) && ch < |roster|
    ensures Wealth(Staked(h, roster, env, ch, newbet)) ==
            Wealth(h) - (if Party(roster, env, h.desk, Buyer, h.desk.realBuyer).None? then h.desk.bet else 0)
  {
    EscrowExchange(h.gold, Party(roster, env, h.desk, Buyer, h.desk.realBuyer), h.desk.bet, ch, newbet);
  }

  lemma StopAccountsForGold(h: House, roster: Roster, env: Env, ch: nat, confiscate: bool)
    requires Inv(h, roster) && h.desk.item.Some? && ch < |roster|
    ensures Wealth(Stop(h, roster, env, ch, confiscate)) ==
            Wealth(h) - (if Party(roster, env, h.desk, Buyer, h.desk.realBuyer).None? then h.desk.bet else 0)
  {
    var buyer := Party(roster, env, h.desk, Buyer, h.desk.realBuyer);
    if buyer.Some? {
      PaySum(h.gold, buyer.value, h.desk.bet);
    }
  }

  lemma UpdateAccountsForGold(h: House, roster: Roster, env: Env)
    requires Inv(h, roster)
    ensures Wealth(Update(h, roster, env)) + Unpaid(h, roster, Tick(env)) == Wealth(h)
  {
    var seller := Party(roster, env, h.desk, Seller, h.desk.realSeller);
    if seller.Some? {
      PaySum(h.gold, seller.value, h.desk.bet);
    }
  }

  /** Each step moves gold without making any; the only loss is the ledger entry. */
  lemma StepAccountsForGold(h: House, roster: Roster, e: Event)
    requires Inv(h, roster) && ValidEvent(e, roster)
    ensures Wealth(Step(h, roster, e)) + Unpaid(h, roster, e) == Wealth(h)
    ensures Unpaid(h, roster, e) >= 0
  {
    if e.Tick? {
      UpdateAccountsForGold(h, roster, e.env);
    } else if IsBid(h, roster, e) {
      BidAccountsForGold(h, roster, e.env, e.command.ch, BetParser.ParseBet(h.desk.bet, e.command.arg1));
    } else if IsStop(h, roster, e) {
      StopAccountsForGold(h, roster, e.env, e.command.ch, IsStopWord(e.command.arg1));
    }
  }

  /** The ledger of a whole run. */
  function Ledger(h: House, roster: Roster, es: seq<Event>): int
    requires WellFormed(h, roster) && ValidRun(es, roster)
    decreases |es|
  {
    if es == [] then 0
    else Unpaid(h, roster, es[0]) + Ledger(Step(h, roster, es[0]), roster, es[1..])
  }

  /** Total gold, the escrowed bet and the ledger of unpaid sums add up to the same all the time. */
  lemma {:induction false} RunConservesGold(h: House, roster: Roster, es: seq<Event>)
    requires Inv(h, roster) && ValidRun(es, roster)
    ensures Wealth(Run(h, roster, es)) + Ledger(h, roster, es) == Wealth(h)
    ensures Ledger(h, roster, es) >= 0
    decreases |es|
  {
    if es == [] {
    } else {
      StepAccountsForGold(h, roster, es[0]);
      StepKeepsInv(h, roster, es[0]);
      RunConservesGold(Step(h, roster, es[0]), roster, es[1..]);
    }
  }

  /** Whoever's party is_present looks for is found at that step. */
  predicate AllPresent(h: House, roster: Roster, e: Event) {
    !BuyerAbsent(h, roster, e) && !SellerAbsent(h, roster, e)
  }

  ghost predicate PresentThroughout(h: House, roster: Roster, es: seq<Event>)
    requires WellFormed(h, roster) && ValidRun(es, roster)
    decreases |es|
  {
    es != [] ==>
      (h.desk.bet > 0 ==> AllPresent(h, roster, es[0]))
      && PresentThroughout(Step(h, roster, es[0]), roster, es[1..])
  }

  /** With the parties of every open bid present, no gold is lost. */
  lemma {:induction false} PresenceLosesNothing(h: House, roster: Roster, es: seq<Event>)
    requires Inv(h, roster) && ValidRun(es, roster) && PresentThroughout(h, roster, es)
    ensures Wealth(Run(h, roster, es)) == Wealth(h)
    decreases |es|
  {
    if es == [] {
    } else {
      StepAccountsForGold(h, roster, es[0]);
      StepKeepsInv(h, roster, es[0]);
      PresenceLosesNothing(Step(h, roster, es[0]), roster, es[1..]);
    }
  }

  // ---------------------------------------------------------------- custody

  function Bags(packs: seq<seq<Obj>>): seq<multiset<Obj>> {
    seq(|packs|, i requires 0 <= i < |packs| => multiset(packs[i]))
  }

  function Slot(item: Option<Obj>): multiset<Obj> {
    if item.Some? then multiset{item.value} else multiset{}
  }

  function Holdings(packs: seq<seq<Obj>>, item: Option<Obj>, destroyed: multiset<Obj>): multiset<Obj> {
    Pool(Bags(packs)) + Slot(item) + destroyed
  }

  /** Every object: carried by somebody, in the auction slot, or extracted. */
  function Objects(h: House): multiset<Obj> {
    Holdings(h.packs, h.desk.item, h.destroyed)
  }

  lemma BagsUpdate(packs: seq<seq<Obj>>, who: nat, pack: seq<Obj>)
    requires who < |packs|
    ensures Pool(Bags(packs[who := pack])) + multiset(packs[who]) == Pool(Bags(packs)) + multiset(pack)
  {
    PoolUpdate(Bags(packs), who, multiset(pack));
    assert Bags(packs[who := pack]) == Bags(packs)[who := multiset(pack)];
  }

  lemma HandAdds(packs: seq<seq<Obj>>, who: nat, o: Obj)
    requires who < |packs|
    ensures Pool(Bags(Hand(packs, who, o))) == Pool(Bags(packs)) + multiset{o}
  {
    var before, now, mine := Pool(Bags(packs)), Pool(Bags(Hand(packs, who, o))), multiset(packs[who]);
    BagsUpdate(packs, who, [o] + packs[who]);
    assert now + mine == before + (multiset{o} + mine);
    forall x ensures now[x] == (before + multiset{o})[x] {
      assert (now + mine)[x] == now[x] + mine[x];
    }
  }

  lemma WithoutDrops(packs: seq<seq<Obj>>, who: nat, i: nat)
    requires who < |packs| && i < |packs[who]|
    ensures Pool(Bags(packs[who := Without(packs[who], i)])) + multiset{packs[who][i]} == Pool(Bags(packs))
  {
    var pack := packs[who];
    var before, now, rest := Pool(Bags(packs)), Pool(Bags(packs[who := Without(pack, i)])), multiset(Without(pack, i));
    BagsUpdate(packs, who, Without(pack, i));
    assert pack == pack[..i] + [pack[i]] + pack[i + 1..];
    assert now + (rest + multiset{pack[i]}) == before + rest;
    forall x ensures (now + multiset{pack[i]})[x] == before[x] {
      assert (now + (rest + multiset{pack[i]}))[x] == now[x] + rest[x] + multiset{pack[i]}[x];
    }
  }

  /** The object leaves the slot for somebody's inventory, or for nowhere. */
  lemma LotLeavesSlot(h: House, r: House, who: nat)
    requires h.desk.item.Some? && r.desk.item.None? && who < |h.packs|
    requires (r.packs == Hand(h.packs, who, h.desk.item.value) && r.destroyed == h.destroyed)
          || (r.packs == h.packs && r.destroyed == h.destroyed + multiset{h.desk.item.value})
    ensures Objects(r) == Objects(h)
  {
    HandAdds(h.packs, who, h.desk.item.value);
  }

  lemma StopKeepsObjects(h: House, roster: Roster, env: Env, ch: nat, confiscate: bool)
    requires Inv(h, roster) && h.desk.item.Some? && ch < |roster|
    ensures Objects(Stop(h, roster, env, ch, confiscate)) == Objects(h)
  {
    LotLeavesSlot(h, Stop(h, roster, env, ch, confiscate), ch);
  }

  lemma SettleKeepsObjects(h: House, roster: Roster, env: Env)
    requires WellFormed(h, roster) && h.desk.item.Some? && |roster| > 0
    ensures Objects(Settle(h, roster, env)) == Objects(h)
  {
    var buyer := Party(roster, env, h.desk, Buyer, h.desk.realBuyer);
    var seller := Party(roster, env, h.desk, Seller, h.desk.realSeller);
    var who := if h.desk.bet > 0 && buyer.Some? then buyer.value else if seller.Some? then seller.value else 0;
    LotLeavesSlot(h, Settle(h, roster, env), who);
  }

  lemma DestroyedKeepsObjects(h: House, r: House)
    requires h.desk.item.Some? && r.desk.item.None? && r.packs == h.packs
    requires r.destroyed == h.destroyed + multiset{h.desk.item.value}
    ensures Objects(r) == Objects(h)
  {
  }

  function Called(h: House): House {
    h.(desk := h.desk.(pulse := CALL_TICKS, going := 3))
  }

  lemma UpdateShape(h: House, roster: Roster, env: Env)
    requires Inv(h, roster)
    ensures var r := Update(h, roster, env);
      if IsSettlement(h, Tick(env)) then r == Settle(Called(h), roster, env)
      else r.packs == h.packs && r.desk.item == h.desk.item && r.destroyed == h.destroyed
  {
  }

  lemma UpdateKeepsObjects(h: House, roster: Roster, env: Env)
    requires Inv(h, roster)
    ensures Objects(Update(h, roster, env)) == Objects(h)
  {
    UpdateShape(h, roster, env);
    if IsSettlement(h, Tick(env)) {
      if |roster| > 0 {
        SettleKeepsObjects(Called(h), roster, env);
      } else {
        DestroyedKeepsObjects(Called(h), Settle(Called(h), roster, env));
      }
    }
  }

  lemma OpenKeepsObjects(h: House, roster: Roster, env: Env, c: Command)
    requires WellFormed(h, roster) && c.ch < |roster| && OpenAccepted(h, roster, env, c)
    ensures Objects(OpenLot(h, roster, env, c)) == Objects(h)
  {
    WithoutDrops(h.packs, c.ch, c.pick.value);
  }

  lemma BidKeepsObjects(h: House, roster: Roster, env: Env, ch: nat, newbet: int)
    requires WellFormed(h, roster) && ch < |roster|
    ensures Objects(Staked(h, roster, env, ch, newbet)) == Objects(h)
  {
  }

  lemma StepKeepsObjects(h: House, roster: Roster, e: Event)
    requires Inv(h, roster) && ValidEvent(e, roster)
    ensures Objects(Step(h, roster, e)) == Objects(h)
  {
    if e.Tick? {
      UpdateKeepsObjects(h, roster, e.env);
    } else if IsStop(h, roster, e) {
      StopKeepsObjects(h, roster, e.env, e.command.ch, IsStopWord(e.command.arg1));
    } else if IsBid(h, roster, e) {
      BidKeepsObjects(h, roster, e.env, e.command.ch, BetParser.ParseBet(h.desk.bet, e.command.arg1));
    } else if IsOpening(h, roster, e) {
      OpenKeepsObjects(h, roster, e.env, e.command);
    } else {
      assert Step(h, roster, e) == h;
    }
  }

  lemma {:induction false} RunKeepsObjects(h: House, roster: Roster, es: seq<Event>)
    requires Inv(h, roster) && ValidRun(es, roster)
    ensures Objects(Run(h, roster, es)) == Objects(h)
    decreases |es|
  {
    if es == [] {
    } else {
      StepKeepsObjects(h, roster, es[0]);
      StepKeepsInv(h, roster, es[0]);
      RunKeepsObjects(Step(h, roster, es[0]), roster, es[1..]);
    }
  }

  predicate Carries(h: House, p: int, o: Obj) {
    0 <= p < |h.packs| && o in h.packs[p]
  }

  lemma {:induction false} PoolMember<T>(bags: seq<multiset<T>>, p: nat, x: T)
    requires p < |bags|
    ensures Pool(bags)[x] >= bags[p][x]
  {
    if p == 0 {
    } else {
      PoolMember(bags[1..], p - 1, x);
    }
  }

  lemma {:induction false} PoolTwoMembers<T>(bags: seq<multiset<T>>, p: nat, q: nat, x: T)
    requires p < q < |bags|
    ensures Pool(bags)[x] >= bags[p][x] + bags[q][x]
  {
    if p == 0 {
      PoolMember(bags[1..], q - 1, x);
    } else {
      PoolTwoMembers(bags[1..], p - 1, q - 1, x);
    }
  }

  lemma {:induction false} PoolHasHolder<T>(bags: seq<multiset<T>>, x: T)
    requires Pool(bags)[x] > 0
    ensures exists p :: 0 <= p < |bags| && x in bags[p]
  {
    if x !in bags[0] {
      PoolHasHolder(bags[1..], x);
      var p :| 0 <= p < |bags[1..]| && x in bags[1..][p];
      assert bags[p + 1] == bags[1..][p];
    } else {
      assert 0 < |bags| && x in bags[0];
    }
  }

  ghost predicate InOnePlace(r: House, o: Obj) {
    && (forall p, q :: Carries(r, p, o) && Carries(r, q, o) ==> p == q)
    && ((exists p :: Carries(r, p, o)) || r.desk.item == Some(o) || o in r.destroyed)
    && ((exists p :: Carries(r, p, o)) ==> r.desk.item != Some(o) && o !in r.destroyed)
    && !(r.desk.item == Some(o) && o in r.destroyed)
  }

  lemma CarriersArePooled(r: House, o: Obj)
    ensures (exists p :: Carries(r, p, o)) <==> Pool(Bags(r.packs))[o] > 0
    ensures (exists p, q :: p < q && Carries(r, p, o) && Carries(r, q, o)) ==> Pool(Bags(r.packs))[o] > 1
  {
    var bags := Bags(r.packs);
    if p :| Carries(r, p, o) {
      PoolMember(bags, p, o);
    } else if Pool(bags)[o] > 0 {
      PoolHasHolder(bags, o);
      var p :| 0 <= p < |bags| && o in bags[p];
      assert Carries(r, p, o);
    }
    if p, q :| p < q && Carries(r, p, o) && Carries(r, q, o) {
      PoolTwoMembers(bags, p, q, o);
    }
  }

  /** After any run, an object that exists once is in exactly one place: with one character, in the auction
      slot, or destroyed. */
  lemma ExactlyOnePlace(h: House, roster: Roster, es: seq<Event>, o: Obj)
    requires Inv(h, roster) && ValidRun(es, roster) && Objects(h)[o] == 1
    ensures InOnePlace(Run(h, roster, es), o)
  {
    RunKeepsObjects(h, roster, es);
    var r := Run(h, roster, es);
    CarriersArePooled(r, o);
    assert Objects(r)[o] == Pool(Bags(r.packs))[o] + Slot(r.desk.item)[o] + r.destroyed[o];
    forall p, q | Carries(r, p, o) && Carries(r, q, o) ensures p == q {
      assert !(p < q) && !(q < p);
    }
  }

  // ---------------------------------------------------------------- the size of bids

  /** How many bids the current lot has taken, counting `sofar` before the run. */
  function BidsOnLot(h: House, roster: Roster, es: seq<Event>, sofar: nat): nat
    requires WellFormed(h, roster) && ValidRun(es, roster)
    decreases |es|
  {
    if es == [] then sofar
    else
      var n := if IsOpening(h, roster, es[0]) then 0 else if IsBid(h, roster, es[0]) then sofar + 1 else sofar;
      BidsOnLot(Step(h, roster, es[0]), roster, es[1..], n)
  }

  predicate BidFloor(desk: Desk, bids: nat) {
    desk.item.Some? ==>
      if bids == 0 then desk.bet == 0
      else desk.bet >= 100 + 100 * (bids - 1) && desk.bet >= desk.reserve + 100 * (bids - 1)
  }

  lemma BidStepFloor(h: House, roster: Roster, e: Event, sofar: nat)
    requires Inv(h, roster) && ValidEvent(e, roster) && BidFloor(h.desk, sofar)
    ensures BidFloor(Step(h, roster, e).desk,
                     if IsOpening(h, roster, e) then 0 else if IsBid(h, roster, e) then sofar + 1 else sofar)
  {
  }

  /** Whatever is typed after "bid", the k-th accepted bid on a lot is at least max(100, reserve) + 100(k-1). */
  lemma {:induction false} KthBidFloor(h: House, roster: Roster, es: seq<Event>, sofar: nat)
    requires Inv(h, roster) && ValidRun(es, roster) && BidFloor(h.desk, sofar)
    ensures BidFloor(Run(h, roster, es).desk, BidsOnLot(h, roster, es, sofar))
    decreases |es|
  {
    if es == [] {
    } else {
      StepKeepsInv(h, roster, es[0]);
      var n := if IsOpening(h, roster, es[0]) then 0 else if IsBid(h, roster, es[0]) then sofar + 1 else sofar;
      BidStepFloor(h, roster, es[0], sofar);
      KthBidFloor(Step(h, roster, es[0]), roster, es[1..], n);
    }
  }

  // ---------------------------------------------------------------- the clock

  /** How many more calls of auction_update the lot will last. */
  function Remaining(desk: Desk): int {
    if desk.item.None? then 0 else desk.pulse + CALL_TICKS * (2 - desk.going)
  }

  /** A step that is neither an accepted bid, nor an immortal's stop, nor a new lot. */
  predicate Quiet(h: House, roster: Roster, e: Event)
    requires WellFormed(h, roster) && ValidEvent(e, roster)
  {
    !IsBid(h, roster, e) && !IsStop(h, roster, e) && !IsOpening(h, roster, e)
  }

  ghost predicate QuietRun(h: House, roster: Roster, es: seq<Event>)
    requires WellFormed(h, roster) && ValidRun(es, roster)
    decreases |es|
  {
    es != [] ==> Quiet(h, roster, es[0]) && QuietRun(Step(h, roster, es[0]), roster, es[1..])
  }

  function Ticks(es: seq<Event>): nat {
    if es == [] then 0 else (if es[0].Tick? then 1 else 0) + Ticks(es[1..])
  }

  lemma OpeningAndBidStartTheClock(h: House, roster: Roster, e: Event)
    requires Inv(h, roster) && ValidEvent(e, roster)
    requires IsOpening(h, roster, e) || IsBid(h, roster, e)
    ensures Remaining(Step(h, roster, e).desk) == 18
  {
  }

  /** The same lot, at the same bet, between the same people. */
  predicate SameTerms(a: Desk, b: Desk) {
    && a.item == b.item && a.bet == b.bet && a.reserve == b.reserve
    && a.realSeller == b.realSeller && a.realBuyer == b.realBuyer
  }

  lemma TickLowersRemaining(h: House, roster: Roster, e: Event)
    requires Inv(h, roster) && ValidEvent(e, roster) && Quiet(h, roster, e)
    ensures var r := Step(h, roster, e);
      && Remaining(r.desk) == (if e.Tick? && h.desk.item.Some? then Remaining(h.desk) - 1 else Remaining(h.desk))
      && (r.desk.item.Some? ==> SameTerms(h.desk, r.desk))
  {
  }

  /** Left alone, a lot stays on sale, at the same bet, for exactly Remaining calls of auction_update. */
  lemma {:induction false} QuietRunCountsDown(h: House, roster: Roster, es: seq<Event>)
    requires Inv(h, roster) && ValidRun(es, roster) && QuietRun(h, roster, es)
    ensures var r := Run(h, roster, es);
      && (r.desk.item.Some? <==> Ticks(es) < Remaining(h.desk))
      && (r.desk.item.Some? ==> SameTerms(h.desk, r.desk) && Remaining(r.desk) == Remaining(h.desk) - Ticks(es))
    decreases |es|
  {
    if es == [] {
    } else {
      TickLowersRemaining(h, roster, es[0]);
      StepKeepsInv(h, roster, es[0]);
      QuietRunCountsDown(Step(h, roster, es[0]), roster, es[1..]);
    }
  }

  /** After an opening or an accepted bid, a lot nobody touches settles at the 18th update, not before. */
  lemma SettlesAtEighteen(h: House, roster: Roster, e: Event, es: seq<Event>)
    requires Inv(h, roster) && ValidEvent(e, roster) && ValidRun(es, roster)
    requires IsOpening(h, roster, e) || IsBid(h, roster, e)
    requires QuietRun(Step(h, roster, e), roster, es)
    ensures Run(Step(h, roster, e), roster, es).desk.item.Some? <==> Ticks(es) < 18
  {
    OpeningAndBidStartTheClock(h, roster, e);
    StepKeepsInv(h, roster, e);
    QuietRunCountsDown(Step(h, roster, e), roster, es);
  }

  // ---------------------------------------------------------------- who gets the money

  /** Names fit their fields and tell people apart by strcmp, as is_present does; nobody is called "(nessuno)". */
  ghost predicate ProperNames(roster: Roster) {
    && (forall p :: 0 <= p < |roster| ==> |roster[p].name| < NAME_FIELD && roster[p].name != NONE_NAME)
    && (forall p, q :: 0 <= p < q < |roster| ==> roster[p].name != roster[q].name)
  }

  /** A person's own gold and the bet they have in escrow. */
  function Claim(h: House, roster: Roster, p: nat): int
    requires WellFormed(h, roster) && p < |roster|
  {
    h.gold[p] + (if h.desk.bet > 0 && h.desk.realBuyer == roster[p].name then h.desk.bet else 0)
  }

  /** What a settlement owes a person: the price to a present seller, when a present buyer has bought. */
  function Proceeds(h: House, roster: Roster, e: Event, p: nat): int
    requires p < |roster|
  {
    if h.desk.bet > 0 && !BuyerAbsent(h, roster, e)
       && Party(roster, e.env, h.desk, Seller, h.desk.realSeller) == Some(p) then h.desk.bet else 0
  }

  /** Nobody who is present ever loses gold except by winning: each step leaves the claim of every person
      as it was, apart from the settlement of their own bid and of their own sale.  An absent buyer's stake
      is all that can be lost. */
  lemma ClaimsAreKept(h: House, roster: Roster, e: Event, p: nat)
    requires Inv(h, roster) && ValidEvent(e, roster) && ProperNames(roster) && p < |roster|
    requires h.desk.bet > 0 && h.desk.realBuyer == roster[p].name ==> !BuyerAbsent(h, roster, e)
    ensures Claim(Step(h, roster, e), roster, p) ==
            if IsSettlement(h, e) then h.gold[p] + Proceeds(h, roster, e, p) else Claim(h, roster, p)
  {
    var buyer := Party(roster, e.env, h.desk, Buyer, h.desk.realBuyer);
    if buyer.Some? && h.desk.realBuyer == roster[p].name {
      assert buyer.value == p;
    }
    if IsBid(h, roster, e) {
      assert CopyName(roster[e.command.ch].name) == roster[e.command.ch].name;
    }
  }

  /** Where the lot of a settlement goes: to the highest bidder if present, else back to the seller if
      present, else it is destroyed. */
  predicate LotHandedOver(h: House, r: House, roster: Roster, env: Env, winner: nat)
    requires WellFormed(h, roster) && h.desk.item.Some? && winner < |roster|
  {
    var o, seller := h.desk.item.value, Party(roster, env, h.desk, Seller, h.desk.realSeller);
    if Party(roster, env, h.desk, Buyer, h.desk.realBuyer).Some? then
      r.packs == Hand(h.packs, winner, o) && r.destroyed == h.destroyed
    else if seller.Some? then
      r.packs == Hand(h.packs, seller.value, o) && r.destroyed == h.destroyed
      && roster[seller.value].name == h.desk.realSeller
    else r.packs == h.packs && r.destroyed == h.destroyed + multiset{o}
  }

  /** The last accepted bidder gets the lot: when nobody bids, stops or purges during the next 17 updates, the
      18th hands the lot to that very person, if present then. */
  lemma LastBidderWins(h: House, roster: Roster, bid: Event, es: seq<Event>, last: Env)
    requires Inv(h, roster) && ValidEvent(bid, roster) && ValidRun(es, roster) && ProperNames(roster)
    requires IsBid(h, roster, bid) && QuietRun(Step(h, roster, bid), roster, es) && Ticks(es) == 17
    ensures var before := Run(Step(h, roster, bid), roster, es);
      && before.desk.item == h.desk.item && before.desk.item.Some?
      && before.desk.realBuyer == roster[bid.command.ch].name && before.desk.realSeller == h.desk.realSeller
      && LotHandedOver(before, Update(before, roster, last), roster, last, bid.command.ch)
  {
    var start, winner := Step(h, roster, bid), bid.command.ch;
    OpeningAndBidStartTheClock(h, roster, bid);
    StepKeepsInv(h, roster, bid);
    QuietRunCountsDown(start, roster, es);
    RunKeepsInv(start, roster, es);
    var before := Run(start, roster, es);
    assert CopyName(roster[winner].name) == roster[winner].name;
    var buyer := Party(roster, last, before.desk, Buyer, before.desk.realBuyer);
    assert buyer.Some? ==> roster[buyer.value].name == roster[winner].name && buyer.value == winner;
    assert IsSettlement(before, Tick(last));
    UpdateShape(before, roster, last);
  }

  lemma QuietStepKeepsGoods(h: House, roster: Roster, e: Event)
    requires Inv(h, roster) && ValidEvent(e, roster) && Quiet(h, roster, e) && Step(h, roster, e).desk.item.Some?
    ensures var r := Step(h, roster, e);
      r.gold == h.gold && r.packs == h.packs && r.destroyed == h.destroyed && r.desk.buyer == h.desk.buyer
  {
  }

  /** While a lot is left alone and on sale, nobody's gold or inventory changes through the auction. */
  lemma {:induction false} QuietRunKeepsGoods(h: House, roster: Roster, es: seq<Event>)
    requires Inv(h, roster) && ValidRun(es, roster) && QuietRun(h, roster, es) && Run(h, roster, es).desk.item.Some?
    ensures var r := Run(h, roster, es);
      r.gold == h.gold && r.packs == h.packs && r.destroyed == h.destroyed && r.desk.buyer == h.desk.buyer
    decreases |es|
  {
    if es == [] {
    } else {
      var next := Step(h, roster, es[0]);
      StepKeepsInv(h, roster, es[0]);
      QuietRunCountsDown(next, roster, es[1..]);
      assert next.desk.item.Some?;
      QuietStepKeepsGoods(h, roster, es[0]);
      QuietRunKeepsGoods(next, roster, es[1..]);
    }
  }

  /** A lot offered to nobody's liking: when 17 updates pass without a bid or a stop, the 18th gives the object back
      to its seller, if present then, as the first thing carried, and otherwise destroys it.  Nobody gains or loses
      any gold, and nobody else's inventory changes. */
  lemma UnsoldLotGoesBack(h: House, roster: Roster, opening: Event, es: seq<Event>, last: Env)
    requires Inv(h, roster) && ValidEvent(opening, roster) && ValidRun(es, roster) && ProperNames(roster)
    requires IsOpening(h, roster, opening) && QuietRun(Step(h, roster, opening), roster, es) && Ticks(es) == 17
    ensures var c := opening.command;
      var o, rest := h.packs[c.ch][c.pick.value], Without(h.packs[c.ch], c.pick.value);
      var before := Run(Step(h, roster, opening), roster, es);
      var r := Update(before, roster, last);
      && r.desk == Desk(None, None, None, NONE_NAME, NONE_NAME, 0, 0, r.desk.going, r.desk.pulse) && r.gold == h.gold
      && (if Locate(roster, last, before.desk.seller, roster[c.ch].name).Some?
          then r.packs == h.packs[c.ch := [o] + rest] && r.destroyed == h.destroyed
          else r.packs == h.packs[c.ch := rest] && r.destroyed == h.destroyed + multiset{o})
  {
    var c, start := opening.command, Step(h, roster, opening);
    OpeningAndBidStartTheClock(h, roster, opening);
    StepKeepsInv(h, roster, opening);
    QuietRunCountsDown(start, roster, es);
    RunKeepsInv(start, roster, es);
    QuietRunKeepsGoods(start, roster, es);
    var before := Run(start, roster, es);
    assert CopyName(roster[c.ch].name) == roster[c.ch].name;
    var seller := Party(roster, last, before.desk, Seller, before.desk.realSeller);
    assert seller.Some? ==> roster[seller.value].name == roster[c.ch].name && seller.value == c.ch;
    assert IsSettlement(before, Tick(last));
    UpdateShape(before, roster, last);
  }

  /** The first bid on a lot is no lower than the price its seller typed, nor than 100. */
  lemma FirstBidMeetsPrice(h: House, roster: Roster, opening: Event, es: seq<Event>, bid: Event, sign: string,
                           digits: string)
    requires Inv(h, roster) && ValidEvent(opening, roster) && ValidRun(es, roster) && ValidEvent(bid, roster)
    requires IsOpening(h, roster, opening) && QuietRun(Step(h, roster, opening), roster, es)
    requires IsBid(Run(Step(h, roster, opening), roster, es), roster, bid)
    requires Numeral(opening.command.price, sign, digits)
    ensures var r := Step(Run(Step(h, roster, opening), roster, es), roster, bid);
      r.desk.bet >= 100 && r.desk.bet >= Decimal.Value(digits)
  {
    var start := Step(h, roster, opening);
    ReserveMeans(opening.command.price);
    StepKeepsInv(h, roster, opening);
    QuietRunCountsDown(start, roster, es);
  }

  /** At the first and at the second call, and at every bid, the seller is looked up; one who is found then gets what
      is due at the settlement even after leaving, unless waiting linkdead in room 3 at that time with nobody of that
      name online. */
  lemma SellerIsRemembered(h: House, roster: Roster, e: Event, last: Env, p: nat)
    requires Inv(h, roster) && ValidEvent(e, roster)
    requires IsBid(h, roster, e) || (e.Tick? && h.desk.item.Some? && h.desk.pulse <= 1 && h.desk.going < 2)
    requires Locate(roster, e.env, h.desk.seller, h.desk.realSeller) == Some(p)
    ensures var r := Step(h, roster, e);
      && r.desk.seller == Some(p)
      && (Party(roster, last, r.desk, Seller, r.desk.realSeller) ==
          if p !in last.parked then Some(p) else FindOnline(roster, last.online, r.desk.realSeller))
  {
  }

  /** What the record keeps of a name is its first 19 characters: the seller of a lot can be found again later exactly
      if the name is no longer. */
  lemma SellerIsKnownIff(h: House, roster: Roster, opening: Event, later: Env)
    requires Inv(h, roster) && ValidEvent(opening, roster) && IsOpening(h, roster, opening)
    requires opening.command.ch !in later.parked
    ensures var r, p := Step(h, roster, opening), opening.command.ch;
      Party(roster, later, r.desk, Seller, r.desk.realSeller) == Some(p) <==> |roster[p].name| < 20
  {
  }

  /** Nobody bids twice in a row on a lot: until somebody else has bid, the last bidder's bids are refused. */
  lemma NobodyOutbidsThemself(h: House, roster: Roster, bid: Event, es: seq<Event>, again: Event)
    requires Inv(h, roster) && ValidEvent(bid, roster) && ValidRun(es, roster) && ValidEvent(again, roster)
    requires IsBid(h, roster, bid) && QuietRun(Step(h, roster, bid), roster, es)
    requires IsBid(Run(Step(h, roster, bid), roster, es), roster, again)
    ensures again.command.ch != bid.command.ch
  {
    var start := Step(h, roster, bid);
    StepKeepsInv(h, roster, bid);
    QuietRunCountsDown(start, roster, es);
    QuietRunKeepsGoods(start, roster, es);
  }

  /** Shortly before a reboot, and with no immortal at it. */
  predicate RebootSoon(roster: Roster, e: Event)
    requires ValidEvent(e, roster)
  {
    e.Cmd? ==> e.env.rebootSoon && !roster[e.command.ch].immortal
  }

  /** Then no lot is opened and no bid is taken any more: the lot on sale just runs out. */
  lemma {:induction false} RebootEndsTrade(h: House, roster: Roster, es: seq<Event>)
    requires Inv(h, roster) && ValidRun(es, roster)
    requires forall i :: 0 <= i < |es| ==> RebootSoon(roster, es[i])
    ensures QuietRun(h, roster, es)
    ensures Run(h, roster, es).desk.item.Some? <==> Ticks(es) < Remaining(h.desk)
    decreases |es|
  {
    if es == [] {
    } else {
      assert RebootSoon(roster, es[0]);
      StepKeepsInv(h, roster, es[0]);
      RebootEndsTrade(Step(h, roster, es[0]), roster, es[1..]);
      QuietRunCountsDown(h, roster, es);
    }
  }

  lemma FoldedWords()
    ensures Fold("purge") == "purge" && Fold("stop") == "stop" && Fold("halt") == "halt"
  {
    assert Fold("urge") == "urge" && Fold("top") == "top" && Fold("alt") == "alt";
  }

  /** Exactly these words, in whatever case, from an immortal player, are a stop. */
  lemma StopIff(h: House, roster: Roster, e: Event)
    requires ValidEvent(e, roster)
    ensures IsStop(h, roster, e) <==>
      && e.Cmd? && h.desk.item.Some? && !roster[e.command.ch].npc && roster[e.command.ch].immortal
      && Fold(e.command.arg1) in {"purge", "stop", "halt"}
  {
    FoldedWords();
  }

  /** What an immortal's word does to a lot on sale: "purge" destroys it, "stop" and "halt" put it into the
      immortal's own hands.  Either way a buyer who is present gets the whole bet back, nobody else's gold changes,
      and no lot is on sale any more. */
  lemma {:induction false} StopWordsDecide(h: House, roster: Roster, e: Event)
    requires Inv(h, roster) && ValidEvent(e, roster) && IsStop(h, roster, e)
    ensures var r, o, ch := Step(h, roster, e), h.desk.item.value, e.command.ch;
      && (if Fold(e.command.arg1) == "purge" then r.packs == h.packs && r.destroyed == h.destroyed + multiset{o}
          else r.packs == h.packs[ch := [o] + h.packs[ch]] && r.destroyed == h.destroyed)
      && (forall p: nat :: p < |h.gold| ==>
            r.gold[p] == h.gold[p] + if Locate(roster, e.env, h.desk.buyer, h.desk.realBuyer) == Some(p)
                                     then h.desk.bet else 0)
      && r.desk.item.None? && r.desk.bet == 0
  {
    FoldedWords();
  }
}
