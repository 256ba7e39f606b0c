/** The auction commands as they run: on the fields of the global record, changed one by one. */
module AuctionDesk {
  import opened Options
  import opened Auction
  import opened Sums
  import BetParser

  class AuctionHouse {
    const roster: Roster

    var item: Option<Obj>
    var seller: Option<nat>
    var buyer: Option<nat>
    var realSeller: string
    var realBuyer: string
    var bet: int
    var reserve: int
    var going: int
    var pulse: int

    var gold: seq<int>
    var packs: seq<seq<Obj>>
    var destroyed: multiset<Obj>

    function View(): House
      reads this
    {
      House(Desk(item, seller, buyer, realSeller, realBuyer, bet, reserve, going, pulse), gold, packs, destroyed)
    }

    ghost predicate Valid()
      reads this
    {
      WellFormed(View(), roster)
    }

    constructor (roster: Roster, gold: seq<int>, packs: seq<seq<Obj>>)
      requires |gold| == |packs| == |roster|
      ensures Valid() && this.roster == roster
      ensures View() == House(Desk(None, None, None, NONE_NAME, NONE_NAME, 0, 0, 0, 0), gold, packs, multiset{})
    {
      this.roster, this.gold, this.packs, destroyed := roster, gold, packs, multiset{};
      item, seller, buyer, realSeller, realBuyer := None, None, None, NONE_NAME, NONE_NAME;
      bet, reserve, going, pulse := 0, 0, 0, 0;
    }

    /** The walk over the descriptor list. */
    method FindDescriptor(online: seq<nat>, name: string) returns (found: Option<nat>)
      ensures found == FindOnline(roster, online, name)
    {
      var i := 0;
      while i < |online|
        invariant 0 <= i <= |online|
        invariant FindOnline(roster, online, name) == FindOnline(roster, online[i..], name)
      {
        var d := online[i];
        if d < |roster| && roster[d].name == name {
          return Some(d);
        }
        assert online[i..][1..] == online[i + 1..];
        i := i + 1;
      }
      found := None;
    }

    /** is_present: look at the role's pointer, else walk the descriptor list; leave the answer in the pointer. */
    method IsPresent(env: Env, role: Role, name: string) returns (present: bool)
      modifies this`seller, this`buyer
      ensures seller == if role.Seller? then Locate(roster, env, old(seller), name) else old(seller)
      ensures buyer == if role.Buyer? then Locate(roster, env, old(buyer), name) else old(buyer)
      ensures present <==> (if role.Seller? then seller else buyer).Some?
    {
      var cached := if role.Seller? then seller else buyer;
      if cached.Some? && cached.value < |roster| && cached.value !in env.parked && roster[cached.value].name == name {
        return true;
      }
      var found := FindDescriptor(env.online, name);
      if role.Seller? {
        seller := found;
      } else {
        buyer := found;
      }
      present := found.Some?;
    }

    method ObjToChar(o: Obj, ch: nat)
      requires Valid() && ch < |roster|
      modifies this`packs
      ensures packs == Hand(old(packs), ch, o)
    {
      packs := packs[ch := [o] + packs[ch]];
    }

    method ExtractObj(o: Obj)
      modifies this`destroyed
      ensures destroyed == old(destroyed) + multiset{o}
    {
      destroyed := destroyed + multiset{o};
    }

    /** GET_GOLD(who) += amount, for a party that was found. */
    method Credit(who: Option<nat>, amount: int)
      requires who.Some? ==> who.value < |gold|
      modifies this`gold
      ensures gold == if who.Some? then Pay(old(gold), who.value, amount) else old(gold)
    {
      if who.Some? {
        gold := gold[who.value := gold[who.value] + amount];
      }
    }

    method ClearDesk()
      modifies this`item, this`bet, this`reserve, this`buyer, this`realBuyer, this`seller, this`realSeller
      ensures item.None? && bet == 0 && reserve == 0
      ensures buyer.None? && realBuyer == NONE_NAME && seller.None? && realSeller == NONE_NAME
    {
      item, bet, reserve := None, 0, 0;
      buyer, realBuyer := None, NONE_NAME;
      seller, realSeller := None, NONE_NAME;
    }

    /** The lot is confiscated by the immortal, or destroyed. */
    method RemoveLot(ch: nat, confiscate: bool)
      requires Valid() && ch < |roster| && item.Some?
      modifies this`packs, this`destroyed
      ensures packs == if confiscate then Hand(old(packs), ch, item.value) else old(packs)
      ensures destroyed == if confiscate then old(destroyed) else old(destroyed) + multiset{item.value}
    {
      if confiscate {
        ObjToChar(item.value, ch);
      } else {
        ExtractObj(item.value);
      }
    }

    /** The escrowed bet goes back to a present buyer. */
    method Refund(env: Env)
      requires Valid()
      modifies this`gold, this`buyer, this`seller
      ensures seller == old(seller)
      ensures var party := Locate(roster, env, old(buyer), realBuyer);
        gold == if bet > 0 && party.Some? then Pay(old(gold), party.value, bet) else old(gold)
    {
      if bet > 0 {
        var here := IsPresent(env, Buyer, realBuyer);
        Credit(buyer, bet);
      }
    }

    /** The lot and the escrow leave the desk. */
    method Vacate(env: Env, ch: nat, confiscate: bool)
      requires Valid() && ch < |roster| && item.Some?
      modifies this`packs, this`destroyed, this`gold, this`buyer, this`seller
      ensures var stopped := Stop(old(View()), roster, env, ch, confiscate);
        gold == stopped.gold && packs == stopped.packs && destroyed == stopped.destroyed
    {
      RemoveLot(ch, confiscate);
      var here := IsPresent(env, Seller, realSeller);
      Refund(env);
    }

    method StopAuction(env: Env, ch: nat, confiscate: bool)
      requires Valid() && ch < |roster| && item.Some?
      modifies this
      ensures Valid() && View() == Stop(old(View()), roster, env, ch, confiscate)
    {
      Vacate(env, ch, confiscate);
      ClearDesk();
    }

    /** The refusals of a bid. */
    method BidPasses(env: Env, c: Command) returns (ok: bool)
      requires Valid() && c.ch < |roster|
      ensures ok == BidAccepted(View(), roster, env, c)
    {
      var me := roster[c.ch];
      if (!me.immortal && env.rebootSoon) || item.None? {
        return false;
      }
      var newbet := BetParser.ParseBet(bet, c.arg1);
      if bet > 0 && (buyer == Some(c.ch) || SameWord(realBuyer, me.name)) {
        return false;
      }
      var minNext := if bet == 0 then if reserve > 100 then reserve else 100 else bet + 100;
      if newbet <= bet || newbet < minNext {
        return false;
      }
      return newbet <= gold[c.ch];
    }

    /** The outbid buyer is paid back if present, and the new bid is taken. */
    method ExchangeStakes(env: Env, ch: nat, newbet: int)
      requires Valid() && ch < |roster|
      modifies this`gold, this`buyer, this`seller
      ensures seller == old(seller)
      ensures var party := Locate(roster, env, old(buyer), realBuyer);
        gold == Pay(if party.Some? then Pay(old(gold), party.value, bet) else old(gold), ch, -newbet)
    {
      var here := IsPresent(env, Buyer, realBuyer);
      Credit(buyer, bet);
      Credit(Some(ch), -newbet);
    }

    method RecordBid(ch: nat, newbet: int)
      requires ch < |roster|
      modifies this`buyer, this`realBuyer, this`bet, this`going, this`pulse
      ensures buyer == Some(ch) && realBuyer == CopyName(roster[ch].name)
      ensures bet == newbet && going == 0 && pulse == WAIT_TICKS
    {
      buyer := Some(ch);
      realBuyer := CopyName(roster[ch].name);
      bet := newbet;
      going := 0;
      pulse := WAIT_TICKS;
    }

    method TakeStake(env: Env, ch: nat, newbet: int)
      requires Valid() && ch < |roster|
      modifies this
      ensures View() == Staked(old(View()), roster, env, ch, newbet)
    {
      ghost var taken := Staked(View(), roster, env, ch, newbet);
      ExchangeStakes(env, ch, newbet);
      assert gold == taken.gold;
      RecordBid(ch, newbet);
      var here := IsPresent(env, Seller, realSeller);
    }

    method Bid(env: Env, c: Command)
      requires Valid() && c.ch < |roster|
      modifies this
      ensures Valid()
      ensures View() == if BidAccepted(old(View()), roster, env, c) then TakeBid(old(View()), roster, env, c)
                        else old(View())
    {
      var ok := BidPasses(env, c);
      if ok {
        TakeStake(env, c.ch, BetParser.ParseBet(bet, c.arg1));
      }
    }

    /** The refusals of a new lot. */
    method OfferPasses(env: Env, c: Command) returns (ok: bool)
      requires Valid() && c.ch < |roster|
      ensures ok == OpenAccepted(View(), roster, env, c)
    {
      if c.pick.None? || c.pick.value >= |packs[c.ch]| || item.Some? {
        return false;
      }
      if (!roster[c.ch].immortal && env.rebootSoon) || packs[c.ch][c.pick.value].kind.OtherKind? {
        return false;
      }
      return Reserve(c.price).Some?;
    }

    method PlaceLot(ghost env: Env, c: Command, obj: Obj, openingReserve: int)
      requires Valid() && c.ch < |roster| && OpenAccepted(View(), roster, env, c)
      requires obj == packs[c.ch][c.pick.value] && Some(openingReserve) == Reserve(c.price)
      modifies this
      ensures View() == OpenLot(old(View()), roster, env, c)
    {
      ghost var listed := OpenLot(View(), roster, env, c);
      packs := packs[c.ch := Without(packs[c.ch], c.pick.value)];
      assert packs == listed.packs;
      item, bet, reserve := Some(obj), 0, openingReserve;
      buyer, realBuyer := None, NONE_NAME;
      seller, realSeller := Some(c.ch), CopyName(roster[c.ch].name);
      pulse, going := WAIT_TICKS, 0;
    }

    method Offer(env: Env, c: Command)
      requires Valid() && c.ch < |roster|
      modifies this
      ensures Valid()
      ensures View() == if OpenAccepted(old(View()), roster, env, c) then OpenLot(old(View()), roster, env, c)
                        else old(View())
    {
      var ok := OfferPasses(env, c);
      if ok {
        PlaceLot(env, c, packs[c.ch][c.pick.value], Reserve(c.price).value);
      }
    }

    /** do_auction_int. */
    method DoAuctionInt(env: Env, c: Command)
      requires Valid() && c.ch < |roster|
      modifies this
      ensures Valid() && View() == DoAuction(old(View()), roster, env, c)
    {
      var me := roster[c.ch];
      if me.npc {
        return;
      }
      if c.arg1 == "" {
        return;
      }
      if me.immortal && (SameWord(c.arg1, "purge") || IsStopWord(c.arg1)) {
        if item.Some? {
          StopAuction(env, c.ch, IsStopWord(c.arg1));
        }
        return;
      }
      if c.bidding {
        Bid(env, c);
        return;
      }
      Offer(env, c);
    }

    /** The lot to the buyer, the price to a present seller. */
    method SellLot(env: Env)
      requires Valid() && item.Some? && buyer.Some? && buyer.value < |roster|
      modifies this`seller, this`buyer, this`packs, this`gold
      ensures buyer == old(buyer) && seller == Locate(roster, env, old(seller), realSeller)
      ensures packs == Hand(old(packs), buyer.value, item.value)
      ensures gold == if seller.Some? then Pay(old(gold), seller.value, bet) else old(gold)
    {
      LocateIdempotent(roster, env, seller, realSeller);
      var here := IsPresent(env, Seller, realSeller);
      ObjToChar(item.value, buyer.value);
      here := IsPresent(env, Seller, realSeller);
      Credit(seller, bet);
    }

    /** Back to a present seller; otherwise the object is extracted. */
    method ReturnLot(env: Env)
      requires Valid() && item.Some?
      modifies this`seller, this`buyer, this`packs, this`destroyed
      ensures buyer == old(buyer)
      ensures seller == Locate(roster, env, old(seller), realSeller)
      ensures packs == if seller.Some? then Hand(old(packs), seller.value, item.value) else old(packs)
      ensures destroyed == if seller.Some? then old(destroyed) else old(destroyed) + multiset{item.value}
    {
      var sellerHere := IsPresent(env, Seller, realSeller);
      if sellerHere {
        ObjToChar(item.value, seller.value);
      } else {
        ExtractObj(item.value);
      }
    }

    /** The slot is emptied; the pointers and the names stay behind. */
    method EmptySlot()
      modifies this`item, this`bet, this`reserve
      ensures View() == old(View()).(desk := old(View()).desk.(item := None, bet := 0, reserve := 0))
    {
      item, bet, reserve := None, 0, 0;
    }

    method CloseBids(env: Env)
      requires Valid() && item.Some? && bet > 0
      modifies this
      ensures View() == Settle(old(View()), roster, env)
    {
      ghost var settled := Settle(View(), roster, env);
      var buyerHere := IsPresent(env, Buyer, realBuyer);
      if buyerHere {
        SellLot(env);
        assert gold == settled.gold && packs == settled.packs;
      } else {
        ReturnLot(env);
        assert packs == settled.packs && destroyed == settled.destroyed;
      }
      assert buyer == settled.desk.buyer && seller == settled.desk.seller;
      EmptySlot();
    }

    method CloseWithoutBids(env: Env)
      requires Valid() && item.Some? && bet <= 0
      modifies this
      ensures View() == Settle(old(View()), roster, env)
    {
      ghost var settled := Settle(View(), roster, env);
      ReturnLot(env);
      assert gold == settled.gold && packs == settled.packs && destroyed == settled.destroyed;
      ClearDesk();
    }

    /** The third call, on the record as auction_update leaves it. */
    method CloseLot(env: Env)
      requires Valid() && item.Some?
      modifies this
      ensures View() == Settle(old(View()), roster, env)
    {
      if bet > 0 {
        CloseBids(env);
      } else {
        CloseWithoutBids(env);
      }
    }

    /** auction_update. */
    method AuctionUpdate(env: Env)
      requires Valid()
      modifies this
      ensures Valid() && View() == Update(old(View()), roster, env)
    {
      if item.None? {
        return;
      }
      pulse := pulse - 1;
      if pulse > 0 {
        return;
      }
      pulse := CALL_TICKS;
      going := going + 1;
      if going == 1 || going == 2 {
        var sellerHere := IsPresent(env, Seller, realSeller);
      } else if going == 3 {
        CloseLot(env);
      }
    }
  }
}
