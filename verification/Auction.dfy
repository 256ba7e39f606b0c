/** The auction house (auction.cpp) as a state machine: commands and the periodic update.
    The class AuctionHouse in AuctionHouse.dfy runs the same steps on fields updated in place. */
module Auction {
  import opened Options
  import opened Sums
  import BetParser
  import Decimal

  const WAIT_TICKS: int := 10
  const CALL_TICKS: int := 4
  const NAME_FIELD: nat := 20
  const MAX_INT: int := 0x7fff_ffff

  datatype Kind = Weapon | Armor | Staff | Wand | Scroll | OtherKind
  datatype Obj = Obj(id: nat, kind: Kind)

  /** A character; its index in the roster stands for its pointer. */
  datatype Person = Person(name: string, npc: bool, immortal: bool)
  type Roster = seq<Person>

  /** What the rest of the game decides at one step: the characters on the descriptor list, in its order,
      those linkdead in room 3, and whether a reboot is near. */
  datatype Env = Env(online: seq<nat>, parked: set<nat>, rebootSoon: bool)

  /** The fields of the global auction record. */
  datatype Desk = Desk(item: Option<Obj>, seller: Option<nat>, buyer: Option<nat>,
                       realSeller: string, realBuyer: string,
                       bet: int, reserve: int, going: int, pulse: int)

  /** The desk, everybody's gold and inventory, and the objects extracted from the game. */
  datatype House = House(desk: Desk, gold: seq<int>, packs: seq<seq<Obj>>, destroyed: multiset<Obj>)

  const NONE_NAME: string := "(nessuno)"

  // ---------------------------------------------------------------- names and presence

  /** auc_copy_name keeps what fits a field of 20 characters with its NUL. */
  function CopyName(name: string): string {
    if |name| <= NAME_FIELD - 1 then name else name[..NAME_FIELD - 1]
  }

  function Lower(c: char): char {
    if 'A' <= c <= 'Z' then ((c as int) - ('A' as int) + ('a' as int)) as char else c
  }

  function Fold(s: string): string {
    if s == "" then "" else [Lower(s[0])] + Fold(s[1..])
  }

  lemma FoldLength(s: string)
    ensures |Fold(s)| == |s|
  {
  }

  /** Only the case of the letters is lost. */
  lemma {:induction false} FoldIgnoresCase(s: string, i: nat)
    requires i < |s|
    ensures |Fold(s)| == |s|
    ensures Fold(s)[i] == if 'A' <= s[i] <= 'Z' then ((s[i] as int) + 32) as char else s[i]
  {
    if i == 0 {
      FoldLength(s);
    } else {
      FoldIgnoresCase(s[1..], i - 1);
    }
  }

  /** str_cmp: equal up to letter case. */
  predicate SameWord(a: string, b: string) {
    Fold(a) == Fold(b)
  }

  datatype Role = Seller | Buyer

  function Cached(desk: Desk, role: Role): Option<nat> {
    if role.Seller? then desk.seller else desk.buyer
  }

  /** The first character on the descriptor list with that name. */
  function FindOnline(roster: Roster, online: seq<nat>, name: string): (r: Option<nat>)
    ensures r.Some? ==> r.value < |roster| && roster[r.value].name == name && r.value in online
    ensures r.None? ==> forall p :: p in online && p < |roster| ==> roster[p].name != name
  {
    if online == [] then None
    else if online[0] < |roster| && roster[online[0]].name == name then Some(online[0])
    else FindOnline(roster, online[1..], name)
  }

  /** It is the first one on the list: everybody before it has another name. */
  lemma {:induction false} FindOnlineIsFirst(roster: Roster, online: seq<nat>, name: string, i: nat)
    requires i <= |online| && forall j :: 0 <= j < i && online[j] < |roster| ==> roster[online[j]].name != name
    requires i < |online| ==> online[i] < |roster| && roster[online[i]].name == name
    ensures FindOnline(roster, online, name) == if i < |online| then Some(online[i]) else None
  {
    if i == 0 {
    } else {
      FindOnlineIsFirst(roster, online[1..], name, i - 1);
    }
  }

  /** is_present: the character the role's pointer refers to afterwards; None means the party is absent.
      A pointer with the right name is kept unless its character waits linkdead in room 3. */
  function Locate(roster: Roster, env: Env, cached: Option<nat>, name: string): (r: Option<nat>)
    ensures r.Some? ==> r.value < |roster| && roster[r.value].name == name
  {
    if cached.Some? && cached.value < |roster| && cached.value !in env.parked && roster[cached.value].name == name
    then cached
    else FindOnline(roster, env.online, name)
  }

  /** Asking twice gives the same answer. */
  lemma LocateIdempotent(roster: Roster, env: Env, cached: Option<nat>, name: string)
    ensures Locate(roster, env, Locate(roster, env, cached, name), name) == Locate(roster, env, cached, name)
  {
  }

  function Party(roster: Roster, env: Env, desk: Desk, role: Role, name: string): Option<nat> {
    Locate(roster, env, Cached(desk, role), name)
  }

  /** is_present also stores its answer in the pointer. */
  function Refresh(roster: Roster, env: Env, desk: Desk, role: Role, name: string): Desk {
    var p := Party(roster, env, desk, role, name);
    if role.Seller? then desk.(seller := p) else desk.(buyer := p)
  }

  // ---------------------------------------------------------------- the moves of gold and objects

  function Pay(gold: seq<int>, who: nat, amount: int): seq<int>
    requires who < |gold|
  {
    gold[who := gold[who] + amount]
  }

  /** obj_to_char puts the object at the head of the list. */
  function Hand(packs: seq<seq<Obj>>, who: nat, o: Obj): seq<seq<Obj>>
    requires who < |packs|
  {
    packs[who := [o] + packs[who]]
  }

  function Cleared(desk: Desk): Desk {
    desk.(item := None, bet := 0, reserve := 0,
          buyer := None, realBuyer := NONE_NAME, seller := None, realSeller := NONE_NAME)
  }

  // ---------------------------------------------------------------- commands

  /** A command line: `bidding` says it came as "bid"; `pick` is where get_obj_in_list finds arg1 in the
      character's inventory. */
  datatype Command = Command(ch: nat, bidding: bool, arg1: string, price: string, pick: Option<nat>)

  predicate WellFormed(h: House, roster: Roster) {
    |h.gold| == |roster| && |h.packs| == |roster|
  }

  predicate IsStopWord(s: string) {
    SameWord(s, "stop") || SameWord(s, "halt")
  }

  /** The immortal's purge, stop and halt, with an auction under way. */
  function Stop(h: House, roster: Roster, env: Env, ch: nat, confiscate: bool): (r: House)
    requires WellFormed(h, roster) && h.desk.item.Some? && ch < |roster|
    ensures WellFormed(r, roster)
  {
    var o := h.desk.item.value;
    var moved := if confiscate then h.(packs := Hand(h.packs, ch, o)) else h.(destroyed := h.destroyed + multiset{o});
    var buyer := Party(roster, env, h.desk, Buyer, h.desk.realBuyer);
    var refunded :=
      if h.desk.bet > 0 && buyer.Some? then moved.(gold := Pay(h.gold, buyer.value, h.desk.bet)) else moved;
    refunded.(desk := Cleared(h.desk))
  }

  function MinimumBid(desk: Desk): int {
    if desk.bet == 0 then if desk.reserve > 100 then desk.reserve else 100 else desk.bet + 100
  }

  /** Who may bid at all: nobody but immortals before a reboot, on an open lot, and not over the own bid. */
  predicate MayBid(h: House, roster: Roster, env: Env, ch: nat)
    requires WellFormed(h, roster) && ch < |roster|
  {
    var desk, me := h.desk, roster[ch];
    && (me.immortal || !env.rebootSoon)
    && desk.item.Some?
    && !(desk.bet > 0 && (desk.buyer == Some(ch) || SameWord(desk.realBuyer, me.name)))
  }

  /** The tests a stake has to pass. */
  predicate StakeAccepted(h: House, roster: Roster, env: Env, ch: nat, newbet: int)
    requires WellFormed(h, roster) && ch < |roster|
  {
    && MayBid(h, roster, env, ch)
    && !(newbet <= h.desk.bet || newbet < MinimumBid(h.desk))
    && newbet <= h.gold[ch]
  }

  /** The tests a bid has to pass, once the auction is known to be open. */
  predicate BidAccepted(h: House, roster: Roster, env: Env, c: Command)
    requires WellFormed(h, roster) && c.ch < |roster|
  {
    StakeAccepted(h, roster, env, c.ch, BetParser.ParseBet(h.desk.bet, c.arg1))
  }

  /** A raise over a bet, or a stake where there is no bet that is too small to open with. */
  lemma RaiseAcceptedIff(h: House, roster: Roster, env: Env, ch: nat, newbet: int)
    requires WellFormed(h, roster) && ch < |roster| && h.desk.bet >= 0 && (h.desk.bet == 0 ==> newbet < 100)
    ensures StakeAccepted(h, roster, env, ch, newbet) <==>
            MayBid(h, roster, env, ch) && newbet >= h.desk.bet + 100 && newbet <= h.gold[ch]
  {
  }

  /** "bid 500": a plain number is taken exactly when it beats the bid on the table by 100, or opens with at least
      100 and the reserve, and the bidder has the money. */
  lemma NumberBidAcceptedIff(h: House, roster: Roster, env: Env, c: Command)
    requires WellFormed(h, roster) && c.ch < |roster| && h.desk.bet >= 0
    requires c.arg1 != "" && Decimal.AllDigits(c.arg1) && |c.arg1| < BetParser.MAX_INPUT_LENGTH
    ensures var bet, n := h.desk.bet, Decimal.Value(c.arg1);
      BidAccepted(h, roster, env, c) <==>
      MayBid(h, roster, env, c.ch) && n <= h.gold[c.ch]
      && (if bet > 0 then n - bet >= 100 else n >= 100 && n >= h.desk.reserve)
  {
    assert Decimal.IsDigit(c.arg1[0]);
    BetParser.AmountOfDigits(c.arg1);
  }

  /** "bid +20": a raise by percentage is taken exactly when it is worth 100 and the bidder has the money; never as
      the first bid. */
  lemma PercentBidAcceptedIff(h: House, roster: Roster, env: Env, c: Command, n: string)
    requires WellFormed(h, roster) && c.ch < |roster| && h.desk.bet >= 0
    requires n != "" && Decimal.AllDigits(n) && |n| < BetParser.MAX_INPUT_LENGTH - 1 && c.arg1 == ['+'] + n
    ensures var bet, percent := h.desk.bet, Decimal.Value(n);
      BidAccepted(h, roster, env, c) <==>
      MayBid(h, roster, env, c.ch) && bet * percent >= 10000 && bet + bet * percent / 100 <= h.gold[c.ch]
  {
    BetParser.NumberedRaise(h.desk.bet, n);
    BetParser.PercentIsEnough(h.desk.bet, n);
    RaiseAcceptedIff(h, roster, env, c.ch, BetParser.ParseBet(h.desk.bet, c.arg1));
  }

  /** "bid *3" or "bid x3": the same for a factor. */
  lemma FactorBidAcceptedIff(h: House, roster: Roster, env: Env, c: Command, x: char, n: string)
    requires WellFormed(h, roster) && c.ch < |roster| && h.desk.bet >= 0 && x in ['*', 'x']
    requires n != "" && Decimal.AllDigits(n) && |n| < BetParser.MAX_INPUT_LENGTH - 1 && c.arg1 == [x] + n
    ensures var bet, factor := h.desk.bet, Decimal.Value(n);
      BidAccepted(h, roster, env, c) <==>
      MayBid(h, roster, env, c.ch) && bet * factor >= bet + 100 && bet * factor <= h.gold[c.ch]
  {
    BetParser.NumberedFactor(h.desk.bet, x, n);
    RaiseAcceptedIff(h, roster, env, c.ch, BetParser.ParseBet(h.desk.bet, c.arg1));
  }

  /** "bid +-20" or "bid *-3" is never taken. */
  lemma NegativeBidRefused(h: House, roster: Roster, env: Env, c: Command, x: char, n: string)
    requires WellFormed(h, roster) && c.ch < |roster| && h.desk.bet >= 0 && x in ['+', '*', 'x']
    requires n != "" && Decimal.AllDigits(n) && |n| < BetParser.MAX_INPUT_LENGTH - 2 && c.arg1 == [x] + (['-'] + n)
    ensures !BidAccepted(h, roster, env, c)
  {
    BetParser.NegativeRaise(h.desk.bet, x, n);
  }

  /** "bid +", "bid *" and "bid x": a quarter more needs a bet of 400, and twice as much a bet of 100. */
  lemma BareBidAcceptedIff(h: House, roster: Roster, env: Env, c: Command)
    requires WellFormed(h, roster) && c.ch < |roster| && h.desk.bet >= 0 && c.arg1 in ["+", "*", "x"]
    ensures var bet, newbet := h.desk.bet, BetParser.ParseBet(h.desk.bet, c.arg1);
      BidAccepted(h, roster, env, c) <==>
      MayBid(h, roster, env, c.ch) && bet >= (if c.arg1 == "+" then 400 else 100) && newbet <= h.gold[c.ch]
  {
    BetParser.BareRaise(h.desk.bet);
    RaiseAcceptedIff(h, roster, env, c.ch, BetParser.ParseBet(h.desk.bet, c.arg1));
  }

  /** The stakes change: the outbid buyer is paid back first if present, and the new money goes into escrow. */
  function Staked(h: House, roster: Roster, env: Env, ch: nat, newbet: int): (r: House)
    requires WellFormed(h, roster) && ch < |roster|
    ensures WellFormed(r, roster)
  {
    var desk := h.desk;
    var outbid := Party(roster, env, desk, Buyer, desk.realBuyer);
    var gold := if outbid.Some? then Pay(h.gold, outbid.value, desk.bet) else h.gold;
    var seller := Party(roster, env, desk, Seller, desk.realSeller);
    h.(gold := Pay(gold, ch, -newbet),
       desk := desk.(buyer := Some(ch), realBuyer := CopyName(roster[ch].name), bet := newbet,
                     going := 0, pulse := WAIT_TICKS, seller := seller))
  }

  /** An accepted bid. */
  function TakeBid(h: House, roster: Roster, env: Env, c: Command): (r: House)
    requires WellFormed(h, roster) && c.ch < |roster|
    ensures WellFormed(r, roster)
  {
    Staked(h, roster, env, c.ch, BetParser.ParseBet(h.desk.bet, c.arg1))
  }

  /** The starting price: nothing for none; otherwise a whole non-negative number that fits an int. */
  function Reserve(price: string): (r: Option<int>)
    ensures r.Some? ==> 0 <= r.value <= MAX_INT
  {
    if price == "" then Some(0)
    else
      var signed := price[0] == '-' || price[0] == '+';
      var digits := if signed then price[1..] else price;
      if digits == "" || !Decimal.AllDigits(digits) then None
      else
        var n := Decimal.Value(digits);
        if n > MAX_INT || (price[0] == '-' && n > 0) then None else Some(n)
  }

  /** A price that is a whole number, with or without a sign. */
  predicate Numeral(price: string, sign: string, digits: string) {
    sign in ["", "+", "-"] && digits != "" && Decimal.AllDigits(digits) && price == sign + digits
  }

  /** Exactly the numerals are accepted, and no price; the value is the number typed, if it fits. */
  lemma {:induction false} ReserveMeans(price: string)
    ensures Reserve("") == Some(0)
    ensures forall sign, digits :: Numeral(price, sign, digits) ==>
      var v := if sign == "-" then 0 - Decimal.Value(digits) else Decimal.Value(digits);
      Reserve(price) == if 0 <= v <= MAX_INT then Some(v) else None
    ensures Reserve(price).Some? && price != "" ==> exists sign, digits :: Numeral(price, sign, digits)
  {
    forall sign, digits | Numeral(price, sign, digits)
      ensures var v := if sign == "-" then 0 - Decimal.Value(digits) else Decimal.Value(digits);
        Reserve(price) == if 0 <= v <= MAX_INT then Some(v) else None
    {
      assert Decimal.IsDigit(digits[0]);
      assert if sign == "" then price == digits else price[0] == sign[0] && price[1..] == digits;
    }
    if Reserve(price).Some? && price != "" {
      if price[0] == '-' {
        assert Numeral(price, "-", price[1..]);
      } else if price[0] == '+' {
        assert Numeral(price, "+", price[1..]);
      } else {
        assert Numeral(price, "", price);
      }
    }
  }

  predicate Sellable(k: Kind) {
    !k.OtherKind?
  }

  predicate OpenAccepted(h: House, roster: Roster, env: Env, c: Command)
    requires WellFormed(h, roster) && c.ch < |roster|
  {
    && c.pick.Some? && c.pick.value < |h.packs[c.ch]|
    && h.desk.item.None?
    && (roster[c.ch].immortal || !env.rebootSoon)
    && Sellable(h.packs[c.ch][c.pick.value].kind)
    && Reserve(c.price).Some?
  }

  /** A whole number from 0 to the largest int. */
  ghost predicate FitsInt(price: string) {
    exists sign, digits ::
      Numeral(price, sign, digits) && Decimal.Value(digits) <= (if sign == "-" then 0 else MAX_INT)
  }

  /** Exactly five kinds of objects are sold, out of the seller's own inventory, on an empty desk, at no price or at
      a whole number that fits; shortly before a reboot by immortals only. */
  lemma OpensIff(h: House, roster: Roster, env: Env, c: Command)
    requires WellFormed(h, roster) && c.ch < |roster|
    ensures OpenAccepted(h, roster, env, c) <==>
      && h.desk.item.None? && (env.rebootSoon ==> roster[c.ch].immortal) && (c.price == "" || FitsInt(c.price))
      && c.pick.Some? && c.pick.value < |h.packs[c.ch]|
      && h.packs[c.ch][c.pick.value].kind in {Weapon, Armor, Staff, Wand, Scroll}
  {
    ReserveMeans(c.price);
  }

  /** A new lot: the object leaves the seller's inventory for the auction slot. */
  function OpenLot(h: House, roster: Roster, env: Env, c: Command): (r: House)
    requires WellFormed(h, roster) && c.ch < |roster| && OpenAccepted(h, roster, env, c)
    ensures WellFormed(r, roster)
  {
    var pack := h.packs[c.ch];
    h.(packs := h.packs[c.ch := Without(pack, c.pick.value)],
       desk := Desk(Some(pack[c.pick.value]), Some(c.ch), None, CopyName(roster[c.ch].name), NONE_NAME,
                    0, Reserve(c.price).value, 0, WAIT_TICKS))
  }

  /** do_auction_int. */
  function DoAuction(h: House, roster: Roster, env: Env, c: Command): (r: House)
    requires WellFormed(h, roster) && c.ch < |roster|
    ensures WellFormed(r, roster)
  {
    var me := roster[c.ch];
    if me.npc || c.arg1 == "" then h
    else if me.immortal && (SameWord(c.arg1, "purge") || IsStopWord(c.arg1)) then
      if h.desk.item.None? then h else Stop(h, roster, env, c.ch, IsStopWord(c.arg1))
    else if c.bidding then
      if BidAccepted(h, roster, env, c) then TakeBid(h, roster, env, c) else h
    else if OpenAccepted(h, roster, env, c) then OpenLot(h, roster, env, c)
    else h
  }

  // ---------------------------------------------------------------- the periodic update

  /** The third call: the lot is sold, goes back, or is lost. */
  function Settle(h: House, roster: Roster, env: Env): (r: House)
    requires WellFormed(h, roster) && h.desk.item.Some?
    ensures WellFormed(r, roster)
  {
    var desk, o := h.desk, h.desk.item.value;
    var buyer := Party(roster, env, desk, Buyer, desk.realBuyer);
    var seller := Party(roster, env, desk, Seller, desk.realSeller);
    var closed := desk.(item := None, bet := 0, reserve := 0, seller := seller);
    if desk.bet > 0 && buyer.Some? then
      h.(packs := Hand(h.packs, buyer.value, o),
         gold := if seller.Some? then Pay(h.gold, seller.value, desk.bet) else h.gold,
         desk := closed.(buyer := buyer))
    else
      var back := if seller.Some? then h.(packs := Hand(h.packs, seller.value, o))
                  else h.(destroyed := h.destroyed + multiset{o});
      back.(desk := if desk.bet > 0 then closed.(buyer := buyer) else Cleared(desk))
  }

  /** auction_update. */
  function Update(h: House, roster: Roster, env: Env): (r: House)
    requires WellFormed(h, roster)
    ensures WellFormed(r, roster)
  {
    var desk := h.desk;
    if desk.item.None? then h
    else if desk.pulse - 1 > 0 then h.(desk := desk.(pulse := desk.pulse - 1))
    else
      var called := h.(desk := desk.(pulse := CALL_TICKS, going := desk.going + 1));
      if called.desk.going == 1 || called.desk.going == 2 then
        called.(desk := Refresh(roster, env, called.desk, Seller, desk.realSeller))
      else if called.desk.going == 3 then Settle(called, roster, env)
      else called
  }

  // ---------------------------------------------------------------- runs

  datatype Event = Cmd(env: Env, command: Command) | Tick(env: Env)

  predicate ValidEvent(e: Event, roster: Roster) {
    e.Cmd? ==> e.command.ch < |roster|
  }

  function Step(h: House, roster: Roster, e: Event): (r: House)
    requires WellFormed(h, roster) && ValidEvent(e, roster)
    ensures WellFormed(r, roster)
  {
    match e
    case Cmd(env, c) => DoAuction(h, roster, env, c)
    case Tick(env) => Update(h, roster, env)
  }

  predicate ValidRun(es: seq<Event>, roster: Roster) {
    forall i :: 0 <= i < |es| ==> ValidEvent(es[i], roster)
  }

  function Run(h: House, roster: Roster, es: seq<Event>): (r: House)
    requires WellFormed(h, roster) && ValidRun(es, roster)
    ensures WellFormed(r, roster)
    decreases |es|
  {
    if es == [] then h else Run(Step(h, roster, es[0]), roster, es[1..])
  }
}
