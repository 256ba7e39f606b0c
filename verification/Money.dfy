/** Coins on the move: do_split (act.comm.cpp), the coin branches of do_give and do_drop (act.obj.cpp), and
    picking up money (act.obj_get.cpp). */
module Money {
  import opened Options
  import opened Sums

  /** The level from which a character may give coins it does not have. */
  const DIO: int := 54

  /** A character; its place in the cast stands for its pointer. */
  datatype Char = Char(grouped: bool, master: Option<nat>, npc: bool, level: int)
  type Cast = seq<Char>

  /** Everybody's gold, and the values of the money objects on floors, in containers and in inventories. */
  datatype Purses = Purses(gold: seq<int>, floor: seq<int>, stored: seq<int>, carried: seq<int>)

  // ---------------------------------------------------------------- groups

  function LeaderOf(cast: Cast, c: nat): nat
    requires c < |cast|
  {
    if cast[c].master.Some? then cast[c].master.value else c
  }

  /** is_same_group. */
  predicate SameGroup(cast: Cast, a: nat, b: nat)
    requires a < |cast| && b < |cast|
  {
    cast[a].grouped && cast[b].grouped && LeaderOf(cast, a) == LeaderOf(cast, b)
  }

  /** On grouped characters it is an equivalence; the others belong to no group, not even their own. */
  lemma SameGroupIsEquivalence(cast: Cast, a: nat, b: nat, c: nat)
    requires a < |cast| && b < |cast| && c < |cast|
    ensures SameGroup(cast, a, a) <==> cast[a].grouped
    ensures SameGroup(cast, a, b) <==> SameGroup(cast, b, a)
    ensures SameGroup(cast, a, b) && SameGroup(cast, b, c) ==> SameGroup(cast, a, c)
  {
  }

  /** Two grouped characters share exactly if they follow the same leader, or one leads the other, or they are the
      same one; where leaders follow nobody. */
  lemma SameGroupMeans(cast: Cast, a: nat, b: nat)
    requires a < |cast| && b < |cast| && cast[a].grouped && cast[b].grouped
    ensures SameGroup(cast, a, b) <==>
      || (cast[a].master.Some? && cast[b].master == cast[a].master)
      || (cast[a].master == Some(b) && cast[b].master.None?)
      || (cast[b].master == Some(a) && cast[a].master.None?)
      || (a == b && cast[a].master.None?)
  {
  }

  ghost predicate InRoom(people: seq<nat>, n: nat) {
    && (forall i :: 0 <= i < |people| ==> people[i] < n)
    && (forall i, j :: 0 <= i < j < |people| ==> people[i] != people[j])
  }

  // ---------------------------------------------------------------- split

  /** split_count_group_in_room. */
  function Members(cast: Cast, people: seq<nat>, ch: nat): nat
    requires ch < |cast| && forall i :: 0 <= i < |people| ==> people[i] < |cast|
  {
    if people == [] then 0
    else (if SameGroup(cast, people[0], ch) then 1 else 0) + Members(cast, people[1..], ch)
  }

  /** What one character gets out of a split. */
  function Gain(cast: Cast, people: seq<nat>, ch: nat, amount: int, members: int, c: nat): int
    requires ch < |cast| && c < |cast| && members > 0
  {
    if c == ch then -amount + amount / members + amount % members
    else if c in people && SameGroup(cast, c, ch) then amount / members
    else 0
  }

  /** The gold after a split: everybody's gain added. */
  function Shared(gold: seq<int>, cast: Cast, people: seq<nat>, ch: nat, amount: int, members: int): (r: seq<int>)
    requires |gold| == |cast| && ch < |cast| && members > 0
    ensures |r| == |gold|
  {
    seq(|gold|, c requires 0 <= c < |gold| => gold[c] + Gain(cast, people, ch, amount, members, c))
  }

  predicate SplitGoesAhead(gold: seq<int>, cast: Cast, people: seq<nat>, ch: nat, amount: int)
    requires |gold| == |cast| && ch < |cast| && forall i :: 0 <= i < |people| ==> people[i] < |cast|
  {
    var members := Members(cast, people, ch);
    amount > 0 && gold[ch] >= amount && members >= 2 && amount / members > 0
  }

  /** do_split. */
  function Split(gold: seq<int>, cast: Cast, people: seq<nat>, ch: nat, amount: int): (r: seq<int>)
    requires |gold| == |cast| && ch < |cast| && forall i :: 0 <= i < |people| ==> people[i] < |cast|
    ensures |r| == |gold|
  {
    if SplitGoesAhead(gold, cast, people, ch, amount)
    then Shared(gold, cast, people, ch, amount, Members(cast, people, ch))
    else gold
  }

  /** The shares the paying loop hands to the people from the first on. */
  function Payments(cast: Cast, people: seq<nat>, ch: nat, share: int): int
    requires ch < |cast| && forall i :: 0 <= i < |people| ==> people[i] < |cast|
  {
    if people == [] then 0
    else
      (if people[0] != ch && SameGroup(cast, people[0], ch) then share else 0)
      + Payments(cast, people[1..], ch, share)
  }

  /** The paying loop pays as many shares as the counting loop counted members, less the splitter. */
  lemma {:induction false} PaymentsMatchMembers(cast: Cast, people: seq<nat>, ch: nat, share: int)
    requires ch < |cast| && InRoom(people, |cast|)
    ensures Payments(cast, people, ch, share) ==
            share * (Members(cast, people, ch) - if ch in people && cast[ch].grouped then 1 else 0)
  {
    if people == [] {
    } else {
      PaymentsMatchMembers(cast, people[1..], ch, share);
      assert people[0] !in people[1..];
      assert ch in people <==> ch == people[0] || ch in people[1..];
      var m := Members(cast, people[1..], ch) - if ch in people[1..] && cast[ch].grouped then 1 else 0;
      assert share * (m + 1) == share * m + share;
    }
  }

  /** One payment of the loop. */
  function Paid(gold: seq<int>, cast: Cast, ch: nat, gch: nat, share: int): (r: seq<int>)
    requires |gold| == |cast| && ch < |cast| && gch < |cast|
    ensures |r| == |gold|
  {
    if gch == ch || !SameGroup(cast, gch, ch) then gold else gold[gch := gold[gch] + share]
  }

  /** The whole loop. */
  function PayAll(gold: seq<int>, cast: Cast, people: seq<nat>, ch: nat, share: int): (r: seq<int>)
    requires |gold| == |cast| && ch < |cast| && forall i :: 0 <= i < |people| ==> people[i] < |cast|
    ensures |r| == |gold|
    decreases |people|
  {
    if people == [] then gold else PayAll(Paid(gold, cast, ch, people[0], share), cast, people[1..], ch, share)
  }

  lemma {:induction false} PayAllSum(gold: seq<int>, cast: Cast, people: seq<nat>, ch: nat, share: int)
    requires |gold| == |cast| && ch < |cast| && forall i :: 0 <= i < |people| ==> people[i] < |cast|
    ensures Sum(PayAll(gold, cast, people, ch, share)) == Sum(gold) + Payments(cast, people, ch, share)
    decreases |people|
  {
    if people == [] {
    } else {
      var gch := people[0];
      SumUpdate(gold, gch, gold[gch] + share);
      PayAllSum(Paid(gold, cast, ch, gch, share), cast, people[1..], ch, share);
    }
  }

  lemma {:induction false} PayAllAt(gold: seq<int>, cast: Cast, people: seq<nat>, ch: nat, share: int, c: nat)
    requires |gold| == |cast| && ch < |cast| && c < |cast| && InRoom(people, |cast|)
    ensures PayAll(gold, cast, people, ch, share)[c] ==
            gold[c] + if c != ch && c in people && SameGroup(cast, c, ch) then share else 0
    decreases |people|
  {
    if people == [] {
    } else {
      PayAllAt(Paid(gold, cast, ch, people[0], share), cast, people[1..], ch, share, c);
      assert people[0] !in people[1..];
      assert c in people <==> c == people[0] || c in people[1..];
    }
  }

  /** The splitter's own booking and the loop come to everybody's gain. */
  lemma SharedByLoop(gold: seq<int>, cast: Cast, people: seq<nat>, ch: nat, amount: int, members: int)
    requires |gold| == |cast| && ch < |cast| && members > 0 && InRoom(people, |cast|)
    ensures Shared(gold, cast, people, ch, amount, members) ==
            PayAll(gold[ch := gold[ch] + (-amount + (amount / members + amount % members))], cast, people, ch,
                   amount / members)
  {
    var own := gold[ch := gold[ch] + (-amount + (amount / members + amount % members))];
    forall c: nat | c < |gold|
      ensures Shared(gold, cast, people, ch, amount, members)[c] == PayAll(own, cast, people, ch, amount / members)[c]
    {
      PayAllAt(own, cast, people, ch, amount / members, c);
    }
  }

  /** Dividing by the number of members and giving the rest to the splitter books the whole amount. */
  lemma ShareOut(amount: int, members: int)
    requires members > 0
    ensures -amount + (amount / members + amount % members) + amount / members * (members - 1) == 0
  {
    var share := amount / members;
    assert share * (members - 1) == share * members - share;
  }

  /** The bookings of a split add up, whatever the share and the rest are. */
  lemma BookingsSum(gold: seq<int>, cast: Cast, people: seq<nat>, ch: nat, own: int, share: int)
    requires |gold| == |cast| && ch < |cast| && InRoom(people, |cast|) && ch in people && cast[ch].grouped
    ensures Sum(PayAll(gold[ch := gold[ch] + own], cast, people, ch, share)) ==
            Sum(gold) + own + share * (Members(cast, people, ch) - 1)
  {
    SumUpdate(gold, ch, gold[ch] + own);
    PayAllSum(gold[ch := gold[ch] + own], cast, people, ch, share);
    PaymentsMatchMembers(cast, people, ch, share);
  }

  lemma SharedSum(gold: seq<int>, cast: Cast, people: seq<nat>, ch: nat, amount: int, members: int)
    requires |gold| == |cast| && ch < |cast| && InRoom(people, |cast|) && ch in people && cast[ch].grouped
    requires members == Members(cast, people, ch) > 0
    ensures Sum(Shared(gold, cast, people, ch, amount, members)) == Sum(gold)
  {
    SharedByLoop(gold, cast, people, ch, amount, members);
    BookingsSum(gold, cast, people, ch, -amount + (amount / members + amount % members), amount / members);
    ShareOut(amount, members);
  }

  lemma {:induction false} SplitterIsGrouped(cast: Cast, people: seq<nat>, ch: nat)
    requires ch < |cast| && forall i :: 0 <= i < |people| ==> people[i] < |cast|
    requires Members(cast, people, ch) > 0
    ensures cast[ch].grouped
  {
    if people != [] && !SameGroup(cast, people[0], ch) {
      SplitterIsGrouped(cast, people[1..], ch);
    }
  }

  /** A split makes and loses no gold, and nobody's gold shrinks but the splitter's. */
  lemma {:induction false} SplitConserves(gold: seq<int>, cast: Cast, people: seq<nat>, ch: nat, amount: int)
    requires |gold| == |cast| && ch < |cast| && InRoom(people, |cast|) && ch in people
    ensures Sum(Split(gold, cast, people, ch, amount)) == Sum(gold)
    ensures forall c: nat :: c < |gold| && c != ch ==> Split(gold, cast, people, ch, amount)[c] >= gold[c]
  {
    if SplitGoesAhead(gold, cast, people, ch, amount) {
      SplitterIsGrouped(cast, people, ch);
      SharedSum(gold, cast, people, ch, amount, Members(cast, people, ch));
    }
  }

  // ---------------------------------------------------------------- give, drop, get

  /** Characters below DIO, and all NPCs, have to have the coins they give. */
  predicate PaysItself(c: Char) {
    c.npc || c.level < DIO
  }

  /** The coin branch of do_give; giving to oneself is not excluded. */
  function Give(gold: seq<int>, cast: Cast, ch: nat, vict: nat, amount: int): (r: seq<int>)
    requires |gold| == |cast| && ch < |cast| && vict < |cast|
    ensures |r| == |gold|
  {
    if amount <= 0 || (gold[ch] < amount && PaysItself(cast[ch])) then gold
    else
      var taken := if PaysItself(cast[ch]) then gold[ch := gold[ch] - amount] else gold;
      taken[vict := taken[vict] + amount]
  }

  /** do_drop of coins: a money object appears on the floor. */
  function Drop(p: Purses, ch: nat, amount: int): Purses
    requires ch < |p.gold|
  {
    if amount <= 0 || p.gold[ch] < amount then p
    else p.(gold := p.gold[ch := p.gold[ch] - amount], floor := [amount] + p.floor)
  }

  /** The end of get: coins become gold and the object is extracted; one that is worth nothing stays carried. */
  function Pocket(p: Purses, ch: nat, coins: int): Purses
    requires ch < |p.gold|
  {
    if coins >= 1 then p.(gold := p.gold[ch := p.gold[ch] + coins]) else p.(carried := [coins] + p.carried)
  }

  /** get of the i-th money object of the floor. */
  function Get(p: Purses, ch: nat, i: nat): Purses
    requires ch < |p.gold| && i < |p.floor|
  {
    Pocket(p.(floor := Without(p.floor, i)), ch, p.floor[i])
  }

  /** get of a money object out of a container, which has to be open. */
  function GetFrom(p: Purses, ch: nat, i: nat, open: bool): Purses
    requires ch < |p.gold| && i < |p.stored|
  {
    if open then Pocket(p.(stored := Without(p.stored, i)), ch, p.stored[i]) else p
  }

  datatype Event =
    | DoSplit(ch: nat, people: seq<nat>, amount: int)
    | DoGive(ch: nat, vict: nat, amount: int)
    | DoDrop(ch: nat, amount: int)
    | DoGet(ch: nat, i: nat)
    | DoGetFrom(ch: nat, i: nat, open: bool)

  /** The characters are in the cast, and a splitter is among the people of its room. */
  ghost predicate Possible(cast: Cast, e: Event) {
    match e
    case DoSplit(ch, people, amount) => ch < |cast| && InRoom(people, |cast|) && ch in people
    case DoGive(ch, vict, amount) => ch < |cast| && vict < |cast|
    case DoDrop(ch, amount) => ch < |cast|
    case DoGet(ch, i) => ch < |cast|
    case DoGetFrom(ch, i, open) => ch < |cast|
  }

  ghost function Step(p: Purses, cast: Cast, e: Event): (r: Purses)
    requires |p.gold| == |cast| && Possible(cast, e)
    ensures |r.gold| == |cast|
  {
    match e
    case DoSplit(ch, people, amount) => p.(gold := Split(p.gold, cast, people, ch, amount))
    case DoGive(ch, vict, amount) => p.(gold := Give(p.gold, cast, ch, vict, amount))
    case DoDrop(ch, amount) => Drop(p, ch, amount)
    case DoGet(ch, i) => if i < |p.floor| then Get(p, ch, i) else p
    case DoGetFrom(ch, i, open) => if i < |p.stored| then GetFrom(p, ch, i, open) else p
  }

  /** All gold and the value of all money objects. */
  function Wealth(p: Purses): int {
    Sum(p.gold) + Sum(p.floor) + Sum(p.stored) + Sum(p.carried)
  }

  lemma PocketKeepsCoins(p: Purses, ch: nat, coins: int)
    requires ch < |p.gold|
    ensures Wealth(Pocket(p, ch, coins)) == Wealth(p) + coins
  {
    SumUpdate(p.gold, ch, p.gold[ch] + coins);
    assert ([coins] + p.carried)[1..] == p.carried;
  }

  /** The coins a gift makes out of nothing: those a DIO gives. */
  function Minted(cast: Cast, e: Event): int
    requires e.DoGive? ==> e.ch < |cast|
  {
    if e.DoGive? && e.amount > 0 && !PaysItself(cast[e.ch]) then e.amount else 0
  }

  /** Each command moves wealth without changing it; only the gift of a DIO adds to it, by its amount. */
  lemma {:induction false} StepMovesWealth(p: Purses, cast: Cast, e: Event)
    requires |p.gold| == |cast| && Possible(cast, e)
    ensures Wealth(Step(p, cast, e)) == Wealth(p) + Minted(cast, e)
  {
    match e
    case DoSplit(ch, people, amount) => SplitConserves(p.gold, cast, people, ch, amount);
    case DoGive(ch, vict, amount) =>
      var taken := if PaysItself(cast[ch]) then p.gold[ch := p.gold[ch] - amount] else p.gold;
      SumUpdate(p.gold, ch, p.gold[ch] - amount);
      SumUpdate(taken, vict, taken[vict] + amount);
    case DoDrop(ch, amount) =>
      SumUpdate(p.gold, ch, p.gold[ch] - amount);
      assert ([amount] + p.floor)[1..] == p.floor;
    case DoGet(ch, i) =>
      if i < |p.floor| {
        SumWithout(p.floor, i);
        PocketKeepsCoins(p.(floor := Without(p.floor, i)), ch, p.floor[i]);
      }
    case DoGetFrom(ch, i, open) =>
      if i < |p.stored| {
        SumWithout(p.stored, i);
        PocketKeepsCoins(p.(stored := Without(p.stored, i)), ch, p.stored[i]);
      }
  }

  ghost function Run(p: Purses, cast: Cast, es: seq<Event>): (r: Purses)
    requires |p.gold| == |cast| && forall i :: 0 <= i < |es| ==> Possible(cast, es[i])
    ensures |r.gold| == |cast|
    decreases |es|
  {
    if es == [] then p else Run(Step(p, cast, es[0]), cast, es[1..])
  }

  function MintedBy(cast: Cast, es: seq<Event>): int
    requires forall i :: 0 <= i < |es| && es[i].DoGive? ==> es[i].ch < |cast|
  {
    if es == [] then 0 else Minted(cast, es[0]) + MintedBy(cast, es[1..])
  }

  ghost predicate Solvent(p: Purses) {
    forall c :: 0 <= c < |p.gold| ==> p.gold[c] >= 0
  }

  lemma StepKeepsSolvent(p: Purses, cast: Cast, e: Event)
    requires |p.gold| == |cast| && Possible(cast, e) && Solvent(p)
    ensures Solvent(Step(p, cast, e))
  {
    if e.DoSplit? {
      SplitConserves(p.gold, cast, e.people, e.ch, e.amount);
      if SplitGoesAhead(p.gold, cast, e.people, e.ch, e.amount) {
        assert Split(p.gold, cast, e.people, e.ch, e.amount)[e.ch] >= p.gold[e.ch] - e.amount;
      }
    }
  }

  /** Over every run, gold and money objects keep their sum, but for what gods give away; and nobody falls
      into debt. */
  lemma {:induction false} RunMovesWealth(p: Purses, cast: Cast, es: seq<Event>)
    requires |p.gold| == |cast| && (forall i :: 0 <= i < |es| ==> Possible(cast, es[i])) && Solvent(p)
    ensures Wealth(Run(p, cast, es)) == Wealth(p) + MintedBy(cast, es)
    ensures Solvent(Run(p, cast, es))
    decreases |es|
  {
    if es == [] {
    } else {
      StepMovesWealth(p, cast, es[0]);
      StepKeepsSolvent(p, cast, es[0]);
      RunMovesWealth(Step(p, cast, es[0]), cast, es[1..]);
    }
  }

  // ---------------------------------------------------------------- who gets what

  /** The people of a room who share with ch. */
  function Sharers(cast: Cast, people: seq<nat>, ch: nat): set<nat>
    requires ch < |cast| && forall i :: 0 <= i < |people| ==> people[i] < |cast|
  {
    set c | c in people && SameGroup(cast, c, ch)
  }

  lemma SharersStep(cast: Cast, people: seq<nat>, ch: nat)
    requires ch < |cast| && InRoom(people, |cast|) && people != []
    ensures people[0] !in Sharers(cast, people[1..], ch)
    ensures Sharers(cast, people, ch) ==
            (if SameGroup(cast, people[0], ch) then {people[0]} else {}) + Sharers(cast, people[1..], ch)
  {
    assert people[0] !in people[1..];
    assert forall c :: c in people <==> c == people[0] || c in people[1..];
  }

  /** They are as many as the counting loop finds. */
  lemma {:induction false} MembersAreSharers(cast: Cast, people: seq<nat>, ch: nat)
    requires ch < |cast| && InRoom(people, |cast|)
    ensures Members(cast, people, ch) == |Sharers(cast, people, ch)|
  {
    if people == [] {
    } else {
      SharersStep(cast, people, ch);
      MembersAreSharers(cast, people[1..], ch);
    }
  }

  lemma WholeShares(amount: int, n: int)
    requires n >= 1
    ensures amount / n > 0 <==> amount >= n
    ensures amount / n * n <= amount < (amount / n + 1) * n
  {
    var q := amount / n;
    assert amount == q * n + amount % n;
    if q > 0 {
      assert q * n >= n;
    } else {
      assert q * n <= 0;
    }
  }

  lemma OtherSharer(s: set<nat>, ch: nat)
    requires |s| >= 2
    ensures exists x :: x in s && x != ch
  {
    assert |s - {ch}| >= |s| - 1;
    var x :| x in s - {ch};
  }

  /** A split goes ahead exactly when the splitter has the amount and it is enough for a coin to each of at least two
      sharers.  Then every other sharer in the room gets the same whole share, the splitter keeps the rest, and nobody
      else is touched. */
  lemma {:induction false} SplitIsFair(gold: seq<int>, cast: Cast, people: seq<nat>, ch: nat, amount: int, c: nat)
    requires |gold| == |cast| && ch < |cast| && c < |cast| && InRoom(people, |cast|) && ch in people
    ensures var sharers := Sharers(cast, people, ch);
      var r := Split(gold, cast, people, ch, amount);
      && (r != gold <==> 2 <= |sharers| <= amount <= gold[ch])
      && (r != gold && c != ch && c in sharers ==> (r[c] - gold[c]) * |sharers| <= amount
                                                   < (r[c] - gold[c] + 1) * |sharers|)
      && (c !in sharers ==> r[c] == gold[c])
  {
    var sharers := Sharers(cast, people, ch);
    var r, n := Split(gold, cast, people, ch, amount), |sharers|;
    MembersAreSharers(cast, people, ch);
    if SplitGoesAhead(gold, cast, people, ch, amount) {
      SplitterIsGrouped(cast, people, ch);
      assert ch in sharers;
      WholeShares(amount, n);
      OtherSharer(sharers, ch);
      var x :| x in sharers && x != ch;
      assert r[x] == gold[x] + amount / n;
    } else if n >= 2 && amount >= n {
      WholeShares(amount, n);
    }
  }

  /** A gift is refused exactly when there is nothing to give, or the giver has to pay it and cannot.  Otherwise the
      receiver has it and the giver, unless a god, no longer; to oneself nothing happens; nobody else is touched. */
  lemma GiftArrives(p: Purses, cast: Cast, ch: nat, vict: nat, amount: int, c: nat)
    requires |p.gold| == |cast| && ch < |cast| && vict < |cast| && c < |cast| && ch != vict
    ensures var r := Step(p, cast, DoGive(ch, vict, amount));
      var god := !cast[ch].npc && cast[ch].level >= DIO;
      && (r.gold[vict] == p.gold[vict] + amount > p.gold[vict] <==> amount > 0 && (god || amount <= p.gold[ch]))
      && (r.gold[vict] == p.gold[vict] || r.gold[vict] == p.gold[vict] + amount)
      && r.gold[ch] == p.gold[ch] - (if god then 0 else r.gold[vict] - p.gold[vict])
      && (c != ch && c != vict ==> r.gold[c] == p.gold[c])
      && (!god ==> Step(p, cast, DoGive(ch, ch, amount)) == p)
  {
    assert !PaysItself(cast[ch]) || p.gold[ch := p.gold[ch] - amount][ch := p.gold[ch]] == p.gold;
  }

  /** What is dropped lies on top of the floor, and getting it gives it back: together they change nothing. */
  lemma DropThenGet(p: Purses, cast: Cast, ch: nat, amount: int)
    requires |p.gold| == |cast| && ch < |cast|
    ensures var r := Step(p, cast, DoDrop(ch, amount));
      && (r == p <==> !(0 < amount <= p.gold[ch]))
      && (r != p ==> r.floor == [amount] + p.floor && r.gold[ch] == p.gold[ch] - amount
                     && Step(r, cast, DoGet(ch, 0)) == p)
  {
    var r := Step(p, cast, DoDrop(ch, amount));
    if 0 < amount <= p.gold[ch] {
      assert r.gold[ch] != p.gold[ch];
      assert Without(r.floor, 0) == p.floor;
      assert r.gold[ch := p.gold[ch]] == p.gold;
    }
  }

  /** Money in a container can be had exactly when it is open: coins turn into gold, and what is worth nothing is
      carried as it is. */
  lemma ContainerGivesUp(p: Purses, cast: Cast, ch: nat, i: nat, open: bool)
    requires |p.gold| == |cast| && ch < |cast| && i < |p.stored|
    ensures var r, coins := Step(p, cast, DoGetFrom(ch, i, open)), p.stored[i];
      && (r != p <==> open) && (r.gold != p.gold <==> open && coins >= 1)
      && (open ==> Sum(r.stored) == Sum(p.stored) - coins && |r.stored| == |p.stored| - 1)
      && (r.gold != p.gold ==> r.gold[ch] == p.gold[ch] + coins && r.carried == p.carried)
      && (r.carried != p.carried ==> r.carried == [coins] + p.carried)
  {
    SumWithout(p.stored, i);
  }

  // ---------------------------------------------------------------- the loops

  method SplitCountGroupInRoom(cast: Cast, people: seq<nat>, ch: nat) returns (members: nat)
    requires ch < |cast| && forall i :: 0 <= i < |people| ==> people[i] < |cast|
    ensures members == Members(cast, people, ch)
  {
    members := 0;
    for i := 0 to |people|
      invariant members + Members(cast, people[i..], ch) == Members(cast, people, ch)
    {
      assert people[i..][1..] == people[i + 1..];
      if SameGroup(cast, people[i], ch) {
        members := members + 1;
      }
    }
  }

  /** The paying loop of do_split. */
  method PayMembers(gold: array<int>, cast: Cast, people: seq<nat>, ch: nat, share: int)
    requires gold.Length == |cast| && ch < |cast| && forall i :: 0 <= i < |people| ==> people[i] < |cast|
    modifies gold
    ensures gold[..] == PayAll(old(gold[..]), cast, people, ch, share)
  {
    for i := 0 to |people|
      invariant PayAll(gold[..], cast, people[i..], ch, share) == PayAll(old(gold[..]), cast, people, ch, share)
    {
      assert people[i..][0] == people[i] && people[i..][1..] == people[i + 1..];
      ghost var before := gold[..];
      if people[i] != ch && SameGroup(cast, people[i], ch) {
        gold[people[i]] := gold[people[i]] + share;
      }
      assert gold[..] == Paid(before, cast, ch, people[i], share);
    }
  }

  /** The bookings of do_split: the splitter's own, then the others'. */
  method ShareGold(gold: array<int>, cast: Cast, people: seq<nat>, ch: nat, amount: int, ghost members: nat,
                   share: int, extra: int)
    requires gold.Length == |cast| && ch < |cast| && InRoom(people, |cast|)
    requires members > 0 && share == amount / members && extra == amount % members
    modifies gold
    ensures gold[..] == Shared(old(gold[..]), cast, people, ch, amount, members)
  {
    SharedByLoop(gold[..], cast, people, ch, amount, members);
    gold[ch] := gold[ch] - amount + (share + extra);
    assert gold[..] == old(gold[..])[ch := old(gold[ch]) - amount + (share + extra)];
    PayMembers(gold, cast, people, ch, share);
  }

  method SplitGold(gold: array<int>, cast: Cast, people: seq<nat>, ch: nat, amount: int)
    requires gold.Length == |cast| && ch < |cast| && InRoom(people, |cast|)
    modifies gold
    ensures gold[..] == Split(old(gold[..]), cast, people, ch, amount)
  {
    if amount <= 0 || gold[ch] < amount {
      return;
    }
    var members := SplitCountGroupInRoom(cast, people, ch);
    if members < 2 {
      return;
    }
    var share, extra := amount / members, amount % members;
    if share == 0 {
      return;
    }
    ShareGold(gold, cast, people, ch, amount, members, share, extra);
  }

  /** Everybody's gold and the money objects, changed in place. */
  class Treasury {
    const cast: Cast
    const gold: array<int>
    var floor: seq<int>
    var stored: seq<int>
    var carried: seq<int>

    ghost predicate Valid()
      reads this, gold
    {
      gold.Length == |cast|
    }

    function View(): Purses
      reads this, gold
    {
      Purses(gold[..], floor, stored, carried)
    }

    constructor (cast: Cast, gold: array<int>, floor: seq<int>, stored: seq<int>)
      requires gold.Length == |cast|
      ensures Valid() && this.cast == cast && this.gold == gold && View() == Purses(gold[..], floor, stored, [])
    {
      this.cast, this.gold, this.floor, this.stored, carried := cast, gold, floor, stored, [];
    }

    method Split(ch: nat, people: seq<nat>, amount: int)
      requires Valid() && Possible(cast, DoSplit(ch, people, amount))
      modifies gold
      ensures Valid() && View() == Step(old(View()), cast, DoSplit(ch, people, amount))
    {
      SplitGold(gold, cast, people, ch, amount);
    }

    method Give(ch: nat, vict: nat, amount: int)
      requires Valid() && ch < |cast| && vict < |cast|
      modifies gold
      ensures Valid() && View() == Step(old(View()), cast, DoGive(ch, vict, amount))
    {
      if amount <= 0 {
        return;
      }
      if gold[ch] < amount && (cast[ch].npc || cast[ch].level < DIO) {
        return;
      }
      if cast[ch].npc || cast[ch].level < DIO {
        gold[ch] := gold[ch] - amount;
      }
      gold[vict] := gold[vict] + amount;
    }

    method Drop(ch: nat, amount: int)
      requires Valid() && ch < |cast|
      modifies this, gold
      ensures Valid() && View() == Step(old(View()), cast, DoDrop(ch, amount))
    {
      if amount > 0 && gold[ch] >= amount {
        floor := [amount] + floor;
        gold[ch] := gold[ch] - amount;
      }
    }

    /** obj_to_char, and for money that is worth something obj_from_char and extract_obj. */
    method Cash(ch: nat, coins: int)
      requires Valid() && ch < |cast|
      modifies this`carried, gold
      ensures Valid() && View() == Pocket(old(View()), ch, coins)
    {
      carried := [coins] + carried;
      if coins >= 1 {
        carried := carried[1..];
        gold[ch] := gold[ch] + coins;
      }
    }

    /** get, without a container. */
    method Get(ch: nat, i: nat)
      requires Valid() && ch < |cast|
      modifies this, gold
      ensures Valid() && View() == Step(old(View()), cast, DoGet(ch, i))
    {
      if i < |floor| {
        var coins := floor[i];
        floor := Without(floor, i);
        Cash(ch, coins);
      }
    }

    /** get, out of a container. */
    method GetOut(ch: nat, i: nat, open: bool)
      requires Valid() && ch < |cast|
      modifies this, gold
      ensures Valid() && View() == Step(old(View()), cast, DoGetFrom(ch, i, open))
    {
      if i < |stored| {
        if !open {
          return;
        }
        var coins := stored[i];
        stored := Without(stored, i);
        Cash(ch, coins);
      }
    }
  }
}
