/** The timed character lists of charlist.cpp: singly linked heap nodes behind a head pointer. */
module CharList {
  import opened Sums

  /** What a node stores; who == 0 is the null pointer. */
  datatype Entry = Entry(who: nat, timer: int, data: int)

  // ---------------------------------------------------------------- the list as a sequence

  /** One tick for one entry: a positive timer goes down by one, and the entry is dropped when it reaches 0. */
  function TickedEntry(e: Entry): seq<Entry> {
    if e.timer <= 0 then [e] else if e.timer == 1 then [] else [e.(timer := e.timer - 1)]
  }

  /** One call of UpdateList. */
  function Ticked(es: seq<Entry>): seq<Entry> {
    if es == [] then [] else TickedEntry(es[0]) + Ticked(es[1..])
  }

  function TickedTimes(es: seq<Entry>, k: nat): seq<Entry> {
    if k == 0 then es else Ticked(TickedTimes(es, k - 1))
  }

  /** The entries whose timer is at most 0, unchanged, and those whose timer is above k, lowered by k,
      in their original order. */
  function Survivors(es: seq<Entry>, k: nat): seq<Entry> {
    if es == [] then []
    else
      var e := es[0];
      (if e.timer <= 0 then [e] else if e.timer <= k then [] else [e.(timer := e.timer - k)]) + Survivors(es[1..], k)
  }

  lemma {:induction false} SurvivorsOfNone(es: seq<Entry>)
    ensures Survivors(es, 0) == es
  {
    if es == [] {
    } else {
      SurvivorsOfNone(es[1..]);
    }
  }

  lemma {:induction false} OneMoreTick(es: seq<Entry>, k: nat)
    ensures Ticked(Survivors(es, k)) == Survivors(es, k + 1)
  {
    if es == [] {
    } else {
      var e, rest := es[0], Survivors(es[1..], k);
      OneMoreTick(es[1..], k);
      if e.timer <= 0 {
        assert Survivors(es, k)[1..] == rest;
      } else if k < e.timer {
        assert Survivors(es, k)[1..] == rest;
      } else {
        assert Survivors(es, k) == rest;
      }
    }
  }

  /** After k updates exactly the entries with no timer, or with a timer above k, are left. */
  lemma {:induction false} TickedTimesIsSurvivors(es: seq<Entry>, k: nat)
    ensures TickedTimes(es, k) == Survivors(es, k)
  {
    if k == 0 {
      SurvivorsOfNone(es);
    } else {
      TickedTimesIsSurvivors(es, k - 1);
      OneMoreTick(es, k - 1);
    }
  }

  /** The position of the first entry for `who`; the length of the list if there is none. */
  function Find(es: seq<Entry>, who: nat): (i: nat)
    ensures i <= |es|
    ensures i < |es| ==> es[i].who == who
    ensures forall j :: 0 <= j < i ==> es[j].who != who
  {
    if es == [] || es[0].who == who then 0 else 1 + Find(es[1..], who)
  }

  lemma FindIs(es: seq<Entry>, who: nat, i: nat)
    requires i <= |es| && (forall j :: 0 <= j < i ==> es[j].who != who) && (i < |es| ==> es[i].who == who)
    ensures Find(es, who) == i
  {
  }

  /** Somebody in the list is found, and found first exactly when the head is theirs. */
  lemma {:induction false} FindPresent(es: seq<Entry>, who: nat)
    requires exists e :: e in es && e.who == who
    ensures Find(es, who) < |es|
    ensures Find(es, who) == 0 <==> es[0].who == who
  {
    var e :| e in es && e.who == who;
    assert exists i :: 0 <= i < |es| && es[i] == e;
  }

  function DataOf(es: seq<Entry>, who: nat): int {
    var i := Find(es, who);
    if i < |es| then es[i].data else 0
  }

  /** AddIntData and SetIntData: the first entry for `who`, or a new one at the head, gets the data. */
  function Stored(es: seq<Entry>, who: nat, data: int, timer: int): seq<Entry> {
    var i := Find(es, who);
    if i < |es| then es[i := es[i].(data := data)] else [Entry(who, timer, data)] + es
  }

  /** In es' the i-th entry is where data for `who` is to be stored, when es was the list. */
  ghost predicate Ready(es: seq<Entry>, es': seq<Entry>, i: nat, who: nat, timer: int) {
    && i < |es'| && es'[i].data == DataOf(es, who)
    && (forall data :: Stored(es, who, data, timer) == es'[i := es'[i].(data := data)])
  }

  /** The sum over the entries for `who`, or over all entries when `who` is the null pointer. */
  function Total(es: seq<Entry>, who: nat): int {
    if es == [] then 0 else (if who == 0 || es[0].who == who then es[0].data else 0) + Total(es[1..], who)
  }

  function Positive(es: seq<Entry>, who: nat): nat {
    if es == [] then 0
    else (if es[0].data > 0 && (who == 0 || es[0].who == who) then es[0].data else 0) + Positive(es[1..], who)
  }

  function Negative(es: seq<Entry>, who: nat): nat {
    if es == [] then 0
    else (if es[0].data < 0 && (who == 0 || es[0].who == who) then -es[0].data else 0) + Negative(es[1..], who)
  }

  /** Credits minus debits. */
  lemma {:induction false} TotalIsPositiveMinusNegative(es: seq<Entry>, who: nat)
    ensures Total(es, who) == Positive(es, who) - Negative(es, who)
  {
    if es == [] {
    } else {
      TotalIsPositiveMinusNegative(es[1..], who);
    }
  }

  /** What is stored for somebody is read back, and nobody else's value changes. */
  lemma StoredReadsBack(es: seq<Entry>, who: nat, data: int, timer: int, other: nat)
    ensures DataOf(Stored(es, who, data, timer), other) == if other == who then data else DataOf(es, other)
  {
    var i, after := Find(es, who), Stored(es, who, data, timer);
    if i < |es| {
      FindIs(after, other, Find(es, other));
    } else if other != who {
      FindIs(after, other, 1 + Find(es, other));
    }
  }

  lemma {:induction false} SurvivorsData(es: seq<Entry>, k: nat, who: nat)
    requires forall e :: e in es ==> e.who != who
    ensures forall e :: e in Survivors(es, k) ==> e.who != who
  {
    if es == [] {
    } else {
      SurvivorsData(es[1..], k, who);
    }
  }

  /** A value stored for somebody who is not in the list is there for as many updates as its timer says, less one,
      and for ever if the timer is not positive; then it reads as 0 again. */
  lemma {:induction false} NewValueExpires(es: seq<Entry>, who: nat, data: int, timer: int, k: nat)
    requires Find(es, who) == |es|
    ensures DataOf(TickedTimes(Stored(es, who, data, timer), k), who) == if timer <= 0 || k < timer then data else 0
  {
    var all := [Entry(who, timer, data)] + es;
    TickedTimesIsSurvivors(all, k);
    assert all[1..] == es;
    SurvivorsData(es, k, who);
    var left := Survivors(all, k);
    if timer > 0 && timer <= k {
      assert left == Survivors(es, k);
      FindIs(left, who, |left|);
    } else {
      assert left[0].who == who && left[0].data == data;
    }
  }

  /** A value stored for somebody who is in the list lives as long as the entry did before. */
  lemma OldTimerStays(es: seq<Entry>, who: nat, data: int, timer: int, i: nat)
    requires Find(es, who) < |es| && i < |es|
    ensures var after := Stored(es, who, data, timer);
      |after| == |es| && after[i].who == es[i].who && after[i].timer == es[i].timer
  {
  }

  lemma {:induction false} TotalUpdate(es: seq<Entry>, i: nat, e: Entry, who: nat)
    requires i < |es| && e.who == es[i].who
    ensures Total(es[i := e], who) ==
            Total(es, who) + (if who == 0 || e.who == who then e.data - es[i].data else 0)
  {
    if i == 0 {
      assert es[i := e][1..] == es[1..];
    } else {
      TotalUpdate(es[1..], i - 1, e, who);
      assert es[i := e][1..] == es[1..][i - 1 := e];
    }
  }

  /** Adding moves the total of that character, and the total of all, by exactly the amount. */
  lemma StoredMovesTotal(es: seq<Entry>, who: nat, amount: int, timer: int, whose: nat)
    ensures Total(Stored(es, who, DataOf(es, who) + amount, timer), whose) ==
            Total(es, whose) + (if whose == 0 || whose == who then amount else 0)
  {
    var i := Find(es, who);
    if i < |es| {
      TotalUpdate(es, i, es[i].(data := es[i].data + amount), whose);
    } else {
      assert ([Entry(who, timer, amount)] + es)[1..] == es;
    }
  }

  lemma {:induction false} TotalSnoc(es: seq<Entry>, e: Entry, who: nat)
    ensures Total(es + [e], who) == Total(es, who) + Total([e], who)
    ensures Positive(es + [e], who) == Positive(es, who) + Positive([e], who)
    ensures Negative(es + [e], who) == Negative(es, who) + Negative([e], who)
  {
    if es == [] {
      assert es + [e] == [e];
    } else {
      TotalSnoc(es[1..], e, who);
      assert (es + [e])[1..] == es[1..] + [e];
    }
  }

  // ---------------------------------------------------------------- the heap list

  class CharElem {
    var who: nat
    var next: CharElem?
    var timer: int
    var data: int

    constructor (who: nat, next: CharElem?, timer: int, data: int)
      ensures this.who == who && this.next == next && this.timer == timer && this.data == data
    {
      this.who, this.next, this.timer, this.data := who, next, timer, data;
    }

    function Value(): Entry
      reads this
    {
      Entry(who, timer, data)
    }
  }

  function Values(nodes: seq<CharElem>): (es: seq<Entry>)
    reads nodes
    ensures |es| == |nodes| && forall i :: 0 <= i < |nodes| ==> es[i] == nodes[i].Value()
  {
    seq(|nodes|, i requires 0 <= i < |nodes| reads nodes => nodes[i].Value())
  }

  /** The nodes an update keeps, given what they store. */
  ghost function StillLinked(nodes: seq<CharElem>, es: seq<Entry>): seq<CharElem>
    requires |nodes| == |es|
  {
    if nodes == [] then []
    else (if es[0].timer == 1 then [] else [nodes[0]]) + StillLinked(nodes[1..], es[1..])
  }

  /** They are exactly the nodes that are not at their last tick. */
  lemma {:induction false} StillLinkedMembers(nodes: seq<CharElem>, es: seq<Entry>, n: CharElem)
    requires |nodes| == |es|
    ensures n in StillLinked(nodes, es) <==> exists i :: 0 <= i < |nodes| && nodes[i] == n && es[i].timer != 1
  {
    if nodes == [] {
    } else {
      StillLinkedMembers(nodes[1..], es[1..], n);
      if i :| 0 <= i < |nodes| && nodes[i] == n && es[i].timer != 1 {
        assert i > 0 ==> nodes[1..][i - 1] == n && es[1..][i - 1].timer != 1;
      }
    }
  }

  lemma StillLinkedAreNodes(nodes: seq<CharElem>, es: seq<Entry>)
    requires |nodes| == |es|
    ensures forall i :: 0 <= i < |StillLinked(nodes, es)| ==> StillLinked(nodes, es)[i] in nodes
  {
    forall i | 0 <= i < |StillLinked(nodes, es)| ensures StillLinked(nodes, es)[i] in nodes {
      StillLinkedMembers(nodes, es, StillLinked(nodes, es)[i]);
    }
  }

  /** The list as it will be after the update, when the first i entries are done. */
  ghost function Outcome(es: seq<Entry>, i: nat): seq<Entry>
    requires i <= |es|
  {
    es[..i] + Ticked(es[i..])
  }

  ghost function NodeOutcome(nodes: seq<CharElem>, es: seq<Entry>, i: nat): seq<CharElem>
    requires |nodes| == |es| && i <= |es|
  {
    nodes[..i] + StillLinked(nodes[i..], es[i..])
  }

  /** What ticking the entry at position i comes to: nothing, its removal, or a new timer in place. */
  lemma TickedInPlace(es: seq<Entry>, i: nat)
    requires i < |es|
    ensures var e, ticked := es[i], es[..i] + TickedEntry(es[i]) + es[i + 1..];
      var lower := es[i := e.(timer := e.timer - 1)];
      ticked == if e.timer <= 0 then es else if e.timer == 1 then Without(lower, i) else lower
  {
  }

  /** One turn of the loop does not change what the update will come to. */
  lemma TickStep(nodes: seq<CharElem>, es: seq<Entry>, i: nat, nodes': seq<CharElem>, es': seq<Entry>, i': nat)
    requires |nodes| == |es| && i < |es|
    requires es' == es[..i] + TickedEntry(es[i]) + es[i + 1..]
    requires nodes' == if es[i].timer == 1 then Without(nodes, i) else nodes
    requires i' == i + |TickedEntry(es[i])|
    ensures |nodes'| == |es'| && i' <= |es'|
    ensures Outcome(es', i') == Outcome(es, i) && NodeOutcome(nodes', es', i') == NodeOutcome(nodes, es, i)
    ensures forall k :: 0 <= k < |nodes'| ==> nodes'[k] in nodes
  {
    assert es'[i'..] == es[i + 1..] == es[i..][1..];
    assert es'[..i'] == es[..i] + TickedEntry(es[i]);
    assert nodes[i..][1..] == nodes[i + 1..];
    if es[i].timer == 1 {
      assert nodes'[..i] == nodes[..i] && nodes'[i..] == nodes[i + 1..];
    } else {
      assert nodes[..i + 1] == nodes[..i] + [nodes[i]];
    }
  }

  lemma OutcomeEnds(nodes: seq<CharElem>, es: seq<Entry>)
    requires |nodes| == |es|
    ensures Outcome(es, 0) == Ticked(es) && NodeOutcome(nodes, es, 0) == StillLinked(nodes, es)
    ensures Outcome(es, |es|) == es && NodeOutcome(nodes, es, |es|) == nodes
  {
    assert es[0..] == es && nodes[0..] == nodes;
  }

  class CharList {
    var head: CharElem?
    ghost var nodes: seq<CharElem>

    /** The chain from the head runs through `nodes` and ends: no cycle, and nothing else is reachable. */
    ghost predicate Valid()
      reads this, nodes
    {
      && (forall i, j :: 0 <= i < j < |nodes| ==> nodes[i] != nodes[j])
      && head == (if nodes == [] then null else nodes[0])
      && (forall i {:trigger nodes[i].next} :: 0 <= i < |nodes| - 1 ==> nodes[i].next == nodes[i + 1])
      && (nodes != [] ==> nodes[|nodes| - 1].next == null)
    }

    ghost function Contents(): seq<Entry>
      reads this, nodes
    {
      Values(nodes)
    }

    constructor ()
      ensures Valid() && nodes == []
    {
      head, nodes := null, [];
    }

    method InsertInListInt(who: nat, timer: int, data: int) returns (curr: CharElem)
      requires Valid()
      modifies this
      ensures Valid() && fresh(curr) && nodes == [curr] + old(nodes)
      ensures Contents() == [Entry(who, timer, data)] + old(Contents())
    {
      curr := new CharElem(who, head, timer, data);
      head := curr;
      nodes := [curr] + nodes;
    }

    method InsertInList(who: nat, timer: int) returns (curr: CharElem)
      requires Valid()
      modifies this
      ensures Valid() && fresh(curr) && nodes == [curr] + old(nodes)
      ensures Contents() == [Entry(who, timer, 0)] + old(Contents())
    {
      curr := InsertInListInt(who, timer, 0);
    }

    /** The search every accessor makes. */
    method Locate(who: nat) returns (curr: CharElem?, ghost i: nat)
      requires Valid()
      ensures i == Find(Contents(), who)
      ensures curr == if i < |nodes| then nodes[i] else null
    {
      curr, i := head, 0;
      while curr != null && curr.who != who
        invariant i <= |nodes|
        invariant curr == if i < |nodes| then nodes[i] else null
        invariant forall j :: 0 <= j < i ==> nodes[j].who != who
        decreases |nodes| - i
      {
        curr := curr.next;
        i := i + 1;
      }
      FindIs(Contents(), who, i);
    }

    method IsInList(who: nat) returns (found: bool)
      requires Valid()
      ensures found <==> exists e :: e in Contents() && e.who == who
    {
      var curr, i := Locate(who);
      found := curr != null;
      assert found ==> Contents()[i] in Contents();
    }

    method GetIntData(who: nat) returns (data: int)
      requires Valid()
      ensures data == DataOf(Contents(), who)
    {
      var curr, i := Locate(who);
      data := if curr != null then curr.data else 0;
    }

    /** pCurr->nIntData = data */
    method Store(curr: CharElem, data: int, ghost i: nat)
      requires Valid() && i < |nodes| && nodes[i] == curr
      modifies curr`data
      ensures Valid() && Contents() == old(Contents())[i := old(Contents())[i].(data := data)]
    {
      curr.data := data;
    }

    /** The search for somebody, and a new node at the head for one who is not there. */
    method FindOrInsert(who: nat, timer: int) returns (curr: CharElem, ghost i: nat)
      requires Valid()
      modifies this
      ensures Valid() && i < |nodes| && nodes[i] == curr && (curr in old(nodes) || fresh(curr))
      ensures Ready(old(Contents()), Contents(), i, who, timer)
    {
      var found;
      found, i := Locate(who);
      if found == null {
        found := InsertInList(who, timer);
        i := 0;
      }
      curr := found;
    }

    method SetIntData(who: nat, data: int, timer: int)
      requires Valid()
      modifies this, nodes
      ensures Valid() && Contents() == Stored(old(Contents()), who, data, timer)
    {
      var curr, i := FindOrInsert(who, timer);
      Store(curr, data, i);
    }

    method AddIntData(who: nat, data: int, timer: int) returns (sum: int)
      requires Valid()
      modifies this, nodes
      ensures Valid() && sum == DataOf(old(Contents()), who) + data
      ensures Contents() == Stored(old(Contents()), who, sum, timer)
    {
      var curr, i := FindOrInsert(who, timer);
      assert curr.Value() == Contents()[i];
      sum := curr.data + data;
      Store(curr, sum, i);
    }

    /** SumIntData, SumIntDataPos and SumIntDataNeg; the loops differ in their test only. */
    method Sums(who: nat) returns (sum: int, pos: int, neg: int)
      requires Valid()
      ensures sum == Total(Contents(), who) && pos == Positive(Contents(), who) && neg == Negative(Contents(), who)
    {
      sum, pos, neg := 0, 0, 0;
      var curr := head;
      ghost var i := 0;
      while curr != null
        invariant 0 <= i <= |nodes|
        invariant curr == if i < |nodes| then nodes[i] else null
        invariant sum == Total(Contents()[..i], who)
        invariant pos == Positive(Contents()[..i], who) && neg == Negative(Contents()[..i], who)
        decreases |nodes| - i
      {
        TotalSnoc(Contents()[..i], curr.Value(), who);
        assert Contents()[..i + 1] == Contents()[..i] + [curr.Value()];
        if who == 0 || curr.who == who {
          sum := sum + curr.data;
        }
        if curr.data > 0 && (who == 0 || curr.who == who) {
          pos := pos + curr.data;
        }
        if curr.data < 0 && (who == 0 || curr.who == who) {
          neg := neg - curr.data;
        }
        curr := curr.next;
        i := i + 1;
      }
      assert Contents()[..i] == Contents();
    }

    method DropNext(tmp: CharElem, ghost j: nat)
      requires Valid() && j + 1 < |nodes| && nodes[j] == tmp
      modifies this, tmp
      ensures Valid() && nodes == Without(old(nodes), j + 1) && Contents() == Without(old(Contents()), j + 1)
    {
      var curr := tmp.next;
      tmp.next := curr.next;
      nodes := Without(nodes, j + 1);
    }

    method DropHead()
      requires Valid() && nodes != []
      modifies this
      ensures Valid() && nodes == Without(old(nodes), 0) && Contents() == Without(old(Contents()), 0)
    {
      head := head.next;
      nodes := Without(nodes, 0);
    }

    /** The scan from the head for the node before the one at position i. */
    method Predecessor(curr: CharElem, ghost i: nat) returns (tmp: CharElem)
      requires Valid() && 0 < i < |nodes| && nodes[i] == curr
      ensures tmp == nodes[i - 1]
    {
      tmp := head;
      ghost var j := 0;
      while tmp.next != curr
        invariant 0 <= j < i && tmp == nodes[j]
        decreases i - j
      {
        assert tmp.next == nodes[j + 1];
        tmp := tmp.next;
        j := j + 1;
      }
      assert nodes[j + 1] == curr;
    }

    /** The node at position i is taken out of the chain: through the head pointer, or through the node
        before it. */
    method Unlink(curr: CharElem, ghost i: nat)
      requires Valid() && i < |nodes| && nodes[i] == curr
      modifies this, nodes
      ensures Valid() && nodes == Without(old(nodes), i) && Contents() == Without(old(Contents()), i)
    {
      if curr == head {
        DropHead();
      } else {
        var tmp := Predecessor(curr, i);
        DropNext(tmp, i - 1);
      }
    }

    method SetTimer(curr: CharElem, timer: int, ghost i: nat)
      requires Valid() && i < |nodes| && nodes[i] == curr
      modifies curr`timer
      ensures Valid() && Contents() == old(Contents())[i := old(Contents())[i].(timer := timer)]
    {
      curr.timer := timer;
    }

    /** One turn of the loop of UpdateList, for the node at position i. */
    method TickNode(curr: CharElem, ghost i: nat) returns (next: CharElem?)
      requires Valid() && i < |nodes| && nodes[i] == curr
      modifies this, nodes
      ensures Valid()
      ensures nodes == if old(curr.timer) == 1 then Without(old(nodes), i) else old(nodes)
      ensures Contents() == old(Contents())[..i] + TickedEntry(old(Contents())[i]) + old(Contents())[i + 1..]
      ensures next == if i + 1 < |old(nodes)| then old(nodes)[i + 1] else null
    {
      next := curr.next;
      assert Contents()[i] == curr.Value();
      TickedInPlace(Contents(), i);
      if curr.timer > 0 {
        SetTimer(curr, curr.timer - 1, i);
        if curr.timer == 0 {
          Unlink(curr, i);
        }
      }
    }

    method TickTurn(curr: CharElem, ghost i: nat) returns (next: CharElem?, ghost i': nat)
      requires Valid() && i < |nodes| && nodes[i] == curr
      modifies this, nodes
      ensures Valid() && i' <= |nodes| && |nodes| - i' < |old(nodes)| - i
      ensures next == if i' < |nodes| then nodes[i'] else null
      ensures forall k :: 0 <= k < |nodes| ==> nodes[k] in old(nodes)
      ensures Outcome(Contents(), i') == Outcome(old(Contents()), i)
      ensures NodeOutcome(nodes, Contents(), i') == NodeOutcome(old(nodes), old(Contents()), i)
    {
      ghost var ns, es := nodes, Contents();
      i' := i + |TickedEntry(es[i])|;
      assert es[i] == curr.Value();
      next := TickNode(curr, i);
      TickStep(ns, es, i, nodes, Contents(), i');
    }

    /** UpdateList.  The nodes that stay are exactly those without a timer or with more than one tick left, in
        their order; a dropped node can be reached no more. */
    method UpdateList()
      requires Valid()
      modifies this, nodes
      ensures Valid() && Contents() == Ticked(old(Contents()))
      ensures nodes == StillLinked(old(nodes), old(Contents()))
    {
      var curr := head;
      ghost var i: nat := 0;
      while curr != null
        invariant Valid() && i <= |nodes|
        invariant curr == if i < |nodes| then nodes[i] else null
        invariant forall k :: 0 <= k < |nodes| ==> nodes[k] in old(nodes)
        invariant Outcome(Contents(), i) == Outcome(old(Contents()), 0)
        invariant NodeOutcome(nodes, Contents(), i) == NodeOutcome(old(nodes), old(Contents()), 0)
        decreases |nodes| - i
      {
        curr, i := TickTurn(curr, i);
      }
      OutcomeEnds(old(nodes), old(Contents()));
      OutcomeEnds(nodes, Contents());
    }

    /** k updates, one at each tick: exactly the entries without a timer, or with one above k, are left. */
    method UpdateTimes(k: nat)
      requires Valid()
      modifies this, nodes
      ensures Valid() && Contents() == Survivors(old(Contents()), k)
      ensures forall i :: 0 <= i < |nodes| ==> nodes[i] in old(nodes)
    {
      ghost var es := Contents();
      for i := 0 to k
        invariant Valid() && Contents() == TickedTimes(es, i)
        invariant forall j :: 0 <= j < |nodes| ==> nodes[j] in old(nodes)
      {
        ghost var ns, before := nodes, Contents();
        UpdateList();
        StillLinkedAreNodes(ns, before);
      }
      TickedTimesIsSurvivors(es, k);
    }

    /** The scan of RemoveFromList for the node before the one to remove. */
    method NodeBefore(who: nat) returns (tmp: CharElem, ghost j: nat)
      requires Valid() && 0 < Find(Contents(), who) < |nodes|
      ensures j + 1 == Find(Contents(), who) && tmp == nodes[j]
    {
      ghost var es := Contents();
      tmp, j := head, 0;
      while tmp.next != null && tmp.next.who != who
        invariant j < Find(es, who) && tmp == nodes[j]
        decreases |nodes| - j
      {
        assert es[j + 1].who == nodes[j + 1].who;
        tmp := tmp.next;
        j := j + 1;
      }
      assert es[j + 1].who == nodes[j + 1].who;
    }

    method RemoveLater(who: nat)
      requires Valid() && 0 < Find(Contents(), who) < |nodes|
      modifies this, nodes
      ensures Valid() && Contents() == Without(old(Contents()), Find(old(Contents()), who))
    {
      var tmp, j := NodeBefore(who);
      DropNext(tmp, j);
    }

    /** RemoveFromList, for a character that is in the list. */
    method RemoveFromList(who: nat)
      requires Valid() && exists e :: e in Contents() && e.who == who
      modifies this, nodes
      ensures Find(old(Contents()), who) < |old(Contents())|
      ensures Valid() && Contents() == Without(old(Contents()), Find(old(Contents()), who))
    {
      ghost var es := Contents();
      FindPresent(es, who);
      assert es[0] == head.Value();
      if head.who == who {
        DropHead();
        assert Contents() == Without(es, Find(es, who));
      } else {
        RemoveLater(who);
      }
    }
  }
}
