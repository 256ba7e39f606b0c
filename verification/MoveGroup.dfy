/** Moving a character with its followers (MoveGroup and AddToCharHeap of act.move.cpp): equal NPCs are
    merged in a table of at most 50 entries, so that each group is announced once with its size. */
module MoveGroup {
  import opened Options

  const HEAP_MAX: nat := 50

  /** A moving character: its own identity, and what AddToCharHeap compares. */
  datatype Mover = Mover(id: nat, npc: bool, nr: int, descr: Option<string>)

  /** What makes two movers interchangeable in an announcement: NPCs by prototype number and short
      description, everybody else by identity. */
  datatype Key = Kind(nr: int, descr: string) | Individual(id: nat)

  function KeyOf(k: Mover): Key {
    if k.npc && k.descr.Some? then Kind(k.nr, k.descr.value) else Individual(k.id)
  }

  /** An entry of the table, and also an announcement: the character shown and the number given with it. */
  datatype Group = Group(rep: Mover, total: nat)

  /** The test of AddToCharHeap for an entry. */
  predicate Merges(k: Mover, rep: Mover) {
    k.npc && rep.npc && k.nr == rep.nr && k.descr.Some? && rep.descr.Some? && k.descr == rep.descr
  }

  lemma MergesIsSameKind(k: Mover, rep: Mover)
    ensures Merges(k, rep) <==> KeyOf(k) == KeyOf(rep) && KeyOf(k).Kind?
  {
  }

  /** The first entry that k merges with; the length of the table if there is none. */
  function FindRep(gs: seq<Group>, k: Mover): (i: nat)
    ensures i <= |gs| && (i < |gs| ==> Merges(k, gs[i].rep))
    ensures forall j :: 0 <= j < i ==> !Merges(k, gs[j].rep)
  {
    if gs == [] || Merges(k, gs[0].rep) then 0 else 1 + FindRep(gs[1..], k)
  }

  /** AddToCharHeap on the table as a sequence: false when the table is full, even for a known kind. */
  function Add(gs: seq<Group>, k: Mover): (r: (seq<Group>, bool)) {
    if |gs| >= HEAP_MAX then (gs, false)
    else
      var i := FindRep(gs, k);
      if i < |gs| then (gs[i := Group(gs[i].rep, gs[i].total + 1)], true) else (gs + [Group(k, 1)], true)
  }

  // ---------------------------------------------------------------- the table

  /** At most 50 entries, no two of the same kind. */
  ghost predicate Table(gs: seq<Group>) {
    && |gs| <= HEAP_MAX
    && (forall i, j :: 0 <= i < j < |gs| && KeyOf(gs[i].rep).Kind? ==> KeyOf(gs[i].rep) != KeyOf(gs[j].rep))
  }

  lemma AddKeepsTable(gs: seq<Group>, k: Mover)
    requires Table(gs)
    ensures Table(Add(gs, k).0)
  {
  }

  /** How many movers of a kind a list of groups or announcements accounts for. */
  function Shown(gs: seq<Group>, key: Key): nat {
    if gs == [] then 0 else (if KeyOf(gs[0].rep) == key then gs[0].total else 0) + Shown(gs[1..], key)
  }

  lemma {:induction false} ShownConcat(a: seq<Group>, b: seq<Group>, key: Key)
    ensures Shown(a + b, key) == Shown(a, key) + Shown(b, key)
  {
    if a == [] {
      assert a + b == b;
    } else {
      ShownConcat(a[1..], b, key);
      assert (a + b)[1..] == a[1..] + b;
    }
  }

  lemma {:induction false} ShownUpdate(gs: seq<Group>, i: nat, key: Key)
    requires i < |gs|
    ensures Shown(gs[i := Group(gs[i].rep, gs[i].total + 1)], key) ==
            Shown(gs, key) + (if KeyOf(gs[i].rep) == key then 1 else 0)
  {
    var g := Group(gs[i].rep, gs[i].total + 1);
    if i == 0 {
      assert gs[i := g][1..] == gs[1..];
    } else {
      ShownUpdate(gs[1..], i - 1, key);
      assert gs[i := g][1..] == gs[1..][i - 1 := g];
    }
  }

  /** An accepted mover is counted once, under its own key; a refused one changes nothing. */
  lemma AddCounts(gs: seq<Group>, k: Mover, key: Key)
    ensures Shown(Add(gs, k).0, key) == Shown(gs, key) + (if Add(gs, k).1 && KeyOf(k) == key then 1 else 0)
  {
    var i := FindRep(gs, k);
    if |gs| < HEAP_MAX {
      if i < |gs| {
        ShownUpdate(gs, i, key);
        MergesIsSameKind(k, gs[i].rep);
      } else {
        ShownConcat(gs, [Group(k, 1)], key);
      }
    }
  }

  lemma {:induction false} ShownNothing(gs: seq<Group>, key: Key)
    requires forall i :: 0 <= i < |gs| ==> KeyOf(gs[i].rep) != key
    ensures Shown(gs, key) == 0
  {
    if gs == [] {
    } else {
      ShownNothing(gs[1..], key);
    }
  }

  /** In a table without repeated kinds, no entry but one accounts for movers of a kind. */
  lemma {:induction false} EntryIsWholeKind(gs: seq<Group>, i: nat)
    requires Table(gs) && i < |gs| && KeyOf(gs[i].rep).Kind?
    ensures Shown(gs, KeyOf(gs[i].rep)) == gs[i].total
  {
    var key := KeyOf(gs[i].rep);
    ShownConcat(gs[..i], gs[i..], key);
    assert gs == gs[..i] + gs[i..];
    ShownNothing(gs[..i], key);
    ShownNothing(gs[i + 1..], key);
    assert gs[i..][1..] == gs[i + 1..];
  }

  /** The table after some movers, and those it accepted. */
  function AddAll(gs: seq<Group>, ks: seq<Mover>): (seq<Group>, seq<Mover>)
    decreases |ks|
  {
    if ks == [] then (gs, [])
    else
      var (table, added) := Add(gs, ks[0]);
      var (last, rest) := AddAll(table, ks[1..]);
      (last, (if added then [ks[0]] else []) + rest)
  }

  /** How many movers are of a kind. */
  function Count(ks: seq<Mover>, key: Key): nat {
    if ks == [] then 0 else (if KeyOf(ks[0]) == key then 1 else 0) + Count(ks[1..], key)
  }

  lemma {:induction false} AddAllCounts(gs: seq<Group>, ks: seq<Mover>, key: Key)
    requires Table(gs)
    ensures Table(AddAll(gs, ks).0)
    ensures Shown(AddAll(gs, ks).0, key) == Shown(gs, key) + Count(AddAll(gs, ks).1, key)
    decreases |ks|
  {
    if ks == [] {
    } else {
      var (table, added) := Add(gs, ks[0]);
      AddKeepsTable(gs, ks[0]);
      AddCounts(gs, ks[0], key);
      AddAllCounts(table, ks[1..], key);
      var rest := AddAll(table, ks[1..]).1;
      assert added ==> ([ks[0]] + rest)[1..] == rest;
      assert [] + rest == rest;
    }
  }

  /** The number with an entry is exactly how many movers of its kind have been accepted into the table. */
  lemma {:induction false} TotalCountsMovers(ks: seq<Mover>, i: nat)
    requires i < |AddAll([], ks).0| && KeyOf(AddAll([], ks).0[i].rep).Kind?
    ensures var (table, accepted) := AddAll([], ks);
      table[i].total == Count(accepted, KeyOf(table[i].rep))
  {
    var table := AddAll([], ks).0;
    AddAllCounts([], ks, KeyOf(table[i].rep));
    EntryIsWholeKind(table, i);
  }

  // ---------------------------------------------------------------- the group

  /** A character on its way with its followers.  `moves` is the outcome of its RawMove; `ready` says whether,
      when its turn comes, it is still in the room that was left and standing. */
  datatype Party = Party(mover: Mover, ready: bool, moves: bool, followers: seq<Party>)

  /** What MoveGroup does with one follower: the announcements made at once, and the table afterwards. */
  function OneFollower(p: Party, gs: seq<Group>): (seq<Group>, seq<Group>)
    decreases p, 2
  {
    if !p.ready then ([], gs)
    else if p.followers != [] then (Announce(p), gs)
    else if !p.moves then ([], gs)
    else if Add(gs, p.mover).1 then ([], Add(gs, p.mover).0)
    else ([Group(p.mover, 1)], gs)
  }

  /** The loop of MoveGroup over its followers. */
  function MoveFollowers(ps: seq<Party>, gs: seq<Group>): (seq<Group>, seq<Group>)
    decreases ps, 0
  {
    if ps == [] then ([], gs)
    else
      var one := OneFollower(ps[0], gs);
      var rest := MoveFollowers(ps[1..], one.1);
      (one.0 + rest.0, rest.1)
  }

  /** All announcements of MoveGroup, in order: single movers and nested groups first, then the table. */
  function Announce(p: Party): seq<Group>
    decreases p, 1
  {
    if !p.moves then []
    else
      var done := MoveFollowers(p.followers, Add([], p.mover).0);
      done.0 + done.1
  }

  /** How many characters of a kind really move. */
  function Moved(p: Party, key: Key): nat {
    if !p.moves then 0 else (if KeyOf(p.mover) == key then 1 else 0) + MovedAfter(p.followers, key)
  }

  function MovedAfter(ps: seq<Party>, key: Key): nat {
    if ps == [] then 0
    else (if !ps[0].ready then 0 else Moved(ps[0], key)) + MovedAfter(ps[1..], key)
  }

  /** Each mover is announced exactly once, in a group or singly, at every level of the party and even when
      the table overflows: for every kind, the announced numbers add up to the movers of that kind. */
  lemma {:induction false} AnnouncedOnce(p: Party, key: Key)
    ensures Shown(Announce(p), key) == Moved(p, key)
    decreases p, 1
  {
    if p.moves {
      var gs := Add([], p.mover).0;
      AddCounts([], p.mover, key);
      FollowersAnnouncedOnce(p.followers, gs, key);
      var done := MoveFollowers(p.followers, gs);
      ShownConcat(done.0, done.1, key);
    }
  }

  lemma {:induction false} FollowersAnnouncedOnce(ps: seq<Party>, gs: seq<Group>, key: Key)
    ensures var done := MoveFollowers(ps, gs);
      Shown(done.0, key) + Shown(done.1, key) == Shown(gs, key) + MovedAfter(ps, key)
    decreases ps, 0
  {
    if ps == [] {
    } else {
      var one := OneFollower(ps[0], gs);
      OneAnnouncedOnce(ps[0], gs, key);
      FollowersAnnouncedOnce(ps[1..], one.1, key);
      ShownConcat(one.0, MoveFollowers(ps[1..], one.1).0, key);
    }
  }

  lemma {:induction false} OneAnnouncedOnce(p: Party, gs: seq<Group>, key: Key)
    ensures var one := OneFollower(p, gs);
      Shown(one.0, key) + Shown(one.1, key) == Shown(gs, key) + (if p.ready then Moved(p, key) else 0)
    decreases p, 2
  {
    if p.ready && p.followers != [] {
      AnnouncedOnce(p, key);
    } else {
      AddCounts(gs, p.mover, key);
      assert p.followers == [] ==> MovedAfter(p.followers, key) == 0;
    }
  }

  lemma {:induction false} FollowersKeepTable(ps: seq<Party>, gs: seq<Group>)
    requires Table(gs)
    ensures Table(MoveFollowers(ps, gs).1)
  {
    if ps == [] {
    } else {
      AddKeepsTable(gs, ps[0].mover);
      FollowersKeepTable(ps[1..], OneFollower(ps[0], gs).1);
    }
  }

  /** No kind is shown by two table entries, and an entry's number is the whole of its kind in the table. */
  lemma BatchShowsKindsOnce(p: Party, i: nat)
    requires p.moves && i < |MoveFollowers(p.followers, Add([], p.mover).0).1|
    ensures var table := MoveFollowers(p.followers, Add([], p.mover).0).1;
      && Table(table)
      && (KeyOf(table[i].rep).Kind? ==> Shown(table, KeyOf(table[i].rep)) == table[i].total)
  {
    FollowersKeepTable(p.followers, Add([], p.mover).0);
    var table := MoveFollowers(p.followers, Add([], p.mover).0).1;
    if KeyOf(table[i].rep).Kind? {
      EntryIsWholeKind(table, i);
    }
  }

  // ---------------------------------------------------------------- equal followers are announced together

  predicate SameKind(a: Mover, b: Mover) {
    KeyOf(a) == KeyOf(b) && KeyOf(a).Kind?
  }

  /** The movers that are not of k's kind. */
  function Others(ms: seq<Mover>, k: Mover): (r: seq<Mover>)
    ensures |r| <= |ms|
  {
    if ms == [] then [] else (if SameKind(k, ms[0]) then [] else [ms[0]]) + Others(ms[1..], k)
  }

  /** One announcement for each kind, where its first mover comes, with the number of all of them; and one for
      everybody who is of no kind. */
  function Grouped(ms: seq<Mover>): seq<Group>
    decreases |ms|
  {
    if ms == [] then []
    else
      var rest := Others(ms[1..], ms[0]);
      [Group(ms[0], |ms| - |rest|)] + Grouped(rest)
  }

  lemma OthersStep(k: Mover, ms: seq<Mover>, rep: Mover)
    ensures Others([k] + ms, rep) == if SameKind(rep, k) then Others(ms, rep) else [k] + Others(ms, rep)
  {
    assert ([k] + ms)[1..] == ms;
  }

  lemma {:induction false} OthersCounts(ms: seq<Mover>, k: Mover, key: Key)
    ensures Count(Others(ms, k), key) == if key == KeyOf(k) && key.Kind? then 0 else Count(ms, key)
    ensures key == KeyOf(k) && key.Kind? ==> |ms| - |Others(ms, k)| == Count(ms, key)
  {
    if ms == [] {
    } else {
      OthersCounts(ms[1..], k, key);
      OthersStep(ms[0], ms[1..], k);
      assert ms == [ms[0]] + ms[1..];
      if !SameKind(k, ms[0]) {
        assert Others(ms, k)[1..] == Others(ms[1..], k);
      }
    }
  }

  lemma {:induction false} CountedIsThere(ms: seq<Mover>, key: Key)
    requires Count(ms, key) == 0
    ensures forall g :: g in Grouped(ms) ==> KeyOf(g.rep) != key
    decreases |ms|
  {
    if ms == [] {
    } else {
      OthersCounts(ms[1..], ms[0], key);
      CountedIsThere(Others(ms[1..], ms[0]), key);
    }
  }

  /** In such a list every kind is announced once, with the number of its movers. */
  lemma {:induction false} GroupedShowsKindsOnce(ms: seq<Mover>, i: nat)
    requires i < |Grouped(ms)| && KeyOf(Grouped(ms)[i].rep).Kind?
    ensures var gs := Grouped(ms);
      && gs[i].total == Count(ms, KeyOf(gs[i].rep))
      && (forall j :: 0 <= j < |gs| && j != i ==> KeyOf(gs[j].rep) != KeyOf(gs[i].rep))
    decreases |ms|
  {
    var gs, key, rest := Grouped(ms), KeyOf(Grouped(ms)[i].rep), Others(ms[1..], ms[0]);
    assert gs[1..] == Grouped(rest);
    OthersCounts(ms[1..], ms[0], key);
    if i == 0 {
      CountedIsThere(rest, key);
      forall j | 1 <= j < |gs| ensures KeyOf(gs[j].rep) != key {
        assert gs[j] == gs[1..][j - 1];
      }
    } else {
      assert gs[i] == gs[1..][i - 1];
      if KeyOf(ms[0]).Kind? {
        OthersCounts(ms[1..], ms[0], KeyOf(ms[0]));
        CountedIsThere(rest, KeyOf(ms[0]));
      }
      assert key != KeyOf(ms[0]);
      GroupedShowsKindsOnce(rest, i - 1);
      forall j | 1 <= j < |gs| && j != i ensures KeyOf(gs[j].rep) != key {
        assert gs[j] == gs[1..][j - 1];
      }
    }
  }

  /** A table after more movers, when it never gets full. */
  function Merged(gs: seq<Group>, ms: seq<Mover>): (r: seq<Group>)
    ensures |r| >= |gs|
    decreases |gs| + 2 * |ms|
  {
    if gs != [] then
      var rest := Others(ms, gs[0].rep);
      [Group(gs[0].rep, gs[0].total + |ms| - |rest|)] + Merged(gs[1..], rest)
    else if ms != [] then Merged([Group(ms[0], 1)], ms[1..])
    else []
  }

  lemma {:induction false} MergedFromNothing(ms: seq<Mover>)
    ensures Merged([], ms) == Grouped(ms)
    decreases |ms|
  {
    if ms == [] {
    } else {
      var g := Group(ms[0], 1);
      assert [g][1..] == [];
      MergedFromNothing(Others(ms[1..], ms[0]));
    }
  }

  lemma {:induction false} MergedWithNothing(gs: seq<Group>)
    ensures Merged(gs, []) == gs
  {
    if gs == [] {
    } else {
      MergedWithNothing(gs[1..]);
    }
  }

  /** AddToCharHeap, on a table that is not full, does the next mover's part. */
  lemma {:induction false} AddMerges(gs: seq<Group>, k: Mover, ms: seq<Mover>)
    requires |gs| < HEAP_MAX
    ensures Merged(gs, [k] + ms) == Merged(Add(gs, k).0, ms)
  {
    assert ([k] + ms)[1..] == ms;
    if gs == [] {
    } else {
      var g, rest, after := gs[0], gs[1..], Add(gs, k).0;
      OthersStep(k, ms, g.rep);
      MergesIsSameKind(k, g.rep);
      if SameKind(g.rep, k) {
        assert after[0] == Group(g.rep, g.total + 1) && after[1..] == rest;
      } else {
        AddMerges(rest, k, Others(ms, g.rep));
        assert after[0] == g && after[1..] == Add(rest, k).0;
      }
    }
  }

  /** The table has room for all of them: it is not yet full when the last one comes. */
  predicate Room(gs: seq<Group>, ms: seq<Mover>) {
    ms == [] || |Merged(gs, ms[..|ms| - 1])| < HEAP_MAX
  }

  lemma {:induction false} RoomStep(gs: seq<Group>, k: Mover, ms: seq<Mover>)
    ensures Room(gs, [k] + ms) ==> |gs| < HEAP_MAX
    ensures |gs| < HEAP_MAX ==> (Room(gs, [k] + ms) <==> Room(Add(gs, k).0, ms))
  {
    var all := [k] + ms;
    if ms == [] {
      assert all[..|all| - 1] == [];
      MergedWithNothing(gs);
    } else {
      var front := ms[..|ms| - 1];
      assert all[..|all| - 1] == [k] + front;
      if |gs| < HEAP_MAX {
        AddMerges(gs, k, front);
      }
    }
  }

  /** The followers without followers of their own who go along. */
  function Alone(ps: seq<Party>): seq<Mover> {
    if ps == [] then []
    else (if ps[0].ready && ps[0].moves && ps[0].followers == [] then [ps[0].mover] else []) + Alone(ps[1..])
  }

  /** What the followers with followers of their own announce. */
  function Nested(ps: seq<Party>): seq<Group> {
    if ps == [] then []
    else (if ps[0].ready && ps[0].followers != [] then Announce(ps[0]) else []) + Nested(ps[1..])
  }

  /** A single follower is announced by itself exactly when the table is full. */
  lemma FollowerShownSinglyIff(p: Party, gs: seq<Group>)
    requires p.ready && p.moves && p.followers == []
    ensures OneFollower(p, gs).0 == if |gs| >= HEAP_MAX then [Group(p.mover, 1)] else []
    ensures OneFollower(p, gs).1 == if |gs| >= HEAP_MAX then gs else Add(gs, p.mover).0
  {
  }

  /** As long as the table has room, all of them go into it. */
  lemma {:induction false} FollowersMerge(ps: seq<Party>, gs: seq<Group>)
    requires Room(gs, Alone(ps))
    ensures MoveFollowers(ps, gs) == (Nested(ps), Merged(gs, Alone(ps)))
    decreases |ps|
  {
    if ps == [] {
      MergedWithNothing(gs);
    } else {
      var p, rest := ps[0], ps[1..];
      if p.ready && p.moves && p.followers == [] {
        RoomStep(gs, p.mover, Alone(rest));
        AddMerges(gs, p.mover, Alone(rest));
        FollowerShownSinglyIff(p, gs);
        FollowersMerge(rest, Add(gs, p.mover).0);
        assert [] + Nested(rest) == Nested(rest);
      } else {
        assert [] + Alone(rest) == Alone(rest);
        assert p.ready && p.followers != [] && !p.moves ==> Announce(p) == [];
        FollowersMerge(rest, gs);
      }
    }
  }

  lemma {:induction false} FullTableShowsSingly(ps: seq<Party>, gs: seq<Group>)
    ensures |MoveFollowers(ps, gs).0| >= |Nested(ps)|
    ensures !Room(gs, Alone(ps)) ==> |MoveFollowers(ps, gs).0| > |Nested(ps)|
    decreases |ps|
  {
    if ps == [] {
    } else {
      var p, rest := ps[0], ps[1..];
      if p.ready && p.moves && p.followers == [] {
        RoomStep(gs, p.mover, Alone(rest));
        FollowerShownSinglyIff(p, gs);
        FullTableShowsSingly(rest, OneFollower(p, gs).1);
      } else {
        assert [] + Alone(rest) == Alone(rest);
        FullTableShowsSingly(rest, gs);
      }
    }
  }

  /** MoveGroup announces a party like this, and only then shows nobody singly, exactly when the table is not full
      before the last follower: first what followers with followers of their own announce, then the mover and the
      other followers, equal ones together, in the order of the first of each. */
  lemma PartyIsGroupedIff(p: Party)
    requires p.moves
    ensures var direct := [p.mover] + Alone(p.followers);
      && (Room([], direct) ==> Announce(p) == Nested(p.followers) + Grouped(direct))
      && (Room([], direct) <==> MoveFollowers(p.followers, Add([], p.mover).0).0 == Nested(p.followers))
  {
    var ms, gs := Alone(p.followers), Add([], p.mover).0;
    RoomStep([], p.mover, ms);
    AddMerges([], p.mover, ms);
    MergedFromNothing([p.mover] + ms);
    FullTableShowsSingly(p.followers, gs);
    if Room([], [p.mover] + ms) {
      FollowersMerge(p.followers, gs);
    }
  }

  // ---------------------------------------------------------------- the arrays

  /** The heap and totals arrays, up to top. */
  function Entries(heap: array<Mover>, totals: array<nat>, top: nat): (gs: seq<Group>)
    requires top <= heap.Length && top <= totals.Length
    reads heap, totals
    ensures |gs| == top && forall i :: 0 <= i < top ==> gs[i] == Group(heap[i], totals[i])
  {
    seq(top, i requires 0 <= i < top <= heap.Length && top <= totals.Length reads heap, totals =>
      Group(heap[i], totals[i]))
  }

  lemma FindRepIs(gs: seq<Group>, k: Mover, i: nat)
    requires i <= |gs| && (forall j :: 0 <= j < i ==> !Merges(k, gs[j].rep)) && (i < |gs| ==> Merges(k, gs[i].rep))
    ensures FindRep(gs, k) == i
  {
  }

  /** The search for an entry to merge with. */
  method FindEntry(heap: array<Mover>, top: nat, ghost totals: array<nat>, k: Mover) returns (i: nat)
    requires heap.Length == totals.Length == HEAP_MAX && top <= HEAP_MAX
    ensures i == FindRep(Entries(heap, totals, top), k)
  {
    i := 0;
    if k.npc {
      while i < top && !Merges(k, heap[i])
        invariant 0 <= i <= top
        invariant forall j :: 0 <= j < i ==> !Merges(k, heap[j])
      {
        i := i + 1;
      }
    } else {
      i := top;
    }
    FindRepIs(Entries(heap, totals, top), k, i);
  }

  method AddToCharHeap(heap: array<Mover>, top: nat, totals: array<nat>, k: Mover) returns (top': nat, added: bool)
    requires heap.Length == totals.Length == HEAP_MAX && top <= HEAP_MAX && heap as object != totals
    modifies heap, totals
    ensures top' <= HEAP_MAX
    ensures (Entries(heap, totals, top'), added) == Add(old(Entries(heap, totals, top)), k)
  {
    ghost var gs := Entries(heap, totals, top);
    if top >= HEAP_MAX {
      return top, false;
    }
    var i := FindEntry(heap, top, totals, k);
    if i < top {
      totals[i] := totals[i] + 1;
      assert Entries(heap, totals, top) == gs[i := Group(gs[i].rep, gs[i].total + 1)];
      return top, true;
    }
    heap[top] := k;
    totals[top] := 1;
    assert Entries(heap, totals, top + 1) == gs + [Group(k, 1)];
    return top + 1, true;
  }

  /** move_display_group_batch. */
  method DisplayBatch(heap: array<Mover>, top: nat, totals: array<nat>) returns (log: seq<Group>)
    requires heap.Length == totals.Length == HEAP_MAX && top <= HEAP_MAX
    ensures log == Entries(heap, totals, top)
  {
    log := [];
    for i := 0 to top
      invariant log == Entries(heap, totals, top)[..i]
    {
      log := log + [Group(heap[i], totals[i])];
    }
  }

  /** MoveGroup; `log` collects the calls of DisplayOneMove and DisplayGroupMove. */
  method Move(p: Party) returns (log: seq<Group>)
    ensures log == Announce(p)
    decreases p, 1
  {
    if !p.moves {
      return [];
    }
    var heap := new Mover[HEAP_MAX](_ => p.mover);
    var totals := new nat[HEAP_MAX](_ => 0);
    var top: nat, added := AddToCharHeap(heap, 0, totals, p.mover);
    assert Entries(heap, totals, top) == Add([], p.mover).0;
    log, top := CallFollowers(p.followers, heap, top, totals);
    var batch := DisplayBatch(heap, top, totals);
    log := log + batch;
  }

  /** The loop over the followers. */
  method CallFollowers(ps: seq<Party>, heap: array<Mover>, top: nat, totals: array<nat>)
    returns (log: seq<Group>, top': nat)
    requires heap.Length == totals.Length == HEAP_MAX && top <= HEAP_MAX && heap as object != totals
    modifies heap, totals
    ensures top' <= HEAP_MAX
    ensures (log, Entries(heap, totals, top')) == MoveFollowers(ps, old(Entries(heap, totals, top)))
    decreases ps, 0
  {
    ghost var done := MoveFollowers(ps, Entries(heap, totals, top));
    log, top' := [], top;
    var k := 0;
    while k < |ps|
      invariant 0 <= k <= |ps| && top' <= HEAP_MAX
      invariant var rest := MoveFollowers(ps[k..], Entries(heap, totals, top'));
        log + rest.0 == done.0 && rest.1 == done.1
    {
      assert ps[k..][0] == ps[k] && ps[k..][1..] == ps[k + 1..];
      var shown;
      shown, top' := CallFollower(ps[k], heap, top', totals);
      log := log + shown;
      k := k + 1;
    }
    assert log + [] == log;
  }

  method CallFollower(p: Party, heap: array<Mover>, top: nat, totals: array<nat>)
    returns (shown: seq<Group>, top': nat)
    requires heap.Length == totals.Length == HEAP_MAX && top <= HEAP_MAX && heap as object != totals
    modifies heap, totals
    ensures top' <= HEAP_MAX
    ensures (shown, Entries(heap, totals, top')) == OneFollower(p, old(Entries(heap, totals, top)))
    decreases p, 2
  {
    shown, top' := [], top;
    if p.ready {
      if p.followers != [] {
        shown := Move(p);
      } else if p.moves {
        var added;
        top', added := AddToCharHeap(heap, top, totals, p.mover);
        if !added {
          shown := [Group(p.mover, 1)];
        }
      }
    }
  }
}
