/** Line of sight along one direction: clearpath (act.off.cpp) and the walks built on it
    (linear_walk, can_see_linear and get_char_linear in act.info.cpp). */
module Walk {
  import opened Options
  import opened Rooms

  /** The character the walk is made for; `valid` is the magic-number test. */
  datatype Walker = Walker(valid: bool, inRoom: int)

  // ---------------------------------------------------------------- one step

  /** CAN_GO looks only at the exit of the walker's own room, never at the room the walk has reached. */
  predicate CanGo(w: World, ch: Walker, d: Dir) {
    HasExit(w, ch.inRoom, d) && ExitAt(w, ch.inRoom, d).toRoom in w.rooms && Closed !in ExitAt(w, ch.inRoom, d).info
  }

  /** clearpath: the next room, or 0 when the way is not clear. */
  function ClearPath(w: World, ch: Walker, room: int, d: Dir): (to: int)
    requires room in w.rooms
  {
    if !ch.valid then 0
    else if HasExit(w, room, d) && ExitAt(w, room, d).toRoom !in w.rooms then 0
    else if !CanGo(w, ch, d) then 0
    else if !HasExit(w, room, d) then 0
    else if ExitAt(w, room, d).toRoom < 1 then 0
    else if Closed in ExitAt(w, room, d).info then 0
    else if IsDoor !in ExitAt(w, room, d).info && ExitAt(w, room, d).info != {} then 0
    else
      var there := ExitAt(w, room, d).toRoom;
      if !HasExit(w, there, RevDir(d)) then 0
      else if ExitAt(w, there, RevDir(d)).toRoom < 1 then 0
      else if ExitAt(w, there, RevDir(d)).toRoom != room then 0
      else there
  }

  /** A clear step lands in a real room whose opposite exit leads straight back. */
  lemma ClearStepComesBack(w: World, ch: Walker, room: int, d: Dir)
    requires room in w.rooms
    ensures var to := ClearPath(w, ch, room, d);
      to == 0 || (to >= 1 && HasExit(w, room, d) && ExitAt(w, room, d).toRoom == to && HasExit(w, to, RevDir(d))
                  && ExitAt(w, to, RevDir(d)).toRoom == room && room >= 1
                  && CanGo(w, ch, d) && Closed !in ExitAt(w, room, d).info)
  {
  }

  /** An exit one can see through: not closed, and a door unless it has no flags at all. */
  predicate Open(w: World, room: int, d: Dir)
    requires HasExit(w, room, d)
  {
    var info := ExitAt(w, room, d).info;
    Closed !in info && (IsDoor in info || info == {})
  }

  /** One sees from room a into room b: both are numbered above 0, the exit of a is open and leads to b, and the
      opposite exit of b, whatever its flags, leads back to a. */
  predicate Sightline(w: World, a: int, d: Dir, b: int) {
    && a >= 1 && b >= 1
    && HasExit(w, a, d) && ExitAt(w, a, d).toRoom == b && Open(w, a, d)
    && HasExit(w, b, RevDir(d)) && ExitAt(w, b, RevDir(d)).toRoom == a
  }

  /** A step is clear exactly along a line of sight, for a valid walker whose own exit is passable. */
  lemma ClearStepIff(w: World, ch: Walker, room: int, d: Dir, to: int)
    requires room in w.rooms && to != 0
    ensures ClearPath(w, ch, room, d) == to <==> ch.valid && CanGo(w, ch, d) && Sightline(w, room, d, to)
  {
  }

  /** Two clear steps that land in the same room started in the same room. */
  lemma ClearStepInjective(w: World, ch: Walker, a: int, b: int, d: Dir)
    requires a in w.rooms && b in w.rooms
    requires ClearPath(w, ch, a, d) == ClearPath(w, ch, b, d) != 0
    ensures a == b
  {
    ClearStepComesBack(w, ch, a, d);
    ClearStepComesBack(w, ch, b, d);
  }

  // ---------------------------------------------------------------- many steps

  /** The room reached after k clear steps in direction d, if all of them are clear. */
  function Reach(w: World, ch: Walker, d: Dir, k: nat): (r: Option<int>)
    requires ch.inRoom in w.rooms
    ensures r.Some? ==> r.value in w.rooms
  {
    if k == 0 then Some(ch.inRoom)
    else
      var before := Reach(w, ch, d, k - 1);
      if before.None? then None
      else
        var to := ClearPath(w, ch, before.value, d);
        if to <= 0 then None else Some(to)
  }

  lemma {:induction false} ReachPrefix(w: World, ch: Walker, d: Dir, i: nat, k: nat)
    requires ch.inRoom in w.rooms
    requires i <= k && Reach(w, ch, d, k).Some?
    ensures Reach(w, ch, d, i).Some?
    decreases k
  {
    if i < k {
      ReachPrefix(w, ch, d, i, k - 1);
    }
  }

  /** If the walk is in the same room after i and after j steps, it was back at its start after j - i. */
  lemma {:induction false} CollisionIsReturn(w: World, ch: Walker, d: Dir, i: nat, j: nat)
    requires ch.inRoom in w.rooms
    requires i < j && Reach(w, ch, d, i).Some? && Reach(w, ch, d, i) == Reach(w, ch, d, j)
    ensures Reach(w, ch, d, j - i) == Some(ch.inRoom)
    decreases i
  {
    if i == 0 {
    } else {
      var a, b := Reach(w, ch, d, i - 1).value, Reach(w, ch, d, j - 1).value;
      ClearStepInjective(w, ch, a, b, d);
      CollisionIsReturn(w, ch, d, i - 1, j - 1);
    }
  }

  /** Once back at the start after p steps, the walk repeats itself with period p. */
  lemma {:induction false} ReturnIsPeriod(w: World, ch: Walker, d: Dir, p: nat, k: nat)
    requires ch.inRoom in w.rooms
    requires Reach(w, ch, d, p) == Some(ch.inRoom)
    ensures Reach(w, ch, d, p + k) == Reach(w, ch, d, k)
  {
    if k == 0 {
    } else {
      ReturnIsPeriod(w, ch, d, p, k - 1);
      assert p + k - 1 == p + (k - 1);
    }
  }

  ghost predicate Distinct<T>(s: seq<T>) {
    forall i, j :: 0 <= i < j < |s| ==> s[i] != s[j]
  }

  lemma {:induction false} Pigeonhole<T>(s: seq<T>, all: set<T>)
    requires Distinct(s) && forall x :: x in s ==> x in all
    ensures |s| <= |all|
  {
    if s == [] {
    } else {
      var last := s[|s| - 1];
      forall x | x in s[..|s| - 1] ensures x in all - {last} {
        assert x in s;
      }
      Pigeonhole(s[..|s| - 1], all - {last});
    }
  }

  /** The rooms seen in the first n steps, start included. */
  function Seen(w: World, ch: Walker, d: Dir, n: nat): (s: seq<int>)
    requires ch.inRoom in w.rooms
    requires Reach(w, ch, d, n).Some?
    ensures |s| == n + 1
    ensures forall k :: 0 <= k <= n ==> Reach(w, ch, d, k) == Some(s[k])
  {
    if n == 0 then [ch.inRoom] else Seen(w, ch, d, n - 1) + [Reach(w, ch, d, n).value]
  }

  /** Rooms in a row, each with a line of sight into the next. */
  ghost predicate OpenLine(w: World, d: Dir, line: seq<int>) {
    forall i :: 0 <= i < |line| - 1 ==> Sightline(w, line[i], d, line[i + 1])
  }

  lemma {:induction false} OpenLineIsWalked(w: World, ch: Walker, d: Dir, line: seq<int>, k: nat)
    requires ch.inRoom in w.rooms && ch.valid && k < |line| && line[0] == ch.inRoom && OpenLine(w, d, line)
    ensures Reach(w, ch, d, k) == Some(line[k])
  {
    if k == 0 {
    } else {
      OpenLineIsWalked(w, ch, d, line, k - 1);
      assert Sightline(w, line[0], d, line[1]) && Sightline(w, line[k - 1], d, line[k]);
      ClearStepIff(w, ch, line[k - 1], d, line[k]);
    }
  }

  /** A walk of k steps gets to a room exactly when k lines of sight in a row lead there; the test of the walker's
      own exit, repeated at every step, forbids nothing more. */
  lemma ReachIsOpenLine(w: World, ch: Walker, d: Dir, k: nat, to: int)
    requires ch.inRoom in w.rooms && ch.valid
    ensures Reach(w, ch, d, k) == Some(to) <==>
            exists line :: |line| == k + 1 && line[0] == ch.inRoom && line[k] == to && OpenLine(w, d, line)
  {
    if Reach(w, ch, d, k) == Some(to) {
      var line := Seen(w, ch, d, k);
      forall i | 0 <= i < |line| - 1 ensures Sightline(w, line[i], d, line[i + 1]) {
        assert Reach(w, ch, d, i) == Some(line[i]) && Reach(w, ch, d, i + 1) == Some(line[i + 1]);
        ClearStepIff(w, ch, line[i], d, line[i + 1]);
      }
      assert OpenLine(w, d, line);
    }
    if line :| |line| == k + 1 && line[0] == ch.inRoom && line[k] == to && OpenLine(w, d, line) {
      OpenLineIsWalked(w, ch, d, line, k);
    }
  }

  /** The walk is back at its start after p steps, for some p no larger than the number of rooms. */
  predicate Returns(w: World, ch: Walker, d: Dir)
    requires ch.inRoom in w.rooms
  {
    exists p :: 1 <= p <= |w.rooms| && Reach(w, ch, d, p) == Some(ch.inRoom)
  }

  /** A clear walk repeats no room before it returns to its start room. */
  lemma NoRepeatBeforeReturn(w: World, ch: Walker, d: Dir, n: nat)
    requires ch.inRoom in w.rooms
    requires Reach(w, ch, d, n).Some?
    requires forall p :: 1 <= p <= n ==> Reach(w, ch, d, p) != Some(ch.inRoom)
    ensures Distinct(Seen(w, ch, d, n))
    ensures n < |w.rooms|
  {
    var s := Seen(w, ch, d, n);
    forall i, j | 0 <= i < j < |s| ensures s[i] != s[j] {
      if s[i] == s[j] {
        CollisionIsReturn(w, ch, d, i, j);
      }
    }
    forall x | x in s ensures x in w.rooms {
      var k :| 0 <= k < |s| && s[k] == x;
      assert Reach(w, ch, d, k) == Some(s[k]);
    }
    Pigeonhole(s, w.rooms);
  }

  /** Either the walk returns to its start, or some call of clearpath among the first |w.rooms| fails. */
  lemma ReturnsOrBlocked(w: World, ch: Walker, d: Dir)
    requires ch.inRoom in w.rooms
    ensures Returns(w, ch, d) || Reach(w, ch, d, |w.rooms|).None?
  {
    if Reach(w, ch, d, |w.rooms|).Some? && !Returns(w, ch, d) {
      NoRepeatBeforeReturn(w, ch, d, |w.rooms|);
    }
  }

  /** A returning walk is the walk of a cycle: every position is one of the first p. */
  lemma {:induction false} CycleFolds(w: World, ch: Walker, d: Dir, p: nat, k: nat) returns (i: nat)
    requires ch.inRoom in w.rooms
    requires 1 <= p && Reach(w, ch, d, p) == Some(ch.inRoom)
    requires 1 <= k
    ensures 1 <= i <= p && Reach(w, ch, d, i) == Reach(w, ch, d, k)
    decreases k
  {
    if k <= p {
      i := k;
    } else {
      ReturnIsPeriod(w, ch, d, p, k - p);
      i := CycleFolds(w, ch, d, p, k - p);
    }
  }

  // ---------------------------------------------------------------- the way back

  /** The exit that leads back from the room reached after i steps is one to see through. */
  predicate OpenBack(w: World, ch: Walker, d: Dir, i: nat)
    requires ch.inRoom in w.rooms
  {
    var here := Reach(w, ch, d, i);
    here.Some? && HasExit(w, here.value, RevDir(d)) && Open(w, here.value, RevDir(d))
  }

  lemma BackStep(w: World, ch: Walker, d: Dir, k: nat, i: nat)
    requires ch.inRoom in w.rooms && 1 <= i <= k && Reach(w, ch, d, k).Some?
    requires ch.valid && OpenBack(w, ch, d, k)
    ensures Reach(w, ch, d, i).Some? && Reach(w, ch, d, i - 1).Some?
    ensures var observer := Walker(true, Reach(w, ch, d, k).value);
      var to := ClearPath(w, observer, Reach(w, ch, d, i).value, RevDir(d));
      if OpenBack(w, ch, d, i) then to == Reach(w, ch, d, i - 1).value >= 1 else to == 0
  {
    ReachPrefix(w, ch, d, i, k);
    ReachPrefix(w, ch, d, i - 1, k);
    ReachPrefix(w, ch, d, k - 1, k);
    RevDirInvolution(d);
    ClearStepComesBack(w, ch, Reach(w, ch, d, i - 1).value, d);
    ClearStepComesBack(w, ch, Reach(w, ch, d, k - 1).value, d);
  }

  /** A walker who has come k steps can be seen back along j of them exactly when every exit on that part of
      the way back is open; what is seen is then the same rooms in reverse. */
  lemma {:induction false} SightIsMutual(w: World, ch: Walker, d: Dir, k: nat, j: nat)
    requires ch.inRoom in w.rooms && Reach(w, ch, d, k).Some? && ch.valid && j <= k
    ensures var back := Reach(w, Walker(true, Reach(w, ch, d, k).value), RevDir(d), j);
      && (back.Some? <==> forall i :: k - j < i <= k ==> OpenBack(w, ch, d, i))
      && (back.Some? ==> back == Reach(w, ch, d, k - j))
  {
    if j == 0 {
    } else {
      SightIsMutual(w, ch, d, k, j - 1);
      var observer := Walker(true, Reach(w, ch, d, k).value);
      if OpenBack(w, ch, d, k) {
        BackStep(w, ch, d, k, k - j + 1);
      } else if j == 1 {
        ReachPrefix(w, ch, d, k - 1, k);
        RevDirInvolution(d);
        ClearStepComesBack(w, ch, Reach(w, ch, d, k - 1).value, d);
      }
    }
  }

  // ---------------------------------------------------------------- linear_walk

  /** A visitor: given the room reached and the number of steps, true to go on and false to stop. */
  type Visitor = (int, int) -> bool

  /** How linear_walk ends: stopped by the visitor in a room, blocked at the n-th call of clearpath
      (the number given to onBlocked), or out of steps. */
  datatype WalkEnd = Stopped(range: nat, room: int) | Blocked(range: nat) | Exhausted

  predicate StopsAt(w: World, ch: Walker, d: Dir, skip: bool, visit: Visitor, k: nat)
    requires ch.inRoom in w.rooms
  {
    var here := Reach(w, ch, d, k);
    here.Some? && !(skip && here.value == ch.inRoom) && !visit(here.value, k)
  }

  /** The walk is over at its k-th step. */
  predicate EndsAt(w: World, ch: Walker, d: Dir, skip: bool, visit: Visitor, k: nat)
    requires ch.inRoom in w.rooms
  {
    Reach(w, ch, d, k).None? || StopsAt(w, ch, d, skip, visit, k)
  }

  /** What it means for `end` to be the outcome of a walk of at most maxSteps steps (no bound if negative). */
  ghost predicate IsOutcome(w: World, ch: Walker, d: Dir, maxSteps: int, skip: bool, visit: Visitor, end: WalkEnd)
    requires ch.inRoom in w.rooms
  {
    match end
    case Stopped(n, room) =>
      1 <= n && (maxSteps < 0 || n <= maxSteps) && Reach(w, ch, d, n) == Some(room)
      && StopsAt(w, ch, d, skip, visit, n) && forall i :: 1 <= i < n ==> !EndsAt(w, ch, d, skip, visit, i)
    case Blocked(n) =>
      1 <= n && (maxSteps < 0 || n <= maxSteps) && Reach(w, ch, d, n).None?
      && forall i :: 1 <= i < n ==> !EndsAt(w, ch, d, skip, visit, i)
    case Exhausted =>
      0 <= maxSteps && forall i :: 1 <= i <= maxSteps ==> !EndsAt(w, ch, d, skip, visit, i)
  }

  lemma OutcomeIsUnique(w: World, ch: Walker, d: Dir, maxSteps: int, skip: bool, visit: Visitor, a: WalkEnd, b: WalkEnd)
    requires ch.inRoom in w.rooms
    requires IsOutcome(w, ch, d, maxSteps, skip, visit, a) && IsOutcome(w, ch, d, maxSteps, skip, visit, b)
    ensures a == b
  {
    if !a.Exhausted? && !b.Exhausted? {
      if a.range < b.range {
        assert EndsAt(w, ch, d, skip, visit, a.range);
      } else if b.range < a.range {
        assert EndsAt(w, ch, d, skip, visit, b.range);
      }
    } else if a.Exhausted? && !b.Exhausted? {
      assert EndsAt(w, ch, d, skip, visit, b.range);
    } else if b.Exhausted? && !a.Exhausted? {
      assert EndsAt(w, ch, d, skip, visit, a.range);
    }
  }

  /** linear_walk.  An unbounded walk that never ends has no outcome, so the walk must end somewhere. */
  method LinearWalk(w: World, ch: Walker, d: Dir, maxSteps: int, skip: bool, visit: Visitor)
    returns (end: WalkEnd)
    requires ch.inRoom in w.rooms
    requires maxSteps >= 0 || exists k :: 1 <= k && EndsAt(w, ch, d, skip, visit, k)
    ensures IsOutcome(w, ch, d, maxSteps, skip, visit, end)
  {
    ghost var last := maxSteps;
    if maxSteps < 0 {
      last :| 1 <= last && EndsAt(w, ch, d, skip, visit, last);
    }
    var rm := ch.inRoom;
    var range := 0;
    while maxSteps < 0 || range < maxSteps
      invariant 0 <= range <= last
      invariant Reach(w, ch, d, range) == Some(rm)
      invariant forall i :: 1 <= i <= range ==> !EndsAt(w, ch, d, skip, visit, i)
      decreases last - range
    {
      range := range + 1;
      var to := ClearPath(w, ch, rm, d);
      if to <= 0 {
        return Blocked(range);
      }
      rm := to;
      if !(skip && rm == ch.inRoom) {
        if !visit(rm, range) {
          return Stopped(range, rm);
        }
      }
    }
    return Exhausted;
  }

  /** With a visitor that looks only at the room, an unbounded walk that ends at all ends within |w.rooms| calls. */
  lemma RoomVisitorEndsEarly(w: World, ch: Walker, d: Dir, skip: bool, visit: Visitor, k: nat) returns (i: nat)
    requires ch.inRoom in w.rooms
    requires forall room, m, n :: visit(room, m) == visit(room, n)
    requires 1 <= k && EndsAt(w, ch, d, skip, visit, k)
    ensures 1 <= i <= |w.rooms| && EndsAt(w, ch, d, skip, visit, i)
  {
    ReturnsOrBlocked(w, ch, d);
    if Reach(w, ch, d, |w.rooms|).None? {
      assert |w.rooms| >= 1 by {
        assert w.rooms != {};
      }
      i := |w.rooms|;
    } else {
      var p :| 1 <= p <= |w.rooms| && Reach(w, ch, d, p) == Some(ch.inRoom);
      i := CycleFolds(w, ch, d, p, k);
    }
  }

  /** The exact condition under which an unbounded walk ends, as a search of the first |w.rooms| steps. */
  lemma UnboundedWalkEnds(w: World, ch: Walker, d: Dir, skip: bool, visit: Visitor)
    requires ch.inRoom in w.rooms
    requires forall room, m, n :: visit(room, m) == visit(room, n)
    ensures (exists k :: 1 <= k && EndsAt(w, ch, d, skip, visit, k))
       <==> (exists k :: 1 <= k <= |w.rooms| && EndsAt(w, ch, d, skip, visit, k))
  {
    if k :| 1 <= k && EndsAt(w, ch, d, skip, visit, k) {
      var i := RoomVisitorEndsEarly(w, ch, d, skip, visit, k);
    }
  }

  /** An unbounded walk ends exactly when it does not return to its start room, or its visitor stops it at one of
      the rooms on the way. */
  lemma UnboundedWalkEndsIff(w: World, ch: Walker, d: Dir, skip: bool, visit: Visitor)
    requires ch.inRoom in w.rooms
    requires forall room, m, n :: visit(room, m) == visit(room, n)
    ensures (exists k :: 1 <= k && EndsAt(w, ch, d, skip, visit, k)) <==>
            !Returns(w, ch, d) || exists n :: 1 <= n <= |w.rooms| && StopsAt(w, ch, d, skip, visit, n)
  {
    if k :| 1 <= k && EndsAt(w, ch, d, skip, visit, k) {
      if Returns(w, ch, d) {
        var p :| 1 <= p <= |w.rooms| && Reach(w, ch, d, p) == Some(ch.inRoom);
        var i := CycleFolds(w, ch, d, p, k);
        ReachPrefix(w, ch, d, i, p);
        assert StopsAt(w, ch, d, skip, visit, i);
      }
    }
    if !Returns(w, ch, d) {
      ReturnsOrBlocked(w, ch, d);
      assert w.rooms != {};
      assert |w.rooms| >= 1 && EndsAt(w, ch, d, skip, visit, |w.rooms|);
    }
    if n :| 1 <= n <= |w.rooms| && StopsAt(w, ch, d, skip, visit, n) {
      assert EndsAt(w, ch, d, skip, visit, n);
    }
  }

  /** A walk nobody stops ends exactly when it does not return to its start room. */
  lemma UnstoppedWalkEndsIffNoReturn(w: World, ch: Walker, d: Dir, skip: bool, visit: Visitor)
    requires ch.inRoom in w.rooms
    requires forall room, n :: visit(room, n)
    ensures (exists k :: 1 <= k && EndsAt(w, ch, d, skip, visit, k)) <==> !Returns(w, ch, d)
  {
    UnboundedWalkEndsIff(w, ch, d, skip, visit);
  }

  // ---------------------------------------------------------------- can_see_linear

  /** Somebody's place in the room lists: real_roomp(room)->people. */
  type People = map<int, seq<nat>>

  /** can_see_linear_visit goes on unless the target is in the room's list and can be seen. */
  function LookFor(people: People, targ: nat, canSee: bool): Visitor {
    (room, range) => !(room in people && targ in people[room] && canSee)
  }

  /** The target is visible n clear steps away in direction d. */
  predicate Sighted(w: World, ch: Walker, people: People, targ: nat, canSee: bool, d: Dir, n: nat)
    requires ch.inRoom in w.rooms
  {
    var room := Reach(w, ch, d, n);
    room.Some? && room.value in people && targ in people[room.value] && canSee
  }

  lemma {:induction false} FirstSightIsOutcome(w: World, ch: Walker, people: People, targ: nat, canSee: bool, d: Dir,
                                               n: nat)
    requires ch.inRoom in w.rooms
    requires 1 <= n <= 6 && Sighted(w, ch, people, targ, canSee, d, n)
    requires forall i :: 1 <= i < n ==> !Sighted(w, ch, people, targ, canSee, d, i)
    ensures IsOutcome(w, ch, d, 6, false, LookFor(people, targ, canSee), Stopped(n, Reach(w, ch, d, n).value))
  {
    forall i | 1 <= i < n ensures !EndsAt(w, ch, d, false, LookFor(people, targ, canSee), i) {
      ReachPrefix(w, ch, d, i, n);
      assert !Sighted(w, ch, people, targ, canSee, d, i);
    }
  }

  lemma {:induction false} FirstSighting(w: World, ch: Walker, people: People, targ: nat, canSee: bool, d: Dir, n: nat,
                                         end: WalkEnd)
    requires ch.inRoom in w.rooms
    requires 1 <= n <= 6 && Sighted(w, ch, people, targ, canSee, d, n)
    requires IsOutcome(w, ch, d, 6, false, LookFor(people, targ, canSee), end)
    ensures end.Stopped?
    decreases n
  {
    if i :| 1 <= i < n && Sighted(w, ch, people, targ, canSee, d, i) {
      FirstSighting(w, ch, people, targ, canSee, d, i, end);
    } else {
      FirstSightIsOutcome(w, ch, people, targ, canSee, d, n);
      OutcomeIsUnique(w, ch, d, 6, false, LookFor(people, targ, canSee), end, Stopped(n, Reach(w, ch, d, n).value));
    }
  }

  /** can_see_linear: the least direction, and in it the least range up to 6, in which the target is seen.
      `rng` and `dr` are the caller's variables and keep their values when nobody is seen. */
  method CanSeeLinear(w: World, ch: Walker, people: People, targ: nat, canSee: bool, rng0: int, dr0: int)
    returns (result: int, rng: int, dr: int)
    requires ch.inRoom in w.rooms
    ensures -1 <= result < 6
    ensures result == -1 <==> forall d: Dir, n :: 1 <= n <= 6 ==> !Sighted(w, ch, people, targ, canSee, d, n)
    ensures result == -1 ==> rng == rng0 && dr == dr0
    ensures result >= 0 ==> dr == result && 1 <= rng <= 6 && Sighted(w, ch, people, targ, canSee, result, rng)
    ensures result >= 0 ==> forall n :: 1 <= n < rng ==> !Sighted(w, ch, people, targ, canSee, result, n)
    ensures result >= 0 ==>
      forall d: Dir, n :: d < result && 1 <= n <= 6 ==> !Sighted(w, ch, people, targ, canSee, d, n)
  {
    rng, dr := rng0, dr0;
    var visit := LookFor(people, targ, canSee);
    for i := 0 to 6
      invariant rng == rng0 && dr == dr0
      invariant forall d: Dir, n :: d < i && 1 <= n <= 6 ==> !Sighted(w, ch, people, targ, canSee, d, n)
    {
      var end := LinearWalk(w, ch, i, 6, false, visit);
      if end.Stopped? {
        forall n | 1 <= n < end.range ensures !Sighted(w, ch, people, targ, canSee, i, n) {
          assert !EndsAt(w, ch, i, false, visit, n);
        }
        assert Sighted(w, ch, people, targ, canSee, i, end.range);
        return i, end.range, i;
      }
      forall n | 1 <= n <= 6 ensures !Sighted(w, ch, people, targ, canSee, i, n) {
        if Sighted(w, ch, people, targ, canSee, i, n) {
          FirstSighting(w, ch, people, targ, canSee, i, n, end);
        }
      }
    }
    result := -1;
  }

  // ---------------------------------------------------------------- get_char_linear

  /** What get_char_near_room_vis finds in a room; it does not depend on the distance walked. */
  type Finder = int -> Option<nat>

  function FindIn(find: Finder): Visitor {
    (room, range) => find(room).None?
  }

  /** The walk of get_char_linear along d comes to an end. */
  predicate SearchEnds(w: World, ch: Walker, d: Dir, find: Finder)
    requires ch.inRoom in w.rooms
  {
    exists k :: 1 <= k <= |w.rooms| && EndsAt(w, ch, d, false, FindIn(find), k)
  }

  /** Somebody who matches stands on the line, within as many steps as there are rooms. */
  predicate MatchOnLine(w: World, ch: Walker, d: Dir, find: Finder)
    requires ch.inRoom in w.rooms
  {
    exists n :: 1 <= n <= |w.rooms| && Reach(w, ch, d, n).Some? && find(Reach(w, ch, d, n).value).Some?
  }

  /** The search ends exactly when the line does not return to its start room, or somebody on it matches. */
  lemma SearchEndsIff(w: World, ch: Walker, d: Dir, find: Finder)
    requires ch.inRoom in w.rooms
    ensures SearchEnds(w, ch, d, find) <==> !Returns(w, ch, d) || MatchOnLine(w, ch, d, find)
  {
    UnboundedWalkEnds(w, ch, d, false, FindIn(find));
    UnboundedWalkEndsIff(w, ch, d, false, FindIn(find));
    if n :| 1 <= n <= |w.rooms| && StopsAt(w, ch, d, false, FindIn(find), n) {
      assert Reach(w, ch, d, n).Some? && find(Reach(w, ch, d, n).value).Some?;
    }
    if n :| 1 <= n <= |w.rooms| && Reach(w, ch, d, n).Some? && find(Reach(w, ch, d, n).value).Some? {
      assert StopsAt(w, ch, d, false, FindIn(find), n);
    }
  }

  /** The walk of get_char_linear: the nearest match in direction d, with its range; with no match, the range
      of the wall.  On every other line the loop does not end (SearchEndsIff). */
  method GetCharAlong(w: World, ch: Walker, d: Dir, find: Finder) returns (found: Option<nat>, rf: nat)
    requires ch.inRoom in w.rooms
    requires !Returns(w, ch, d) || MatchOnLine(w, ch, d, find)
    ensures 1 <= rf <= |w.rooms|
    ensures found.Some? ==> Reach(w, ch, d, rf).Some? && find(Reach(w, ch, d, rf).value) == found
    ensures found.None? ==> Reach(w, ch, d, rf).None?
    ensures forall i :: 1 <= i < rf ==> Reach(w, ch, d, i).Some? && find(Reach(w, ch, d, i).value).None?
  {
    SearchEndsIff(w, ch, d, find);
    var end := LinearWalk(w, ch, d, -1, false, FindIn(find));
    ghost var k :| 1 <= k <= |w.rooms| && EndsAt(w, ch, d, false, FindIn(find), k);
    forall i | 1 <= i < end.range ensures Reach(w, ch, d, i).Some? && find(Reach(w, ch, d, i).value).None? {
      assert !EndsAt(w, ch, d, false, FindIn(find), i);
    }
    rf := end.range;
    found := if end.Stopped? then find(end.room) else None;
  }

  lemma {:induction false} StaysPut(w: World, ch: Walker, d: Dir, k: nat)
    requires ch.inRoom in w.rooms && ClearPath(w, ch, ch.inRoom, d) == ch.inRoom && ch.inRoom >= 1
    ensures Reach(w, ch, d, k) == Some(ch.inRoom)
  {
    if k == 0 {
    } else {
      StaysPut(w, ch, d, k - 1);
    }
  }

  /** The search does not always end: a room whose north exit and whose south exit both lead to itself. */
  lemma {:induction false} SelfLoopSearchNeverEnds(k: nat)
    ensures var w := World({1}, map[Side(1, 0) := Exit(1, {}, -1, -1), Side(1, 2) := Exit(1, {}, -1, -1)]);
      !EndsAt(w, Walker(true, 1), 0, false, FindIn(_ => None), k)
      && !SearchEnds(w, Walker(true, 1), 0, _ => None)
  {
    var w := World({1}, map[Side(1, 0) := Exit(1, {}, -1, -1), Side(1, 2) := Exit(1, {}, -1, -1)]);
    assert ClearPath(w, Walker(true, 1), 1, 0) == 1;
    assert forall i: nat :: Reach(w, Walker(true, 1), 0, i) == Some(1) by {
      forall i: nat ensures Reach(w, Walker(true, 1), 0, i) == Some(1) {
        StaysPut(w, Walker(true, 1), 0, i);
      }
    }
  }
}
