/** Doors have two faces, one exit record in each room, and the commands of act.move.cpp change them one at
    a time: first the face in front of the character, then the other one if it is there. */
module Doors {
  import opened Options
  import opened Rooms

  const CMD_DIG: int := 495
  const CMD_SCYTHE: int := 496

  // ---------------------------------------------------------------- one face, and the other

  /** SET_BIT and REMOVE_BIT on the exit_info of one face. */
  function PutBit(w: World, s: Side, flag: ExitFlag, on: bool): World
    requires s in w.exits
  {
    var e := w.exits[s];
    w.(exits := w.exits[s := e.(info := if on then e.info + {flag} else e.info - {flag})])
  }

  /** The other side of the passage, if the exit there leads straight back. */
  function Twin(w: World, s: Side): (t: Option<Side>)
    requires s in w.exits
    ensures t.Some? ==> t.value in w.exits && t.value.room == w.exits[s].toRoom
  {
    var e := w.exits[s];
    if HasExit(w, e.toRoom, RevDir(s.dir)) && ExitAt(w, e.toRoom, RevDir(s.dir)).toRoom == s.room
    then Some(Side(e.toRoom, RevDir(s.dir)))
    else None
  }

  /** One face first, then the other one if it is there and, for the calls that ask exit_ok, if the number of
      the room behind the door is above 0. */
  function PutFaces(w: World, s: Side, flag: ExitFlag, on: bool, asksExitOk: bool): World
    requires s in w.exits
  {
    var w1 := PutBit(w, s, flag, on);
    var t := Twin(w1, s);
    if t.Some? && (asksExitOk ==> t.value.room > 0) then PutBit(w1, t.value, flag, on) else w1
  }

  /** open_door and raw_open_door. */
  function OpenDoor(w: World, s: Side): World
    requires s in w.exits
  {
    PutFaces(w, s, Closed, false, true)
  }

  function CloseDoor(w: World, s: Side): World
    requires s in w.exits
  {
    PutFaces(w, s, Closed, true, true)
  }

  /** raw_lock_door and raw_unlock_door ask only that the room exists. */
  function LockDoor(w: World, s: Side): World
    requires s in w.exits
  {
    PutFaces(w, s, Locked, true, false)
  }

  function UnlockDoor(w: World, s: Side): World
    requires s in w.exits
  {
    PutFaces(w, s, Locked, false, false)
  }

  // ---------------------------------------------------------------- commands

  /** A command on the door that find_door found; what the character carries or can do comes with it. */
  datatype Act =
    | Open(cmd: int)
    | Close
    | Lock(hasKey: bool)
    | Unlock(hasKey: bool)
    | Pick(succeeds: bool)
    | Special(cmd: int, hasTool: bool)

  datatype Command = Command(side: Side, act: Act)

  /** The tests of do_open, do_close, do_lock, do_unlock, do_pick and do_open_exit, and their effect. */
  function Perform(w: World, c: Command): (r: World) {
    if !HasExit(w, c.side.room, c.side.dir) then w
    else
      var e := w.exits[c.side];
      var closed, locked := Closed in e.info, Locked in e.info;
      if IsDoor !in e.info then w
      else
        match c.act
        case Open(cmd) =>
          if closed && !locked && (e.openCmd == -1 || e.openCmd == cmd) then OpenDoor(w, c.side) else w
        case Close =>
          if !closed && e.openCmd == -1 then CloseDoor(w, c.side) else w
        case Lock(hasKey) =>
          if closed && e.key >= 0 && hasKey && !locked then LockDoor(w, c.side) else w
        case Unlock(hasKey) =>
          if closed && e.key >= 0 && hasKey && locked then UnlockDoor(w, c.side) else w
        case Pick(succeeds) =>
          if succeeds && closed && e.key >= 0 && locked && PickProof !in e.info then UnlockDoor(w, c.side) else w
        case Special(cmd, hasTool) =>
          var tooled := cmd == CMD_DIG || cmd == CMD_SCYTHE;
          if e.openCmd == -1 || cmd != e.openCmd then w
          else if !closed then if tooled then w else CloseDoor(w, c.side)
          else if tooled && !hasTool then w
          else OpenDoor(w, c.side)
  }

  function Run(w: World, cs: seq<Command>): World
    decreases |cs|
  {
    if cs == [] then w else Run(Perform(w, cs[0]), cs[1..])
  }

  // ---------------------------------------------------------------- what commands leave alone

  /** Everything about an exit but the two bits that commands move. */
  function Fixed(e: Exit): Exit {
    e.(info := e.info - {Closed, Locked})
  }

  /** The same exits, leading to the same rooms, with the same keys, commands and other flags. */
  ghost predicate SameLayout(w: World, r: World) {
    && r.rooms == w.rooms && r.exits.Keys == w.exits.Keys
    && (forall s :: s in w.exits ==> Fixed(r.exits[s]) == Fixed(w.exits[s]))
  }

  lemma LayoutKeepsTwin(w: World, r: World, s: Side)
    requires SameLayout(w, r) && s in w.exits
    ensures Twin(r, s) == Twin(w, s)
    ensures r.exits[s].toRoom == w.exits[s].toRoom && r.exits[s].openCmd == w.exits[s].openCmd
  {
    assert Fixed(r.exits[s]) == Fixed(w.exits[s]);
    var t := Side(w.exits[s].toRoom, RevDir(s.dir));
    assert t in w.exits ==> Fixed(r.exits[t]) == Fixed(w.exits[t]);
  }

  lemma SameLayoutTrans(a: World, b: World, c: World)
    requires SameLayout(a, b) && SameLayout(b, c)
    ensures SameLayout(a, c)
  {
    forall s | s in a.exits ensures Fixed(c.exits[s]) == Fixed(a.exits[s]) {
      assert Fixed(b.exits[s]) == Fixed(a.exits[s]);
    }
  }

  lemma {:induction false} TwinOfTwin(w: World, s: Side)
    requires s in w.exits && s.room in w.rooms && Twin(w, s).Some?
    ensures Twin(w, Twin(w, s).value) == Some(s) && Twin(w, s).value != s
  {
    RevDirInvolution(s.dir);
  }

  lemma PutBitEffect(w: World, s: Side, flag: ExitFlag, on: bool)
    requires s in w.exits && flag in {Closed, Locked}
    ensures SameLayout(w, PutBit(w, s, flag, on))
  {
    var r := PutBit(w, s, flag, on);
    assert r.exits.Keys == w.exits.Keys;
    assert Fixed(r.exits[s]).info == Fixed(w.exits[s]).info;
  }

  /** The whole effect of a change of faces: one flag, on this side and on its twin, and nothing else. */
  lemma {:induction false} PutFacesEffect(w: World, s: Side, flag: ExitFlag, on: bool, asksExitOk: bool, x: Side)
    requires s in w.exits && x in w.exits && flag in {Closed, Locked}
    ensures var r := PutFaces(w, s, flag, on, asksExitOk);
      && SameLayout(w, r)
      && r.exits[x].info ==
         if x == s || (Twin(w, s) == Some(x) && (asksExitOk ==> x.room > 0))
         then if on then w.exits[x].info + {flag} else w.exits[x].info - {flag}
         else w.exits[x].info
  {
    var w1 := PutBit(w, s, flag, on);
    RevDirInvolution(s.dir);
    PutBitEffect(w, s, flag, on);
    LayoutKeepsTwin(w, w1, s);
    var t := Twin(w, s);
    if t.Some? && (asksExitOk ==> t.value.room > 0) {
      PutBitEffect(w1, t.value, flag, on);
      SameLayoutTrans(w, w1, PutBit(w1, t.value, flag, on));
    }
  }

  /** r comes from w by opening or closing the door at s; only a special command opens a locked one. */
  predicate ClosedChange(w: World, s: Side, r: World, on: bool) {
    && HasExit(w, s.room, s.dir) && r == PutFaces(w, s, Closed, on, true)
    && (on || Locked !in w.exits[s].info || w.exits[s].openCmd != -1)
  }

  /** r comes from w by locking or unlocking the door at s; only a closed one is locked. */
  predicate LockedChange(w: World, s: Side, r: World, on: bool) {
    && HasExit(w, s.room, s.dir) && r == PutFaces(w, s, Locked, on, false)
    && (on ==> Closed in w.exits[s].info)
  }

  /** What a command comes to: nothing, or one flag put on the faces of the door in front. */
  lemma PerformShape(w: World, c: Command)
    ensures var r := Perform(w, c);
      r == w || (exists on :: ClosedChange(w, c.side, r, on)) || (exists on :: LockedChange(w, c.side, r, on))
  {
    var r := Perform(w, c);
    if r != w {
      assert ClosedChange(w, c.side, r, false) || ClosedChange(w, c.side, r, true)
          || LockedChange(w, c.side, r, false) || LockedChange(w, c.side, r, true);
    }
  }

  lemma PerformKeepsLayout(w: World, c: Command)
    ensures SameLayout(w, Perform(w, c))
  {
    PerformShape(w, c);
    if on :| ClosedChange(w, c.side, Perform(w, c), on) {
      PutFacesEffect(w, c.side, Closed, on, true, c.side);
    } else if on :| LockedChange(w, c.side, Perform(w, c), on) {
      PutFacesEffect(w, c.side, Locked, on, false, c.side);
    }
  }

  /** No command moves an exit, or changes its key, its special command or its other flags. */
  lemma {:induction false} RunKeepsLayout(w: World, cs: seq<Command>)
    ensures SameLayout(w, Run(w, cs))
    decreases |cs|
  {
    if cs == [] {
    } else {
      PerformKeepsLayout(w, cs[0]);
      RunKeepsLayout(Perform(w, cs[0]), cs[1..]);
      SameLayoutTrans(w, Perform(w, cs[0]), Run(w, cs));
    }
  }

  // ---------------------------------------------------------------- who can change what

  /** The command is given at this face, or at the other face of its door. */
  predicate At(w: World, c: Command, x: Side) {
    HasExit(w, c.side.room, c.side.dir) && (x == c.side || Twin(w, c.side) == Some(x))
  }

  /** Only a holder of the key, or a picker who succeeds on a lock that is not pickproof. */
  predicate HasTheMeans(e: Exit, act: Act) {
    e.key >= 0 && (act == Unlock(true) || (act == Pick(true) && PickProof !in e.info))
  }

  predicate Unlocks(e: Exit, act: Act) {
    HasTheMeans(e, act) && {IsDoor, Closed, Locked} <= e.info
  }

  predicate Locks(e: Exit, act: Act) {
    act == Lock(true) && e.key >= 0 && {IsDoor, Closed} <= e.info && Locked !in e.info
  }

  /** The special command of an exit, with the tool if it needs one. */
  predicate Triggers(e: Exit, act: Act) {
    act.Special? && act.cmd == e.openCmd != -1 && (act.cmd in {CMD_DIG, CMD_SCYTHE} ==> act.hasTool)
  }

  predicate Opens(e: Exit, act: Act) {
    && {IsDoor, Closed} <= e.info
    && (Triggers(e, act) || (act.Open? && Locked !in e.info && e.openCmd in {-1, act.cmd}))
  }

  predicate Closes(e: Exit, act: Act) {
    && IsDoor in e.info && Closed !in e.info
    && ((act == Close && e.openCmd == -1) || (Triggers(e, act) && act.cmd !in {CMD_DIG, CMD_SCYTHE}))
  }

  /** A command does one of four things, or nothing. */
  lemma PerformByMeans(w: World, c: Command)
    requires HasExit(w, c.side.room, c.side.dir)
    ensures var e := w.exits[c.side];
      Perform(w, c) ==
      if Unlocks(e, c.act) then UnlockDoor(w, c.side) else if Locks(e, c.act) then LockDoor(w, c.side)
      else if Opens(e, c.act) then OpenDoor(w, c.side) else if Closes(e, c.act) then CloseDoor(w, c.side) else w
  {
  }

  /** The flag of a face, before and after. */
  predicate Put(w: World, r: World, x: Side, flag: ExitFlag) {
    x in w.exits && x in r.exits && flag !in w.exits[x].info && flag in r.exits[x].info
  }

  predicate Taken(w: World, r: World, x: Side, flag: ExitFlag) {
    x in w.exits && x in r.exits && flag in w.exits[x].info && flag !in r.exits[x].info
  }

  lemma {:induction false} PutFacesPuts(w: World, s: Side, flag: ExitFlag, on: bool, asksExitOk: bool, x: Side,
                                        seen: ExitFlag)
    requires s in w.exits && x in w.exits && flag in {Closed, Locked}
    ensures var r, touched := PutFaces(w, s, flag, on, asksExitOk),
                              x == s || (Twin(w, s) == Some(x) && (asksExitOk ==> x.room > 0));
      && (Put(w, r, x, seen) <==> seen == flag && on && touched && flag !in w.exits[x].info)
      && (Taken(w, r, x, seen) <==> seen == flag && !on && touched && flag in w.exits[x].info)
  {
    PutFacesEffect(w, s, flag, on, asksExitOk, x);
  }

  /** The lock of a face is changed exactly by a key or a pick, given at either face of its door. */
  lemma {:induction false} LockChangesIff(w: World, c: Command, x: Side)
    requires x in w.exits
    ensures var r, hit := Perform(w, c), Locked in w.exits[x].info;
      && (Taken(w, r, x, Locked) <==> hit && At(w, c, x) && Unlocks(w.exits[c.side], c.act))
      && (Put(w, r, x, Locked) <==> !hit && At(w, c, x) && Locks(w.exits[c.side], c.act))
  {
    if HasExit(w, c.side.room, c.side.dir) {
      PerformByMeans(w, c);
      PutFacesPuts(w, c.side, Closed, true, true, x, Locked);
      PutFacesPuts(w, c.side, Closed, false, true, x, Locked);
      PutFacesPuts(w, c.side, Locked, true, false, x, Locked);
      PutFacesPuts(w, c.side, Locked, false, false, x, Locked);
    }
  }

  /** A face is opened or closed exactly by the commands for it, given there, or at the other face when its own
      room is numbered above 0. */
  lemma {:induction false} ClosedChangesIff(w: World, c: Command, x: Side)
    requires x in w.exits
    ensures var r, hit := Perform(w, c), Closed in w.exits[x].info;
      && (Taken(w, r, x, Closed) <==>
          hit && At(w, c, x) && Opens(w.exits[c.side], c.act) && (x == c.side || x.room > 0))
      && (Put(w, r, x, Closed) <==>
          !hit && At(w, c, x) && Closes(w.exits[c.side], c.act) && (x == c.side || x.room > 0))
  {
    if HasExit(w, c.side.room, c.side.dir) {
      PerformByMeans(w, c);
      PutFacesPuts(w, c.side, Closed, true, true, x, Closed);
      PutFacesPuts(w, c.side, Closed, false, true, x, Closed);
      PutFacesPuts(w, c.side, Locked, true, false, x, Closed);
      PutFacesPuts(w, c.side, Locked, false, false, x, Closed);
    }
  }

  /** No command of the run is given at the door of x by somebody with the key, or as a successful pick that the
      lock there admits. */
  ghost predicate NobodyUnlocks(w: World, cs: seq<Command>, x: Side) {
    forall i :: 0 <= i < |cs| && At(w, cs[i], x) ==> !HasTheMeans(w.exits[cs[i].side], cs[i].act)
  }

  /** What a command is given at, and what it takes there, does not change. */
  lemma {:induction false} NobodyUnlocksLater(w: World, r: World, cs: seq<Command>, x: Side)
    requires SameLayout(w, r) && x in w.exits && NobodyUnlocks(w, cs, x)
    ensures NobodyUnlocks(r, cs, x)
  {
    forall i | 0 <= i < |cs| && At(r, cs[i], x) ensures !HasTheMeans(r.exits[cs[i].side], cs[i].act) {
      LayoutKeepsTwin(w, r, cs[i].side);
      assert At(w, cs[i], x);
      assert Fixed(r.exits[cs[i].side]) == Fixed(w.exits[cs[i].side]);
      assert PickProof in Fixed(r.exits[cs[i].side]).info <==> PickProof in Fixed(w.exits[cs[i].side]).info;
    }
  }

  /** A locked face stays locked along every run on which nobody at its door has the key or picks it. */
  lemma {:induction false} LockedStaysLocked(w: World, cs: seq<Command>, x: Side)
    requires x in w.exits && Locked in w.exits[x].info && NobodyUnlocks(w, cs, x)
    ensures x in Run(w, cs).exits && Locked in Run(w, cs).exits[x].info
    decreases |cs|
  {
    if cs == [] {
    } else {
      var r := Perform(w, cs[0]);
      PerformKeepsLayout(w, cs[0]);
      LockChangesIff(w, cs[0], x);
      NobodyUnlocksLater(w, r, cs[1..], x);
      LockedStaysLocked(r, cs[1..], x);
    }
  }

  /** Neither this face nor the one it is the other face of has a keyhole. */
  predicate NoKeyhole(w: World, x: Side) {
    x in w.exits && w.exits[x].key < 0 && (Twin(w, x).Some? ==> w.exits[Twin(w, x).value].key < 0)
  }

  lemma LayoutKeepsKeyhole(w: World, r: World, x: Side)
    requires SameLayout(w, r) && NoKeyhole(w, x)
    ensures NoKeyhole(r, x)
  {
    LayoutKeepsTwin(w, r, x);
    assert Fixed(r.exits[x]).key == Fixed(w.exits[x]).key;
    if Twin(w, x).Some? {
      var y := Twin(w, x).value;
      assert Fixed(r.exits[y]).key == Fixed(w.exits[y]).key;
    }
  }

  /** A door without a keyhole never changes its lock, whatever keys and picks people have. */
  lemma {:induction false} NoKeyholeKeepsLock(w: World, cs: seq<Command>, x: Side)
    requires NoKeyhole(w, x)
    ensures x in Run(w, cs).exits && (Locked in Run(w, cs).exits[x].info <==> Locked in w.exits[x].info)
    decreases |cs|
  {
    if cs == [] {
    } else {
      var c := cs[0];
      PerformKeepsLayout(w, c);
      LockChangesIff(w, c, x);
      if HasExit(w, c.side.room, c.side.dir) && Twin(w, c.side) == Some(x) {
        TwinOfTwin(w, c.side);
      }
      LayoutKeepsKeyhole(w, Perform(w, c), x);
      NoKeyholeKeepsLock(Perform(w, c), cs[1..], x);
    }
  }

  // ---------------------------------------------------------------- the two faces agree

  /** A two-sided door between rooms whose numbers are above 0. */
  predicate Door(w: World, s: Side) {
    s in w.exits && s.room in w.rooms && Twin(w, s).Some? && s.room > 0 && w.exits[s].toRoom > 0
  }

  predicate FacesAgree(w: World, s: Side)
    requires s in w.exits && Twin(w, s).Some?
  {
    var a, b := w.exits[s].info, w.exits[Twin(w, s).value].info;
    (Closed in a <==> Closed in b) && (Locked in a <==> Locked in b)
  }

  ghost predicate Agree(w: World) {
    forall s :: Door(w, s) ==> FacesAgree(w, s)
  }

  lemma {:induction false} PutFacesKeepsAgree(w: World, s: Side, flag: ExitFlag, on: bool, asksExitOk: bool)
    requires Agree(w) && s in w.exits && s.room in w.rooms && flag in {Closed, Locked}
    ensures Agree(PutFaces(w, s, flag, on, asksExitOk))
  {
    var r := PutFaces(w, s, flag, on, asksExitOk);
    PutFacesEffect(w, s, flag, on, asksExitOk, s);
    forall x | Door(r, x) ensures FacesAgree(r, x) {
      LayoutKeepsTwin(w, r, x);
      var y := Twin(w, x).value;
      assert Door(w, x) && FacesAgree(w, x);
      PutFacesEffect(w, s, flag, on, asksExitOk, x);
      PutFacesEffect(w, s, flag, on, asksExitOk, y);
      TwinOfTwin(w, x);
      if Twin(w, s).Some? {
        TwinOfTwin(w, s);
      }
    }
  }

  /** Nobody but the commands for its two faces touches a door, and they leave its faces in agreement. */
  lemma PerformKeepsAgree(w: World, c: Command)
    requires Agree(w)
    ensures Agree(Perform(w, c))
  {
    PerformShape(w, c);
    if on :| ClosedChange(w, c.side, Perform(w, c), on) {
      PutFacesKeepsAgree(w, c.side, Closed, on, true);
    } else if on :| LockedChange(w, c.side, Perform(w, c), on) {
      PutFacesKeepsAgree(w, c.side, Locked, on, false);
    }
  }

  /** From a world whose door faces agree, every run of door commands keeps them in agreement. */
  lemma {:induction false} RunKeepsAgree(w: World, cs: seq<Command>)
    requires Agree(w)
    ensures Agree(Run(w, cs))
    decreases |cs|
  {
    if cs == [] {
    } else {
      PerformKeepsAgree(w, cs[0]);
      RunKeepsAgree(Perform(w, cs[0]), cs[1..]);
    }
  }

  predicate FacesAgreeAfter(w: World, r: World, s: Side)
    requires s in w.exits
  {
    s in r.exits && Twin(r, s).Some? && FacesAgree(r, s)
  }

  /** For a door with agreeing faces, opening or closing it keeps them in agreement exactly when the room
      behind it has a number above 0: exit_ok turns room 0 away, although it may well exist. */
  lemma {:induction false} AgreementNeedsExitOk(w: World, s: Side, on: bool)
    requires s in w.exits && s.room in w.rooms && Twin(w, s).Some? && FacesAgree(w, s)
    requires on != (Closed in w.exits[s].info)
    ensures FacesAgreeAfter(w, PutFaces(w, s, Closed, on, true), s) <==> w.exits[s].toRoom > 0
  {
    var t := Twin(w, s).value;
    TwinOfTwin(w, s);
    PutFacesEffect(w, s, Closed, on, true, s);
    PutFacesEffect(w, s, Closed, on, true, t);
    LayoutKeepsTwin(w, PutFaces(w, s, Closed, on, true), s);
  }

  /** A door from room 1 north to room 0: opened from room 1, it stays closed seen from room 0. */
  lemma {:induction false} DoorToRoomZeroComesApart()
    ensures
      var e := Exit(0, {IsDoor, Closed}, -1, -1);
      var w := World({0, 1}, map[Side(1, 0) := e, Side(0, 2) := e.(toRoom := 1)]);
      var r := Perform(w, Command(Side(1, 0), Open(99)));
      && FacesAgreeAfter(w, w, Side(1, 0))
      && !FacesAgreeAfter(w, r, Side(1, 0))
  {
    var e := Exit(0, {IsDoor, Closed}, -1, -1);
    var w := World({0, 1}, map[Side(1, 0) := e, Side(0, 2) := e.(toRoom := 1)]);
    assert REV_DIR[0] == 2 && REV_DIR[2] == 0;
    assert Twin(w, Side(1, 0)) == Some(Side(0, 2));
    AgreementNeedsExitOk(w, Side(1, 0), false);
  }

  // ---------------------------------------------------------------- locked implies closed

  /** A face no special command opens, alone or with such a twin in a proper door. */
  predicate Plain(w: World, s: Side) {
    && s in w.exits && s.room in w.rooms && w.exits[s].openCmd == -1
    && var t := Twin(w, s); t.Some? ==> w.exits[t.value].openCmd == -1 && Door(w, s)
  }

  ghost predicate LockedIsClosed(w: World) {
    forall s :: Plain(w, s) && Locked in w.exits[s].info ==> Closed in w.exits[s].info
  }

  lemma SameLayoutBack(w: World, r: World)
    requires SameLayout(w, r)
    ensures SameLayout(r, w)
  {
    forall s | s in r.exits ensures Fixed(w.exits[s]) == Fixed(r.exits[s]) {
      assert s in w.exits;
    }
  }

  lemma LayoutKeepsPlain(w: World, r: World, s: Side)
    requires SameLayout(w, r) && Plain(r, s)
    ensures Plain(w, s)
  {
    LayoutKeepsTwin(w, r, s);
    var t := Twin(w, s);
    if t.Some? {
      LayoutKeepsTwin(w, r, t.value);
    }
  }

  /** The two faces of a plain one are changed together, and agreed before. */
  lemma PlainTwin(w: World, s: Side, x: Side)
    requires Agree(w) && Plain(w, x) && s in w.exits && s.room in w.rooms && (x == s || Twin(w, s) == Some(x))
    ensures Plain(w, s)
    ensures (Closed in w.exits[s].info <==> Closed in w.exits[x].info)
         && (Locked in w.exits[s].info <==> Locked in w.exits[x].info)
  {
    if x != s {
      TwinOfTwin(w, s);
      assert FacesAgree(w, x);
    }
  }

  lemma {:induction false} FaceAfterClosedChange(w: World, s: Side, r: World, on: bool, x: Side)
    requires Agree(w) && LockedIsClosed(w) && Plain(w, x) && ClosedChange(w, s, r, on)
    ensures x in r.exits && (Locked in r.exits[x].info ==> Closed in r.exits[x].info)
  {
    PutFacesEffect(w, s, Closed, on, true, x);
    if x == s || Twin(w, s) == Some(x) {
      PlainTwin(w, s, x);
    }
  }

  lemma {:induction false} FaceAfterLockedChange(w: World, s: Side, r: World, on: bool, x: Side)
    requires Agree(w) && LockedIsClosed(w) && Plain(w, x) && LockedChange(w, s, r, on)
    ensures x in r.exits && (Locked in r.exits[x].info ==> Closed in r.exits[x].info)
  {
    PutFacesEffect(w, s, Locked, on, false, x);
    if x == s || Twin(w, s) == Some(x) {
      PlainTwin(w, s, x);
    }
  }

  lemma {:induction false} PerformKeepsLockedClosed(w: World, c: Command)
    requires Agree(w) && LockedIsClosed(w)
    ensures LockedIsClosed(Perform(w, c))
  {
    var r := Perform(w, c);
    PerformShape(w, c);
    PerformKeepsLayout(w, c);
    if r != w {
      forall x | Plain(r, x) && Locked in r.exits[x].info ensures Closed in r.exits[x].info {
        LayoutKeepsPlain(w, r, x);
        if on :| ClosedChange(w, c.side, r, on) {
          FaceAfterClosedChange(w, c.side, r, on, x);
        } else if on :| LockedChange(w, c.side, r, on) {
          FaceAfterLockedChange(w, c.side, r, on, x);
        }
      }
    }
  }

  /** Where neither face has a special opening command, a locked door is closed, after every run. */
  lemma {:induction false} RunKeepsLockedClosed(w: World, cs: seq<Command>)
    requires Agree(w) && LockedIsClosed(w)
    ensures Agree(Run(w, cs)) && LockedIsClosed(Run(w, cs))
    decreases |cs|
  {
    if cs == [] {
    } else {
      PerformKeepsAgree(w, cs[0]);
      PerformKeepsLockedClosed(w, cs[0]);
      RunKeepsLockedClosed(Perform(w, cs[0]), cs[1..]);
    }
  }

  /** So a locked door without a special command is shut to everybody without its key, for good. */
  lemma ShutWithoutKey(w: World, cs: seq<Command>, x: Side)
    requires Agree(w) && LockedIsClosed(w) && Plain(w, x) && Locked in w.exits[x].info && NobodyUnlocks(w, cs, x)
    ensures x in Run(w, cs).exits && {Closed, Locked} <= Run(w, cs).exits[x].info
  {
    LockedStaysLocked(w, cs, x);
    RunKeepsLockedClosed(w, cs);
    RunKeepsLayout(w, cs);
    SameLayoutBack(w, Run(w, cs));
    LayoutKeepsPlain(Run(w, cs), w, x);
  }

  // ---------------------------------------------------------------- what one command undoes

  lemma {:induction false} PutFacesUndone(w: World, s: Side, flag: ExitFlag, on: bool, asksExitOk: bool)
    requires Agree(w) && s in w.exits && s.room in w.rooms && flag in {Closed, Locked}
    requires Twin(w, s).Some? ==> Door(w, s)
    requires on != (flag in w.exits[s].info)
    ensures s in PutFaces(w, s, flag, on, asksExitOk).exits
    ensures PutFaces(PutFaces(w, s, flag, on, asksExitOk), s, flag, !on, asksExitOk) == w
  {
    var r := PutFaces(w, s, flag, on, asksExitOk);
    PutFacesEffect(w, s, flag, on, asksExitOk, s);
    var z := PutFaces(r, s, flag, !on, asksExitOk);
    PutFacesEffect(r, s, flag, !on, asksExitOk, s);
    LayoutKeepsTwin(w, r, s);
    SameLayoutTrans(w, r, z);
    if Twin(w, s).Some? {
      assert Door(w, s) && FacesAgree(w, s);
    }
    forall x | x in w.exits ensures z.exits[x] == w.exits[x] {
      PutFacesEffect(w, s, flag, on, asksExitOk, x);
      PutFacesEffect(r, s, flag, !on, asksExitOk, x);
      assert Fixed(z.exits[x]) == Fixed(w.exits[x]);
      assert z.exits[x].info == w.exits[x].info;
    }
    assert z.exits == w.exits;
  }

  /** In an agreeing world, unlocking what was just locked, and opening what was just closed, restores the
      whole world. */
  lemma {:induction false} LockThenUnlock(w: World, s: Side)
    requires Agree(w) && s in w.exits && (Twin(w, s).Some? ==> Door(w, s))
    requires Perform(w, Command(s, Lock(true))) != w
    ensures Perform(Perform(w, Command(s, Lock(true))), Command(s, Unlock(true))) == w
  {
    PutFacesEffect(w, s, Locked, true, false, s);
    assert Fixed(LockDoor(w, s).exits[s]) == Fixed(w.exits[s]);
    PutFacesUndone(w, s, Locked, true, false);
  }

  lemma {:induction false} CloseThenOpen(w: World, s: Side, cmd: int)
    requires Agree(w) && s in w.exits && (Twin(w, s).Some? ==> Door(w, s)) && Locked !in w.exits[s].info
    requires Perform(w, Command(s, Close)) != w
    ensures Perform(Perform(w, Command(s, Close)), Command(s, Open(cmd))) == w
  {
    PutFacesEffect(w, s, Closed, true, true, s);
    assert Fixed(CloseDoor(w, s).exits[s]) == Fixed(w.exits[s]);
    PutFacesUndone(w, s, Closed, true, true);
  }
}
