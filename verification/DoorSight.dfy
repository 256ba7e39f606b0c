/** Doors and lines of sight: the door commands of act.move.cpp change what clearpath (act.off.cpp) lets through. */
module DoorSight {
  import opened Options
  import opened Rooms
  import opened Doors
  import Walk

  /** A character right at the face sees the next room. */
  predicate SeesThrough(w: World, s: Side)
    requires s.room in w.rooms
  {
    Walk.ClearPath(w, Walk.Walker(true, s.room), s.room, s.dir) != 0
  }

  predicate TrueDoor(w: World, s: Side) {
    Door(w, s) && IsDoor in w.exits[s].info
  }

  /** One sees through a door exactly when its face is open, whatever other flags there are on either face, and then
      into the room behind. */
  lemma {:induction false} DoorIsSeenThroughIff(w: World, s: Side)
    requires TrueDoor(w, s)
    ensures SeesThrough(w, s) <==> Closed !in w.exits[s].info
    ensures SeesThrough(w, s) ==>
      Walk.ClearPath(w, Walk.Walker(true, s.room), s.room, s.dir) == w.exits[s].toRoom
  {
    Walk.ClearStepIff(w, Walk.Walker(true, s.room), s.room, s.dir, w.exits[s].toRoom);
    Walk.ClearStepComesBack(w, Walk.Walker(true, s.room), s.room, s.dir);
  }

  lemma LayoutKeepsTrueDoor(w: World, r: World, s: Side)
    requires SameLayout(w, r) && TrueDoor(w, s)
    ensures TrueDoor(r, s)
  {
    LayoutKeepsTwin(w, r, s);
    assert IsDoor in Fixed(w.exits[s]).info && Fixed(r.exits[s]) == Fixed(w.exits[s]);
  }

  lemma {:induction false} ChangeDecidesSight(w: World, s: Side, on: bool)
    requires TrueDoor(w, s) && TrueDoor(w, Twin(w, s).value)
    ensures var r, t := PutFaces(w, s, Closed, on, true), Twin(w, s).value;
      r.rooms == w.rooms && (SeesThrough(r, s) <==> !on) && (SeesThrough(r, t) <==> !on)
  {
    var r, t := PutFaces(w, s, Closed, on, true), Twin(w, s).value;
    PutFacesEffect(w, s, Closed, on, true, s);
    PutFacesEffect(w, s, Closed, on, true, t);
    LayoutKeepsTrueDoor(w, r, s);
    LayoutKeepsTrueDoor(w, r, t);
    DoorIsSeenThroughIff(r, s);
    DoorIsSeenThroughIff(r, t);
  }

  /** Opening a door lets one see through it from both sides; closing it takes that away from both. */
  lemma OpeningLetsSee(w: World, s: Side)
    requires TrueDoor(w, s) && TrueDoor(w, Twin(w, s).value)
    ensures var r, t := OpenDoor(w, s), Twin(w, s).value;
      r.rooms == w.rooms && SeesThrough(r, s) && SeesThrough(r, t)
    ensures var r, t := CloseDoor(w, s), Twin(w, s).value;
      r.rooms == w.rooms && !SeesThrough(r, s) && !SeesThrough(r, t)
  {
    ChangeDecidesSight(w, s, true);
    ChangeDecidesSight(w, s, false);
  }

  /** After every run of door commands, two characters at the two faces of a door see through it together, or
      neither does: exactly when it is open. */
  lemma {:induction false} SightThroughDoorIsMutual(w: World, cs: seq<Command>, s: Side)
    requires Agree(w) && TrueDoor(w, s) && TrueDoor(w, Twin(w, s).value)
    ensures var r, t := Run(w, cs), Twin(w, s).value;
      && r.rooms == w.rooms && s in r.exits
      && (SeesThrough(r, s) <==> Closed !in r.exits[s].info) && (SeesThrough(r, t) <==> SeesThrough(r, s))
  {
    var r, t := Run(w, cs), Twin(w, s).value;
    RunKeepsLayout(w, cs);
    RunKeepsAgree(w, cs);
    LayoutKeepsTrueDoor(w, r, s);
    LayoutKeepsTrueDoor(w, r, t);
    LayoutKeepsTwin(w, r, s);
    DoorIsSeenThroughIff(r, s);
    DoorIsSeenThroughIff(r, t);
    assert FacesAgree(r, s);
  }

  /** Nobody sees through a locked door without a special command until somebody with its key, or a pick that its
      lock admits, has been there. */
  lemma NoSightWithoutKey(w: World, cs: seq<Command>, s: Side)
    requires Agree(w) && LockedIsClosed(w) && TrueDoor(w, s) && Plain(w, s)
    requires Locked in w.exits[s].info && NobodyUnlocks(w, cs, s)
    ensures Run(w, cs).rooms == w.rooms && !SeesThrough(Run(w, cs), s)
  {
    RunKeepsLayout(w, cs);
    LayoutKeepsTrueDoor(w, Run(w, cs), s);
    ShutWithoutKey(w, cs, s);
    DoorIsSeenThroughIff(Run(w, cs), s);
  }
}
