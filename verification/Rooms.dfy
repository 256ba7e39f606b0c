/** The room graph that movement, line of sight and doors share. */
module Rooms {
  type Dir = d: int | 0 <= d < 6

  /** The bits of exit_info.  All of them are positive, so "exit_info > 0" is "some bit is set". */
  datatype ExitFlag = IsDoor | Closed | Locked | Secret | NotBash | PickProof | Climb | Male | NoLookThrough

  datatype Exit = Exit(toRoom: int, info: set<ExitFlag>, key: int, openCmd: int)

  /** One side of a passage: a room and a direction. */
  datatype Side = Side(room: int, dir: Dir)

  /** A room number is in `rooms` exactly when real_roomp finds a room; a side is in `exits` exactly when that
      entry of the room's dir_option is not null. */
  datatype World = World(rooms: set<int>, exits: map<Side, Exit>)

  const REV_DIR: seq<Dir> := [2, 3, 0, 1, 5, 4]

  function RevDir(d: Dir): Dir {
    REV_DIR[d]
  }

  lemma RevDirInvolution(d: Dir)
    ensures RevDir(RevDir(d)) == d
    ensures RevDir(d) != d
  {
    assert d == 0 || d == 1 || d == 2 || d == 3 || d == 4 || d == 5;
  }

  predicate HasExit(w: World, room: int, d: Dir) {
    room in w.rooms && Side(room, d) in w.exits
  }

  function ExitAt(w: World, room: int, d: Dir): Exit
    requires HasExit(w, room, d)
  {
    w.exits[Side(room, d)]
  }
}
