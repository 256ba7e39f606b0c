/** The door commands as they run: on exit records changed in place, one face after the other. */
module PassageCommands {
  import opened Rooms
  import opened Doors

  class Passages {
    const rooms: set<int>
    var exits: map<Side, Exit>

    function View(): World
      reads this
    {
      World(rooms, exits)
    }

    constructor (w: World)
      ensures View() == w
    {
      rooms, exits := w.rooms, w.exits;
    }

    /** SET_BIT or REMOVE_BIT on one face. */
    method ChangeBit(s: Side, flag: ExitFlag, on: bool)
      requires s in exits
      modifies this
      ensures View() == PutBit(old(View()), s, flag, on)
    {
      var e := exits[s];
      exits := exits[s := e.(info := if on then e.info + {flag} else e.info - {flag})];
    }

    /** The face in front, then the one behind: open_door, raw_open_door, door_open_other_side,
        door_close_other_side, raw_lock_door, raw_unlock_door. */
    method ChangeFaces(s: Side, flag: ExitFlag, on: bool, asksExitOk: bool)
      requires s in exits
      modifies this
      ensures View() == PutFaces(old(View()), s, flag, on, asksExitOk)
    {
      ChangeBit(s, flag, on);
      var to := exits[s].toRoom;
      if (asksExitOk && to <= 0) || to !in rooms {
        return;
      }
      var back := Side(to, RevDir(s.dir));
      if back in exits && exits[back].toRoom == s.room {
        ChangeBit(back, flag, on);
      }
    }

    method DoOpen(s: Side, cmd: int)
      modifies this
      ensures View() == Perform(old(View()), Command(s, Open(cmd)))
    {
      if s.room !in rooms || s !in exits || IsDoor !in exits[s].info {
        return;
      }
      if Closed !in exits[s].info || Locked in exits[s].info {
        return;
      }
      if exits[s].openCmd == -1 || exits[s].openCmd == cmd {
        ChangeFaces(s, Closed, false, true);
      }
    }

    method DoClose(s: Side)
      modifies this
      ensures View() == Perform(old(View()), Command(s, Close))
    {
      if s.room !in rooms || s !in exits || IsDoor !in exits[s].info {
        return;
      }
      if Closed in exits[s].info || exits[s].openCmd != -1 {
        return;
      }
      ChangeFaces(s, Closed, true, true);
    }

    method DoLock(s: Side, hasKey: bool)
      modifies this
      ensures View() == Perform(old(View()), Command(s, Lock(hasKey)))
    {
      if s.room !in rooms || s !in exits || IsDoor !in exits[s].info || Closed !in exits[s].info {
        return;
      }
      if exits[s].key < 0 || !hasKey || Locked in exits[s].info {
        return;
      }
      ChangeFaces(s, Locked, true, false);
    }

    method DoUnlock(s: Side, hasKey: bool)
      modifies this
      ensures View() == Perform(old(View()), Command(s, Unlock(hasKey)))
    {
      if s.room !in rooms || s !in exits || IsDoor !in exits[s].info || Closed !in exits[s].info {
        return;
      }
      if exits[s].key < 0 || !hasKey || Locked !in exits[s].info {
        return;
      }
      ChangeFaces(s, Locked, false, false);
    }

    method DoPick(s: Side, succeeds: bool)
      modifies this
      ensures View() == Perform(old(View()), Command(s, Pick(succeeds)))
    {
      if !succeeds || s.room !in rooms || s !in exits || IsDoor !in exits[s].info || Closed !in exits[s].info {
        return;
      }
      if exits[s].key < 0 || Locked !in exits[s].info || PickProof in exits[s].info {
        return;
      }
      ChangeFaces(s, Locked, false, false);
    }

    method DoOpenExit(s: Side, cmd: int, hasTool: bool)
      modifies this
      ensures View() == Perform(old(View()), Command(s, Special(cmd, hasTool)))
    {
      if s.room !in rooms || s !in exits || IsDoor !in exits[s].info {
        return;
      }
      if exits[s].openCmd == -1 || cmd != exits[s].openCmd {
        return;
      }
      if Closed !in exits[s].info {
        if cmd != CMD_DIG && cmd != CMD_SCYTHE {
          ChangeFaces(s, Closed, true, true);
        }
        return;
      }
      if (cmd == CMD_DIG || cmd == CMD_SCYTHE) && !hasTool {
        return;
      }
      ChangeFaces(s, Closed, false, true);
    }
  }
}
