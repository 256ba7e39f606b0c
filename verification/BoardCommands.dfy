/** The board commands as they run: on the four boards, their locks and the editors, changed in place. */
module BoardCommands {
  import opened Options
  import Text
  import opened Board
  import opened BoardArray

  class BulletinBoards {
    const boards: seq<MessageBoard>
    var locks: seq<Lock>
    var texts: map<nat, string>
    var inGame: set<nat>
    var linked: set<nat>
    var editing: map<nat, Target>
    /** The texts given to free(), in order. */
    var released: seq<nat>

    ghost function Arrays(): set<array<Message>> {
      set i | 0 <= i < |boards| :: boards[i].msg
    }

    /** Four boards with arrays of their own. */
    ghost predicate Valid()
      reads this, boards, Arrays()
    {
      && |boards| == NUM_BOARDS && |locks| == NUM_BOARDS
      && (forall i :: 0 <= i < |boards| ==> boards[i].Valid())
      && (forall i, j :: 0 <= i < j < |boards| ==> boards[i] != boards[j] && boards[i].msg != boards[j].msg)
    }

    ghost function BoardViews(): (v: seq<BoardState>)
      reads boards, Arrays()
      ensures |v| == |boards| && forall i :: 0 <= i < |boards| ==> v[i] == boards[i].View()
    {
      seq(|boards|, i requires 0 <= i < |boards| reads boards, Arrays() => boards[i].View())
    }

    ghost function View(): Office
      reads this, boards, Arrays()
    {
      Office(BoardViews(), locks, texts, inGame, linked, editing)
    }

    constructor ()
      ensures Valid() && View() == Boot() && released == []
    {
      var b0 := new MessageBoard();
      var b1 := new MessageBoard();
      var b2 := new MessageBoard();
      var b3 := new MessageBoard();
      boards := [b0, b1, b2, b3];
      locks, texts, inGame, linked, editing := [None, None, None, None], map[], {}, {}, map[];
      released := [];
    }

    /** Only one of the boards has changed. */
    twostate lemma OneBoardChanged(b: nat)
      requires old(Valid()) && b < |boards|
      requires forall i :: 0 <= i < |boards| && i != b ==>
        boards[i].number == old(boards[i].number) && boards[i].msg[..] == old(boards[i].msg[..])
      ensures BoardViews() == old(BoardViews())[b := boards[b].View()]
    {
    }

    /** board_check_locks. */
    method CheckLocks(b: nat) returns (blocked: bool)
      requires Valid() && b < NUM_BOARDS
      modifies this`locks
      ensures Valid()
      ensures blocked == Blocked(old(View()), b)
      ensures View() == if blocked then old(View()) else Unlocked(old(View()), b)
    {
      if locks[b].None? {
        assert locks == locks[b := None];
        return false;
      }
      var holder := locks[b].value;
      if holder in inGame && holder in linked && holder in editing {
        return true;
      }
      locks := locks[b := None];
      return false;
    }

    method FreeText(p: Option<nat>)
      modifies this`texts, this`released
      ensures texts == Free(old(texts), p) && released == old(released) + Release(p)
    {
      if p.Some? {
        texts := texts - {p.value};
        released := released + [p.value];
      }
    }

    /** What board_write_msg frees: for a "Topic" the text of slot 0 with the rest of the slot, then the text of the
        slot to be filled. */
    method FreeForWrite(b: nat, title: string)
      requires Valid() && b < NUM_BOARDS && boards[b].number < MAX_MSGS
      modifies this`texts, this`released
      ensures texts == Free(old(texts), boards[b].msg[WriteSlot(boards[b].number, title)].text)
      ensures released == old(released) + WriteReleases(boards[b].View(), title)
    {
      if title == "Topic" {
        FreeText(boards[b].msg[0].text);
      }
      FreeText(boards[b].msg[WriteSlot(boards[b].number, title)].text);
    }

    method CommitMessage(ch: nat, b: nat, title: string, date: string)
      requires Valid() && b < NUM_BOARDS && boards[b].number < MAX_MSGS
      modifies this, boards[b], boards[b].msg
      ensures Valid() && View() == Commit(old(View()), ch, b, title, date)
      ensures released == old(released) + WriteReleases(old(boards[b].View()), title)
    {
      locks := locks[b := Some(ch)];
      var slot: nat := WriteSlot(boards[b].number, title);
      FreeForWrite(b, title);
      boards[b].WriteMsg(ch, title, date);
      OneBoardChanged(b);
      editing := editing[ch := Slot(b, slot)];
    }

    /** board_write_msg. */
    method BoardWriteMsg(ch: nat, b: nat, level: int, arg: string, date: string)
      requires Valid()
      modifies this, boards, Arrays()
      ensures Valid() && View() == Write(old(View()), ch, b, level, arg, date)
      ensures var o := old(View());
        released == old(released) +
          if Commits(o, ch, b, level, arg) then WriteReleases(o.boards[b], Text.SkipSpace(arg)) else []
    {
      if ch !in inGame || ch !in linked || b >= NUM_BOARDS || level < MIN_WRITE[b] || boards[b].number >= MAX_MSGS {
        return;
      }
      var blocked := CheckLocks(b);
      if blocked {
        return;
      }
      var title := Text.SkipSpace(arg);
      if title != "" {
        CommitMessage(ch, b, title, date);
      }
    }

    method DeleteMessage(b: nat, t: nat)
      requires Valid() && b < NUM_BOARDS && 1 <= t <= boards[b].number
      modifies this`texts, this`released, boards[b], boards[b].msg
      ensures Valid() && View() == Deleted(old(View()), b, t)
      ensures released == old(released) + Release(old(boards[b].msg[t].text))
    {
      FreeText(boards[b].msg[t].text);
      boards[b].RemoveMsg(t);
      OneBoardChanged(b);
    }

    /** board_remove_msg. */
    method BoardRemoveMsg(ch: nat, b: nat, level: int, t: nat)
      requires Valid()
      modifies this, boards, Arrays()
      ensures Valid() && View() == Remove(old(View()), ch, b, level, t)
      ensures var o := old(View());
        released == old(released) + if Removes(o, ch, b, level, t) then Release(o.boards[b].msg[t].text) else []
    {
      if ch !in inGame || ch !in linked || b >= NUM_BOARDS || t == 0 || level < MIN_REMOVE[b] {
        return;
      }
      if boards[b].number < 1 || t > boards[b].number {
        return;
      }
      var blocked := CheckLocks(b);
      if blocked {
        return;
      }
      DeleteMessage(b, t);
    }

    method AddToSlot(b: nat, slot: nat, input: string, block: nat) returns (terminator: bool)
      requires Valid() && b < NUM_BOARDS && slot <= MAX_MSGS
      modifies this`texts, boards[b].msg
      ensures Valid() && View() == TypeInto(old(View()), b, slot, input, block)
      ensures terminator == AddLine(TextAt(old(View()), old(boards[b].msg[slot].text)), input).1
    {
      var p := boards[b].msg[slot].text;
      var text := if p.Some? && p.value in texts then Some(texts[p.value]) else None;
      var (line, last) := AddLine(text, input);
      if !Skips(text, input) {
        texts := Free(texts, p)[block := line];
        boards[b].msg[slot] := boards[b].msg[slot].(text := Some(block));
      }
      OneBoardChanged(b);
      terminator := last;
    }

    /** string_add, for the editor of a descriptor; `block` is what its malloc or realloc returns. */
    method StringAdd(ch: nat, input: string, block: nat)
      requires Valid()
      modifies this, boards, Arrays()
      ensures Valid() && View() == Type(old(View()), ch, input, block)
    {
      if ch !in editing {
        return;
      }
      match editing[ch] {
        case Elsewhere =>
          if '@' in input {
            editing := editing - {ch};
          }
        case Slot(b, slot) =>
          if b < NUM_BOARDS && slot <= MAX_MSGS {
            var terminator := AddToSlot(b, slot, input, block);
            if terminator {
              editing := editing - {ch};
            }
          }
      }
    }
  }
}
