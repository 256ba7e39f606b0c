/** The message array of one board, changed in place. */
module BoardArray {
  import opened Options
  import opened Board

  class MessageBoard {
    const msg: array<Message>
    var number: int

    ghost predicate Valid()
      reads this, msg
    {
      msg.Length == MAX_MSGS + 1 && -1 <= number <= MAX_MSGS
    }

    function View(): BoardState
      reads this, msg
    {
      BoardState(msg[..], number)
    }

    constructor ()
      ensures Valid() && fresh(msg) && View() == BoardState(seq(MAX_MSGS + 1, _ => EMPTY), -1)
    {
      msg := new Message[MAX_MSGS + 1](_ => EMPTY);
      number := -1;
    }

    /** The part of board_write_msg after the locks. */
    method WriteMsg(ch: nat, title: string, date: string)
      requires Valid() && number < MAX_MSGS
      modifies this, msg
      ensures Valid()
      ensures View() == var b := old(View());
        BoardState(b.msg[WriteSlot(b.number, title) := Message(Some(title), Some(ch), Some(date), None)],
                   WriteNumber(b.number, title))
    {
      var high := number + 1;
      if title == "Topic" {
        high := 0;
        if number > -1 {
          number := number - 1;
        }
      }
      msg[high] := Message(Some(title), Some(ch), Some(date), None);
      var updated := number;
      if updated < 0 {
        updated := 0;
      }
      number := updated + 1;
    }

    /** The shifting loop of board_remove_msg, and the clearing of the last slot. */
    method RemoveMsg(t: nat)
      requires Valid() && 1 <= t <= number
      modifies this, msg
      ensures Valid() && View() == BoardState(Shifted(old(View()).msg, t, old(number)), old(number) - 1)
    {
      ghost var was := msg[..];
      var ind := t;
      while ind < number
        invariant t <= ind <= number && number == old(number)
        invariant forall s :: 0 <= s < t || ind <= s < msg.Length ==> msg[s] == was[s]
        invariant forall s {:trigger msg[s]} :: t <= s < ind ==> msg[s] == was[s + 1]
      {
        msg[ind] := msg[ind + 1];
        ind := ind + 1;
      }
      msg[number] := EMPTY;
      forall s: nat | s <= MAX_MSGS ensures msg[..][s] == Shifted(was, t, number)[s] {
        ShiftedAt(was, t, number, s);
        assert s != number ==> msg[s] == was[Source(t, number, s)];
      }
      number := number - 1;
    }
  }
}
