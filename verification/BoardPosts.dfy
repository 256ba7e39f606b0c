/** What the boards are for: over every run a board is a list of posts, and the text of a message is what its
    author typed. */
module BoardPosts {
  import opened Options
  import Text
  import opened Board
  import opened BoardRuns

  // ---------------------------------------------------------------- a board is a list of posts

  /** A message without its text. */
  function Post(m: Message): Message {
    m.(text := None)
  }

  function Posts(ms: seq<Message>): (ps: seq<Message>)
    ensures |ps| == |ms| && forall i :: 0 <= i < |ms| ==> ps[i] == Post(ms[i])
  {
    seq(|ms|, i requires 0 <= i < |ms| => Post(ms[i]))
  }

  /** The list a board stands for; None before its first message. */
  function Wall(board: BoardState): Option<seq<Message>>
    requires |board.msg| == MAX_MSGS + 1 && board.number <= MAX_MSGS
  {
    if board.number < 0 then None else Some(Posts(Posted(board)))
  }

  /** What a step does to one board: nothing, a post with a title, or the removal of the t-th post. */
  datatype Change = Nothing | Pin(post: Message) | Take(t: nat)

  function ChangeOf(o: Office, e: Event, b: nat): Change
    requires Shape(o)
  {
    if e.DoWrite? && e.board == b && Commits(o, e.ch, b, e.level, e.arg) then
      Pin(Message(Some(Text.SkipSpace(e.arg)), Some(e.ch), Some(e.date), None))
    else if e.DoRemove? && e.board == b && Removes(o, e.ch, b, e.level, e.t) then Take(e.t)
    else Nothing
  }

  /** Somebody's editor is open on the board. */
  ghost predicate BeingWritten(o: Office, b: nat) {
    exists ch :: EditsBoard(o, ch) && o.editing[ch].board == b
  }

  /** The lock of a board keeps everybody off exactly while somebody writes on it, if the last one who did writes
      nothing else. */
  lemma {:induction false} BlockedIff(o: Office, b: nat)
    requires Shape(o) && Editors(o) && b < NUM_BOARDS
    requires forall ch :: o.locks[b] == Some(ch) && ch in o.editing ==> o.editing[ch].Slot? && o.editing[ch].board == b
    ensures Blocked(o, b) <==> BeingWritten(o, b)
  {
    if Blocked(o, b) {
      assert EditsBoard(o, o.locks[b].value);
    }
  }

  /** Exactly who may post what: a character who is there, at level 51 on board 1 and from level 1 on the others, with a
      title, on a board with fewer than 99 messages that the lock leaves free.  Removing takes level 51 but on board
      3, and a message with that number. */
  lemma ChangeIff(o: Office, e: Event, b: nat)
    requires Shape(o) && b < NUM_BOARDS
    ensures ChangeOf(o, e, b).Pin? <==>
      && e.DoWrite? && e.board == b && {e.ch} <= o.inGame * o.linked && e.level >= (if b == 1 then 51 else 1)
      && Text.SkipSpace(e.arg) != "" && o.boards[b].number < 99 && !Blocked(o, b)
    ensures ChangeOf(o, e, b).Take? <==>
      && e.DoRemove? && e.board == b && {e.ch} <= o.inGame * o.linked && e.level >= (if b == 3 then 1 else 51)
      && 1 <= e.t <= o.boards[b].number && !Blocked(o, b)
  {
  }

  /** A write without a title changes nothing but a stale lock, which is lifted. */
  lemma BlankTitleLiftsLock(o: Office, e: Event)
    requires Shape(o) && e.DoWrite? && MayWrite(o, e.ch, e.board, e.level) && Text.SkipSpace(e.arg) == ""
    ensures Step(o, e) == if Blocked(o, e.board) then o else o.(locks := o.locks[e.board := None])
  {
  }

  /** The first message of a board, and every "Topic", goes to slot 0, which is no post; but a board with a slot 0
      has at least one post, if only an empty one. */
  function Apply(wall: Option<seq<Message>>, c: Change): Option<seq<Message>> {
    match c
    case Nothing => wall
    case Pin(post) =>
      if wall.None? || (post.title == Some("Topic") && wall.value == []) then Some([EMPTY])
      else if post.title == Some("Topic") then wall
      else Some(wall.value + [post])
    case Take(t) => if wall.Some? && 1 <= t <= |wall.value| then Some(wall.value[..t - 1] + wall.value[t..]) else wall
  }

  /** No slot above the last message has a title, an author or a date. */
  ghost predicate BlankAbove(o: Office)
    requires Shape(o)
  {
    forall b, s :: 0 <= b < NUM_BOARDS && o.boards[b].number < s <= MAX_MSGS ==> Post(o.boards[b].msg[s]) == EMPTY
  }

  lemma {:induction false} RemoveKeepsBlank(o: Office, ch: nat, b: nat, level: int, t: nat)
    requires Shape(o) && BlankAbove(o) && Removes(o, ch, b, level, t)
    ensures BlankAbove(Remove(o, ch, b, level, t))
  {
    forall s: nat | o.boards[b].number <= s <= MAX_MSGS
      ensures Post(Remove(o, ch, b, level, t).boards[b].msg[s]) == EMPTY
    {
      ShiftedAt(o.boards[b].msg, t, o.boards[b].number, s);
    }
  }

  lemma StepKeepsBlank(o: Office, e: Event)
    requires Shape(o) && BlankAbove(o)
    ensures BlankAbove(Step(o, e))
  {
    if e.DoRemove? && Removes(o, e.ch, e.board, e.level, e.t) {
      RemoveKeepsBlank(o, e.ch, e.board, e.level, e.t);
    }
  }

  lemma PinnedPosts(msg: seq<Message>, n: nat, m: Message)
    requires |msg| == MAX_MSGS + 1 && n < MAX_MSGS && m == Post(m)
    ensures Posts(msg[n + 1 := m][1..n + 2]) == Posts(msg[1..n + 1]) + [m]
  {
    var after, before := msg[n + 1 := m][1..n + 2], msg[1..n + 1];
    assert after == before + [m];
    assert Posts(after)[n] == m;
  }

  lemma {:induction false} WriteOnWall(o: Office, ch: nat, b: nat, title: string, date: string)
    requires Shape(o) && BlankAbove(o) && b < NUM_BOARDS && o.boards[b].number < MAX_MSGS
    ensures Wall(Commit(o, ch, b, title, date).boards[b]) ==
            Apply(Wall(o.boards[b]), Pin(Message(Some(title), Some(ch), Some(date), None)))
  {
    var n, msg := o.boards[b].number, o.boards[b].msg;
    var after := Commit(o, ch, b, title, date).boards[b];
    var post := Message(Some(title), Some(ch), Some(date), None);
    if n < 0 || (n == 0 && title == "Topic") {
      assert Posts(Posted(after)) == [EMPTY];
    } else if title == "Topic" {
      assert Posts(Posted(after)) == Posts(Posted(o.boards[b]));
    } else {
      PinnedPosts(msg, n, post);
    }
  }

  lemma {:induction false} RemoveOnWall(o: Office, ch: nat, b: nat, level: int, t: nat)
    requires Shape(o) && Removes(o, ch, b, level, t)
    ensures Wall(Remove(o, ch, b, level, t).boards[b]) == Apply(Wall(o.boards[b]), Take(t))
  {
    RemoveDeletes(o, ch, b, level, t);
    var before, after := Posted(o.boards[b]), Posted(Remove(o, ch, b, level, t).boards[b]);
    assert Posts(after) == Posts(before)[..t - 1] + Posts(before)[t..];
  }

  lemma {:induction false} TypeOnWall(o: Office, ch: nat, input: string, block: nat, b: nat)
    requires Shape(o) && b < NUM_BOARDS
    ensures Wall(Type(o, ch, input, block).boards[b]) == Wall(o.boards[b])
  {
    var before, after := o.boards[b], Type(o, ch, input, block).boards[b];
    assert after.number == before.number;
    assert forall s :: 0 <= s <= MAX_MSGS ==> Post(after.msg[s]) == Post(before.msg[s]);
    if before.number >= 0 {
      assert Posts(Posted(after)) == Posts(Posted(before));
    }
  }

  lemma StepOnWall(o: Office, e: Event, b: nat)
    requires Shape(o) && BlankAbove(o) && b < NUM_BOARDS
    ensures Wall(Step(o, e).boards[b]) == Apply(Wall(o.boards[b]), ChangeOf(o, e, b))
  {
    match e
    case DoWrite(ch, board, level, arg, date) =>
      if Commits(o, ch, board, level, arg) && board == b {
        WriteOnWall(Unlocked(o, b), ch, b, Text.SkipSpace(arg), date);
      }
    case DoRemove(ch, board, level, t) =>
      if Removes(o, ch, board, level, t) && board == b {
        RemoveOnWall(o, ch, b, level, t);
      }
    case DoType(ch, input, block) => TypeOnWall(o, ch, input, block, b);
    case _ =>
  }

  /** The wall after the changes of a run, in order. */
  function WallAfter(o: Office, es: seq<Event>, b: nat, wall: Option<seq<Message>>): Option<seq<Message>>
    requires Shape(o)
    decreases |es|
  {
    if es == [] then wall else WallAfter(Step(o, es[0]), es[1..], b, Apply(wall, ChangeOf(o, es[0], b)))
  }

  /** After every run that frees no text twice, whoever is extracted, a board shows exactly its accepted posts, in
      order, without those removed. */
  lemma {:induction false} RunRefinesWall(o: Office, es: seq<Event>, b: nat)
    requires Shape(o) && BlankAbove(o) && b < NUM_BOARDS && NeverFreesTwice(o, es)
    ensures Wall(Run(o, es).boards[b]) == WallAfter(o, es, b, Wall(o.boards[b]))
    decreases |es|
  {
    if es == [] {
    } else {
      StepOnWall(o, es[0], b);
      StepKeepsBlank(o, es[0]);
      RunRefinesWall(Step(o, es[0]), es[1..], b);
    }
  }

  // ---------------------------------------------------------------- a message is what was typed

  /** The lines ch types on a run, added to a text by string_add. */
  function Typed(text: Option<string>, es: seq<Event>, ch: nat): Option<string>
    decreases |es|
  {
    if es == [] then text
    else if es[0].DoType? && es[0].ch == ch then Typed(Some(AddLine(text, es[0].input).0), es[1..], ch)
    else Typed(text, es[1..], ch)
  }

  /** ch's editor is open on a slot at every step of the run; the last step may close it. */
  ghost predicate Composes(o: Office, es: seq<Event>, ch: nat, b: nat, slot: nat)
    requires Shape(o)
    decreases |es|
  {
    es != [] ==>
      ch in o.editing && o.editing[ch] == Slot(b, slot) && Composes(Step(o, es[0]), es[1..], ch, b, slot)
  }

  function SlotText(o: Office, b: nat, slot: nat): Option<string>
    requires Shape(o) && b < NUM_BOARDS && slot <= MAX_MSGS
  {
    TextAt(o, o.boards[b].msg[slot].text)
  }

  lemma {:induction false} WriteLeavesText(o: Office, e: Event, ch: nat, b: nat, slot: nat)
    requires Shape(o) && OwnTexts(o) && Editors(o) && b < NUM_BOARDS && slot <= MAX_MSGS && e.DoWrite?
    requires ch in o.editing && o.editing[ch] == Slot(b, slot)
    ensures SlotText(Step(o, e), b, slot) == SlotText(o, b, slot)
  {
    assert EditsBoard(o, ch);
    if Commits(o, e.ch, e.board, e.level, e.arg) {
      assert e.board != b;
      var freed := WriteSlot(o.boards[e.board].number, Text.SkipSpace(e.arg));
      assert HasText(o, e.board, freed) && HasText(o, b, slot) ==> TextOf(o, e.board, freed) != TextOf(o, b, slot);
    }
  }

  lemma {:induction false} RemoveLeavesText(o: Office, e: Event, ch: nat, b: nat, slot: nat)
    requires Shape(o) && OwnTexts(o) && Editors(o) && b < NUM_BOARDS && slot <= MAX_MSGS && e.DoRemove?
    requires ch in o.editing && o.editing[ch] == Slot(b, slot)
    ensures SlotText(Step(o, e), b, slot) == SlotText(o, b, slot)
  {
    assert EditsBoard(o, ch);
    if Removes(o, e.ch, e.board, e.level, e.t) {
      assert e.board != b;
      assert HasText(o, e.board, e.t) && HasText(o, b, slot) ==> TextOf(o, e.board, e.t) != TextOf(o, b, slot);
    }
  }

  lemma {:induction false} TypeAddsLine(o: Office, e: Event, ch: nat, b: nat, slot: nat)
    requires Shape(o) && OwnTexts(o) && Editors(o) && b < NUM_BOARDS && slot <= MAX_MSGS && e.DoType?
    requires ch in o.editing && o.editing[ch] == Slot(b, slot) && Allocates(o, e)
    ensures SlotText(Step(o, e), b, slot) ==
            if e.ch == ch then Some(AddLine(SlotText(o, b, slot), e.input).0) else SlotText(o, b, slot)
  {
    assert EditsBoard(o, ch);
    if e.ch != ch {
      TypingStaysInOwnMessage(o, e.ch, e.input, e.block, b, slot);
    } else if HasText(o, b, slot) {
      assert TextOf(o, b, slot) in o.texts;
    }
  }

  /** A step adds to the text what ch types, and nothing else touches it. */
  lemma {:induction false} StepOnText(o: Office, e: Event, ch: nat, b: nat, slot: nat)
    requires Shape(o) && OwnTexts(o) && Editors(o) && b < NUM_BOARDS && slot <= MAX_MSGS
    requires ch in o.editing && o.editing[ch] == Slot(b, slot) && Allocates(o, e)
    ensures SlotText(Step(o, e), b, slot) ==
            if e.DoType? && e.ch == ch then Some(AddLine(SlotText(o, b, slot), e.input).0) else SlotText(o, b, slot)
  {
    match e
    case DoWrite(_, _, _, _, _) => WriteLeavesText(o, e, ch, b, slot);
    case DoRemove(_, _, _, _) => RemoveLeavesText(o, e, ch, b, slot);
    case DoType(_, _, _) => TypeAddsLine(o, e, ch, b, slot);
    case _ =>
  }

  /** Until the editor closes, the text of the message is what its author has typed since, line by line, whatever
      everybody else does in between. */
  lemma {:induction false} MessageIsWhatWasTyped(o: Office, es: seq<Event>, ch: nat, b: nat, slot: nat)
    requires Shape(o) && OwnTexts(o) && Editors(o) && b < NUM_BOARDS && slot <= MAX_MSGS
    requires SafeRun(o, es) && Composes(o, es, ch, b, slot)
    requires AllocatesThroughout(o, es) && NeverFreesTwice(o, es)
    ensures SlotText(Run(o, es), b, slot) == Typed(SlotText(o, b, slot), es, ch)
    decreases |es|
  {
    if es == [] {
    } else {
      StepOnText(o, es[0], ch, b, slot);
      StepKeepsEditors(o, es[0]);
      StepKeepsTexts(o, es[0]);
      MessageIsWhatWasTyped(Step(o, es[0]), es[1..], ch, b, slot);
    }
  }

  lemma {:induction false} UpToAtStops(before: string, rest: string)
    requires '@' !in before && (rest == "" || rest[0] == '@')
    ensures UpToAt(before + rest) == before
    ensures '@' in before + rest <==> rest != ""
  {
    if before == "" {
      assert before + rest == rest;
    } else {
      UpToAtStops(before[1..], rest);
      assert before + rest == [before[0]] + (before[1..] + rest);
      assert before == [before[0]] + before[1..];
    }
  }

  /** A line adds what stands before its '@', and a line end if there is none; a '@' closes the editor.  So does a
      line that does not fit: it is skipped, but a first line is cut to the length. */
  lemma {:induction false} LineAdds(text: Option<string>, before: string, rest: string)
    requires '@' !in before && (rest == "" || rest[0] == '@')
    ensures var had := if text.Some? then text.value else "";
      AddLine(text, before + rest) ==
      if |had + before| <= MAX_LENGTH then (had + before + (if rest == "" then "\n\r" else ""), rest != "")
      else if text.Some? then (had, true)
      else (before[..MAX_LENGTH], true)
  {
    UpToAtStops(before, rest);
    assert "" + before == before;
  }

  /** An editor stays open exactly as long as no '@' is typed and, on a board, the line fits. */
  lemma {:induction false} EditorStaysIff(o: Office, ch: nat, before: string, rest: string, block: nat)
    requires Shape(o) && ch in o.editing && '@' !in before && (rest == "" || rest[0] == '@')
    requires o.editing[ch].Slot? ==> o.editing[ch].board < NUM_BOARDS && o.editing[ch].slot <= MAX_MSGS
    ensures ch in Type(o, ch, before + rest, block).editing <==>
      && rest == ""
      && (o.editing[ch].Slot? ==>
            var had := SlotText(o, o.editing[ch].board, o.editing[ch].slot);
            |if had.Some? then had.value else ""| + |before| <= MAX_LENGTH)
  {
    UpToAtStops(before, rest);
    if o.editing[ch].Slot? {
      LineAdds(SlotText(o, o.editing[ch].board, o.editing[ch].slot), before, rest);
    }
  }

  /** The lines one after the other, each with its line end. */
  function Joined(lines: seq<string>): string {
    if lines == [] then "" else lines[0] + "\n\r" + Joined(lines[1..])
  }

  /** The lines ch types on a run, in whatever company. */
  function LinesOf(es: seq<Event>, ch: nat): seq<string> {
    if es == [] then []
    else (if es[0].DoType? && es[0].ch == ch then [es[0].input] else []) + LinesOf(es[1..], ch)
  }

  /** None of the lines ends the text, and all of them fit. */
  predicate Ordinary(lines: seq<string>) {
    (forall i :: 0 <= i < |lines| ==> '@' !in lines[i]) && |Joined(lines)| <= MAX_LENGTH
  }

  lemma OneLineLess(es: seq<Event>, ch: nat)
    requires es != []
    ensures LinesOf(es, ch) == if es[0].DoType? && es[0].ch == ch then [es[0].input] + LinesOf(es[1..], ch)
                               else LinesOf(es[1..], ch)
  {
    assert [] + LinesOf(es[1..], ch) == LinesOf(es[1..], ch);
  }

  /** Lines that end nothing and fit are added to a text, with their line ends. */
  lemma {:induction false} TypedIsJoined(text: string, es: seq<Event>, ch: nat)
    requires forall i :: 0 <= i < |LinesOf(es, ch)| ==> '@' !in LinesOf(es, ch)[i]
    requires |text| + |Joined(LinesOf(es, ch))| <= MAX_LENGTH
    ensures Typed(Some(text), es, ch) == Some(text + Joined(LinesOf(es, ch)))
    decreases |es|
  {
    if es == [] {
      assert text + "" == text;
    } else {
      OneLineLess(es, ch);
      var lines := LinesOf(es, ch);
      if es[0].DoType? && es[0].ch == ch {
        assert lines[0] == es[0].input && lines[1..] == LinesOf(es[1..], ch);
        LineAdds(Some(text), lines[0], "");
        assert lines[0] + "" == lines[0];
        TypedIsJoined(text + lines[0] + "\n\r", es[1..], ch);
        assert text + Joined(lines) == text + lines[0] + "\n\r" + Joined(lines[1..]);
      } else {
        TypedIsJoined(text, es[1..], ch);
      }
    }
  }

  /** A text that is begun with such lines is those lines. */
  lemma {:induction false} NewTextIsJoined(es: seq<Event>, ch: nat)
    requires Ordinary(LinesOf(es, ch))
    ensures Typed(None, es, ch) == if LinesOf(es, ch) == [] then None else Some(Joined(LinesOf(es, ch)))
    decreases |es|
  {
    if es == [] {
    } else {
      OneLineLess(es, ch);
      var lines := LinesOf(es, ch);
      if es[0].DoType? && es[0].ch == ch {
        assert lines[0] == es[0].input && lines[1..] == LinesOf(es[1..], ch);
        LineAdds(None, lines[0], "");
        assert lines[0] + "" == lines[0] && "" + lines[0] == lines[0];
        TypedIsJoined(lines[0] + "\n\r", es[1..], ch);
      } else {
        NewTextIsJoined(es[1..], ch);
      }
    }
  }

  /** The slot of a message just begun has no text, and its author's editor aims at it. */
  lemma CommitBeginsMessage(o: Office, write: Event)
    requires Shape(o) && write.DoWrite? && Commits(o, write.ch, write.board, write.level, write.arg)
    ensures var r := Step(o, write);
      var slot := WriteSlot(o.boards[write.board].number, Text.SkipSpace(write.arg));
      && 0 <= slot <= MAX_MSGS && SlotText(r, write.board, slot) == None
      && write.ch in r.editing && r.editing[write.ch] == Slot(write.board, slot)
  {
  }

  /** The closing line: its text is added and the editor is gone. */
  lemma {:induction false} ClosingLine(o: Office, ch: nat, b: nat, slot: nat, before: string, rest: string, block: nat)
    requires Shape(o) && OwnTexts(o) && Editors(o) && b < NUM_BOARDS && slot <= MAX_MSGS
    requires ch in o.editing && o.editing[ch] == Slot(b, slot)
    requires '@' !in before && rest != "" && rest[0] == '@' && Allocates(o, DoType(ch, before + rest, block))
    requires var had := SlotText(o, b, slot); |if had.Some? then had.value else ""| + |before| <= MAX_LENGTH
    ensures var r, had := Type(o, ch, before + rest, block), SlotText(o, b, slot);
      && ch !in r.editing
      && SlotText(r, b, slot) == Some((if had.Some? then had.value else "") + before)
  {
    var e := DoType(ch, before + rest, block);
    var had := if SlotText(o, b, slot).Some? then SlotText(o, b, slot).value else "";
    assert had + before + "" == had + before && |had + before| == |had| + |before|;
    LineAdds(SlotText(o, b, slot), before, rest);
    StepOnText(o, e, ch, b, slot);
  }

  /** From its title to its closing line, whatever everybody else does in between: the message ends up with exactly
      the lines its author typed, each with a line end, and what the author put before the '@'. */
  lemma {:induction false} PostHoldsItsText(o: Office, write: Event, es: seq<Event>, before: string, rest: string,
                                            block: nat)
    requires Shape(o) && OwnTexts(o) && Editors(o)
    requires write.DoWrite? && Commits(o, write.ch, write.board, write.level, write.arg) && !FreesTwice(o, write)
    requires var begun, slot := Step(o, write), WriteSlot(o.boards[write.board].number, Text.SkipSpace(write.arg));
      && SafeRun(begun, es) && AllocatesThroughout(begun, es) && NeverFreesTwice(begun, es)
      && Composes(begun, es, write.ch, write.board, slot)
      && write.ch in Run(begun, es).editing && Run(begun, es).editing[write.ch] == Slot(write.board, slot)
      && Allocates(Run(begun, es), DoType(write.ch, before + rest, block))
    requires Ordinary(LinesOf(es, write.ch)) && |Joined(LinesOf(es, write.ch))| + |before| <= MAX_LENGTH
    requires '@' !in before && rest != "" && rest[0] == '@'
    ensures var slot := WriteSlot(o.boards[write.board].number, Text.SkipSpace(write.arg));
      var r := Type(Run(Step(o, write), es), write.ch, before + rest, block);
      && 0 <= slot <= MAX_MSGS && write.ch !in r.editing
      && SlotText(r, write.board, slot) == Some(Joined(LinesOf(es, write.ch)) + before)
  {
    var begun := Step(o, write);
    CommitBeginsMessage(o, write);
    var slot := WriteSlot(o.boards[write.board].number, Text.SkipSpace(write.arg));
    StepKeepsEditors(o, write);
    StepKeepsTexts(o, write);
    MessageIsWhatWasTyped(begun, es, write.ch, write.board, slot);
    NewTextIsJoined(es, write.ch);
    RunKeepsEditors(begun, es);
    RunKeepsTexts(begun, es);
    ClosingLine(Run(begun, es), write.ch, write.board, slot, before, rest, block);
  }
}
