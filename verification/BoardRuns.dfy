/** What every run of the bulletin boards keeps. */
module BoardRuns {
  import opened Options
  import Text
  import opened Board

  // ---------------------------------------------------------------- one editor to a board

  predicate EditsBoard(o: Office, ch: nat) {
    ch in o.editing && o.editing[ch].Slot?
  }

  /** An open editor belongs to the recorded lock holder, who is in the game with a descriptor, and aims at a
      slot in use whose author is its owner. */
  ghost predicate Editors(o: Office)
    requires Shape(o)
  {
    forall ch :: EditsBoard(o, ch) ==>
      var t := o.editing[ch];
      && t.board < NUM_BOARDS && o.locks[t.board] == Some(ch)
      && ch in o.inGame && ch in o.linked
      && t.slot <= o.boards[t.board].number
      && o.boards[t.board].msg[t.slot].author == Some(ch)
  }

  /** A character is not extracted, and its descriptor does not go to another body, while its editor aims at a
      board.  What a writer types never reaches the command interpreter, so its own "quit", "switch" and "return"
      meet this; those that an immortal forces on it do not, nor does its death. */
  predicate Safe(o: Office, e: Event) {
    && (e.Extract? ==> !EditsBoard(o, e.ch))
    && (e.Rebody? && CanRebody(o, e.from, e.to) ==> !EditsBoard(o, e.from))
  }

  lemma {:induction false} WriteKeepsEditors(o: Office, ch: nat, b: nat, level: int, arg: string, date: string)
    requires Shape(o) && Editors(o)
    ensures Editors(Write(o, ch, b, level, arg, date))
  {
    var r := Write(o, ch, b, level, arg, date);
    if r != o {
      forall c | EditsBoard(r, c) && c != ch
        ensures EditsBoard(o, c) && r.editing[c] == o.editing[c] && o.editing[c].board != b
      {
        assert EditsBoard(o, c);
      }
      if Text.SkipSpace(arg) == "" {
        forall c | EditsBoard(r, c) ensures o.editing[c].board != b {
          assert EditsBoard(o, c);
        }
      }
    }
  }

  lemma {:induction false} RemoveKeepsEditors(o: Office, ch: nat, b: nat, level: int, t: nat)
    requires Shape(o) && Editors(o)
    ensures Editors(Remove(o, ch, b, level, t))
  {
    var r := Remove(o, ch, b, level, t);
    if r != o {
      forall c | EditsBoard(r, c) ensures o.editing[c].board != b {
        assert EditsBoard(o, c);
      }
    }
  }

  lemma {:induction false} TypeKeepsEditors(o: Office, ch: nat, input: string, block: nat)
    requires Shape(o) && Editors(o)
    ensures Editors(Type(o, ch, input, block))
  {
    var r := Type(o, ch, input, block);
    forall c | EditsBoard(r, c) ensures EditsBoard(o, c) {
    }
    if EditsBoard(o, ch) {
      assert o.editing[ch].board < NUM_BOARDS;
    }
  }

  lemma StepKeepsEditors(o: Office, e: Event)
    requires Shape(o) && Editors(o) && Safe(o, e)
    ensures Editors(Step(o, e))
  {
    match e
    case DoWrite(ch, b, level, arg, date) => WriteKeepsEditors(o, ch, b, level, arg, date);
    case DoRemove(ch, b, level, t) => RemoveKeepsEditors(o, ch, b, level, t);
    case DoType(ch, input, block) => TypeKeepsEditors(o, ch, input, block);
    case _ =>
      forall c | EditsBoard(Step(o, e), c) ensures EditsBoard(o, c) {
      }
  }

  /** A step keeps the editors in order exactly when it neither extracts a writer nor moves its descriptor. */
  lemma StepKeepsEditorsIff(o: Office, e: Event)
    requires Shape(o) && Editors(o)
    ensures Editors(Step(o, e)) <==> Safe(o, e)
  {
    if Safe(o, e) {
      StepKeepsEditors(o, e);
    } else if e.Extract? {
      assert EditsBoard(Step(o, e), e.ch);
    } else {
      assert EditsBoard(o, e.from) && EditsBoard(Step(o, e), e.to);
    }
  }

  ghost predicate SafeRun(o: Office, es: seq<Event>)
    requires Shape(o)
    decreases |es|
  {
    es != [] ==> Safe(o, es[0]) && SafeRun(Step(o, es[0]), es[1..])
  }

  /** The editors are in order after every step of the run. */
  ghost predicate EditorsThroughout(o: Office, es: seq<Event>)
    requires Shape(o)
    decreases |es|
  {
    Editors(o) && (es != [] ==> EditorsThroughout(Step(o, es[0]), es[1..]))
  }

  /** The editors stay in order all along a run exactly when nobody on it is extracted, or loses its descriptor to
      another body, while writing. */
  lemma {:induction false} RunKeepsEditorsIff(o: Office, es: seq<Event>)
    requires Shape(o) && Editors(o)
    ensures EditorsThroughout(o, es) <==> SafeRun(o, es)
    decreases |es|
  {
    if es == [] {
    } else {
      StepKeepsEditorsIff(o, es[0]);
      if Safe(o, es[0]) {
        RunKeepsEditorsIff(Step(o, es[0]), es[1..]);
      }
    }
  }

  /** Then, at its end, each board has at most one open editor, its owner is the recorded lock holder, and it
      aims at that owner's own message. */
  lemma {:induction false} RunKeepsEditors(o: Office, es: seq<Event>)
    requires Shape(o) && Editors(o) && SafeRun(o, es)
    ensures Editors(Run(o, es))
    ensures var r := Run(o, es);
      forall c, d :: EditsBoard(r, c) && EditsBoard(r, d) && r.editing[c].board == r.editing[d].board ==> c == d
    decreases |es|
  {
    if es == [] {
    } else {
      StepKeepsEditors(o, es[0]);
      RunKeepsEditors(Step(o, es[0]), es[1..]);
    }
  }

  /** No removal shifts the messages of a board while an editor pointer into it is live. */
  lemma RemovalNeverUnderEditor(o: Office, ch: nat, b: nat, level: int, t: nat, writer: nat)
    requires Shape(o) && Editors(o) && EditsBoard(o, writer) && o.editing[writer].board == b
    ensures Remove(o, ch, b, level, t) == o
  {
  }

  /** What the breach comes to: from any good state, once a writer has been extracted, the next title written by
      anybody opens a second editor on the same board, and a removal shifts the messages under the first one. */
  lemma {:induction false} ExtractionBreaksTheLock(o: Office, writer: nat, other: nat, level: int, title: string,
                                                   date: string)
    requires Shape(o) && Editors(o) && EditsBoard(o, writer) && other != writer
    requires MayWrite(o, other, o.editing[writer].board, level) && Text.SkipSpace(title) != ""
    ensures var b := o.editing[writer].board;
      var r := Write(Step(o, Extract(writer)), other, b, level, title, date);
      && EditsBoard(r, writer) && EditsBoard(r, other)
      && r.editing[writer].board == r.editing[other].board == b
    ensures forall t: nat :: 0 < t <= o.boards[o.editing[writer].board].number ==>
      var gone := Step(o, Extract(writer));
      var r := Remove(gone, other, o.editing[writer].board, 51, t);
      EditsBoard(r, writer) && r.boards[o.editing[writer].board].number == o.boards[o.editing[writer].board].number - 1
  {
    var b := o.editing[writer].board;
    assert !Blocked(Step(o, Extract(writer)), b);
  }

  /** The same when the writer's descriptor goes to another body: the editor goes with it, and the lock holder is
      left without a descriptor. */
  lemma {:induction false} RebodyBreaksTheLock(o: Office, writer: nat, body: nat, other: nat, level: int, title: string,
                                               date: string)
    requires Shape(o) && Editors(o) && EditsBoard(o, writer) && CanRebody(o, writer, body) && other != body
    requires MayWrite(Step(o, Rebody(writer, body)), other, o.editing[writer].board, level)
    requires Text.SkipSpace(title) != ""
    ensures var b := o.editing[writer].board;
      var r := Write(Step(o, Rebody(writer, body)), other, b, level, title, date);
      && EditsBoard(r, body) && EditsBoard(r, other)
      && r.editing[body].board == r.editing[other].board == b
  {
    assert !Blocked(Step(o, Rebody(writer, body)), o.editing[writer].board);
  }

  /** Two characters come in, one starts a message and is extracted, and the other starts one too. */
  const BREACH: seq<Event> :=
    [Enter(1), Enter(2), DoWrite(1, 0, 1, "Hello", "Mon"), Extract(1), DoWrite(2, 0, 1, "Hi", "Tue")]

  /** The offices between the steps of a run. */
  ghost predicate Along(es: seq<Event>, os: seq<Office>) {
    && |os| == |es| + 1
    && (forall i :: 0 <= i < |os| ==> Shape(os[i]))
    && (forall i :: 0 <= i < |es| ==> os[i + 1] == Step(os[i], es[i]))
  }

  lemma AlongRest(es: seq<Event>, os: seq<Office>)
    requires Along(es, os) && es != []
    ensures Along(es[1..], os[1..])
  {
    assert forall i :: 0 <= i < |es| - 1 ==> os[1..][i + 1] == Step(os[1..][i], es[1..][i]);
  }

  lemma {:induction false} RunAlong(es: seq<Event>, os: seq<Office>)
    requires Along(es, os)
    ensures Run(os[0], es) == os[|es|]
    decreases |es|
  {
    if es == [] {
    } else {
      AlongRest(es, os);
      RunAlong(es[1..], os[1..]);
    }
  }

  /** The first message of an empty board goes to slot 0. */
  lemma FirstMessage(o: Office)
    requires o.boards == Boot().boards && o.locks == Boot().locks && AtBoard(o, 1, 0)
    ensures Shape(o) && Step(o, DoWrite(1, 0, 1, "Hello", "Mon")) == Commit(Unlocked(o, 0), 1, 0, "Hello", "Mon")
    ensures Step(o, DoWrite(1, 0, 1, "Hello", "Mon")).editing[1] == Slot(0, 0)
  {
    assert Text.SkipSpace("Hello") == "Hello";
  }

  /** The last three steps of that run, from the state in which both are there. */
  lemma {:induction false} BreachSteps(o: Office)
    requires o.boards == Boot().boards && o.locks == Boot().locks && AtBoard(o, 1, 0) && AtBoard(o, 2, 0)
    requires Shape(o) && o.editing == map[]
    ensures var r := Step(Step(Step(o, BREACH[2]), BREACH[3]), BREACH[4]);
      EditsBoard(r, 1) && EditsBoard(r, 2) && r.editing[1].board == r.editing[2].board == 0
  {
    assert Text.SkipSpace("Hi") == "Hi";
    FirstMessage(o);
    var w := Step(o, BREACH[2]);
    assert EditsBoard(w, 1);
    ExtractionBreaksTheLock(w, 1, 2, 1, "Hi", "Tue");
  }

  /** From empty boards, that ends with two open editors on board 0. */
  lemma {:induction false} TwoEditorsOnOneBoard()
    ensures var r := Run(Boot(), BREACH);
      EditsBoard(r, 1) && EditsBoard(r, 2) && r.editing[1].board == r.editing[2].board == 0
  {
    var one := Step(Boot(), BREACH[0]);
    var o := Step(one, BREACH[1]);
    BreachSteps(o);
    var w := Step(o, BREACH[2]);
    RunAlong(BREACH, [Boot(), one, o, w, Step(w, BREACH[3]), Step(Step(w, BREACH[3]), BREACH[4])]);
  }

  /** Without any extraction: a third body is there without a descriptor, and the writer is made to go into it. */
  const SWITCHED: seq<Event> :=
    [Enter(1), Enter(2), Enter(3), LoseLink(3), DoWrite(1, 0, 1, "Hello", "Mon"), Rebody(1, 3),
     DoWrite(2, 0, 1, "Hi", "Tue")]

  lemma {:induction false} SwitchedSteps(o: Office)
    requires o.boards == Boot().boards && o.locks == Boot().locks && AtBoard(o, 1, 0) && AtBoard(o, 2, 0)
    requires Shape(o) && o.editing == map[] && 3 in o.inGame && 3 !in o.linked
    ensures var r := Step(Step(Step(o, SWITCHED[4]), SWITCHED[5]), SWITCHED[6]);
      EditsBoard(r, 3) && EditsBoard(r, 2) && r.editing[3].board == r.editing[2].board == 0
  {
    assert Text.SkipSpace("Hi") == "Hi";
    FirstMessage(o);
    var w := Step(o, SWITCHED[4]);
    assert EditsBoard(w, 1) && w.editing[1] == Slot(0, 0);
    RebodyBreaksTheLock(w, 1, 3, 2, 1, "Hi", "Tue");
  }

  lemma {:induction false} SwitchOpensTwoEditors()
    ensures var r := Run(Boot(), SWITCHED);
      EditsBoard(r, 3) && EditsBoard(r, 2) && r.editing[3].board == r.editing[2].board == 0
  {
    var one := Step(Boot(), SWITCHED[0]);
    var two := Step(one, SWITCHED[1]);
    var three := Step(two, SWITCHED[2]);
    var o := Step(three, SWITCHED[3]);
    assert o.editing == map[];
    SwitchedSteps(o);
    var w := Step(o, SWITCHED[4]);
    var v := Step(w, SWITCHED[5]);
    RunAlong(SWITCHED, [Boot(), one, two, three, o, w, v, Step(v, SWITCHED[6])]);
  }

  // ---------------------------------------------------------------- texts

  predicate HasText(o: Office, b: nat, s: nat) {
    b < |o.boards| && s < |o.boards[b].msg| && o.boards[b].msg[s].text.Some?
  }

  function TextOf(o: Office, b: nat, s: nat): nat
    requires HasText(o, b, s)
  {
    o.boards[b].msg[s].text.value
  }

  /** Every text pointer of a slot is allocated. */
  ghost predicate Live(o: Office) {
    forall b, s :: HasText(o, b, s) ==> TextOf(o, b, s) in o.texts
  }

  /** No two slots share a text. */
  ghost predicate Unshared(o: Office) {
    forall b, s, b', s' ::
      HasText(o, b, s) && HasText(o, b', s') && TextOf(o, b, s) == TextOf(o, b', s') ==> b == b' && s == s'
  }

  /** The slots own their texts. */
  ghost predicate OwnTexts(o: Office) {
    Live(o) && Unshared(o)
  }

  /** Pointers that only moved, from slots that held them alone, and whose texts are still allocated. */
  lemma Moved(o: Office, r: Office, from: (nat, nat) -> (nat, nat))
    requires OwnTexts(o)
    requires forall b, s :: HasText(r, b, s) ==>
      var f := from(b, s); HasText(o, f.0, f.1) && TextOf(o, f.0, f.1) == TextOf(r, b, s) && TextOf(r, b, s) in r.texts
    requires forall b, s, b', s' ::
      HasText(r, b, s) && HasText(r, b', s') && from(b, s) == from(b', s') ==> b == b' && s == s'
    ensures OwnTexts(r)
  {
  }

  lemma SameBoards(o: Office, r: Office)
    requires OwnTexts(o) && r.boards == o.boards && r.texts == o.texts
    ensures OwnTexts(r)
  {
    forall b, s | HasText(r, b, s) ensures HasText(o, b, s) {
    }
  }

  lemma {:induction false} CommitKeepsTexts(o: Office, ch: nat, b: nat, title: string, date: string)
    requires Shape(o) && OwnTexts(o) && b < NUM_BOARDS && o.boards[b].number < MAX_MSGS
    ensures OwnTexts(Commit(o, ch, b, title, date))
  {
    var r := Commit(o, ch, b, title, date);
    var slot := WriteSlot(o.boards[b].number, title);
    var from := (b': nat, s: nat) => (b', s);
    forall b', s | HasText(r, b', s)
      ensures var f := from(b', s);
        HasText(o, f.0, f.1) && TextOf(o, f.0, f.1) == TextOf(r, b', s) && TextOf(r, b', s) in r.texts
    {
      assert b' != b || s != slot;
      assert HasText(o, b', s);
      assert HasText(o, b, slot) ==> TextOf(o, b, slot) != TextOf(o, b', s);
    }
    Moved(o, r, from);
  }

  lemma {:induction false} WriteKeepsTexts(o: Office, ch: nat, b: nat, level: int, arg: string, date: string)
    requires Shape(o) && OwnTexts(o)
    ensures OwnTexts(Write(o, ch, b, level, arg, date))
  {
    if Commits(o, ch, b, level, arg) {
      SameBoards(o, Unlocked(o, b));
      CommitKeepsTexts(Unlocked(o, b), ch, b, Text.SkipSpace(arg), date);
    } else {
      SameBoards(o, Write(o, ch, b, level, arg, date));
    }
  }

  lemma {:induction false} RemoveKeepsTexts(o: Office, ch: nat, b: nat, level: int, t: nat)
    requires Shape(o) && OwnTexts(o)
    ensures OwnTexts(Remove(o, ch, b, level, t))
  {
    var r := Remove(o, ch, b, level, t);
    if Removes(o, ch, b, level, t) {
      var n := o.boards[b].number;
      forall s: nat | s <= MAX_MSGS
        ensures r.boards[b].msg[s] == if s == n then EMPTY else o.boards[b].msg[Source(t, n, s)]
      {
        ShiftedAt(o.boards[b].msg, t, n, s);
      }
      var from := (b': nat, s: nat) => if b' == b then (b', Source(t, n, s)) else (b', s);
      forall b', s | HasText(r, b', s)
        ensures var f := from(b', s);
          HasText(o, f.0, f.1) && TextOf(r, b', s) == TextOf(o, f.0, f.1) && TextOf(r, b', s) in r.texts
      {
        var f := from(b', s);
        assert HasText(o, f.0, f.1) && f != (b, t);
        assert HasText(o, b, t) ==> TextOf(o, b, t) != TextOf(o, f.0, f.1);
      }
      Moved(o, r, from);
    }
  }

  /** What malloc and realloc promise: the block is not in use, but perhaps by the text that is to move. */
  predicate Grants(o: Office, p: Option<nat>, block: nat) {
    block !in o.texts || p == Some(block)
  }

  /** That promise, for the line of a step.  A block that has been freed may come back. */
  predicate Allocates(o: Office, e: Event)
    requires Shape(o)
  {
    e.DoType? && EditsBoard(o, e.ch) ==>
      var t := o.editing[e.ch];
      t.board < NUM_BOARDS && t.slot <= MAX_MSGS ==> Grants(o, o.boards[t.board].msg[t.slot].text, e.block)
  }

  lemma {:induction false} TypeIntoKeepsTexts(o: Office, b: nat, slot: nat, input: string, block: nat)
    requires Shape(o) && OwnTexts(o) && b < NUM_BOARDS && slot <= MAX_MSGS
    requires Grants(o, o.boards[b].msg[slot].text, block)
    ensures OwnTexts(TypeInto(o, b, slot, input, block))
  {
    var r := TypeInto(o, b, slot, input, block);
    if r != o {
      forall b', s | HasText(r, b', s) && (b' != b || s != slot)
        ensures HasText(o, b', s) && TextOf(r, b', s) == TextOf(o, b', s) != block && TextOf(r, b', s) in r.texts
      {
        assert HasText(o, b', s);
        assert HasText(o, b, slot) ==> TextOf(o, b, slot) != TextOf(o, b', s);
      }
    }
  }

  lemma {:induction false} TypeKeepsTexts(o: Office, ch: nat, input: string, block: nat)
    requires Shape(o) && OwnTexts(o) && Allocates(o, DoType(ch, input, block))
    ensures OwnTexts(Type(o, ch, input, block))
  {
    if EditsBoard(o, ch) && o.editing[ch].board < NUM_BOARDS && o.editing[ch].slot <= MAX_MSGS {
      var b, slot := o.editing[ch].board, o.editing[ch].slot;
      TypeIntoKeepsTexts(o, b, slot, input, block);
      SameBoards(TypeInto(o, b, slot, input, block), Type(o, ch, input, block));
    } else {
      SameBoards(o, Type(o, ch, input, block));
    }
  }

  // ---------------------------------------------------------------- texts freed twice

  ghost predicate Repeats(ps: seq<nat>) {
    exists i, j :: 0 <= i < j < |ps| && ps[i] == ps[j]
  }

  /** A committed write frees a text twice exactly when it is a "Topic" and slot 0 has a text. */
  lemma {:induction false} FreesTwiceIff(board: BoardState, title: string)
    requires |board.msg| == MAX_MSGS + 1 && -1 <= board.number < MAX_MSGS
    ensures Repeats(WriteReleases(board, title)) <==> title == "Topic" && board.msg[0].text.Some?
  {
    var ps := WriteReleases(board, title);
    if title == "Topic" && board.msg[0].text.Some? {
      assert ps == [board.msg[0].text.value, board.msg[0].text.value];
      assert ps[0] == ps[1];
    } else {
      assert |ps| <= 1;
    }
  }

  /** Such a write.  What malloc, free and the slots do after it is anybody's guess. */
  predicate FreesTwice(o: Office, e: Event)
    requires Shape(o)
  {
    e.DoWrite? && Commits(o, e.ch, e.board, e.level, e.arg)
    && Text.SkipSpace(e.arg) == "Topic" && o.boards[e.board].msg[0].text.Some?
  }

  /** The texts a step hands to free(), in order. */
  function Releases(o: Office, e: Event): seq<nat>
    requires Shape(o)
  {
    match e
    case DoWrite(ch, b, level, arg, date) =>
      if Commits(o, ch, b, level, arg) then WriteReleases(o.boards[b], Text.SkipSpace(arg)) else []
    case DoRemove(ch, b, level, t) => if Removes(o, ch, b, level, t) then Release(o.boards[b].msg[t].text) else []
    case _ => []
  }

  /** Every one of them is allocated when its turn comes. */
  predicate FreesAllocated(live: set<nat>, ps: seq<nat>) {
    ps != [] ==> ps[0] in live && FreesAllocated(live - {ps[0]}, ps[1..])
  }

  lemma FreesOne(live: set<nat>, p: nat)
    requires p in live
    ensures FreesAllocated(live, [p]) && !FreesAllocated(live, [p, p])
  {
    assert [p, p][1..] == [p];
  }

  lemma {:induction false} WriteFreesAllocatedIff(o: Office, b: nat, title: string)
    requires Shape(o) && OwnTexts(o) && b < NUM_BOARDS && o.boards[b].number < MAX_MSGS
    ensures FreesAllocated(o.texts.Keys, WriteReleases(o.boards[b], title)) <==>
            !(title == "Topic" && o.boards[b].msg[0].text.Some?)
  {
    var slot := WriteSlot(o.boards[b].number, title);
    if HasText(o, b, slot) {
      FreesOne(o.texts.Keys, TextOf(o, b, slot));
      assert title == "Topic" ==> WriteReleases(o.boards[b], title) == [TextOf(o, b, slot), TextOf(o, b, slot)];
    }
  }

  /** A step frees only what is allocated exactly when it is not such a write. */
  lemma {:induction false} StepFreesAllocatedIff(o: Office, e: Event)
    requires Shape(o) && OwnTexts(o)
    ensures FreesAllocated(o.texts.Keys, Releases(o, e)) <==> !FreesTwice(o, e)
  {
    if e.DoWrite? && Commits(o, e.ch, e.board, e.level, e.arg) {
      WriteFreesAllocatedIff(o, e.board, Text.SkipSpace(e.arg));
    } else if e.DoRemove? && Removes(o, e.ch, e.board, e.level, e.t) && HasText(o, e.board, e.t) {
      FreesOne(o.texts.Keys, TextOf(o, e.board, e.t));
    }
  }

  lemma StepKeepsTexts(o: Office, e: Event)
    requires Shape(o) && OwnTexts(o) && Allocates(o, e) && !FreesTwice(o, e)
    ensures OwnTexts(Step(o, e))
  {
    match e
    case DoWrite(ch, b, level, arg, date) => WriteKeepsTexts(o, ch, b, level, arg, date);
    case DoRemove(ch, b, level, t) => RemoveKeepsTexts(o, ch, b, level, t);
    case DoType(ch, input, block) => TypeKeepsTexts(o, ch, input, block);
    case _ => SameBoards(o, Step(o, e));
  }

  /** The allocator keeps its promise at every step, up to the first that frees a text twice. */
  ghost predicate AllocatesThroughout(o: Office, es: seq<Event>)
    requires Shape(o)
    decreases |es|
  {
    es != [] ==> Allocates(o, es[0]) && (!FreesTwice(o, es[0]) ==> AllocatesThroughout(Step(o, es[0]), es[1..]))
  }

  ghost predicate NeverFreesTwice(o: Office, es: seq<Event>)
    requires Shape(o)
    decreases |es|
  {
    es != [] ==> !FreesTwice(o, es[0]) && NeverFreesTwice(Step(o, es[0]), es[1..])
  }

  /** Every free() on the run gets a text that is allocated at that moment. */
  ghost predicate FreesAllocatedThroughout(o: Office, es: seq<Event>)
    requires Shape(o)
    decreases |es|
  {
    es != [] ==>
      FreesAllocated(o.texts.Keys, Releases(o, es[0])) && FreesAllocatedThroughout(Step(o, es[0]), es[1..])
  }

  /** All texts a run frees are allocated when they are freed exactly when no "Topic" on it is written over a slot 0
      that has a text. */
  lemma {:induction false} RunFreesAllocatedIff(o: Office, es: seq<Event>)
    requires Shape(o) && OwnTexts(o) && AllocatesThroughout(o, es)
    ensures FreesAllocatedThroughout(o, es) <==> NeverFreesTwice(o, es)
    decreases |es|
  {
    if es == [] {
    } else {
      StepFreesAllocatedIff(o, es[0]);
      if !FreesTwice(o, es[0]) {
        StepKeepsTexts(o, es[0]);
        RunFreesAllocatedIff(Step(o, es[0]), es[1..]);
      }
    }
  }

  /** On every such run, whoever is extracted, the text pointers of the slots are live and no two slots share one. */
  lemma {:induction false} RunKeepsTexts(o: Office, es: seq<Event>)
    requires Shape(o) && OwnTexts(o) && AllocatesThroughout(o, es) && NeverFreesTwice(o, es)
    ensures OwnTexts(Run(o, es))
    decreases |es|
  {
    if es == [] {
    } else {
      StepKeepsTexts(o, es[0]);
      RunKeepsTexts(Step(o, es[0]), es[1..]);
    }
  }

  /** The text is that of a slot. */
  ghost predicate InSlot(o: Office, p: nat) {
    exists b: nat, s: nat :: HasText(o, b, s) && TextOf(o, b, s) == p
  }

  /** Every allocated text is. */
  ghost predicate Owned(o: Office) {
    forall p :: p in o.texts ==> InSlot(o, p)
  }

  lemma SameBoardsOwn(o: Office, r: Office)
    requires Owned(o) && r.boards == o.boards && r.texts == o.texts
    ensures Owned(r)
  {
    forall p | p in r.texts ensures InSlot(r, p) {
      assert InSlot(o, p);
      var b: nat, s: nat :| HasText(o, b, s) && TextOf(o, b, s) == p;
      assert HasText(r, b, s);
    }
  }

  lemma {:induction false} CommitLeaksNothing(o: Office, ch: nat, b: nat, title: string, date: string)
    requires Shape(o) && Owned(o) && b < NUM_BOARDS && o.boards[b].number < MAX_MSGS
    ensures Owned(Commit(o, ch, b, title, date))
  {
    var r := Commit(o, ch, b, title, date);
    forall p | p in r.texts ensures InSlot(r, p) {
      assert InSlot(o, p);
      var b': nat, s: nat :| HasText(o, b', s) && TextOf(o, b', s) == p;
      assert HasText(r, b', s);
    }
  }

  lemma {:induction false} RemoveLeaksNothing(o: Office, ch: nat, b: nat, level: int, t: nat)
    requires Shape(o) && Owned(o) && Removes(o, ch, b, level, t)
    ensures Owned(Remove(o, ch, b, level, t))
  {
    var r, n := Remove(o, ch, b, level, t), o.boards[b].number;
    forall p | p in r.texts ensures InSlot(r, p) {
      assert InSlot(o, p);
      var b': nat, s: nat :| HasText(o, b', s) && TextOf(o, b', s) == p;
      if b' == b && t < s <= n {
        ShiftedAt(o.boards[b].msg, t, n, s - 1);
        assert HasText(r, b, s - 1);
      } else {
        if b' == b {
          ShiftedAt(o.boards[b].msg, t, n, s);
        }
        assert HasText(r, b', s);
      }
    }
  }

  lemma {:induction false} TypeIntoLeaksNothing(o: Office, b: nat, slot: nat, input: string, block: nat)
    requires Shape(o) && Owned(o) && b < NUM_BOARDS && slot <= MAX_MSGS
    ensures Owned(TypeInto(o, b, slot, input, block))
  {
    var r := TypeInto(o, b, slot, input, block);
    if r != o {
      assert HasText(r, b, slot) && TextOf(r, b, slot) == block;
      forall p | p in r.texts && p != block ensures InSlot(r, p) {
        assert InSlot(o, p);
        var b': nat, s: nat :| HasText(o, b', s) && TextOf(o, b', s) == p;
        assert HasText(r, b', s);
      }
    }
  }

  lemma {:induction false} StepLeaksNothing(o: Office, e: Event)
    requires Shape(o) && Owned(o)
    ensures Owned(Step(o, e))
  {
    if e.DoWrite? && Commits(o, e.ch, e.board, e.level, e.arg) {
      SameBoardsOwn(o, Unlocked(o, e.board));
      CommitLeaksNothing(Unlocked(o, e.board), e.ch, e.board, Text.SkipSpace(e.arg), e.date);
    } else if e.DoRemove? && Removes(o, e.ch, e.board, e.level, e.t) {
      RemoveLeaksNothing(o, e.ch, e.board, e.level, e.t);
    } else if e.DoType? && EditsBoard(o, e.ch) && o.editing[e.ch].board < NUM_BOARDS
              && o.editing[e.ch].slot <= MAX_MSGS {
      var b, slot := o.editing[e.ch].board, o.editing[e.ch].slot;
      TypeIntoLeaksNothing(o, b, slot, e.input, e.block);
      SameBoardsOwn(TypeInto(o, b, slot, e.input, e.block), Step(o, e));
    } else {
      SameBoardsOwn(o, Step(o, e));
    }
  }

  /** No such run leaks a text either: what is allocated is in a slot. */
  lemma {:induction false} RunLeaksNothing(o: Office, es: seq<Event>)
    requires Shape(o) && Owned(o) && NeverFreesTwice(o, es)
    ensures Owned(Run(o, es))
    decreases |es|
  {
    if es == [] {
    } else {
      StepLeaksNothing(o, es[0]);
      RunLeaksNothing(Step(o, es[0]), es[1..]);
    }
  }

  /** The first message of an empty board goes to slot 0, so the next "Topic" frees its text twice. */
  lemma {:induction false} TopicFreesTwice(block: nat)
    ensures var o := Step(Step(Step(Boot(), Enter(1)), DoWrite(1, 0, 1, "Hello", "Mon")), DoType(1, "text@", block));
      && FreesTwice(o, DoWrite(1, 0, 1, "Topic", "Tue"))
      && Repeats(WriteReleases(o.boards[0], "Topic"))
  {
    var o := Step(Boot(), Enter(1));
    assert Text.SkipSpace("Topic") == "Topic";
    FirstMessage(o);
    var w := Step(o, DoWrite(1, 0, 1, "Hello", "Mon"));
    assert "text@"[4] == '@';
    var r := Step(w, DoType(1, "text@", block));
    assert r == Close(TypeInto(w, 0, 0, "text@", block), 1);
    FreesTwiceIff(r.boards[0], "Topic");
  }

  // ---------------------------------------------------------------- the slots above the last message

  /** Nothing lies above the last message. */
  ghost predicate Tail(o: Office)
    requires Shape(o)
  {
    forall b, s :: 0 <= b < NUM_BOARDS && o.boards[b].number < s <= MAX_MSGS ==> o.boards[b].msg[s] == EMPTY
  }

  /** A line typed into a slot above the last message. */
  predicate TypesBeyond(o: Office, e: Event)
    requires Shape(o)
  {
    && e.DoType? && EditsBoard(o, e.ch)
    && var t := o.editing[e.ch]; t.board < NUM_BOARDS && o.boards[t.board].number < t.slot <= MAX_MSGS
  }

  lemma {:induction false} RemoveKeepsTail(o: Office, ch: nat, b: nat, level: int, t: nat)
    requires Shape(o) && Tail(o)
    ensures Tail(Remove(o, ch, b, level, t))
  {
    if Removes(o, ch, b, level, t) {
      forall s: nat | o.boards[b].number <= s <= MAX_MSGS
        ensures Remove(o, ch, b, level, t).boards[b].msg[s] == EMPTY
      {
        ShiftedAt(o.boards[b].msg, t, o.boards[b].number, s);
      }
    }
  }

  lemma {:induction false} StepKeepsTailIff(o: Office, e: Event)
    requires Shape(o) && Tail(o)
    ensures Tail(Step(o, e)) <==> !TypesBeyond(o, e)
  {
    if e.DoRemove? {
      RemoveKeepsTail(o, e.ch, e.board, e.level, e.t);
    } else if TypesBeyond(o, e) {
      var t := o.editing[e.ch];
      assert Step(o, e).boards[t.board].msg[t.slot].text.Some?;
    }
  }

  ghost predicate NeverTypesBeyond(o: Office, es: seq<Event>)
    requires Shape(o)
    decreases |es|
  {
    es != [] ==> !TypesBeyond(o, es[0]) && NeverTypesBeyond(Step(o, es[0]), es[1..])
  }

  ghost predicate TailThroughout(o: Office, es: seq<Event>)
    requires Shape(o)
    decreases |es|
  {
    Tail(o) && (es != [] ==> TailThroughout(Step(o, es[0]), es[1..]))
  }

  /** The slots above the last message stay empty all along a run exactly when nobody types into one. */
  lemma {:induction false} RunKeepsTailIff(o: Office, es: seq<Event>)
    requires Shape(o) && Tail(o)
    ensures TailThroughout(o, es) <==> NeverTypesBeyond(o, es)
    decreases |es|
  {
    if es == [] {
    } else {
      StepKeepsTailIff(o, es[0]);
      if !TypesBeyond(o, es[0]) {
        RunKeepsTailIff(Step(o, es[0]), es[1..]);
      }
    }
  }

  /** When nobody is extracted while writing, nobody types into one. */
  lemma {:induction false} SafeRunKeepsTail(o: Office, es: seq<Event>)
    requires Shape(o) && Tail(o) && Editors(o) && SafeRun(o, es)
    ensures TailThroughout(o, es) && Tail(Run(o, es))
    decreases |es|
  {
    if es == [] {
    } else {
      StepKeepsTailIff(o, es[0]);
      StepKeepsEditors(o, es[0]);
      SafeRunKeepsTail(Step(o, es[0]), es[1..]);
    }
  }

  /** Every run from empty boards is covered by the results above. */
  lemma RunsFromBoot(es: seq<Event>)
    requires AllocatesThroughout(Boot(), es)
    ensures FreesAllocatedThroughout(Boot(), es) <==> NeverFreesTwice(Boot(), es)
    ensures NeverFreesTwice(Boot(), es) ==>
      && OwnTexts(Run(Boot(), es)) && Owned(Run(Boot(), es))
      && (EditorsThroughout(Boot(), es) <==> SafeRun(Boot(), es))
      && (TailThroughout(Boot(), es) <==> NeverTypesBeyond(Boot(), es))
      && (SafeRun(Boot(), es) ==> NeverTypesBeyond(Boot(), es))
  {
    assert Editors(Boot()) && Tail(Boot()) && OwnTexts(Boot());
    RunFreesAllocatedIff(Boot(), es);
    if NeverFreesTwice(Boot(), es) {
      RunKeepsTexts(Boot(), es);
      RunLeaksNothing(Boot(), es);
      RunKeepsEditorsIff(Boot(), es);
      RunKeepsTailIff(Boot(), es);
      if SafeRun(Boot(), es) {
        SafeRunKeepsTail(Boot(), es);
      }
    }
  }

  // ---------------------------------------------------------------- single steps

  /** The first message of a board goes to slot 0, and slot 1 is shown. */
  lemma FirstCommit(o: Office, ch: nat, b: nat, title: string, date: string)
    requires Shape(o) && b < NUM_BOARDS
    requires o.boards[b].number < 0 || (o.boards[b].number == 0 && title == "Topic")
    ensures Posted(Commit(o, ch, b, title, date).boards[b]) == [o.boards[b].msg[1]]
  {
    var board := Commit(o, ch, b, title, date).boards[b];
    assert WriteSlot(o.boards[b].number, title) == 0 && board.number == 1;
    assert board.msg[1..2] == [board.msg[1]];
  }

  /** A committed write appends its message exactly when the board has been started (number >= 0) and the
      title is not "Topic". */
  lemma {:induction false} WriteAppends(o: Office, ch: nat, b: nat, level: int, arg: string, date: string)
    requires Shape(o) && Tail(o) && Commits(o, ch, b, level, arg)
    ensures var r := Write(o, ch, b, level, arg, date);
      var m := Message(Some(Text.SkipSpace(arg)), Some(ch), Some(date), None);
      && (Posted(r.boards[b]) == Posted(o.boards[b]) + [m] <==>
          o.boards[b].number >= 0 && Text.SkipSpace(arg) != "Topic")
      && (forall b' :: 0 <= b' < NUM_BOARDS && b' != b ==> r.boards[b'] == o.boards[b'])
  {
    var r := Write(o, ch, b, level, arg, date);
    var n := o.boards[b].number;
    var m := Message(Some(Text.SkipSpace(arg)), Some(ch), Some(date), None);
    if n < 0 || (n == 0 && Text.SkipSpace(arg) == "Topic") {
      FirstCommit(Unlocked(o, b), ch, b, Text.SkipSpace(arg), date);
      assert o.boards[b].msg[1] == EMPTY;
      assert (Posted(o.boards[b]) + [m])[0] == m;
    }
  }

  /** The shift, seen from the posted messages. */
  lemma ShiftedPosts(msg: seq<Message>, t: nat, n: nat)
    requires |msg| == MAX_MSGS + 1 && 1 <= t <= n <= MAX_MSGS
    ensures Shifted(msg, t, n)[1..n] == msg[1..n + 1][..t - 1] + msg[1..n + 1][t..]
    ensures Shifted(msg, t, n)[0] == msg[0]
  {
    var after, before := Shifted(msg, t, n), msg[1..n + 1];
    forall s: nat | s < n ensures after[s] == if s < t then msg[s] else msg[s + 1] {
      ShiftedAt(msg, t, n, s);
    }
    forall k: nat | k < n - 1 ensures after[1..n][k] == (before[..t - 1] + before[t..])[k] {
    }
  }

  /** Removing message t deletes exactly the t-th message and keeps the order of the others. */
  lemma {:induction false} RemoveDeletes(o: Office, ch: nat, b: nat, level: int, t: nat)
    requires Shape(o) && Removes(o, ch, b, level, t)
    ensures var r := Remove(o, ch, b, level, t);
      var before := Posted(o.boards[b]);
      && |before| == o.boards[b].number
      && Posted(r.boards[b]) == before[..t - 1] + before[t..]
      && r.boards[b].msg[0] == o.boards[b].msg[0]
      && (forall b' :: 0 <= b' < NUM_BOARDS && b' != b ==> r.boards[b'] == o.boards[b'])
  {
    ShiftedPosts(o.boards[b].msg, t, o.boards[b].number);
  }

  /** Typing changes no text but that of the writer's own message. */
  lemma {:induction false} TypingStaysInOwnMessage(o: Office, ch: nat, input: string, block: nat, b: nat, s: nat)
    requires Shape(o) && OwnTexts(o) && Editors(o) && b < NUM_BOARDS && s <= MAX_MSGS
    requires Allocates(o, DoType(ch, input, block))
    ensures var r := Type(o, ch, input, block);
      TextAt(r, r.boards[b].msg[s].text) == TextAt(o, o.boards[b].msg[s].text)
      || (EditsBoard(o, ch) && o.editing[ch] == Slot(b, s) && o.boards[b].msg[s].author == Some(ch))
  {
    if EditsBoard(o, ch) {
      var t := o.editing[ch];
      if t != Slot(b, s) && HasText(o, b, s) {
        assert TextOf(o, b, s) in o.texts;
        if HasText(o, t.board, t.slot) {
          assert TextOf(o, b, s) != TextOf(o, t.board, t.slot);
        }
      }
    }
  }
}
