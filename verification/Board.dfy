/** The bulletin boards of board.cpp: message slots, the lock of each board, and the editor pointer
    (desc->str, filled by string_add of modify.cpp) that aims into a slot while its author is typing. */
module Board {
  import opened Options
  import Text

  const MAX_MSGS: int := 99
  const MAX_LENGTH: int := 2048
  const NUM_BOARDS: int := 4
  const MIN_WRITE: seq<int> := [1, 51, 1, 1]
  const MIN_REMOVE: seq<int> := [51, 51, 51, 1]

  /** A slot of the msg array.  Its pointers may be null; `text` is the address of an allocated text. */
  datatype Message = Message(title: Option<string>, author: Option<nat>, date: Option<string>, text: Option<nat>)

  const EMPTY: Message := Message(None, None, None, None)

  datatype BoardState = BoardState(msg: seq<Message>, number: int)

  /** board_lock[b]: None when the lock flag is off. */
  type Lock = Option<nat>

  /** Where a descriptor's str points: the text of a slot of a board, or something else being edited. */
  datatype Target = Slot(board: nat, slot: nat) | Elsewhere

  /** The boards, their locks and the allocated texts by address; the characters on character_list, those with a
      descriptor, and the editors that are open, by owner. */
  datatype Office = Office(boards: seq<BoardState>, locks: seq<Lock>, texts: map<nat, string>,
                           inGame: set<nat>, linked: set<nat>, editing: map<nat, Target>)

  predicate Shape(o: Office) {
    && |o.boards| == NUM_BOARDS && |o.locks| == NUM_BOARDS
    && forall b :: 0 <= b < NUM_BOARDS ==> |o.boards[b].msg| == MAX_MSGS + 1 && -1 <= o.boards[b].number <= MAX_MSGS
  }

  // ---------------------------------------------------------------- the message array

  /** Deletion of slot t: the later ones move down, and the last one is cleared. */
  function Shifted(msg: seq<Message>, t: nat, number: nat): (r: seq<Message>)
    requires t <= number < |msg|
    ensures |r| == |msg|
  {
    msg[..t] + msg[t + 1..number + 1] + [EMPTY] + msg[number + 1..]
  }

  /** Where a slot of the shifted array comes from. */
  function Source(t: nat, number: int, s: nat): nat {
    if t <= s < number then s + 1 else s
  }

  lemma ShiftedAt(msg: seq<Message>, t: nat, number: nat, s: nat)
    requires t <= number < |msg| && s < |msg|
    ensures Shifted(msg, t, number)[s] == if s == number then EMPTY else msg[Source(t, number, s)]
  {
  }

  /** The messages a reader sees: slots 1 to number. */
  function Posted(b: BoardState): seq<Message>
    requires |b.msg| == MAX_MSGS + 1 && b.number <= MAX_MSGS
  {
    if b.number < 0 then [] else b.msg[1..b.number + 1]
  }

  // ---------------------------------------------------------------- locks

  /** board_check_locks answers 1: the holder is in the game, has a descriptor and is still writing. */
  predicate Blocked(o: Office, b: nat)
    requires b < |o.locks|
  {
    o.locks[b].Some? && o.locks[b].value in o.inGame && o.locks[b].value in o.linked && o.locks[b].value in o.editing
  }

  /** When it answers 0 the lock has been lifted. */
  function Unlocked(o: Office, b: nat): Office
    requires b < |o.locks|
  {
    o.(locks := o.locks[b := None])
  }

  function Free(texts: map<nat, string>, p: Option<nat>): map<nat, string> {
    if p.Some? then texts - {p.value} else texts
  }

  /** A text pointer as a list of what free() gets to see: a null pointer is no release. */
  function Release(p: Option<nat>): seq<nat> {
    if p.Some? then [p.value] else []
  }

  // ---------------------------------------------------------------- write and remove

  /** A command at board b; board() only gives it to characters that are in the game with a descriptor. */
  predicate AtBoard(o: Office, ch: nat, b: nat) {
    ch in o.inGame && ch in o.linked && b < NUM_BOARDS
  }

  /** The tests of board_write_msg before the lock is looked at. */
  predicate MayWrite(o: Office, ch: nat, b: nat, level: int)
    requires Shape(o)
  {
    AtBoard(o, ch, b) && level >= MIN_WRITE[b] && o.boards[b].number < MAX_MSGS
  }

  /** The slot a committed write fills, and the number of the board afterwards. */
  function WriteSlot(number: int, title: string): int {
    if title == "Topic" then 0 else number + 1
  }

  function WriteNumber(number: int, title: string): int {
    var kept := if title == "Topic" && number > -1 then number - 1 else number;
    (if kept < 0 then 0 else kept) + 1
  }

  /** board_write_msg with a title, after the locks: the board is locked for the writer, the slot gets title,
      author and date, its text is freed, and the writer's editor points at it. */
  function Commit(o: Office, ch: nat, b: nat, title: string, date: string): Office
    requires Shape(o) && b < NUM_BOARDS && o.boards[b].number < MAX_MSGS
  {
    var board := o.boards[b];
    var slot := WriteSlot(board.number, title);
    var message := Message(Some(title), Some(ch), Some(date), None);
    o.(locks := o.locks[b := Some(ch)],
       texts := Free(o.texts, board.msg[slot].text),
       boards := o.boards[b := BoardState(board.msg[slot := message], WriteNumber(board.number, title))],
       editing := o.editing[ch := Slot(b, slot)])
  }

  /** The texts a committed write hands to free(), in order: a "Topic" frees the text of slot 0 with the rest of
      the slot, and then once more, because the pointer is cleared only afterwards. */
  function WriteReleases(board: BoardState, title: string): seq<nat>
    requires |board.msg| == MAX_MSGS + 1 && -1 <= board.number < MAX_MSGS
  {
    (if title == "Topic" then Release(board.msg[0].text) else [])
    + Release(board.msg[WriteSlot(board.number, title)].text)
  }

  /** The write gets past all tests, and there is a title. */
  predicate Commits(o: Office, ch: nat, b: nat, level: int, arg: string)
    requires Shape(o)
  {
    MayWrite(o, ch, b, level) && !Blocked(o, b) && Text.SkipSpace(arg) != ""
  }

  function Write(o: Office, ch: nat, b: nat, level: int, arg: string, date: string): (r: Office)
    requires Shape(o)
    ensures Shape(r)
  {
    if !MayWrite(o, ch, b, level) || Blocked(o, b) then o
    else
      var title := Text.SkipSpace(arg);
      if title == "" then Unlocked(o, b) else Commit(Unlocked(o, b), ch, b, title, date)
  }

  /** board_remove_msg, after the locks: the text is freed and the later messages move down. */
  function Deleted(o: Office, b: nat, t: nat): Office
    requires Shape(o) && b < NUM_BOARDS && 1 <= t <= o.boards[b].number
  {
    var board := o.boards[b];
    o.(texts := Free(o.texts, board.msg[t].text),
       boards := o.boards[b := BoardState(Shifted(board.msg, t, board.number), board.number - 1)])
  }

  /** The tests of board_remove_msg. */
  predicate Removes(o: Office, ch: nat, b: nat, level: int, t: nat)
    requires Shape(o)
  {
    AtBoard(o, ch, b) && level >= MIN_REMOVE[b] && 1 <= t <= o.boards[b].number && !Blocked(o, b)
  }

  /** board_remove_msg for message t (the value of the digits typed). */
  function Remove(o: Office, ch: nat, b: nat, level: int, t: nat): (r: Office)
    requires Shape(o)
    ensures Shape(r)
  {
    if Removes(o, ch, b, level, t) then Deleted(Unlocked(o, b), b, t) else o
  }

  // ---------------------------------------------------------------- typing

  function UpToAt(s: string): string {
    if s == "" || s[0] == '@' then "" else [s[0]] + UpToAt(s[1..])
  }

  /** string_add on a text: the new text, and whether the editor closes. */
  function AddLine(text: Option<string>, input: string): (string, bool) {
    var line := UpToAt(input);
    var last := '@' in input;
    if text.None? then
      if |line| > MAX_LENGTH then (line[..MAX_LENGTH], true) else (line + (if last then "" else "\n\r"), last)
    else if |line| + |text.value| > MAX_LENGTH then (text.value, true)
    else (text.value + line + (if last then "" else "\n\r"), last)
  }

  function TextAt(o: Office, p: Option<nat>): Option<string> {
    if p.Some? && p.value in o.texts then Some(o.texts[p.value]) else None
  }

  function SetText(o: Office, b: nat, slot: nat, p: nat): Office
    requires b < |o.boards| && slot < |o.boards[b].msg|
  {
    var m := o.boards[b].msg;
    o.(boards := o.boards[b := o.boards[b].(msg := m[slot := m[slot].(text := Some(p))])])
  }

  /** string_add skips a line that does not fit, and leaves the text where it is. */
  predicate Skips(text: Option<string>, input: string) {
    text.Some? && |UpToAt(input)| + |text.value| > MAX_LENGTH
  }

  /** A line typed into a slot.  `block` is what malloc or realloc returns: the text is allocated there if the
      pointer is null, and moves there otherwise. */
  function TypeInto(o: Office, b: nat, slot: nat, input: string, block: nat): (r: Office)
    requires Shape(o) && b < NUM_BOARDS && slot <= MAX_MSGS
    ensures Shape(r)
  {
    var p := o.boards[b].msg[slot].text;
    var text := TextAt(o, p);
    if Skips(text, input) then o
    else SetText(o, b, slot, block).(texts := Free(o.texts, p)[block := AddLine(text, input).0])
  }

  function Close(o: Office, ch: nat): Office {
    o.(editing := o.editing - {ch})
  }

  /** A line from ch's descriptor while its editor is open. */
  function Type(o: Office, ch: nat, input: string, block: nat): (r: Office)
    requires Shape(o)
    ensures Shape(r)
  {
    if ch !in o.editing then o
    else
      match o.editing[ch]
      case Elsewhere => if '@' in input then Close(o, ch) else o
      case Slot(b, slot) =>
        if b >= NUM_BOARDS || slot > MAX_MSGS then o
        else
          var text := TextAt(o, o.boards[b].msg[slot].text);
          var typed := TypeInto(o, b, slot, input, block);
          if AddLine(text, input).1 then Close(typed, ch) else typed
  }

  // ---------------------------------------------------------------- runs

  datatype Event =
    | DoWrite(ch: nat, board: nat, level: int, arg: string, date: string)
    | DoRemove(ch: nat, board: nat, level: int, t: nat)
    | DoType(ch: nat, input: string, block: nat)
    | EditElsewhere(ch: nat)
    | LoseLink(ch: nat)
    | Reconnect(ch: nat)
    | Enter(ch: nat)
    | Extract(ch: nat)
    | Rebody(from: nat, to: nat)

  /** The descriptor of one character can go to another body, which is in the game and has none. */
  predicate CanRebody(o: Office, from: nat, to: nat) {
    from != to && (from in o.linked || from in o.editing) && to in o.inGame && to !in o.linked && to !in o.editing
  }

  /** Switch, return, polymorph and raising the dead: the descriptor moves, and its editor with it. */
  function Move(o: Office, from: nat, to: nat): Office {
    o.(linked := o.linked - {from} + {to},
       editing := if from in o.editing then (o.editing - {from})[to := o.editing[from]] else o.editing)
  }

  /** What the game does around the boards.  Losing the link destroys the descriptor with its editor.  Being
      extracted (quit, or death) takes the character off character_list, but its descriptor goes to the
      menu with whatever editor it had open, and input keeps going to that editor until it closes. */
  function Step(o: Office, e: Event): (r: Office)
    requires Shape(o)
    ensures Shape(r)
  {
    match e
    case DoWrite(ch, b, level, arg, date) => Write(o, ch, b, level, arg, date)
    case DoRemove(ch, b, level, t) => Remove(o, ch, b, level, t)
    case DoType(ch, input, block) => Type(o, ch, input, block)
    case EditElsewhere(ch) =>
      if ch in o.inGame && ch in o.linked then o.(editing := o.editing[ch := Elsewhere]) else o
    case LoseLink(ch) => Close(o, ch).(linked := o.linked - {ch})
    case Reconnect(ch) => if ch in o.inGame && ch !in o.linked then o.(linked := o.linked + {ch}) else o
    case Enter(ch) =>
      if ch !in o.inGame && ch !in o.editing then o.(inGame := o.inGame + {ch}, linked := o.linked + {ch}) else o
    case Extract(ch) => o.(inGame := o.inGame - {ch}, linked := o.linked - {ch})
    case Rebody(from, to) => if CanRebody(o, from, to) then Move(o, from, to) else o
  }

  function Run(o: Office, es: seq<Event>): (r: Office)
    requires Shape(o)
    ensures Shape(r)
    decreases |es|
  {
    if es == [] then o else Run(Step(o, es[0]), es[1..])
  }

  /** After board_load_board with no save files: every board at -1, unlocked. */
  function Boot(): Office {
    var blank := BoardState(seq(MAX_MSGS + 1, _ => EMPTY), -1);
    Office([blank, blank, blank, blank], [None, None, None, None], map[], {}, {}, map[])
  }
}
