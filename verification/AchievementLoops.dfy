/** The loops behind the listing, the lookup and maxAchievements, as they run. */
module AchievementLoops {
  import opened Options
  import opened Sums
  import opened Achievements
  import opened AchievementCommands

  /** bufferAchie: a line for each level. */
  method BufferAchie(row: Row, num: int) returns (lines: seq<Line>)
    ensures lines == Block(row, num, 0)
  {
    lines := [];
    var level := 0;
    while level < row.entry.levels
      invariant 0 <= level <= row.entry.levels
      invariant lines + Block(row, num, level) == Block(row, num, 0)
    {
      lines := lines + [Line(num + level, row, level + 1)];
      level := level + 1;
    }
    assert lines + [] == lines;
  }

  /** One of the five parts of "achievements all". */
  method ListCategory(t: Tables, v: View, category: nat, used: int) returns (lines: seq<Line>, num: int)
    requires FiveTables(t) && category < 5
    ensures lines == Listing(v, CategoryRows(t, category, StartIndex(category)), used)
    ensures num == used + |lines|
  {
    lines, num := [], used;
    var i := StartIndex(category);
    while i < |t[category]|
      invariant lines + Listing(v, CategoryRows(t, category, i), num)
             == Listing(v, CategoryRows(t, category, StartIndex(category)), used)
      invariant num == used + |lines|
      decreases |t[category]| - i
    {
      var row := Row(category, i, t[category][i]);
      ListingStep(v, row, CategoryRows(t, category, i + 1), num);
      if Listed(v, row) {
        num := num + 1;
        var block := BufferAchie(row, num);
        lines := lines + block;
        num := num + row.entry.levels - 1;
      }
      i := i + 1;
    }
    assert lines + [] == lines;
  }

  /** A listing whose rows fall into two parts, after some lines are out. */
  lemma ListingInParts(v: View, first: seq<Row>, rest: seq<Row>, num: int, lines: seq<Line>, part: seq<Line>)
    requires part == Listing(v, first, num)
    ensures lines + Listing(v, first + rest, num) == lines + part + Listing(v, rest, num + |part|)
  {
    ListingConcat(v, first, rest, num);
    ConcatAssoc(lines, part, Listing(v, rest, num + |part|));
  }

  /** "achievements all". */
  method ListAll(t: Tables, v: View) returns (lines: seq<Line>)
    requires FiveTables(t)
    ensures lines == Listing(v, AllRows(t), 0)
  {
    lines := [];
    var num := 0;
    for k := 0 to 5
      invariant lines + Listing(v, RowsFrom(t, k), num) == Listing(v, AllRows(t), 0)
    {
      var part, next := ListCategory(t, v, CategoryAt(k), num);
      ghost var rows := CategoryRows(t, CategoryAt(k), StartIndex(CategoryAt(k)));
      ListingInParts(v, rows, RowsFrom(t, k + 1), num, lines, part);
      lines, num := lines + part, next;
    }
    assert lines + [] == lines;
  }

  /** The inner loop of findAchievementSlotByNumber: one category, with the `later` ones still to come. */
  method FindInCategory(t: Tables, v: View, fallback: bool, category: nat, used: int, requested: int,
                        ghost later: seq<Row>)
    returns (slot: Option<Slot>, num: int)
    requires FiveTables(t) && category < 5
    ensures Lookup(v, fallback, CategoryRows(t, category, StartIndex(category)) + later, used, requested)
         == if slot.Some? then slot else Lookup(v, fallback, later, num, requested)
  {
    num := used;
    var index := StartIndex(category);
    ghost var sought := Lookup(v, fallback, CategoryRows(t, category, index) + later, used, requested);
    while index < |t[category]|
      invariant Lookup(v, fallback, CategoryRows(t, category, index) + later, num, requested) == sought
      decreases |t[category]| - index
    {
      var row := Row(category, index, t[category][index]);
      ghost var rest := CategoryRows(t, category, index + 1) + later;
      assert CategoryRows(t, category, index) + later == [row] + rest;
      LookupStep(v, fallback, row, rest, num, requested);
      if Counted(v, fallback, row) {
        var levels := row.entry.levels;
        if num < requested <= num + levels {
          return Some(Slot(category, index, num, levels)), num;
        }
        num := num + levels;
      }
      index := index + 1;
    }
    assert CategoryRows(t, category, index) + later == later;
    slot := None;
  }

  /** findAchievementSlotByNumber. */
  method FindAchievementSlotByNumber(t: Tables, v: View, fallback: bool, requested: int) returns (slot: Option<Slot>)
    requires FiveTables(t)
    ensures slot == Lookup(v, fallback, AllRows(t), 0, requested)
  {
    var num := 0;
    for k := 0 to 5
      invariant Lookup(v, fallback, RowsFrom(t, k), num, requested) == Lookup(v, fallback, AllRows(t), 0, requested)
    {
      var found, next := FindInCategory(t, v, fallback, CategoryAt(k), num, requested, RowsFrom(t, k + 1));
      if found.Some? {
        return found;
      }
      num := next;
    }
    slot := None;
  }

  /** One of the loops of maxAchievements. */
  method CountCategory(t: Tables, v: View, category: nat) returns (count: nat)
    requires FiveTables(t) && category < 5
    ensures count == MaxNumber(v, CategoryRows(t, category, StartIndex(category)))
  {
    count := 0;
    var i := StartIndex(category);
    while i < |t[category]|
      invariant count + MaxNumber(v, CategoryRows(t, category, i))
             == MaxNumber(v, CategoryRows(t, category, StartIndex(category)))
      decreases |t[category]| - i
    {
      var row := Row(category, i, t[category][i]);
      assert CategoryRows(t, category, i)[1..] == CategoryRows(t, category, i + 1);
      if Granted(v, row) {
        count := count + row.entry.levels;
      }
      i := i + 1;
    }
  }

  lemma {:induction false} MaxNumberConcat(v: View, a: seq<Row>, b: seq<Row>)
    ensures MaxNumber(v, a + b) == MaxNumber(v, a) + MaxNumber(v, b)
  {
    if a == [] {
      assert a + b == b;
    } else {
      MaxNumberConcat(v, a[1..], b);
      assert (a + b)[1..] == a[1..] + b;
    }
  }

  /** maxAchievements. */
  method MaxAchievements(t: Tables, v: View) returns (count: nat)
    requires FiveTables(t)
    ensures count == MaxNumber(v, AllRows(t))
  {
    count := 0;
    for k := 0 to 5
      invariant count + MaxNumber(v, RowsFrom(t, k)) == MaxNumber(v, AllRows(t))
    {
      var part := CountCategory(t, v, CategoryAt(k));
      MaxNumberConcat(v, CategoryRows(t, CategoryAt(k), StartIndex(CategoryAt(k))), RowsFrom(t, k + 1));
      count := count + part;
    }
  }
}
