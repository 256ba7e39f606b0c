/** The numbering of achievements (act.info.cpp): "achievements all" prints a running number for every level,
    and findAchievementSlotByNumber has to find the slot again from a number typed by the player. */
module Achievements {
  import opened Options

  const CLASS_CATEGORY: nat := 0

  /** The order of the categories: race, boss, class, quest, other. */
  function CategoryAt(k: nat): (c: nat)
    requires k < 5
    ensures c < 5
  {
    if k == 0 then 4 else if k == 1 then 1 else if k == 2 then 0 else if k == 3 then 2 else 3
  }

  /** bufferAchie prints one line for each of up to ten levels. */
  type Levels = n: nat | n <= 10

  datatype Entry = Entry(classe: int, levels: Levels)

  /** AchievementsList, by category and index. */
  type Tables = seq<seq<Entry>>

  predicate FiveTables(t: Tables) {
    |t| == 5
  }

  /** The character whose achievements are meant, and whether the one who asks is a questmaster. */
  datatype View = View(hasClass: int -> bool, progress: (nat, nat) -> int, questmaster: bool)

  datatype Row = Row(category: nat, index: nat, entry: Entry)

  function StartIndex(category: nat): nat {
    if category == CLASS_CATEGORY then 1 else 0
  }

  // ---------------------------------------------------------------- which rows count

  /** The tests of AppendFullAchievementRowRaceBossQuestOther and AppendFullAchievementRowClass. */
  predicate Listed(v: View, r: Row) {
    if r.entry.classe == -1 then false
    else if r.category == CLASS_CATEGORY then v.hasClass(r.entry.classe) || r.entry.classe == 0
    else v.hasClass(r.entry.classe) || v.questmaster || v.progress(r.category, r.index) > 0
  }

  /** isCategorySlotVisible. */
  predicate Visible(v: View, r: Row) {
    if r.entry.classe == -1 then false
    else if r.category == CLASS_CATEGORY then v.hasClass(r.entry.classe) || r.entry.classe == 0
    else v.hasClass(r.entry.classe) || v.questmaster
  }

  /** hasCategoryProgress, which does not ask whether the entry is enabled. */
  predicate HasProgress(v: View, r: Row) {
    r.category != CLASS_CATEGORY && v.progress(r.category, r.index) > 0
  }

  /** The rows findAchievementSlotByNumber counts. */
  predicate Counted(v: View, fallback: bool, r: Row) {
    Visible(v, r) || (fallback && HasProgress(v, r))
  }

  // ---------------------------------------------------------------- rows in order

  function CategoryRows(t: Tables, category: nat, from: nat): seq<Row>
    requires category < |t|
    decreases |t[category]| - from
  {
    if from >= |t[category]| then []
    else [Row(category, from, t[category][from])] + CategoryRows(t, category, from + 1)
  }

  /** All rows from the k-th category of the order on. */
  function RowsFrom(t: Tables, k: nat): seq<Row>
    requires FiveTables(t) && k <= 5
    decreases 5 - k
  {
    if k == 5 then []
    else CategoryRows(t, CategoryAt(k), StartIndex(CategoryAt(k))) + RowsFrom(t, k + 1)
  }

  function AllRows(t: Tables): seq<Row>
    requires FiveTables(t)
  {
    RowsFrom(t, 0)
  }

  // ---------------------------------------------------------------- the listing

  /** A printed line: its number, and the row and level it is about. */
  datatype Line = Line(number: int, row: Row, level: nat)

  /** The lines bufferAchie prints for a row, from level l on, when the row's first number is num. */
  function Block(row: Row, num: int, l: nat): seq<Line>
    decreases row.entry.levels - l
  {
    if l >= row.entry.levels then [] else [Line(num + l, row, l + 1)] + Block(row, num, l + 1)
  }

  /** What "achievements all" prints for some rows, when num numbers have been used. */
  function Listing(v: View, rows: seq<Row>, num: int): seq<Line> {
    if rows == [] then []
    else if Listed(v, rows[0]) then
      Block(rows[0], num + 1, 0) + Listing(v, rows[1..], num + rows[0].entry.levels)
    else Listing(v, rows[1..], num)
  }

  // ---------------------------------------------------------------- the lookup

  datatype Slot = Slot(category: nat, index: nat, baseNum: int, levels: int)

  function SlotOf(r: Row, num: int): Slot {
    Slot(r.category, r.index, num, r.entry.levels)
  }

  /** findAchievementSlotByNumber over some rows, when num numbers have been passed. */
  function Lookup(v: View, fallback: bool, rows: seq<Row>, num: int, requested: int): Option<Slot> {
    if rows == [] then None
    else if !Counted(v, fallback, rows[0]) then Lookup(v, fallback, rows[1..], num, requested)
    else if num < requested <= num + rows[0].entry.levels then Some(SlotOf(rows[0], num))
    else Lookup(v, fallback, rows[1..], num + rows[0].entry.levels, requested)
  }

  // ---------------------------------------------------------------- they agree

  lemma {:induction false} BlockNumbers(row: Row, num: int, l: nat)
    requires l <= row.entry.levels
    ensures var b := Block(row, num, l);
      |b| == row.entry.levels - l && forall k :: 0 <= k < |b| ==> b[k] == Line(num + l + k, row, l + k + 1)
    decreases row.entry.levels - l
  {
    if l < row.entry.levels {
      BlockNumbers(row, num, l + 1);
    }
  }

  /** Lines numbered one by one after num, about rows of the table. */
  ghost predicate Numbered(lines: seq<Line>, rows: seq<Row>, num: int) {
    forall k :: 0 <= k < |lines| ==> lines[k].number == num + 1 + k && lines[k].row in rows
  }

  lemma NumberedConcat(block: seq<Line>, rest: seq<Line>, rows: seq<Row>, num: int)
    requires rows != [] && Numbered(block, [rows[0]], num) && Numbered(rest, rows[1..], num + |block|)
    ensures Numbered(block + rest, rows, num)
  {
    assert rows[0] in rows && forall r :: r in rows[1..] ==> r in rows;
  }

  /** The listing numbers its lines one by one. */
  lemma {:induction false} ListingIsNumbered(v: View, rows: seq<Row>, num: int)
    ensures Numbered(Listing(v, rows, num), rows, num)
  {
    if rows == [] {
    } else {
      var block := if Listed(v, rows[0]) then Block(rows[0], num + 1, 0) else [];
      BlockNumbers(rows[0], num + 1, 0);
      ListingIsNumbered(v, rows[1..], num + |block|);
      NumberedConcat(block, Listing(v, rows[1..], num + |block|), rows, num);
      assert Listing(v, rows, num) == block + Listing(v, rows[1..], num + |block|);
    }
  }

  /** Every row that can be printed is counted by the lookup, and the other way round; rows without levels
      do not matter. */
  ghost predicate SameRows(v: View, fallback: bool, rows: seq<Row>) {
    forall i :: 0 <= i < |rows| && rows[i].entry.levels > 0 ==> (Listed(v, rows[i]) <==> Counted(v, fallback, rows[i]))
  }

  /** The slot a printed line stands for: its row, and the numbers used before the row's first line. */
  function SlotOfLine(l: Line): Slot {
    SlotOf(l.row, l.number - l.level)
  }

  /** Number n leads to the row of the n-th printed line, and to none when there is no such line. */
  predicate Agrees(v: View, fallback: bool, rows: seq<Row>, num: int, n: int) {
    var lines := Listing(v, rows, num);
    Lookup(v, fallback, rows, num, n) ==
    if num < n <= num + |lines| then Some(SlotOfLine(lines[n - num - 1])) else None
  }

  /** The lookup inverts the listing. */
  ghost predicate Inverts(v: View, fallback: bool, rows: seq<Row>, num: int) {
    forall n :: Agrees(v, fallback, rows, num, n)
  }

  lemma {:induction false} LookupNotBelow(v: View, fallback: bool, rows: seq<Row>, num: int)
    ensures forall n :: n <= num ==> Lookup(v, fallback, rows, num, n) == None
  {
    if rows == [] {
    } else {
      LookupNotBelow(v, fallback, rows[1..], num);
      LookupNotBelow(v, fallback, rows[1..], num + rows[0].entry.levels);
    }
  }

  /** When the first row is treated alike, listing and lookup agree exactly if they agree on the other rows. */
  lemma {:induction false} FirstRowAlike(v: View, fallback: bool, rows: seq<Row>, num: int)
    requires rows != []
    requires rows[0].entry.levels > 0 ==> (Listed(v, rows[0]) <==> Counted(v, fallback, rows[0]))
    ensures Inverts(v, fallback, rows, num) <==>
            Inverts(v, fallback, rows[1..], num + if Listed(v, rows[0]) then rows[0].entry.levels else 0)
  {
    var r, levels := rows[0], rows[0].entry.levels;
    var num' := num + if Listed(v, r) then levels else 0;
    BlockNumbers(r, num + 1, 0);
    LookupNotBelow(v, fallback, rows, num);
    LookupNotBelow(v, fallback, rows[1..], num');
    var lines, rest := Listing(v, rows, num), Listing(v, rows[1..], num');
    forall n: int
      ensures Agrees(v, fallback, rows, num, n) <==> Agrees(v, fallback, rows[1..], num', n)
    {
      if Listed(v, r) && levels > 0 {
        assert lines == Block(r, num + 1, 0) + rest;
        if n > num' {
          assert Lookup(v, fallback, rows, num, n) == Lookup(v, fallback, rows[1..], num', n);
          assert n <= num + |lines| ==> lines[n - num - 1] == rest[n - num' - 1];
        } else if num < n {
          assert lines[n - num - 1] == Line(n, r, n - num);
        }
      } else {
        assert lines == rest;
        assert Lookup(v, fallback, rows, num, n) == Lookup(v, fallback, rows[1..], num', n);
      }
    }
    assert Inverts(v, fallback, rows, num) <==> Inverts(v, fallback, rows[1..], num');
  }

  lemma SameRowsSplit(v: View, fallback: bool, rows: seq<Row>)
    requires rows != []
    ensures SameRows(v, fallback, rows) <==>
      (rows[0].entry.levels > 0 ==> (Listed(v, rows[0]) <==> Counted(v, fallback, rows[0])))
      && SameRows(v, fallback, rows[1..])
  {
    assert forall i :: 0 <= i < |rows[1..]| ==> rows[1..][i] == rows[i + 1];
    assert forall i :: 0 < i < |rows| ==> rows[i] == rows[1..][i - 1];
  }

  lemma {:induction false} SameRowsInvert(v: View, fallback: bool, rows: seq<Row>, num: int)
    requires SameRows(v, fallback, rows)
    ensures Inverts(v, fallback, rows, num)
  {
    if rows == [] {
    } else {
      SameRowsSplit(v, fallback, rows);
      FirstRowAlike(v, fallback, rows, num);
      SameRowsInvert(v, fallback, rows[1..], num + if Listed(v, rows[0]) then rows[0].entry.levels else 0);
    }
  }

  predicate SamePlace(a: Row, b: Row) {
    a.category == b.category && a.index == b.index
  }

  ghost predicate DistinctRows(rows: seq<Row>) {
    forall i, j :: 0 <= i < j < |rows| ==> !SamePlace(rows[i], rows[j])
  }

  lemma {:induction false} LookupFindsARow(v: View, fallback: bool, rows: seq<Row>, num: int, n: int)
    ensures var s := Lookup(v, fallback, rows, num, n);
      s.Some? ==>
        && (exists r :: r in rows && s.value.category == r.category && s.value.index == r.index)
        && s.value.baseNum < n <= s.value.baseNum + s.value.levels
  {
    if rows == [] {
    } else {
      LookupFindsARow(v, fallback, rows[1..], num, n);
      LookupFindsARow(v, fallback, rows[1..], num + rows[0].entry.levels, n);
      assert rows[0] in rows;
    }
  }

  lemma {:induction false} InvertNeedsSameRows(v: View, fallback: bool, rows: seq<Row>, num: int)
    requires DistinctRows(rows) && Inverts(v, fallback, rows, num)
    ensures SameRows(v, fallback, rows)
  {
    if rows == [] {
    } else {
      var r := rows[0];
      var lines := Listing(v, rows, num);
      BlockNumbers(r, num + 1, 0);
      assert forall q :: q in rows[1..] ==> !SamePlace(r, q);
      LookupFindsARow(v, fallback, rows[1..], num, num + 1);
      ListingIsNumbered(v, rows[1..], num);
      assert Agrees(v, fallback, rows, num, num + 1);
      assert r.entry.levels > 0 ==> (Listed(v, r) <==> Counted(v, fallback, r));
      FirstRowAlike(v, fallback, rows, num);
      InvertNeedsSameRows(v, fallback, rows[1..], num + if Listed(v, r) then r.entry.levels else 0);
      SameRowsSplit(v, fallback, rows);
    }
  }

  // ---------------------------------------------------------------- the rows of the tables

  lemma {:induction false} CategoryRowsDistinct(t: Tables, category: nat, from: nat)
    requires category < |t|
    ensures DistinctRows(CategoryRows(t, category, from))
    ensures forall r :: r in CategoryRows(t, category, from) ==> r.category == category && r.index >= from
    decreases |t[category]| - from
  {
    if from < |t[category]| {
      CategoryRowsDistinct(t, category, from + 1);
      var rest := CategoryRows(t, category, from + 1);
      assert forall i :: 0 <= i < |rest| ==> rest[i] in rest;
    }
  }

  lemma DistinctConcat(a: seq<Row>, b: seq<Row>)
    requires DistinctRows(a) && DistinctRows(b)
    requires forall i, j :: 0 <= i < |a| && 0 <= j < |b| ==> !SamePlace(a[i], b[j])
    ensures DistinctRows(a + b)
  {
  }

  /** The row belongs to the k-th category of the order or a later one. */
  predicate CategoryFrom(r: Row, k: nat)
    requires k <= 5
  {
    exists j :: k <= j < 5 && r.category == CategoryAt(j)
  }

  lemma {:induction false} RowsDistinct(t: Tables, k: nat)
    requires FiveTables(t) && k <= 5
    ensures DistinctRows(RowsFrom(t, k))
    ensures forall i :: 0 <= i < |RowsFrom(t, k)| ==> CategoryFrom(RowsFrom(t, k)[i], k)
    decreases 5 - k
  {
    if k < 5 {
      RowsDistinct(t, k + 1);
      var category := CategoryAt(k);
      var first, rest := CategoryRows(t, category, StartIndex(category)), RowsFrom(t, k + 1);
      CategoryRowsDistinct(t, category, StartIndex(category));
      forall i | 0 <= i < |first| ensures first[i].category == category && CategoryFrom(first[i], k) {
        assert first[i] in first;
      }
      DistinctConcat(first, rest);
    }
  }

  /** For a questmaster, who looks numbers up without the progress fallback, the lookup is the exact inverse
      of the listing. */
  lemma QuestmasterLookupInverts(t: Tables, v: View)
    requires FiveTables(t) && v.questmaster
    ensures Inverts(v, false, AllRows(t), 0)
  {
    SameRowsInvert(v, false, AllRows(t), 0);
  }

  /** A disabled entry on which the character has made progress, outside the class category. */
  predicate DisabledWithProgress(v: View, r: Row) {
    r.entry.classe == -1 && HasProgress(v, r) && r.entry.levels > 0
  }

  /** For "achievements spam", with the fallback, it is the inverse exactly when no such entry exists. */
  lemma SpamLookupInvertsIff(t: Tables, v: View)
    requires FiveTables(t)
    ensures Inverts(v, true, AllRows(t), 0) <==>
            forall i :: 0 <= i < |AllRows(t)| ==> !DisabledWithProgress(v, AllRows(t)[i])
  {
    var rows := AllRows(t);
    RowsDistinct(t, 0);
    assert SameRows(v, true, rows) <==> forall i :: 0 <= i < |rows| ==> !DisabledWithProgress(v, rows[i]) by {
      forall i | 0 <= i < |rows| && rows[i].entry.levels > 0
        ensures (Listed(v, rows[i]) <==> Counted(v, true, rows[i])) <==> !DisabledWithProgress(v, rows[i])
      {
      }
    }
    if SameRows(v, true, rows) {
      SameRowsInvert(v, true, rows, 0);
    }
    if Inverts(v, true, rows, 0) {
      InvertNeedsSameRows(v, true, rows, 0);
    }
  }

  // ---------------------------------------------------------------- one row more

  lemma ListingStep(v: View, row: Row, rest: seq<Row>, num: int)
    ensures Listing(v, [row] + rest, num) ==
            if Listed(v, row) then Block(row, num + 1, 0) + Listing(v, rest, num + row.entry.levels)
            else Listing(v, rest, num)
    ensures |Block(row, num + 1, 0)| == row.entry.levels
  {
    assert ([row] + rest)[1..] == rest;
    BlockNumbers(row, num + 1, 0);
  }

  /** A listing goes on numbering where its first part ended. */
  lemma {:induction false} ListingConcat(v: View, a: seq<Row>, b: seq<Row>, num: int)
    ensures Listing(v, a + b, num) == Listing(v, a, num) + Listing(v, b, num + |Listing(v, a, num)|)
  {
    if a == [] {
      assert a + b == b;
    } else {
      var used := num + if Listed(v, a[0]) then a[0].entry.levels else 0;
      ListingConcat(v, a[1..], b, used);
      assert a + b == [a[0]] + (a[1..] + b) && a == [a[0]] + a[1..];
      ListingStep(v, a[0], a[1..] + b, num);
      ListingStep(v, a[0], a[1..], num);
    }
  }

  /** One step of the lookup, over a row with other rows behind it. */
  lemma LookupStep(v: View, fallback: bool, row: Row, rest: seq<Row>, num: int, requested: int)
    ensures Lookup(v, fallback, [row] + rest, num, requested) ==
            if !Counted(v, fallback, row) then Lookup(v, fallback, rest, num, requested)
            else if num < requested <= num + row.entry.levels then Some(SlotOf(row, num))
            else Lookup(v, fallback, rest, num + row.entry.levels, requested)
  {
    assert ([row] + rest)[1..] == rest;
  }
}
