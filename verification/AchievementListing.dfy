/** What "achievements all" prints, and in which order. */
module AchievementListing {
  import opened Achievements

  const RACE: nat := 4
  const BOSS: nat := 1
  const QUEST: nat := 2
  const OTHER: nat := 3

  /** A category is printed before another. */
  predicate Precedes(a: nat, b: nat) {
    if a == RACE then b != RACE
    else if a == BOSS then b != RACE && b != BOSS
    else if a == CLASS_CATEGORY then b == QUEST || b == OTHER
    else a == QUEST && b == OTHER
  }

  /** A row of the tables; the first one of the class category is not used. */
  predicate IsRow(t: Tables, r: Row)
    requires FiveTables(t)
  {
    r.category < 5 && r.index < |t[r.category]| && r.entry == t[r.category][r.index]
    && (r.category == CLASS_CATEGORY ==> r.index != 0)
  }

  lemma {:induction false} CategoryRowsAre(t: Tables, category: nat, from: nat, r: Row)
    requires category < |t|
    ensures r in CategoryRows(t, category, from) <==>
            r.category == category && from <= r.index < |t[category]| && r.entry == t[category][r.index]
    decreases |t[category]| - from
  {
    if from < |t[category]| {
      CategoryRowsAre(t, category, from + 1, r);
    }
  }

  lemma {:induction false} RowsFromAre(t: Tables, k: nat, r: Row)
    requires FiveTables(t) && k <= 5
    ensures r in RowsFrom(t, k) <==> IsRow(t, r) && exists j :: k <= j < 5 && CategoryAt(j) == r.category
    decreases 5 - k
  {
    if k < 5 {
      RowsFromAre(t, k + 1, r);
      CategoryRowsAre(t, CategoryAt(k), StartIndex(CategoryAt(k)), r);
    }
  }

  /** The rows that are gone through are exactly the rows of the five tables. */
  lemma AllRowsAre(t: Tables, r: Row)
    requires FiveTables(t)
    ensures r in AllRows(t) <==> IsRow(t, r)
  {
    RowsFromAre(t, 0, r);
    assert CategoryAt(0) == RACE && CategoryAt(1) == BOSS && CategoryAt(2) == CLASS_CATEGORY;
    assert CategoryAt(3) == QUEST && CategoryAt(4) == OTHER;
  }

  /** A line comes before another: by category, then by the place in its table, then by level. */
  predicate LineBefore(a: Line, b: Line) {
    || Precedes(a.row.category, b.row.category)
    || (a.row.category == b.row.category && a.row.index < b.row.index)
    || (a.row == b.row && a.level < b.level)
  }

  predicate RowBefore(a: Row, b: Row) {
    Precedes(a.category, b.category) || (a.category == b.category && a.index < b.index)
  }

  ghost predicate InOrder(rows: seq<Row>) {
    forall i, j :: 0 <= i < j < |rows| ==> RowBefore(rows[i], rows[j])
  }

  lemma {:induction false} CategoryRowsInOrder(t: Tables, category: nat, from: nat)
    requires category < |t|
    ensures InOrder(CategoryRows(t, category, from))
    decreases |t[category]| - from
  {
    if from < |t[category]| {
      CategoryRowsInOrder(t, category, from + 1);
      CategoryRowsDistinct(t, category, from + 1);
      var rest := CategoryRows(t, category, from + 1);
      assert forall i :: 0 <= i < |rest| ==> rest[i] in rest;
    }
  }

  lemma {:induction false} RowsInOrder(t: Tables, k: nat)
    requires FiveTables(t) && k <= 5
    ensures InOrder(RowsFrom(t, k))
    decreases 5 - k
  {
    if k < 5 {
      var first, rest := CategoryRows(t, CategoryAt(k), StartIndex(CategoryAt(k))), RowsFrom(t, k + 1);
      RowsInOrder(t, k + 1);
      CategoryRowsInOrder(t, CategoryAt(k), StartIndex(CategoryAt(k)));
      forall i, j | 0 <= i < |first| && 0 <= j < |rest| ensures RowBefore(first[i], rest[j]) {
        CategoryRowsAre(t, CategoryAt(k), StartIndex(CategoryAt(k)), first[i]);
        RowsFromAre(t, k + 1, rest[j]);
      }
    }
  }

  /** The lines of rows in order: exactly the levels of the listed rows, in order. */
  lemma {:induction false} ListingLines(v: View, rows: seq<Row>, num: int)
    requires InOrder(rows)
    ensures forall l :: l in Listing(v, rows, num) ==>
      l.row in rows && Listed(v, l.row) && 1 <= l.level <= l.row.entry.levels
    ensures forall i, j :: 0 <= i < j < |Listing(v, rows, num)| ==>
      LineBefore(Listing(v, rows, num)[i], Listing(v, rows, num)[j])
  {
    if rows == [] {
    } else {
      var r, rest := rows[0], rows[1..];
      var block := if Listed(v, r) then Block(r, num + 1, 0) else [];
      BlockNumbers(r, num + 1, 0);
      ListingLines(v, rest, num + |block|);
      var later := Listing(v, rest, num + |block|);
      assert Listing(v, rows, num) == block + later;
      forall q | q in rest ensures RowBefore(r, q) {
        var i :| 0 <= i < |rest| && rest[i] == q;
        assert q == rows[i + 1];
      }
      forall i, j | 0 <= i < |block| && 0 <= j < |later| ensures LineBefore(block[i], later[j]) {
        assert later[j] in later;
      }
    }
  }

  /** A line about that level of that row. */
  ghost predicate Printed(lines: seq<Line>, r: Row, level: nat) {
    exists l :: l in lines && l.row == r && l.level == level
  }

  lemma PrintedConcat(a: seq<Line>, b: seq<Line>, r: Row, level: nat)
    requires Printed(a, r, level) || Printed(b, r, level)
    ensures Printed(a + b, r, level)
  {
    var l :| (l in a || l in b) && l.row == r && l.level == level;
    assert l in a + b;
  }

  lemma {:induction false} ListedRowsPrinted(v: View, rows: seq<Row>, num: int, r: Row, level: nat)
    requires r in rows && Listed(v, r) && 1 <= level <= r.entry.levels
    ensures Printed(Listing(v, rows, num), r, level)
  {
    var rest := rows[1..];
    var block := Block(rows[0], num + 1, 0);
    ListingStep(v, rows[0], rest, num);
    assert rows == [rows[0]] + rest;
    if r == rows[0] {
      BlockNumbers(r, num + 1, 0);
      assert block[level - 1] in block;
      PrintedConcat(block, Listing(v, rest, num + r.entry.levels), r, level);
    } else if Listed(v, rows[0]) {
      ListedRowsPrinted(v, rest, num + rows[0].entry.levels, r, level);
      PrintedConcat(block, Listing(v, rest, num + rows[0].entry.levels), r, level);
    } else {
      ListedRowsPrinted(v, rest, num, r, level);
    }
  }

  /** "achievements all" prints every level of every row the character is shown, and nothing else: the categories race,
      boss, class, quest and other in this order, the rows of each as they stand, the levels from 1 up. */
  lemma ListingPrintsAll(t: Tables, v: View, r: Row, level: nat)
    requires FiveTables(t)
    ensures var lines := Listing(v, AllRows(t), 0);
      && (Printed(lines, r, level) <==> IsRow(t, r) && Listed(v, r) && 1 <= level <= r.entry.levels)
      && (forall i, j :: 0 <= i < j < |lines| ==> LineBefore(lines[i], lines[j]))
  {
    AllRowsAre(t, r);
    RowsInOrder(t, 0);
    ListingLines(v, AllRows(t), 0);
    if IsRow(t, r) && Listed(v, r) && 1 <= level <= r.entry.levels {
      ListedRowsPrinted(v, AllRows(t), 0, r, level);
    }
  }
}
