/** The commands that take an achievement by its number: "spam", "delete" and "set" first refuse numbers above
    maxAchievements (utility.cpp), and then look them up. */
module AchievementCommands {
  import opened Options
  import opened Achievements

  /** The rows maxAchievements counts: it asks neither whether they are enabled nor for progress. */
  predicate Granted(v: View, r: Row) {
    v.hasClass(r.entry.classe) || r.entry.classe == 0
  }

  /** In the class category it counts exactly the enabled rows that are printed. */
  lemma GrantedIsListed(v: View, r: Row)
    requires r.category == CLASS_CATEGORY && r.entry.classe != -1
    ensures Granted(v, r) <==> Listed(v, r)
  {
  }

  /** maxAchievements over some rows. */
  function MaxNumber(v: View, rows: seq<Row>): nat {
    if rows == [] then 0 else (if Granted(v, rows[0]) then rows[0].entry.levels else 0) + MaxNumber(v, rows[1..])
  }

  /** "achievements spam", "delete" and "set" with a number: refused above maxAchievements, then looked up. */
  function Command(v: View, fallback: bool, rows: seq<Row>, n: int): Option<Slot> {
    if n > MaxNumber(v, rows) then None else Lookup(v, fallback, rows, 0, n)
  }

  /** What the player expects of a number: the row it is printed at. */
  function Expected(v: View, rows: seq<Row>, n: int): Option<Slot> {
    var lines := Listing(v, rows, 0);
    if 0 < n <= |lines| then Some(SlotOfLine(lines[n - 1])) else None
  }

  /** Every number printed is accepted and leads to its row, and every other number leads nowhere. */
  ghost predicate CommandInverts(v: View, fallback: bool, rows: seq<Row>) {
    forall n :: n > 0 ==> Command(v, fallback, rows, n) == Expected(v, rows, n)
  }

  /** The numbers a lookup passes in some rows. */
  function Passed(v: View, fallback: bool, rows: seq<Row>): nat {
    if rows == [] then 0
    else (if Counted(v, fallback, rows[0]) then rows[0].entry.levels else 0) + Passed(v, fallback, rows[1..])
  }

  lemma {:induction false} LookupConcat(v: View, fallback: bool, a: seq<Row>, b: seq<Row>, num: int, n: int)
    ensures var first := Lookup(v, fallback, a, num, n);
      Lookup(v, fallback, a + b, num, n) ==
      if first.Some? then first else Lookup(v, fallback, b, num + Passed(v, fallback, a), n)
  {
    if a == [] {
      assert a + b == b;
    } else {
      assert a + b == [a[0]] + (a[1..] + b) && a == [a[0]] + a[1..];
      LookupStep(v, fallback, a[0], a[1..] + b, num, n);
      LookupStep(v, fallback, a[0], a[1..], num, n);
      LookupConcat(v, fallback, a[1..], b, num + if Counted(v, fallback, a[0]) then a[0].entry.levels else 0, n);
    }
  }

  lemma {:induction false} PassedIsListed(v: View, fallback: bool, rows: seq<Row>, num: int)
    requires SameRows(v, fallback, rows)
    ensures Passed(v, fallback, rows) == |Listing(v, rows, num)|
  {
    if rows == [] {
    } else {
      SameRowsSplit(v, fallback, rows);
      BlockNumbers(rows[0], num + 1, 0);
      PassedIsListed(v, fallback, rows[1..], num + if Listed(v, rows[0]) then rows[0].entry.levels else 0);
    }
  }

  /** Rows that are treated alike, followed by others: numbers in their range lead where the listing says, and the
      next ones are looked up in the others. */
  lemma {:induction false} AgreesInPrefix(v: View, fallback: bool, a: seq<Row>, b: seq<Row>, n: int)
    requires SameRows(v, fallback, a)
    ensures var used := |Listing(v, a, 0)|;
      && (0 < n <= used ==> Lookup(v, fallback, a + b, 0, n) == Expected(v, a + b, n))
      && (n > used ==> Lookup(v, fallback, a + b, 0, n) == Lookup(v, fallback, b, used, n))
      && Listing(v, a + b, 0) == Listing(v, a, 0) + Listing(v, b, used)
  {
    ListingConcat(v, a, b, 0);
    PassedIsListed(v, fallback, a, 0);
    SameRowsInvert(v, fallback, a, 0);
    assert Agrees(v, fallback, a, 0, n);
    LookupConcat(v, fallback, a, b, 0, n);
  }

  /** A first row that only the lookup counts: its first number leads to it, and in the listing elsewhere. */
  lemma {:induction false} FirstRowUnlisted(v: View, fallback: bool, row: Row, rest: seq<Row>, num: int)
    requires Counted(v, fallback, row) && !Listed(v, row) && row.entry.levels > 0
    requires forall i :: 0 <= i < |rest| ==> !SamePlace(row, rest[i])
    ensures Lookup(v, fallback, [row] + rest, num, num + 1) == Some(SlotOf(row, num))
    ensures var lines := Listing(v, [row] + rest, num);
      lines == [] || SlotOfLine(lines[0]) != SlotOf(row, num)
  {
    LookupStep(v, fallback, row, rest, num, num + 1);
    ListingStep(v, row, rest, num);
    ListingIsNumbered(v, rest, num);
  }

  /** Up to a row that only the lookup counts, numbers lead where the listing says; the next number does not. */
  lemma {:induction false} AgreesUpTo(v: View, fallback: bool, rows: seq<Row>, i: nat, n: int)
    requires i < |rows| && DistinctRows(rows) && SameRows(v, fallback, rows[..i])
    requires Counted(v, fallback, rows[i]) && !Listed(v, rows[i]) && rows[i].entry.levels > 0
    ensures var used := |Listing(v, rows[..i], 0)|;
      && (0 < n <= used ==> Lookup(v, fallback, rows, 0, n) == Expected(v, rows, n))
      && Lookup(v, fallback, rows, 0, used + 1) != Expected(v, rows, used + 1)
      && used <= |Listing(v, rows, 0)|
  {
    var a, b := rows[..i], rows[i..];
    var used := |Listing(v, a, 0)|;
    assert rows == a + b && b == [rows[i]] + rows[i + 1..];
    AgreesInPrefix(v, fallback, a, b, n);
    AgreesInPrefix(v, fallback, a, b, used + 1);
    FirstRowUnlisted(v, fallback, rows[i], rows[i + 1..], used);
  }

  /** Where the lookup inverts the listing, the guard alone decides. */
  lemma GuardedInvertsIff(v: View, fallback: bool, rows: seq<Row>)
    requires Inverts(v, fallback, rows, 0)
    ensures CommandInverts(v, fallback, rows) <==> |Listing(v, rows, 0)| <= MaxNumber(v, rows)
  {
    var last := MaxNumber(v, rows);
    if |Listing(v, rows, 0)| > last {
      assert Command(v, fallback, rows, last + 1) != Expected(v, rows, last + 1);
    } else {
      forall n | n > 0 ensures Command(v, fallback, rows, n) == Expected(v, rows, n) {
        assert Agrees(v, fallback, rows, 0, n);
      }
    }
  }

  /** For "delete" and "set", which a questmaster gives, that is so exactly when the listing is no longer than
      maxAchievements. */
  lemma QuestmasterCommandInvertsIff(t: Tables, v: View)
    requires FiveTables(t) && v.questmaster
    ensures CommandInverts(v, false, AllRows(t)) <==> |Listing(v, AllRows(t), 0)| <= MaxNumber(v, AllRows(t))
  {
    QuestmasterLookupInverts(t, v);
    GuardedInvertsIff(v, false, AllRows(t));
  }

  /** The numbers printed before the i-th row. */
  function PrintedBefore(v: View, rows: seq<Row>, i: nat): nat
    requires i <= |rows|
  {
    |Listing(v, rows[..i], 0)|
  }

  lemma {:induction false} PrintedBeforeGrows(v: View, rows: seq<Row>, i: nat, j: nat)
    requires i <= j <= |rows|
    ensures PrintedBefore(v, rows, i) <= PrintedBefore(v, rows, j)
  {
    assert rows[..j] == rows[..i] + rows[i..j];
    ListingConcat(v, rows[..i], rows[i..j], 0);
  }

  /** The first disabled row with progress. */
  function FirstDisabled(v: View, rows: seq<Row>): (i: nat)
    ensures i <= |rows| && (i < |rows| ==> DisabledWithProgress(v, rows[i]))
    ensures forall j :: 0 <= j < i ==> !DisabledWithProgress(v, rows[j])
  {
    if rows == [] || DisabledWithProgress(v, rows[0]) then 0 else 1 + FirstDisabled(v, rows[1..])
  }

  /** With a disabled row that has progress, "spam" still works exactly when the guard keeps the player from ever
      reaching it. */
  lemma {:induction false} DisabledRowInvertsIff(v: View, rows: seq<Row>, i: nat)
    requires DistinctRows(rows) && i == FirstDisabled(v, rows) < |rows|
    ensures CommandInverts(v, true, rows) <==>
            |Listing(v, rows, 0)| <= MaxNumber(v, rows) <= PrintedBefore(v, rows, i)
  {
    var last, used := MaxNumber(v, rows), PrintedBefore(v, rows, i);
    AgreesUpTo(v, true, rows, i, 1);
    if last > used {
      assert Command(v, true, rows, used + 1) != Expected(v, rows, used + 1);
    } else if |Listing(v, rows, 0)| > last {
      assert Command(v, true, rows, last + 1) != Expected(v, rows, last + 1);
    } else {
      forall n | n > 0 ensures Command(v, true, rows, n) == Expected(v, rows, n) {
        AgreesUpTo(v, true, rows, i, n);
      }
    }
  }

  /** "achievements spam" accepts every printed number and finds its row, and nothing else, exactly when the listing
      is no longer than maxAchievements and no disabled row with progress comes before the last number accepted. */
  lemma {:induction false} SpamInvertsIff(t: Tables, v: View)
    requires FiveTables(t)
    ensures var rows, last := AllRows(t), MaxNumber(v, AllRows(t));
      CommandInverts(v, true, rows) <==>
      |Listing(v, rows, 0)| <= last
      && forall i :: 0 <= i < |rows| && DisabledWithProgress(v, rows[i]) ==> last <= PrintedBefore(v, rows, i)
  {
    var rows, last := AllRows(t), MaxNumber(v, AllRows(t));
    var first := FirstDisabled(v, rows);
    if first < |rows| {
      RowsDistinct(t, 0);
      DisabledRowInvertsIff(v, rows, first);
      forall i | first <= i < |rows| ensures PrintedBefore(v, rows, first) <= PrintedBefore(v, rows, i) {
        PrintedBeforeGrows(v, rows, first, i);
      }
    } else {
      SpamLookupInvertsIff(t, v);
      GuardedInvertsIff(v, true, rows);
    }
  }

  /** Without any disabled row: the only entry is of a class the player lacks and has progress; it is printed at
      number 1, but maxAchievements is 0 and "spam 1" is refused. */
  lemma {:induction false} SpamRefusesPrintedNumber()
    ensures var t, v := [[], [], [], [], [Entry(5, 1)]], View(_ => false, (_, _) => 1, false);
      && (forall i :: 0 <= i < |AllRows(t)| ==> !DisabledWithProgress(v, AllRows(t)[i]))
      && Listing(v, AllRows(t), 0) == [Line(1, Row(4, 0, Entry(5, 1)), 1)]
      && Command(v, true, AllRows(t), 1) == None
  {
    var t, v := [[], [], [], [], [Entry(5, 1)]], View(_ => false, (_, _) => 1, false);
    var row := Row(4, 0, Entry(5, 1));
    assert CategoryRows(t, 4, 0) == [row] + CategoryRows(t, 4, 1);
    assert RowsFrom(t, 1) == [] by {
      assert RowsFrom(t, 5) == [] && RowsFrom(t, 4) == [] && RowsFrom(t, 3) == [] && RowsFrom(t, 2) == [];
    }
    assert AllRows(t) == [row];
    ListingStep(v, row, [], 0);
    assert Block(row, 1, 0) == [Line(1, row, 1)];
    assert [row] + [] == [row] && MaxNumber(v, [row]) == 0;
  }
}
