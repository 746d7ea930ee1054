// What a SELECT answers, in order: the matching rows, sorted by the order terms, cut to
// the window, each shown by its selected columns.
module RowOrder {
  import opened Text
  import opened Order
  import opened Sql
  import opened SqlText
  import opened Crud

  // ---------- sorted rows ----------

  // By the first term in which they differ a comes before b.
  ghost predicate Before(a: Row, b: Row, order: seq<OrderTerm>) {
    exists k :: 0 <= k < |order| && Decides(a, b, order[k]) && forall j :: 0 <= j < k ==> Ties(a, b, order[j])
  }

  ghost predicate Ties(a: Row, b: Row, term: OrderTerm) {
    term.column in a && term.column in b ==> a[term.column] == b[term.column]
  }

  ghost predicate Decides(a: Row, b: Row, term: OrderTerm) {
    && term.column in a && term.column in b
    && match term.direction
       case Asc => Smaller(a[term.column], b[term.column])
       case Desc => Smaller(b[term.column], a[term.column])
  }

  // Numbers by size, texts by code points, false before true, null after everything.
  ghost predicate Smaller(x: Value, y: Value) {
    || (x.Num? && y.Num? && x.n < y.n)
    || (x.Str? && y.Str? && x.s != y.s && Leq(CodePoints, x.s, y.s))
    || (x == Bool(false) && y == Bool(true))
    || (x != Null && y == Null)
    || (x.Bool? && (y.Num? || y.Str?)) || (x.Num? && y.Str?)
  }

  lemma {:induction false} SmallerIs(x: Value, y: Value)
    ensures ValueLess(x, y) <==> Smaller(x, y)
  {
    hide Leq;
  }

  // Of two different values exactly one is smaller.
  lemma {:induction false} SmallerTotal(x: Value, y: Value)
    ensures Smaller(x, y) || Smaller(y, x) <==> x != y
    ensures !(Smaller(x, y) && Smaller(y, x))
  {
    hide Leq;
    if x.Str? && y.Str? {
      LeqTotal(CodePoints, x.s, y.s);
      if Leq(CodePoints, x.s, y.s) && Leq(CodePoints, y.s, x.s) {
        LeqAntisymmetric(CodePoints, x.s, y.s);
      }
    }
  }

  lemma {:induction false} SmallerTransitive(x: Value, y: Value, z: Value)
    requires Smaller(x, y) && Smaller(y, z)
    ensures Smaller(x, z)
  {
    hide Leq;
    if x.Str? && y.Str? && z.Str? {
      LeqTransitive(CodePoints, x.s, y.s, z.s);
      if x.s == z.s {
        LeqAntisymmetric(CodePoints, x.s, y.s);
      }
    }
  }

  lemma {:induction false} PrecedesIs(a: Row, b: Row, order: seq<OrderTerm>)
    ensures Precedes(a, b, order) <==> Before(a, b, order)
  {
    hide ValueLess, Smaller;
    if order != [] {
      var term, rest := order[0], order[1..];
      if term.column in a && term.column in b {
        SmallerIs(a[term.column], b[term.column]);
        SmallerIs(b[term.column], a[term.column]);
        SmallerTotal(a[term.column], b[term.column]);
      }
      PrecedesIs(a, b, rest);
      BeforeFirst(a, b, order);
    }
  }

  lemma {:induction false} BeforeFirst(a: Row, b: Row, order: seq<OrderTerm>)
    requires order != []
    ensures Before(a, b, order) <==> Decides(a, b, order[0]) || (Ties(a, b, order[0]) && Before(a, b, order[1..]))
  {
    hide Decides, Ties;
    var rest := order[1..];
    if Decides(a, b, order[0]) {
    } else if Ties(a, b, order[0]) && Before(a, b, rest) {
      var k :| 0 <= k < |rest| && Decides(a, b, rest[k]) && forall j :: 0 <= j < k ==> Ties(a, b, rest[j]);
      assert order[k + 1] == rest[k];
      assert forall j :: 0 < j < k + 1 ==> order[j] == rest[j - 1];
    } else if Before(a, b, order) {
      var k :| 0 <= k < |order| && Decides(a, b, order[k]) && forall j :: 0 <= j < k ==> Ties(a, b, order[j]);
      assert k > 0 && Decides(a, b, rest[k - 1]);
      assert forall j :: 0 <= j < k - 1 ==> rest[j] == order[j + 1];
    }
  }

  // Rows have the columns they are ordered by.
  ghost predicate Ordered(row: Row, order: seq<OrderTerm>) {
    forall i :: 0 <= i < |order| ==> order[i].column in row
  }

  lemma {:induction false} PrecedesNot(a: Row, b: Row, order: seq<OrderTerm>)
    ensures !(Precedes(a, b, order) && Precedes(b, a, order))
  {
    if order != [] {
      PrecedesNot(a, b, order[1..]);
      var c := order[0].column;
      if c in a && c in b {
        SmallerIs(a[c], b[c]);
        SmallerIs(b[c], a[c]);
        SmallerTotal(a[c], b[c]);
      }
      hide ValueLess, Smaller;
    }
  }

  // What does not come before does not come before what is later still.
  lemma {:induction false} NotBeforeTransitive(a: Row, b: Row, c: Row, order: seq<OrderTerm>)
    requires Ordered(a, order) && Ordered(b, order) && Ordered(c, order)
    requires !Precedes(b, a, order) && !Precedes(c, b, order)
    ensures !Precedes(c, a, order)
  {
    if order != [] {
      var rest, column := order[1..], order[0].column;
      var x, y, z := a[column], b[column], c[column];
      ThreeValues(x, y, z);
      ThreeValues(z, y, x);
      PrecedesFirst(b, a, order);
      PrecedesFirst(c, b, order);
      PrecedesFirst(c, a, order);
      hide ValueLess, Precedes;
      assert forall i :: 0 <= i < |rest| ==> rest[i] == order[i + 1];
      if !Precedes(b, a, rest) && !Precedes(c, b, rest) {
        NotBeforeTransitive(a, b, c, rest);
      }
    }
  }

  lemma {:induction false} PrecedesFirst(a: Row, b: Row, order: seq<OrderTerm>)
    requires order != [] && Ordered(a, order) && Ordered(b, order)
    ensures var x, y := a[order[0].column], b[order[0].column];
            Precedes(a, b, order) <==>
              if x == y then Precedes(a, b, order[1..])
              else if order[0].direction == Asc then ValueLess(x, y) else ValueLess(y, x)
  {
    ThreeValues(a[order[0].column], b[order[0].column], a[order[0].column]);
    hide ValueLess;
  }

  lemma {:induction false} ThreeValues(x: Value, y: Value, z: Value)
    ensures ValueLess(x, y) && ValueLess(y, z) ==> ValueLess(x, z)
    ensures ValueLess(x, y) || ValueLess(y, x) <==> x != y
    ensures !(ValueLess(x, y) && ValueLess(y, x)) && !(ValueLess(x, z) && ValueLess(z, x))
    ensures ValueLess(y, z) || ValueLess(z, y) <==> y != z
    ensures ValueLess(x, z) || ValueLess(z, x) <==> x != z
  {
    SmallerIs(x, y);
    SmallerIs(y, x);
    SmallerIs(y, z);
    SmallerIs(z, y);
    SmallerIs(x, z);
    SmallerIs(z, x);
    SmallerTotal(x, y);
    SmallerTotal(y, z);
    SmallerTotal(x, z);
    hide ValueLess, Smaller;
    if Smaller(x, y) && Smaller(y, z) {
      SmallerTransitive(x, y, z);
    }
  }

  // No row comes before one to its left.
  ghost predicate InOrder(rows: seq<Row>, order: seq<OrderTerm>) {
    forall i, j :: 0 <= i < j < |rows| ==> !Precedes(rows[j], rows[i], order)
  }

  ghost predicate AllOrdered(rows: seq<Row>, order: seq<OrderTerm>) {
    forall row :: row in rows ==> Ordered(row, order)
  }

  lemma {:induction false} InsertRowInOrder(row: Row, rows: seq<Row>, order: seq<OrderTerm>)
    requires InOrder(rows, order) && AllOrdered(rows, order) && Ordered(row, order)
    ensures InOrder(InsertRow(row, rows, order), order)
  {
    hide Precedes, Ordered;
    var r := InsertRow(row, rows, order);
    if rows == [] {
    } else if !Precedes(rows[0], row, order) {
      forall j | 0 <= j < |rows| ensures !Precedes(rows[j], row, order) {
        if j > 0 {
          assert rows[0] in rows && rows[j] in rows;
          NotBeforeTransitive(row, rows[0], rows[j], order);
        }
      }
    } else {
      var rest := InsertRow(row, rows[1..], order);
      assert forall x :: x in rows[1..] ==> x in rows;
      assert forall i, j :: 0 <= i < j < |rows[1..]| ==> rows[1..][i] == rows[i + 1] && rows[1..][j] == rows[j + 1];
      InsertRowInOrder(row, rows[1..], order);
      PrecedesNot(rows[0], row, order);
      forall j | 0 <= j < |rest| ensures !Precedes(rest[j], rows[0], order) {
        assert rest[j] in multiset(rest);
        assert rest[j] == row || rest[j] in multiset(rows[1..]);
        if rest[j] != row {
          var k :| 0 <= k < |rows[1..]| && rows[1..][k] == rest[j];
          assert rest[j] == rows[k + 1];
        }
      }
    }
  }

  lemma {:induction false} SortRowsInOrder(rows: seq<Row>, order: seq<OrderTerm>)
    requires AllOrdered(rows, order)
    ensures InOrder(SortRows(rows, order), order)
  {
    hide Precedes, Ordered, InsertRow;
    if rows != [] {
      var rest := SortRows(rows[1..], order);
      assert forall x :: x in rows[1..] ==> x in rows;
      SortRowsInOrder(rows[1..], order);
      forall x | x in rest ensures x in rows {
        assert x in multiset(rest) && x in multiset(rows[1..]);
      }
      InsertRowInOrder(rows[0], rest, order);
    }
  }

  // ---------- the answer to a SELECT ----------

  // Where the window starts and ends; a setting of 0 is none.
  ghost function Start(offset: Option<int>, n: nat): (lo: nat)
    ensures lo <= n
  {
    if offset.None? || offset.value <= 0 then 0 else if offset.value < n then offset.value else n
  }

  ghost function End(limit: Option<int>, lo: nat, n: nat): (hi: nat)
    requires lo <= n
    ensures lo <= hi <= n
  {
    if limit.Some? && limit.value > 0 && limit.value < n - lo then lo + limit.value else n
  }

  lemma {:induction false} WindowIs(rows: seq<Row>, limit: Option<int>, offset: Option<int>)
    requires !Negative(limit) && !Negative(offset)
    ensures var lo := Start(offset, |rows|); Window(rows, Count(limit), Count(offset)) == rows[lo..End(limit, lo, |rows|)]
  {
    var lo := Start(offset, |rows|);
    var hi := End(limit, lo, |rows|);
    var skipped := rows[lo..];
    assert skipped[..hi - lo] == rows[lo..hi];
    assert rows[lo..] == rows[lo..|rows|];
  }

  // The answer is cut from one arrangement of the matching rows, each as often as the
  // table has it, in which no row comes before one to its left.
  lemma {:induction false} SelectedInOrder(tables: Tables, name: string, columns: seq<string>, where: Record,
                                           order: seq<OrderTerm>, limit: Option<int>, offset: Option<int>)
    returns (sorted: seq<Row>)
    requires DirectSelect(tables, name, columns, where, order, limit, offset).Done?
    requires AllOrdered(tables[name].rows, order)
    ensures forall row :: multiset(sorted)[row] == if Matches(row, where) then multiset(tables[name].rows)[row] else 0
    ensures forall i, j :: 0 <= i < j < |sorted| ==> !Before(sorted[j], sorted[i], order)
    ensures var lo := Start(offset, |sorted|);
            Shows(DirectSelect(tables, name, columns, where, order, limit, offset).rows,
                  sorted[lo..End(limit, lo, |sorted|)], columns)
  {
    var rows := tables[name].rows;
    sorted := SortRows(Matching(rows, where, true), order);
    hide *;
    SortedMatching(rows, where, order);
    forall row ensures multiset(sorted)[row] == if Matches(row, where) then multiset(rows)[row] else 0 {
      MatchingCount(rows, where, row);
    }
    SelectRows(tables, name, columns, where, order, limit, offset);
    var lo := Start(offset, |sorted|);
    ShownFields(sorted[lo..End(limit, lo, |sorted|)], columns);
  }

  // Each row by the selected columns it has.
  ghost predicate Shows(shown: seq<Row>, rows: seq<Row>, columns: seq<string>) {
    && |shown| == |rows|
    && forall i, c :: 0 <= i < |rows| ==>
         && (c in shown[i] <==> c in columns && c in rows[i])
         && (c in shown[i] ==> shown[i][c] == rows[i][c])
  }

  lemma {:induction false} SelectRows(tables: Tables, name: string, columns: seq<string>, where: Record,
                                      order: seq<OrderTerm>, limit: Option<int>, offset: Option<int>)
    requires DirectSelect(tables, name, columns, where, order, limit, offset).Done?
    ensures var sorted := SortRows(Matching(tables[name].rows, where, true), order);
            var lo := Start(offset, |sorted|);
            DirectSelect(tables, name, columns, where, order, limit, offset).rows
            == ProjectAll(sorted[lo..End(limit, lo, |sorted|)], columns)
  {
    hide SortRows, Matching, ProjectAll, Window, Known, Keys, OrderColumns, Start, End;
    WindowIs(SortRows(Matching(tables[name].rows, where, true), order), limit, offset);
  }

  lemma {:induction false} SortedMatching(rows: seq<Row>, where: Record, order: seq<OrderTerm>)
    requires AllOrdered(rows, order)
    ensures var sorted := SortRows(Matching(rows, where, true), order);
            forall i, j :: 0 <= i < j < |sorted| ==> !Before(sorted[j], sorted[i], order)
  {
    hide Matches, Matching, Precedes, Before, Ordered, SortRows;
    var matching := Matching(rows, where, true);
    var sorted := SortRows(matching, order);
    SortRowsInOrder(matching, order);
    forall i, j | 0 <= i < j < |sorted| ensures !Before(sorted[j], sorted[i], order) {
      PrecedesIs(sorted[j], sorted[i], order);
    }
  }

  lemma {:induction false} ShownFields(rows: seq<Row>, columns: seq<string>)
    ensures Shows(ProjectAll(rows, columns), rows, columns)
  {
    hide ProjectAll;
  }

  lemma {:induction false} MatchingCount(rows: seq<Row>, where: Record, row: Row)
    ensures multiset(Matching(rows, where, true))[row] == if Matches(row, where) then multiset(rows)[row] else 0
  {
    hide Matches;
    if rows != [] {
      MatchingCount(rows[1..], where, row);
      assert rows == [rows[0]] + rows[1..];
    }
  }

  // A condition holds of a row that has the column with just that value, and of none if
  // the value is null.
  lemma {:induction false} MatchesWhen(row: Row, where: Record)
    ensures Matches(row, where) <==>
            forall column, value :: (column, value) in where ==> column in row && row[column] == value && value != Null
  {
    if forall column, value :: (column, value) in where ==> column in row && row[column] == value && value != Null {
      forall i | 0 <= i < |where| ensures where[i].0 in row && Equal(row[where[i].0], where[i].1) {
        assert (where[i].0, where[i].1) in where;
      }
    }
  }
}
