// What a select shows never shrinks when the user gains roles or signs in, exactly
// when that could fail, and what mutations show that a select hides.
module RoleMonotonicity {
  import opened Text
  import opened Order
  import opened Sql
  import opened SqlText
  import opened Permissions
  import opened Crud

  // where without its entry for the column.
  function Without(where: Record, column: string): (r: Record)
    ensures forall e :: e in r <==> e in where && e.0 != column
  {
    if where == [] then []
    else if where[0].0 == column then Without(where[1..], column)
    else [where[0]] + Without(where[1..], column)
  }

  ghost predicate Satisfies(row: Row, entry: (string, Value)) {
    entry.0 in row && Equal(row[entry.0], entry.1)
  }

  lemma {:induction false} MatchesEntries(row: Row, where: Record)
    ensures Matches(row, where) <==> forall e :: e in where ==> Satisfies(row, e)
  {
    if Matches(row, where) {
      forall e | e in where ensures Satisfies(row, e) {
        var i :| 0 <= i < |where| && where[i] == e;
      }
    } else {
      var i :| 0 <= i < |where| && !(where[i].0 in row && Equal(row[where[i].0], where[i].1));
      assert where[i] in where && !Satisfies(row, where[i]);
    }
  }

  lemma {:induction false} PutEntries(where: Record, column: string, value: Value)
    requires Distinct(Keys(where))
    ensures forall e :: e in Put(where, column, value) <==> e == (column, value) || e in Without(where, column)
  {
    if where != [] {
      assert Keys(where)[1..] == Keys(where[1..]);
      PutEntries(where[1..], column, value);
      if where[0].0 == column {
        forall e | e in where[1..] ensures e.0 != column {
          var j :| 0 <= j < |where[1..]| && where[1..][j] == e;
          KeyAt(where, 0);
          KeyAt(where, j + 1);
        }
      }
    }
  }

  lemma {:induction false} KeyAt(where: Record, i: nat)
    requires i < |where|
    ensures Keys(where)[i] == where[i].0
  {
    if i > 0 {
      KeyAt(where[1..], i - 1);
    }
  }

  // The filter replaces the client's condition on the owner column: the rows are
  // those the user owns that meet the client's other conditions.
  lemma {:induction false} FilterMeaning(row: Row, where: Record, column: string, value: Value)
    requires Distinct(Keys(where))
    ensures Matches(row, Put(where, column, value)) <==>
            Satisfies(row, (column, value)) && Matches(row, Without(where, column))
  {
    PutEntries(where, column, value);
    MatchesEntries(row, Put(where, column, value));
    MatchesEntries(row, Without(where, column));
  }

  // The client's map leaves the owner column alone, names the user there, or can
  // match nothing because it asks for another column to equal null.
  predicate Harmless(where: Record, column: string, id: string) {
    || (forall e :: e in where && e.0 == column ==> e.1 == Str(id))
    || (exists e :: e in where && e.0 != column && e.1 == Null)
  }

  function RowOf(record: Record): Row
    decreases |record|
  {
    if record == [] then map[] else RowOf(record[1..])[record[0].0 := record[0].1]
  }

  lemma {:induction false} RowOfEntries(record: Record)
    requires Distinct(Keys(record))
    ensures forall e :: e in record ==> e.0 in RowOf(record) && RowOf(record)[e.0] == e.1
  {
    if record != [] {
      assert Keys(record)[1..] == Keys(record[1..]);
      RowOfEntries(record[1..]);
      forall e | e in record ensures e.0 in RowOf(record) && RowOf(record)[e.0] == e.1 {
        if e != record[0] {
          var j :| 0 <= j < |record[1..]| && record[1..][j] == e;
          KeyAt(record, 0);
          KeyAt(record, j + 1);
        }
      }
    }
  }

  // Dropping the row filter shows at least the same rows, in every table, exactly
  // for harmless where maps.
  lemma {:induction false} UnfilteredShowsMore(where: Record, column: string, id: string)
    requires Distinct(Keys(where))
    ensures Harmless(where, column, id) <==>
            forall row :: Matches(row, Put(where, column, Str(id))) ==> Matches(row, where)
  {
    forall row ensures Matches(row, Put(where, column, Str(id))) <==>
                       Satisfies(row, (column, Str(id))) && forall e :: e in Without(where, column) ==> Satisfies(row, e)
    {
      FilterMeaning(row, where, column, Str(id));
      MatchesEntries(row, Without(where, column));
    }
    forall row ensures Matches(row, where) <==> forall e :: e in where ==> Satisfies(row, e) {
      MatchesEntries(row, where);
    }
    if !Harmless(where, column, id) {
      var row := RowOf(where)[column := Str(id)];
      RowOfEntries(where);
      assert Satisfies(row, (column, Str(id)));
      forall e | e in Without(where, column) ensures Satisfies(row, e) {
        assert e in where && e.0 != column;
      }
      assert Matches(row, Put(where, column, Str(id)));
      var e :| e in where && e.0 == column && e.1 != Str(id);
      assert !Satisfies(row, e);
      assert !Matches(row, where);
    }
  }

  // ---------- whole select requests ----------

  ghost predicate Within(small: Row, large: Row) {
    forall c :: c in small ==> c in large && large[c] == small[c]
  }

  // A limit or offset of 0 is none.
  predicate Unlimited(count: Option<int>) {
    count.None? || count.value == 0
  }

  // Every row has a value, null perhaps, for every column of its table.
  ghost predicate Filled(tables: Tables, name: string) {
    name in tables ==> forall row :: row in tables[name].rows ==> forall c :: c in tables[name].columns ==> c in row
  }

  // What a user is answered to a select, by running the text it is compiled to.
  function Answer(config: Config, user: Option<User>, tables: Tables, table: string, request: Request): Response {
    ServeText(config, user, tables, table, request).1
  }

  // If a select answers a user, the same select answers anyone at least as trusted,
  // with at least the same columns. With a harmless where map it shows that person at
  // least as many rows, and, without limit and offset, every row it showed before.
  lemma {:induction false} SelectMonotone(config: Config, a: Option<User>, b: Option<User>, tables: Tables, table: string,
                                          where: Option<Record>, select: Option<seq<string>>, order: seq<OrderTerm>,
                                          limit: Option<int>, offset: Option<int>)
    requires AtLeast(b, a) && PlainNames(config, tables, table, SelectRequest(where, select, order, limit, offset))
    requires Answer(config, a, tables, table, SelectRequest(where, select, order, limit, offset)).Rows?
    ensures Answer(config, b, tables, table, SelectRequest(where, select, order, limit, offset)).Rows?
    ensures var request := SelectRequest(where, select, order, limit, offset);
            Filled(tables, table) ==>
              forall r, r' | r in Answer(config, a, tables, table, request).rows && r' in Answer(config, b, tables, table, request).rows
                :: r.Keys <= r'.Keys
    ensures var request := SelectRequest(where, select, order, limit, offset);
            && (where.Some? ==> Distinct(Keys(where.value)))
            && (where.Some? && a.Some? ==> Harmless(where.value, OwnerColumn(config, table), a.value.id))
            ==> |Answer(config, a, tables, table, request).rows| <= |Answer(config, b, tables, table, request).rows|
    ensures var request := SelectRequest(where, select, order, limit, offset);
            && Unlimited(limit) && Unlimited(offset)
            && (where.Some? ==> Distinct(Keys(where.value)))
            && (where.Some? && a.Some? ==> Harmless(where.value, OwnerColumn(config, table), a.value.id))
            ==> forall r :: r in Answer(config, a, tables, table, request).rows ==>
                  exists r' :: r' in Answer(config, b, tables, table, request).rows && Within(r, r')
  {
    hide ServeText, ServeSelect, PlainNames, AtLeast, Harmless, Distinct, Within, Keys;
    var request := SelectRequest(where, select, order, limit, offset);
    CompiledMeaning(config, a, tables, table, request);
    CompiledMeaning(config, b, tables, table, request);
    StillAnswered(config, a, b, tables, table, where, select, order, limit, offset);
    if (where.Some? ==> Distinct(Keys(where.value)))
      && (where.Some? && a.Some? ==> Harmless(where.value, OwnerColumn(config, table), a.value.id))
    {
      AsManyShown(config, a, b, tables, table, where, select, order, limit, offset);
      if Unlimited(limit) && Unlimited(offset) {
        WithoutWindow(config, a, tables, table, where, select, order, limit, offset);
        WithoutWindow(config, b, tables, table, where, select, order, limit, offset);
        StillShownTo(config, a, b, tables, table, where, select, order);
      }
    }
  }

  lemma {:induction false} WithoutWindow(config: Config, user: Option<User>, tables: Tables, table: string, where: Option<Record>,
                                         select: Option<seq<string>>, order: seq<OrderTerm>, limit: Option<int>, offset: Option<int>)
    requires Unlimited(limit) && Unlimited(offset)
    ensures ServeSelect(config, user, tables, table, where, select, order, limit, offset)
         == ServeSelect(config, user, tables, table, where, select, order, None, None)
  {
    hide CheckTable, Having, ApplyRls, Matching, SortRows;
  }

  // In a filled table every answered row has just the columns selected.
  lemma {:induction false} AnswerColumns(tables: Tables, table: string, columns: seq<string>, where: Record, order: seq<OrderTerm>,
                                         limit: Option<int>, offset: Option<int>, r: Row)
    requires DirectSelect(tables, table, columns, where, order, limit, offset).Done? && Filled(tables, table)
    requires r in DirectSelect(tables, table, columns, where, order, limit, offset).rows
    ensures r.Keys == Elements(columns)
  {
    var row := SelectedFrom(tables, table, columns, where, order, limit, offset, r);
    hide Matches, Matching, SortRows, Window, ProjectAll;
    assert forall c :: c in columns ==> c in row;
  }

  // The same select of two users, the second of them at least as trusted.
  lemma {:induction false} StillAnswered(config: Config, a: Option<User>, b: Option<User>, tables: Tables, table: string,
                                         where: Option<Record>, select: Option<seq<string>>, order: seq<OrderTerm>,
                                         limit: Option<int>, offset: Option<int>)
    requires AtLeast(b, a) && ServeSelect(config, a, tables, table, where, select, order, limit, offset).1.Rows?
    ensures ServeSelect(config, b, tables, table, where, select, order, limit, offset).1.Rows?
    ensures Filled(tables, table) ==>
              forall r, r' | r in ServeSelect(config, a, tables, table, where, select, order, limit, offset).1.rows
                             && r' in ServeSelect(config, b, tables, table, where, select, order, limit, offset).1.rows
                :: r.Keys <= r'.Keys
  {
    hide Matches, Matching, SortRows, ColumnVerdict, HasRole, CheckTable, AtLeast, Put, Having, Filled;
    var columns := ColumnsToCheck(ColumnList(tables, table), select);
    var open := select.None?;
    var colsA := Having(config, table, a, open, columns, Keep);
    var colsB := Having(config, table, b, open, columns, Keep);
    CheckTableMonotone(config, table, SelectOp, a, b);
    KeptColumnsMonotone(config, table, a, b, open, columns);
    var whereA := ApplyRls(where, CheckTable(config, table, SelectOp, a).filter);
    var whereB := ApplyRls(where, CheckTable(config, table, SelectOp, b).filter);
    assert forall k :: k in Keys(whereB) ==> k in Keys(whereA);
    assert colsA[0] in colsB;
    KnownColumns(config, table, a, b, open, columns, tables[table]);
    assert DirectSelect(tables, table, colsB, whereB, order, limit, offset).Done?;
    hide DirectSelect, Keys, ApplyRls;
    if Filled(tables, table) {
      forall r, r' | r in DirectSelect(tables, table, colsA, whereA, order, limit, offset).rows
                     && r' in DirectSelect(tables, table, colsB, whereB, order, limit, offset).rows
        ensures r.Keys <= r'.Keys
      {
        AnswerColumns(tables, table, colsA, whereA, order, limit, offset, r);
        AnswerColumns(tables, table, colsB, whereB, order, limit, offset, r');
      }
    }
  }

  lemma {:induction false} MoreMatching(rows: seq<Row>, few: Record, many: Record)
    requires forall row :: Matches(row, few) ==> Matches(row, many)
    ensures |Matching(rows, few, true)| <= |Matching(rows, many, true)|
  {
    hide Matches;
    if rows != [] {
      MoreMatching(rows[1..], few, many);
    }
  }

  lemma {:induction false} LongerWindow(few: seq<Row>, many: seq<Row>, limit: Option<nat>, offset: Option<nat>)
    requires |few| <= |many|
    ensures |Window(few, limit, offset)| <= |Window(many, limit, offset)|
  {
  }

  lemma {:induction false} SortedLength(rows: seq<Row>, order: seq<OrderTerm>)
    ensures |SortRows(rows, order)| == |rows|
  {
    hide SortRows;
    assert |SortRows(rows, order)| == |multiset(SortRows(rows, order))| && |rows| == |multiset(rows)|;
  }

  lemma {:induction false} AsManyShown(config: Config, a: Option<User>, b: Option<User>, tables: Tables, table: string,
                                       where: Option<Record>, select: Option<seq<string>>, order: seq<OrderTerm>,
                                       limit: Option<int>, offset: Option<int>)
    requires AtLeast(b, a)
    requires where.Some? ==> Distinct(Keys(where.value))
    requires where.Some? && a.Some? ==> Harmless(where.value, OwnerColumn(config, table), a.value.id)
    requires ServeSelect(config, a, tables, table, where, select, order, limit, offset).1.Rows?
    requires ServeSelect(config, b, tables, table, where, select, order, limit, offset).1.Rows?
    ensures |ServeSelect(config, a, tables, table, where, select, order, limit, offset).1.rows|
         <= |ServeSelect(config, b, tables, table, where, select, order, limit, offset).1.rows|
  {
    hide Matches, Matching, SortRows, Window, Harmless, Having, CheckTable, AtLeast, ApplyRls, Keys, Distinct;
    var whereA := ApplyRls(where, CheckTable(config, table, SelectOp, a).filter);
    var whereB := ApplyRls(where, CheckTable(config, table, SelectOp, b).filter);
    WiderWhere(config, table, a, b, where);
    var rows := tables[table].rows;
    MoreMatching(rows, whereA, whereB);
    SortedLength(Matching(rows, whereA, true), order);
    SortedLength(Matching(rows, whereB, true), order);
    LongerWindow(SortRows(Matching(rows, whereA, true), order), SortRows(Matching(rows, whereB, true), order), Count(limit), Count(offset));
  }

  lemma {:induction false} StillShownTo(config: Config, a: Option<User>, b: Option<User>, tables: Tables, table: string,
                                          where: Option<Record>, select: Option<seq<string>>, order: seq<OrderTerm>)
    requires AtLeast(b, a)
    requires where.Some? ==> Distinct(Keys(where.value))
    requires where.Some? && a.Some? ==> Harmless(where.value, OwnerColumn(config, table), a.value.id)
    requires ServeSelect(config, a, tables, table, where, select, order, None, None).1.Rows?
    ensures ServeSelect(config, b, tables, table, where, select, order, None, None).1.Rows?
    ensures forall r :: r in ServeSelect(config, a, tables, table, where, select, order, None, None).1.rows ==>
              exists r' :: r' in ServeSelect(config, b, tables, table, where, select, order, None, None).1.rows && Within(r, r')
  {
    hide Matches, SortRows, Harmless, Put, ColumnVerdict, HasRole, CheckTable, AtLeast, ApplyRls;
    StillAnswered(config, a, b, tables, table, where, select, order, None, None);
    var columns := ColumnsToCheck(ColumnList(tables, table), select);
    var open := select.None?;
    var colsA := Having(config, table, a, open, columns, Keep);
    var colsB := Having(config, table, b, open, columns, Keep);
    KeptColumnsMonotone(config, table, a, b, open, columns);
    var whereA := ApplyRls(where, CheckTable(config, table, SelectOp, a).filter);
    var whereB := ApplyRls(where, CheckTable(config, table, SelectOp, b).filter);
    WiderWhere(config, table, a, b, where);
    forall r | r in DirectSelect(tables, table, colsA, whereA, order, None, None).rows
      ensures exists r' :: r' in DirectSelect(tables, table, colsB, whereB, order, None, None).rows && Within(r, r')
    {
      StillShown(tables, table, colsA, colsB, whereA, whereB, order, r);
    }
  }

  lemma {:induction false} WiderWhere(config: Config, table: string, a: Option<User>, b: Option<User>, where: Option<Record>)
    requires AtLeast(b, a) && CheckTable(config, table, SelectOp, a).Allowed?
    requires where.Some? ==> Distinct(Keys(where.value))
    requires where.Some? && a.Some? ==> Harmless(where.value, OwnerColumn(config, table), a.value.id)
    ensures CheckTable(config, table, SelectOp, b).Allowed?
    ensures var whereA := ApplyRls(where, CheckTable(config, table, SelectOp, a).filter);
            var whereB := ApplyRls(where, CheckTable(config, table, SelectOp, b).filter);
            forall row :: Matches(row, whereA) ==> Matches(row, whereB)
  {
    hide Matches, Harmless;
    CheckTableMonotone(config, table, SelectOp, a, b);
    var base := OrElse(where, Some([])).value;
    if a.Some? {
      assert where.None? ==> Harmless(base, OwnerColumn(config, table), a.value.id) by {
        EmptyIsHarmless(OwnerColumn(config, table), a.value.id);
      }
      UnfilteredShowsMore(base, OwnerColumn(config, table), a.value.id);
    }
  }

  lemma {:induction false} EmptyIsHarmless(column: string, id: string)
    ensures Harmless([], column, id)
  {
  }

  lemma {:induction false} KnownColumns(config: Config, table: string, a: Option<User>, b: Option<User>, open: bool,
                                        columns: seq<string>, t: Table)
    requires Known(Having(config, table, a, open, columns, Keep), t)
    requires open ==> columns == t.columns
    requires !open ==> Having(config, table, a, open, columns, Deny) == []
    ensures Known(Having(config, table, b, open, columns, Keep), t)
  {
    forall c | c in columns && !open ensures c in Having(config, table, a, open, columns, Keep) {
      assert c !in Having(config, table, a, open, columns, Deny);
    }
  }

  lemma {:induction false} StillShown(tables: Tables, table: string, colsA: seq<string>, colsB: seq<string>,
                                      whereA: Record, whereB: Record, order: seq<OrderTerm>, r: Row)
    requires DirectSelect(tables, table, colsA, whereA, order, None, None).Done?
    requires DirectSelect(tables, table, colsB, whereB, order, None, None).Done?
    requires r in DirectSelect(tables, table, colsA, whereA, order, None, None).rows
    requires forall c :: c in colsA ==> c in colsB
    requires forall row :: Matches(row, whereA) ==> Matches(row, whereB)
    ensures exists r' :: r' in DirectSelect(tables, table, colsB, whereB, order, None, None).rows && Within(r, r')
  {
    hide Matches, DirectSelect;
    var row := SelectedFrom(tables, table, colsA, whereA, order, None, None, r);
    AllSelected(tables, table, colsB, whereB, order, row);
    assert Within(r, Project(row, colsB));
  }

  // A where map that names someone else in the owner column: the filter shows the
  // user their own row, and the same user as an admin is shown nothing.
  const NOTES := Config(None, Some(map["notes" := TablePermissions(Some(["owner", "admin"]), None, None, None, None)]))
  const NOTE: Row := map["user_id" := Str("a")]
  const STORED: Tables := map["notes" := Table(["user_id"], map[], [NOTE])]
  const ASKED := SelectRequest(Some([("user_id", Str("b"))]), None, [], None, None)

  lemma {:induction false} NamingTheOwnerColumnCanShrink()
    ensures AtLeast(Some(User("a", ["admin"])), Some(User("a", [])))
    ensures Answer(NOTES, Some(User("a", [])), STORED, "notes", ASKED) == Rows([NOTE])
    ensures Answer(NOTES, Some(User("a", ["admin"])), STORED, "notes", ASKED) == Rows([])
  {
    NotesPlain();
    CompiledMeaning(NOTES, Some(User("a", [])), STORED, "notes", ASKED);
    CompiledMeaning(NOTES, Some(User("a", ["admin"])), STORED, "notes", ASKED);
    hide ServeText, PlainNames, DirectSelect, Having, CheckTable, ApplyRls, STORED, NOTES;
    NotesChecks();
    NotesColumns(Some(User("a", [])));
    NotesColumns(Some(User("a", ["admin"])));
    NotesRows("a");
    NotesRows("b");
  }

  // With a limit the rows shown can be others: the first of the user's own, and the
  // first of all.
  const TWO: Tables := map["notes" := Table(["user_id"], map[], [OTHER, NOTE])]
  const OTHER: Row := map["user_id" := Str("b")]
  const FIRST := SelectRequest(None, None, [], Some(1), None)

  lemma {:induction false} LimitCanHideRows()
    ensures Answer(NOTES, Some(User("a", [])), TWO, "notes", FIRST) == Rows([NOTE])
    ensures Answer(NOTES, Some(User("a", ["admin"])), TWO, "notes", FIRST) == Rows([OTHER])
  {
    TwoPlain();
    CompiledMeaning(NOTES, Some(User("a", [])), TWO, "notes", FIRST);
    CompiledMeaning(NOTES, Some(User("a", ["admin"])), TWO, "notes", FIRST);
    hide ServeText, PlainNames, DirectSelect, Having, CheckTable, ApplyRls, STORED, TWO, NOTES, NOTE, OTHER;
    NotesChecks();
    FirstWhere();
    NotesColumns(Some(User("a", [])));
    NotesColumns(Some(User("a", ["admin"])));
    TwoRows();
  }

  lemma {:induction false} FirstWhere()
    ensures ApplyRls(None, Some(RlsFilter("user_id", "a"))) == [("user_id", Str("a"))] && ApplyRls(None, None) == []
    ensures ColumnList(TWO, "notes") == ["user_id"]
  {
  }

  lemma {:induction false} TwoPlain()
    ensures PlainNames(NOTES, TWO, "notes", FIRST)
  {
    NotesPlain();
  }

  lemma {:induction false} TwoRows()
    ensures DirectSelect(TWO, "notes", ["user_id"], [("user_id", Str("a"))], [], Some(1), None) == Done(TWO, [NOTE])
    ensures DirectSelect(TWO, "notes", ["user_id"], [], [], Some(1), None) == Done(TWO, [OTHER])
  {
    TwoMatching();
    TwoShown();
    assert Keys([("user_id", Str("a"))]) == ["user_id"];
    assert Known(["user_id"], TWO["notes"]);
    hide Matching, SortRows, Window, ProjectAll, NOTE, OTHER;
  }

  lemma {:induction false} TwoMatching()
    ensures Matching([OTHER, NOTE], [("user_id", Str("a"))], true) == [NOTE]
    ensures Matching([OTHER, NOTE], [], true) == [OTHER, NOTE]
  {
    var where: Record := [("user_id", Str("a"))];
    assert where[0] == ("user_id", Str("a"));
    assert Matches(NOTE, where) && !Matches(OTHER, where);
    assert Matches(NOTE, []) && Matches(OTHER, []);
    hide Matches;
    assert [OTHER, NOTE][1..] == [NOTE] && [NOTE][1..] == [];
    assert Matching([], where, true) == [] && Matching([NOTE], where, true) == [NOTE];
    assert Matching([], [], true) == [] && Matching([NOTE], [], true) == [NOTE];
  }

  lemma {:induction false} TwoShown()
    ensures SortRows([NOTE], []) == [NOTE] && SortRows([OTHER, NOTE], []) == [OTHER, NOTE]
    ensures Window([NOTE], Some(1), None) == [NOTE] && Window([OTHER, NOTE], Some(1), None) == [OTHER]
    ensures ProjectAll([NOTE], ["user_id"]) == [NOTE] && ProjectAll([OTHER], ["user_id"]) == [OTHER]
  {
    ProjectedWhole(NOTE);
    ProjectedWhole(OTHER);
    hide ProjectAll, NOTE, OTHER;
    Unordered(OTHER, NOTE);
    hide SortRows;
  }

  lemma {:induction false} ProjectedWhole(row: Row)
    requires row.Keys == {"user_id"}
    ensures ProjectAll([row], ["user_id"]) == [row]
  {
    assert Project(row, ["user_id"]) == row;
    assert [row][1..] == [];
  }

  lemma {:induction false} Unordered(x: Row, y: Row)
    ensures SortRows([y], []) == [y] && SortRows([x, y], []) == [x, y]
  {
    assert [x, y][1..] == [y] && [y][1..] == [];
    assert SortRows([], []) == [];
    assert SortRows([y], []) == InsertRow(y, [], []);
  }

  lemma {:induction false} NotesPlain()
    ensures PlainNames(NOTES, STORED, "notes", ASKED)
  {
    Unreserved("notes");
    Unreserved("user_id");
    hide IsReserved;
    assert IsIdentifier("notes") && IsIdentifier("user_id");
  }

  // Words that no reserved word is, by length and first letter.
  lemma {:induction false} Unreserved(w: string)
    requires (|w| == 5 && (w[0] == 'n' || w[0] == 'p')) || (|w| == 7 && w[0] == 'u')
    ensures !IsReserved(w)
  {
  }

  lemma {:induction false} NotesChecks()
    ensures CheckTable(NOTES, "notes", SelectOp, Some(User("a", []))) == Allowed(Some(RlsFilter("user_id", "a")))
    ensures CheckTable(NOTES, "notes", SelectOp, Some(User("a", ["admin"]))) == Allowed(None)
    ensures ApplyRls(ASKED.where, Some(RlsFilter("user_id", "a"))) == [("user_id", Str("a"))]
    ensures ApplyRls(ASKED.where, None) == [("user_id", Str("b"))]
  {
    var roles := ["owner", "admin"];
    assert TableRoles(NOTES, "notes", SelectOp) == roles;
    assert |"owner"| == 5 && |"admin"| == 5 && "owner"[0] == 'o' && "admin"[0] == 'a';
    assert |"public"| == 6 && |"authenticated"| == 13;
    assert roles[0] in roles && roles[1] in roles && ["admin"][0] in ["admin"];
  }

  lemma {:induction false} NotesColumns(user: Option<User>)
    requires user.Some?
    ensures ColumnList(STORED, "notes") == ["user_id"]
    ensures Having(NOTES, "notes", user, true, ["user_id"], Keep) == ["user_id"]
    ensures Having(NOTES, "notes", user, true, ["user_id"], Deny) == []
  {
    assert "user_id"[0] == 'u' && "s_"[0] == 's' && "c_"[0] == 'c' && "p_"[0] == 'p' && "_"[0] == '_';
    assert ParseColumnPrefix("user_id") == Plain;
    var roles := ["authenticated"];
    assert GetColumnPermissions(NOTES, "notes", "user_id").select == Some(roles);
    assert roles[0] in roles && HasRole(user, roles[0]);
    assert ColumnAllowed(NOTES, "notes", "user_id", SelectOp, user);
    assert ["user_id"][1..] == [];
  }

  lemma {:induction false} NotesRows(id: string)
    ensures DirectSelect(STORED, "notes", ["user_id"], [("user_id", Str(id))], [], None, None)
         == Done(STORED, if id == "a" then [NOTE] else [])
  {
    var where: Record := [("user_id", Str(id))];
    assert where[0] == ("user_id", Str(id)) && where[1..] == [];
    assert Matches(NOTE, where) == (id == "a");
    assert [NOTE][1..] == [] && [NOTE][0] == NOTE;
    assert Matching([], where, true) == [];
    assert Matching([NOTE], where, true) == if id == "a" then [NOTE] else [];
    assert SortRows([], []) == [] && SortRows([NOTE], []) == [NOTE];
    assert Project(NOTE, ["user_id"]) == NOTE;
    assert ProjectAll([NOTE], ["user_id"]) == [NOTE];
    assert Keys(where) == ["user_id"];
    assert Known(["user_id"], STORED["notes"]);
  }

  // The documentation lets an owner read the s_ columns of their own row. The code
  // asks for a role: ownership of the row plays no part.
  lemma {:induction false} SensitiveColumnsNeedARole(config: Config, table: string, column: string, user: Option<User>)
    requires "s_" <= column
    requires Lookup(config.tables, table).Some? ==> Lookup(Lookup(config.tables, table).value.columns, column).None?
    ensures ColumnAllowed(config, table, column, SelectOp, user) <==>
            user.Some? && ("owner" in user.value.roles || "admin" in user.value.roles)
  {
    assert ParseColumnPrefix(column) == Sensitive;
    var roles := ["owner", "admin"];
    assert GetColumnPermissions(config, table, column).select == Some(roles);
    assert |"public"| == 6 && |"authenticated"| == 13 && |"owner"| == 5 && |"admin"| == 5;
    assert roles[0] in roles && roles[1] in roles;
    assert forall r :: r in roles ==> HasRole(user, r) == (user.Some? && r in user.value.roles);
  }

  // ---------- what mutations return ----------

  // The row a mutation starts from: the defaults, or a row its where map selects.
  ghost predicate Touched(config: Config, user: Option<User>, tables: Tables, table: string, request: Request, row: Row)
    requires table in tables
  {
    match request
    case SelectRequest(_, _, _, _, _) => false
    case InsertRequest(_) => row == tables[table].defaults
    case UpdateRequest(where, _) =>
      var check := CheckTable(config, table, UpdateOp, user);
      check.Allowed? && row in tables[table].rows && Matches(row, ApplyRls(where, check.filter))
    case DeleteRequest(where) =>
      var check := CheckTable(config, table, DeleteOp, user);
      check.Allowed? && row in tables[table].rows && Matches(row, ApplyRls(where, check.filter))
  }

  function Written(request: Request): seq<string> {
    if request.InsertRequest? || request.UpdateRequest? then Keys(request.data) else []
  }

  lemma {:induction false} PatchKeeps(row: Row, data: Record, column: string)
    requires column in row
    ensures column in Patch(row, data) && (column !in Keys(data) ==> Patch(row, data)[column] == row[column])
    decreases |data|
  {
    if data != [] {
      PatchKeeps(row[data[0].0 := data[0].1], data[1..], column);
    }
  }

  lemma {:induction false} PatchColumns(row: Row, data: Record, column: string)
    ensures column in Patch(row, data) <==> column in row || column in Keys(data)
    decreases |data|
  {
    if data != [] {
      PatchColumns(row[data[0].0 := data[0].1], data[1..], column);
    }
  }

  // What a mutation makes of a row it touches, and returns.
  function Shows(request: Request, row: Row): Row {
    if request.InsertRequest? || request.UpdateRequest? then Patch(row, request.data) else row
  }

  // An answered mutation returns just the rows it touches, whole and as it leaves them.
  lemma {:induction false} MutationsReturnTouched(config: Config, user: Option<User>, tables: Tables, table: string, request: Request)
    requires PlainNames(config, tables, table, request) && !request.SelectRequest?
    requires Answer(config, user, tables, table, request).Rows?
    ensures table in tables
    ensures forall r :: r in Answer(config, user, tables, table, request).rows <==>
                        exists row :: Touched(config, user, tables, table, request, row) && r == Shows(request, row)
  {
    hide ServeText, PlainNames, CheckTable, CheckCrud, ApplyRls, Matches, OwnerColumn, Patch;
    CompiledMeaning(config, user, tables, table, request);
    var rows := Answer(config, user, tables, table, request).rows;
    match request {
      case InsertRequest(data) =>
        var row := tables[table].defaults;
        assert rows == [Patch(row, data)];
        assert Touched(config, user, tables, table, request, row);
      case UpdateRequest(where, data) =>
        UpdateFilter(config, table, user, data);
        var hits := Matching(tables[table].rows, ApplyRls(where, CheckTable(config, table, UpdateOp, user).filter), true);
        assert rows == Patched(hits, data);
        assert forall row :: row in hits <==> Touched(config, user, tables, table, request, row);
        forall r ensures r in rows <==> exists row :: row in hits && r == Patch(row, data) {
          PatchedElements(hits, data, r);
        }
      case DeleteRequest(where) =>
        var hits := Matching(tables[table].rows, ApplyRls(where, CheckTable(config, table, DeleteOp, user).filter), true);
        assert rows == hits;
        assert forall row :: row in hits <==> Touched(config, user, tables, table, request, row);
    }
  }

  lemma {:induction false} PatchedElements(hits: seq<Row>, data: Record, r: Row)
    ensures r in Patched(hits, data) <==> exists row :: row in hits && r == Patch(row, data)
  {
    hide Patch;
    if row :| row in hits && r == Patch(row, data) {
      var i :| 0 <= i < |hits| && hits[i] == row;
      assert Patched(hits, data)[i] == r;
    }
    if r in Patched(hits, data) {
      var i :| 0 <= i < |hits| && Patched(hits, data)[i] == r;
      assert hits[i] in hits;
    }
  }

  // RETURNING * is not filtered. An answered mutation returns a restricted column if
  // and only if a row it touches has one, or it touches a row and writes one.
  lemma {:induction false} MutationsReturnRestricted(config: Config, user: Option<User>, tables: Tables, table: string, request: Request)
    requires PlainNames(config, tables, table, request) && !request.SelectRequest?
    requires Answer(config, user, tables, table, request).Rows?
    ensures table in tables
    ensures (exists r, c :: r in Answer(config, user, tables, table, request).rows && c in r && Restricted(c)) <==>
            (exists row, c :: Touched(config, user, tables, table, request, row) && Restricted(c) && (c in row || c in Written(request)))
  {
    hide Answer, PlainNames, Touched, Restricted, Patch;
    MutationsReturnTouched(config, user, tables, table, request);
    var rows := Answer(config, user, tables, table, request).rows;
    hide Shows, Written;
    if r, c :| r in rows && c in r && Restricted(c) {
      var row :| Touched(config, user, tables, table, request, row) && r == Shows(request, row);
      ShownColumns(request, row, c);
    }
    if row, c :| Touched(config, user, tables, table, request, row) && Restricted(c) && (c in row || c in Written(request)) {
      ShownColumns(request, row, c);
      assert Shows(request, row) in rows;
    }
  }

  lemma {:induction false} ShownColumns(request: Request, row: Row, column: string)
    ensures column in Shows(request, row) <==> column in row || column in Written(request)
  {
    if request.InsertRequest? || request.UpdateRequest? {
      PatchColumns(row, request.data, column);
    }
  }

  // So a mutation returns every restricted column of the rows it touches, though
  // select-all hides it from a user without the admin role.
  lemma {:induction false} MutationsReturnHidden(config: Config, user: Option<User>, tables: Tables, table: string, request: Request,
                                                 row: Row, column: string)
    requires PlainNames(config, tables, table, request) && Answer(config, user, tables, table, request).Rows?
    requires table in tables && Touched(config, user, tables, table, request, row) && column in row && Restricted(column)
    requires user.Some? ==> "admin" !in user.value.roles
    ensures column !in Having(config, table, user, true, tables[table].columns, Keep)
    ensures exists returned :: returned in Answer(config, user, tables, table, request).rows && column in returned
              && (column !in Written(request) ==> returned[column] == row[column])
  {
    hide Answer, PlainNames, Having;
    assert !request.SelectRequest?;
    hide Touched;
    MutationsReturnTouched(config, user, tables, table, request);
    if column in Having(config, table, user, true, tables[table].columns, Keep) {
      OpenSelectionHidesCritical(config, table, user, tables[table].columns, column);
      assert false;
    }
    var returned := Shows(request, row);
    if request.InsertRequest? || request.UpdateRequest? {
      PatchKeeps(row, request.data, column);
    }
    assert returned in Answer(config, user, tables, table, request).rows;
  }

  // A user with no role and one row with a p_pin: select-all shows them the user_id
  // only, deleting the row returns the p_pin as well.
  const PINS := Config(None, Some(map["notes" := TablePermissions(Some(["owner"]), None, None, Some(["owner"]), None)]))
  const PINNED: Row := map["user_id" := Str("a"), "p_pin" := Num(7)]
  const KEPT: Tables := map["notes" := Table(["user_id", "p_pin"], map[], [PINNED])]
  const ALL := SelectRequest(None, None, [], None, None)
  const DROP := DeleteRequest(None)
  const MINE: Record := [("user_id", Str("a"))]

  lemma {:induction false} DeletingShowsPin()
    ensures Answer(PINS, Some(User("a", [])), KEPT, "notes", ALL) == Rows([NOTE])
    ensures Answer(PINS, Some(User("a", [])), KEPT, "notes", DROP) == Rows([PINNED])
  {
    hide *;
    PinSelected();
    PinDeleted();
  }

  lemma {:induction false} PinSelected()
    ensures Answer(PINS, Some(User("a", [])), KEPT, "notes", ALL) == Rows([NOTE])
  {
    PinsPlain();
    CompiledMeaning(PINS, Some(User("a", [])), KEPT, "notes", ALL);
    hide ServeText, PlainNames, DirectSelect, Having, CheckTable, ApplyRls, PINS, KEPT, NOTE, PINNED, MINE;
    PinsChecks();
    PinsColumns();
    PinsSelected();
  }

  lemma {:induction false} PinDeleted()
    ensures Answer(PINS, Some(User("a", [])), KEPT, "notes", DROP) == Rows([PINNED])
  {
    PinsPlain();
    CompiledMeaning(PINS, Some(User("a", [])), KEPT, "notes", DROP);
    hide ServeText, PlainNames, DirectDelete, CheckTable, ApplyRls, PINS, KEPT, NOTE, PINNED, MINE;
    PinsChecks();
    PinsDeleted();
  }

  lemma {:induction false} PinsPlain()
    ensures PlainNames(PINS, KEPT, "notes", ALL) && PlainNames(PINS, KEPT, "notes", DROP)
  {
    NotesPlain();
    assert ColumnList(STORED, "notes")[0] == "user_id";
    Unreserved("p_pin");
    hide IsReserved;
    assert IsIdentifier("p_pin") && IsIdentifier("user_id") && IsIdentifier("notes");
  }

  lemma {:induction false} PinsChecks()
    ensures CheckTable(PINS, "notes", SelectOp, Some(User("a", []))) == Allowed(Some(RlsFilter("user_id", "a")))
    ensures CheckTable(PINS, "notes", DeleteOp, Some(User("a", []))) == Allowed(Some(RlsFilter("user_id", "a")))
    ensures ApplyRls(None, Some(RlsFilter("user_id", "a"))) == MINE
  {
    var roles := ["owner"];
    assert TableRoles(PINS, "notes", SelectOp) == roles && TableRoles(PINS, "notes", DeleteOp) == roles;
    assert roles[0] in roles;
  }

  lemma {:induction false} PinsColumns()
    ensures ColumnList(KEPT, "notes") == ["user_id", "p_pin"]
    ensures Having(PINS, "notes", Some(User("a", [])), true, ["user_id", "p_pin"], Keep) == ["user_id"]
  {
    var user, columns := Some(User("a", [])), ["user_id", "p_pin"];
    assert "user_id"[0] == 'u' && "s_"[0] == 's' && "c_"[0] == 'c' && "p_"[0] == 'p' && "_"[0] == '_';
    assert "p_" <= "p_pin" && "p_pin"[0] == 'p';
    assert ParseColumnPrefix("user_id") == Plain && ParseColumnPrefix("p_pin") == Private;
    var roles := ["authenticated"];
    assert GetColumnPermissions(PINS, "notes", "user_id").select == Some(roles);
    assert roles[0] in roles && HasRole(user, roles[0]);
    assert ColumnVerdict(PINS, "notes", user, true, "user_id") == Keep && ColumnVerdict(PINS, "notes", user, true, "p_pin") == Hide;
    hide ColumnVerdict;
    HavingFirst(PINS, "notes", user, true, columns, Keep);
    HavingFirst(PINS, "notes", user, true, columns[1..], Keep);
    assert columns[1..] == ["p_pin"] && columns[1..][1..] == [];
    assert Having(PINS, "notes", user, true, [], Keep) == [];
  }

  lemma {:induction false} PinsSelected()
    ensures DirectSelect(KEPT, "notes", ["user_id"], MINE, [], None, None) == Done(KEPT, [NOTE])
  {
    assert MINE[0] == ("user_id", Str("a")) && Keys(MINE) == ["user_id"];
    assert Matches(PINNED, MINE);
    assert [PINNED][1..] == [] && [PINNED][0] == PINNED;
    assert Matching([], MINE, true) == [] && Matching([PINNED], MINE, true) == [PINNED];
    assert SortRows([], []) == [] && SortRows([PINNED], []) == [PINNED];
    assert Project(PINNED, ["user_id"]) == NOTE;
    assert ProjectAll([PINNED], ["user_id"]) == [NOTE];
    assert ["user_id", "p_pin"][0] == "user_id";
    assert Known(["user_id"], KEPT["notes"]);
  }

  lemma {:induction false} PinsDeleted()
    ensures DirectDelete(KEPT, "notes", MINE).Done? && DirectDelete(KEPT, "notes", MINE).rows == [PINNED]
  {
    assert MINE[0] == ("user_id", Str("a")) && Keys(MINE) == ["user_id"];
    assert Matches(PINNED, MINE);
    assert [PINNED][1..] == [] && [PINNED][0] == PINNED;
    assert Matching([], MINE, true) == [] && Matching([PINNED], MINE, true) == [PINNED];
    assert ["user_id", "p_pin"][0] == "user_id";
    assert Known(["user_id"], KEPT["notes"]);
  }
}
