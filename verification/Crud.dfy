// crud.ts: requests are checked, compiled to SQL text with bound values, and sent
// to the database. The compiled text is proved to do what the request says when
// it is read directly as a filter, projection, update or deletion over rows.
module Crud {
  import opened Text
  import opened Lexer
  import opened Sql
  import opened SqlText
  import opened SqlRoundTrip
  import opened Permissions

  datatype Request =
    | SelectRequest(where: Option<Record>, select: Option<seq<string>>, order: seq<OrderTerm>,
                    limit: Option<int>, offset: Option<int>)
    | InsertRequest(data: Record)
    | UpdateRequest(where: Option<Record>, data: Record)
    | DeleteRequest(where: Option<Record>)

  datatype Response = Rows(rows: seq<Row>) | Refused(reason: string) | DatabaseError

  // ---------- the direct reading of a request ----------

  predicate Matches(row: Row, where: Record) {
    forall i :: 0 <= i < |where| ==> where[i].0 in row && Equal(row[where[i].0], where[i].1)
  }

  // The rows the where map selects, or the rows it does not.
  function Matching(rows: seq<Row>, where: Record, matches: bool): (r: seq<Row>)
    ensures forall row :: row in r <==> row in rows && Matches(row, where) == matches
  {
    if rows == [] then []
    else
      var rest := Matching(rows[1..], where, matches);
      if Matches(rows[0], where) == matches then [rows[0]] + rest else rest
  }

  function Patch(row: Row, data: Record): Row
    decreases |data|
  {
    if data == [] then row else Patch(row[data[0].0 := data[0].1], data[1..])
  }

  function Patched(rows: seq<Row>, data: Record): (r: seq<Row>)
    ensures |r| == |rows| && forall i :: 0 <= i < |rows| ==> r[i] == Patch(rows[i], data)
  {
    if rows == [] then [] else [Patch(rows[0], data)] + Patched(rows[1..], data)
  }

  function PatchMatching(rows: seq<Row>, where: Record, data: Record): seq<Row> {
    if rows == [] then []
    else [if Matches(rows[0], where) then Patch(rows[0], data) else rows[0]] + PatchMatching(rows[1..], where, data)
  }

  function DirectSelect(tables: Tables, name: string, columns: seq<string>, where: Record, order: seq<OrderTerm>,
                        limit: Option<int>, offset: Option<int>): (r: Outcome)
    ensures r.Done? ==> r.tables == tables
  {
    if name !in tables || columns == [] || Negative(limit) || Negative(offset) then Failed else
    var table := tables[name];
    if !Known(columns, table) || !Known(Keys(where), table) || !Known(OrderColumns(order), table) then Failed
    else
      var shown := Window(SortRows(Matching(table.rows, where, true), order), Count(limit), Count(offset));
      Done(tables, ProjectAll(shown, columns))
  }

  function DirectInsert(tables: Tables, name: string, data: Record): Outcome {
    if name !in tables || data == [] || !Known(Keys(data), tables[name]) then Failed
    else
      var table := tables[name];
      var row := Patch(table.defaults, data);
      Done(tables[name := table.(rows := table.rows + [row])], [row])
  }

  function DirectUpdate(tables: Tables, name: string, where: Record, data: Record): Outcome {
    if name !in tables || data == [] then Failed else
    var table := tables[name];
    if !Known(Keys(data), table) || !Known(Keys(where), table) then Failed
    else
      Done(tables[name := table.(rows := PatchMatching(table.rows, where, data))],
           Patched(Matching(table.rows, where, true), data))
  }

  function DirectDelete(tables: Tables, name: string, where: Record): Outcome {
    if name !in tables || !Known(Keys(where), tables[name]) then Failed
    else
      var table := tables[name];
      Done(tables[name := table.(rows := Matching(table.rows, where, false))], Matching(table.rows, where, true))
  }

  // Every row of an answer is a projected row of the table that matches ...
  lemma {:induction false} SelectedFrom(tables: Tables, name: string, columns: seq<string>, where: Record,
                                        order: seq<OrderTerm>, limit: Option<int>, offset: Option<int>, returned: Row)
    returns (row: Row)
    requires DirectSelect(tables, name, columns, where, order, limit, offset).Done?
    requires returned in DirectSelect(tables, name, columns, where, order, limit, offset).rows
    ensures row in tables[name].rows && Matches(row, where)
    ensures returned == Project(row, columns)
  {
    hide Matches, Project;
    var matching := Matching(tables[name].rows, where, true);
    var sorted := SortRows(matching, order);
    var shown := Window(sorted, Count(limit), Count(offset));
    var j :| 0 <= j < |shown| && ProjectAll(shown, columns)[j] == returned;
    row := shown[j];
    assert row in sorted;
    assert row in multiset(sorted) && row in multiset(matching);
  }

  // ... and without limit and offset every matching row is answered.
  lemma {:induction false} AllSelected(tables: Tables, name: string, columns: seq<string>, where: Record,
                                       order: seq<OrderTerm>, row: Row)
    requires DirectSelect(tables, name, columns, where, order, None, None).Done?
    requires row in tables[name].rows && Matches(row, where)
    ensures Project(row, columns) in DirectSelect(tables, name, columns, where, order, None, None).rows
  {
    hide Matches, Project;
    var matching := Matching(tables[name].rows, where, true);
    var sorted := SortRows(matching, order);
    assert row in multiset(matching) && row in multiset(sorted);
    var k :| 0 <= k < |sorted| && sorted[k] == row;
    assert ProjectAll(sorted, columns)[k] == Project(row, columns);
  }

  // ---------- bindings against records ----------

  lemma {:induction false} BindingsAt(record: Record, start: nat)
    ensures forall i :: 0 <= i < |record| ==> Bindings(record, start)[i] == Binding(record[i].0, start + i)
    ensures forall i :: 0 <= i < |record| ==> ValuesOf(record)[i] == record[i].1
    ensures ColumnsOf(Bindings(record, start)) == Keys(record)
    ensures HighestParam(Bindings(record, start)) == if record == [] then 0 else start + |record| - 1
    decreases |record|
  {
    if record != [] {
      BindingsAt(record[1..], start + 1);
    }
  }

  lemma {:induction false} HighestOfBoth(a: seq<Binding>, b: seq<Binding>)
    ensures HighestParam(a + b) == if HighestParam(a) > HighestParam(b) then HighestParam(a) else HighestParam(b)
  {
    if a == [] {
      assert a + b == b;
    } else {
      HighestOfBoth(a[1..], b);
      assert (a + b)[1..] == a[1..] + b;
    }
  }

  // values holds the record's own values at the parameters start, start + 1, ...
  ghost predicate Bound(record: Record, start: nat, values: seq<Value>) {
    && start >= 1
    && start - 1 + |record| <= |values|
    && forall i :: 0 <= i < |record| ==> values[start - 1 + i] == record[i].1
  }

  lemma {:induction false} HoldMeansMatches(row: Row, where: Record, start: nat, values: seq<Value>)
    requires Bound(where, start, values)
    ensures BindingsHold(row, Bindings(where, start), values) == Matches(row, where)
  {
    BindingsAt(where, start);
    hide Bindings, ValuesOf, Keys, ColumnsOf, HighestParam, Equal;
    var bs := Bindings(where, start);
    forall i | 0 <= i < |where|
      ensures bs[i].column == where[i].0 && 1 <= bs[i].param <= |values| && values[bs[i].param - 1] == where[i].1
    {
      assert bs[i] == Binding(where[i].0, start + i);
      assert values[start - 1 + i] == where[i].1;
    }
  }

  lemma {:induction false} HitsAreMatching(rows: seq<Row>, where: Record, start: nat, values: seq<Value>, holds: bool)
    requires Bound(where, start, values)
    ensures Hits(rows, Bindings(where, start), values, holds) == Matching(rows, where, holds)
  {
    if rows != [] {
      HoldMeansMatches(rows[0], where, start, values);
      HitsAreMatching(rows[1..], where, start, values, holds);
    }
  }

  lemma {:induction false} BoundTail(data: Record, start: nat, values: seq<Value>)
    requires Bound(data, start, values) && data != []
    ensures values[start - 1] == data[0].1 && Bound(data[1..], start + 1, values)
  {
    assert values[start - 1 + 0] == data[0].1;
    forall i | 0 <= i < |data[1..]| ensures values[start + 1 - 1 + i] == data[1..][i].1 {
      assert values[start - 1 + (i + 1)] == data[i + 1].1;
    }
  }

  lemma {:induction false} AssignIsPatch(row: Row, data: Record, start: nat, values: seq<Value>)
    requires Bound(data, start, values)
    ensures Assign(row, Bindings(data, start), values) == Patch(row, data)
    decreases |data|
  {
    if data != [] {
      BoundTail(data, start, values);
      assert 1 <= start <= |values|;
      hide Bound;
      AssignIsPatch(row[data[0].0 := data[0].1], data[1..], start + 1, values);
      assert Bindings(data, start)[0] == Binding(data[0].0, start);
      assert Bindings(data, start)[1..] == Bindings(data[1..], start + 1);
    }
  }

  lemma {:induction false} AssignAllIsPatched(rows: seq<Row>, data: Record, values: seq<Value>)
    requires Bound(data, 1, values)
    ensures AssignAll(rows, Bindings(data, 1), values) == Patched(rows, data)
  {
    if rows != [] {
      AssignIsPatch(rows[0], data, 1, values);
      AssignAllIsPatched(rows[1..], data, values);
    }
  }

  lemma {:induction false} ChangedIsPatched(rows: seq<Row>, data: Record, where: Record, start: nat, values: seq<Value>)
    requires Bound(data, 1, values) && Bound(where, start, values)
    ensures Changed(rows, Bindings(data, 1), Bindings(where, start), values) == PatchMatching(rows, where, data)
  {
    if rows != [] {
      AssignIsPatch(rows[0], data, 1, values);
      HoldMeansMatches(rows[0], where, start, values);
      ChangedIsPatched(rows[1..], data, where, start, values);
    }
  }

  lemma {:induction false} ZipIsBindings(data: Record, start: nat)
    ensures Zip(Keys(data), Params(start, |data|)) == Bindings(data, start)
    decreases |data|
  {
    if data != [] {
      ZipIsBindings(data[1..], start + 1);
      assert Keys(data)[1..] == Keys(data[1..]);
      assert Params(start, |data|)[1..] == Params(start + 1, |data| - 1);
    }
  }

  // ---------- compilation preserves meaning ----------

  lemma {:induction false} SelectMeaning(tables: Tables, table: string, columns: seq<string>, where: Record,
                                         order: seq<OrderTerm>, limit: Option<int>, offset: Option<int>)
    requires IsIdentifier(table) && Identifiers(columns) && Identifiers(Keys(where)) && Identifiers(OrderColumns(order))
    ensures Run(SelectText(table, columns, where, order, limit, offset), ValuesOf(where), tables)
         == DirectSelect(tables, table, columns, where, order, limit, offset)
  {
    hide Parse, Lex, SelectText, IsIdentifier, BindingsHold, Matches, SortRows, Window, ProjectAll;
    SelectRoundTrip(table, columns, where, order, limit, offset);
    BindingsAt(where, 1);
    if table in tables {
      HitsAreMatching(tables[table].rows, where, 1, ValuesOf(where), true);
    }
  }

  lemma {:induction false} InsertMeaning(tables: Tables, table: string, data: Record)
    requires IsIdentifier(table) && Identifiers(Keys(data))
    ensures Run(InsertText(table, data), ValuesOf(data), tables) == DirectInsert(tables, table, data)
  {
    hide Parse, Lex, InsertText, IsIdentifier;
    InsertRoundTrip(table, data);
    BindingsAt(data, 1);
    ZipIsBindings(data, 1);
    if table in tables {
      AssignIsPatch(tables[table].defaults, data, 1, ValuesOf(data));
    }
  }

  // The WHERE values come after the SET values, at indices shifted by their count.
  lemma {:induction false} UpdateMeaning(tables: Tables, table: string, data: Record, where: Record)
    requires IsIdentifier(table) && Identifiers(Keys(data)) && Identifiers(Keys(where))
    ensures Run(UpdateText(table, data, where), ValuesOf(data) + ValuesOf(where), tables)
         == DirectUpdate(tables, table, where, data)
  {
    hide Parse, Lex, UpdateText, IsIdentifier, BindingsHold, Matches;
    var values := ValuesOf(data) + ValuesOf(where);
    UpdateRoundTrip(table, data, where);
    BindingsAt(data, 1);
    BindingsAt(where, |data| + 1);
    HighestOfBoth(Bindings(data, 1), Bindings(where, |data| + 1));
    assert Bound(data, 1, values) && Bound(where, |data| + 1, values);
    if table in tables {
      var rows := tables[table].rows;
      HitsAreMatching(rows, where, |data| + 1, values, true);
      AssignAllIsPatched(Matching(rows, where, true), data, values);
      ChangedIsPatched(rows, data, where, |data| + 1, values);
    }
  }

  lemma {:induction false} DeleteMeaning(tables: Tables, table: string, where: Record)
    requires IsIdentifier(table) && Identifiers(Keys(where))
    ensures Run(DeleteText(table, where), ValuesOf(where), tables) == DirectDelete(tables, table, where)
  {
    hide Parse, Lex, DeleteText, IsIdentifier, BindingsHold, Matches;
    DeleteRoundTrip(table, where);
    BindingsAt(where, 1);
    if table in tables {
      HitsAreMatching(tables[table].rows, where, 1, ValuesOf(where), true);
      HitsAreMatching(tables[table].rows, where, 1, ValuesOf(where), false);
    }
  }

  // ---------- the row filter ----------

  // Setting a property: an existing key keeps its place, a new one goes last.
  function Put(record: Record, key: string, value: Value): (r: Record)
    ensures forall k :: k in Keys(r) <==> k in Keys(record) || k == key
  {
    if record == [] then [(key, value)]
    else if record[0].0 == key then [(key, value)] + record[1..]
    else [record[0]] + Put(record[1..], key, value)
  }

  // The filter replaces whatever the client sent for the owner column.
  function ApplyRls(where: Option<Record>, filter: Option<RlsFilter>): Record {
    var base := OrElse(where, Some([])).value;
    if filter.None? then base else Put(base, filter.value.column, Str(filter.value.userId))
  }

  // ---------- what the server answers ----------

  function ColumnList(tables: Tables, table: string): seq<string> {
    if table in tables then tables[table].columns else []
  }

  function Finish(tables: Tables, outcome: Outcome): (Tables, Response) {
    match outcome
    case Failed => (tables, DatabaseError)
    case Done(tables', rows) => (tables', Rows(rows))
  }

  function ServeSelect(config: Config, user: Option<User>, tables: Tables, table: string, where: Option<Record>,
                       select: Option<seq<string>>, order: seq<OrderTerm>, limit: Option<int>, offset: Option<int>)
    : (Tables, Response)
  {
    var columns := ColumnsToCheck(ColumnList(tables, table), select);
    var allowed := Having(config, table, user, select.None?, columns, Keep);
    var denied := Having(config, table, user, select.None?, columns, Deny);
    if select.Some? && denied != [] then
      (tables, Refused("Permission denied for columns: " + Join(denied, ", ")))
    else
      match CheckTable(config, table, SelectOp, user)
      case Denied(reason) => (tables, Refused(reason))
      case Allowed(filter) =>
        Finish(tables, DirectSelect(tables, table, allowed, ApplyRls(where, filter), order, limit, offset))
  }

  function Serve(config: Config, user: Option<User>, tables: Tables, table: string, request: Request): (Tables, Response) {
    match request
    case SelectRequest(where, select, order, limit, offset) =>
      ServeSelect(config, user, tables, table, where, select, order, limit, offset)
    case InsertRequest(data) =>
      (match CheckCrud(config, table, InsertOp, user, Some(Keys(data)))
       case Denied(reason) => (tables, Refused(reason))
       case Allowed(_) => Finish(tables, DirectInsert(tables, table, data)))
    case UpdateRequest(where, data) =>
      (match CheckCrud(config, table, UpdateOp, user, Some(Keys(data)))
       case Denied(reason) => (tables, Refused(reason))
       case Allowed(filter) => Finish(tables, DirectUpdate(tables, table, ApplyRls(where, filter), data)))
    case DeleteRequest(where) =>
      (match CheckTable(config, table, DeleteOp, user)
       case Denied(reason) => (tables, Refused(reason))
       case Allowed(filter) => Finish(tables, DirectDelete(tables, table, ApplyRls(where, filter))))
  }

  // ---------- what the server sends to the database ----------

  datatype Compiled = Refuse(reason: string) | Send(text: string, values: seq<Value>)

  // The text and values a request is compiled to, given the columns of its table.
  function Compile(config: Config, user: Option<User>, columns: seq<string>, table: string, request: Request): Compiled {
    match request
    case SelectRequest(where, select, order, limit, offset) =>
      var checked := ColumnsToCheck(columns, select);
      var allowed := Having(config, table, user, select.None?, checked, Keep);
      var denied := Having(config, table, user, select.None?, checked, Deny);
      if select.Some? && denied != [] then Refuse("Permission denied for columns: " + Join(denied, ", "))
      else
        (match CheckTable(config, table, SelectOp, user)
         case Denied(reason) => Refuse(reason)
         case Allowed(filter) =>
           var final := ApplyRls(where, filter);
           Send(SelectText(table, allowed, final, order, limit, offset), ValuesOf(final)))
    case InsertRequest(data) =>
      (match CheckCrud(config, table, InsertOp, user, Some(Keys(data)))
       case Denied(reason) => Refuse(reason)
       case Allowed(_) => Send(InsertText(table, data), ValuesOf(data)))
    case UpdateRequest(where, data) =>
      (match CheckCrud(config, table, UpdateOp, user, Some(Keys(data)))
       case Denied(reason) => Refuse(reason)
       case Allowed(filter) =>
         var final := ApplyRls(where, filter);
         Send(UpdateText(table, data, final), ValuesOf(data) + ValuesOf(final)))
    case DeleteRequest(where) =>
      (match CheckTable(config, table, DeleteOp, user)
       case Denied(reason) => Refuse(reason)
       case Allowed(filter) =>
         var final := ApplyRls(where, filter);
         Send(DeleteText(table, final), ValuesOf(final)))
  }

  // The emitted text is run, whatever the names in it are.
  function ServeText(config: Config, user: Option<User>, tables: Tables, table: string, request: Request): (Tables, Response) {
    match Compile(config, user, ColumnList(tables, table), table, request)
    case Refuse(reason) => (tables, Refused(reason))
    case Send(text, values) => Finish(tables, Run(text, values, tables))
  }

  // Every name that reaches the SQL text is an identifier.
  ghost predicate PlainNames(config: Config, tables: Tables, table: string, request: Request) {
    && IsIdentifier(table)
    && IsIdentifier(OwnerColumn(config, table))
    && Identifiers(ColumnList(tables, table))
    && (!request.InsertRequest? && request.where.Some? ==> Identifiers(Keys(request.where.value)))
    && (request.InsertRequest? || request.UpdateRequest? ==> Identifiers(Keys(request.data)))
    && (request.SelectRequest? ==>
          && Identifiers(OrderColumns(request.order))
          && (request.select.Some? ==> Identifiers(request.select.value)))
  }

  lemma {:induction false} PlainWhere(config: Config, table: string, op: Operation, user: Option<User>, where: Option<Record>)
    requires IsIdentifier(OwnerColumn(config, table))
    requires where.Some? ==> Identifiers(Keys(where.value))
    requires CheckTable(config, table, op, user).Allowed?
    ensures Identifiers(Keys(ApplyRls(where, CheckTable(config, table, op, user).filter)))
  {
    hide IsIdentifier;
  }

  // Compilation preserves meaning: for plain names the emitted text does what the
  // request says when it is read directly.
  lemma {:induction false} CompiledMeaning(config: Config, user: Option<User>, tables: Tables, table: string, request: Request)
    requires PlainNames(config, tables, table, request)
    ensures ServeText(config, user, tables, table, request) == Serve(config, user, tables, table, request)
  {
    hide Run, DirectSelect, DirectInsert, DirectUpdate, DirectDelete, IsIdentifier, CheckTable, CheckCrud, Having, ColumnAllowed;
    hide Join, SelectText, InsertText, UpdateText, DeleteText, ApplyRls, OwnerColumn;
    match request {
      case SelectRequest(where, select, order, limit, offset) =>
        var check := CheckTable(config, table, SelectOp, user);
        if check.Allowed? {
          PlainWhere(config, table, SelectOp, user, where);
          var allowed := Having(config, table, user, select.None?, ColumnsToCheck(ColumnList(tables, table), select), Keep);
          SelectMeaning(tables, table, allowed, ApplyRls(where, check.filter), order, limit, offset);
        }
      case InsertRequest(data) =>
        InsertMeaning(tables, table, data);
      case UpdateRequest(where, data) =>
        var check := CheckCrud(config, table, UpdateOp, user, Some(Keys(data)));
        if check.Allowed? {
          UpdateFilter(config, table, user, data);
          PlainWhere(config, table, UpdateOp, user, where);
          UpdateMeaning(tables, table, data, ApplyRls(where, check.filter));
        }
      case DeleteRequest(where) =>
        var check := CheckTable(config, table, DeleteOp, user);
        if check.Allowed? {
          PlainWhere(config, table, DeleteOp, user, where);
          DeleteMeaning(tables, table, ApplyRls(where, check.filter));
        }
    }
  }

  // Checking columns too does not change the row filter.
  lemma {:induction false} UpdateFilter(config: Config, table: string, user: Option<User>, data: Record)
    requires CheckCrud(config, table, UpdateOp, user, Some(Keys(data))).Allowed?
    ensures CheckCrud(config, table, UpdateOp, user, Some(Keys(data))) == CheckTable(config, table, UpdateOp, user)
  {
    hide CheckTable, ColumnAllowed;
  }

  // ---------- crud.ts ----------

  lemma {:induction false} ConditionsExtend(record: Record, start: nat, entry: (string, Value))
    ensures Conditions(record + [entry], start) == Conditions(record, start) + [entry.0 + " = $" + Decimal(start + |record|)]
    ensures ValuesOf(record + [entry]) == ValuesOf(record) + [entry.1]
    decreases |record|
  {
    if record == [] {
      assert record + [entry] == [entry];
    } else {
      ConditionsExtend(record[1..], start + 1, entry);
      assert (record + [entry])[1..] == record[1..] + [entry];
    }
  }

  lemma {:induction false} ServedDirectly(config: Config, user: Option<User>, tables: Tables, table: string, request: Request)
    ensures PlainNames(config, tables, table, request) ==>
              ServeText(config, user, tables, table, request) == Serve(config, user, tables, table, request)
    ensures request.SelectRequest? ==> Serve(config, user, tables, table, request).0 == tables
  {
    hide PlainNames, ServeText, DirectSelect;
    if PlainNames(config, tables, table, request) {
      CompiledMeaning(config, user, tables, table, request);
    }
  }

  method BuildWhereClause(where: Record, startIndex: nat) returns (sql: string, values: seq<Value>)
    ensures sql == WhereText(where, startIndex)
    ensures values == ValuesOf(where)
  {
    var conditions: seq<string> := [];
    values := [];
    var paramIndex := startIndex;
    for i := 0 to |where|
      invariant conditions == Conditions(where[..i], startIndex)
      invariant values == ValuesOf(where[..i])
      invariant paramIndex == startIndex + i
      invariant |conditions| == i
    {
      ConditionsExtend(where[..i], startIndex, where[i]);
      assert where[..i + 1] == where[..i] + [where[i]];
      conditions := conditions + [where[i].0 + " = $" + Decimal(paramIndex)];
      values := values + [where[i].1];
      paramIndex := paramIndex + 1;
    }
    assert where[..|where|] == where;
    sql := if |conditions| > 0 then "WHERE " + Join(conditions, " AND ") else "";
  }

  // The order of the handler's checks.
  lemma {:induction false} SelectServed(config: Config, user: Option<User>, tables: Tables, table: string, where: Option<Record>,
                                        select: Option<seq<string>>, order: seq<OrderTerm>, limit: Option<int>, offset: Option<int>)
    ensures var columns := ColumnsToCheck(ColumnList(tables, table), select);
            var allowed := Having(config, table, user, select.None?, columns, Keep);
            var denied := Having(config, table, user, select.None?, columns, Deny);
            var check := CheckCrud(config, table, SelectOp, user, Some(allowed));
            ServeText(config, user, tables, table, SelectRequest(where, select, order, limit, offset)) ==
            if select.Some? && denied != [] then (tables, Refused("Permission denied for columns: " + Join(denied, ", ")))
            else if check.Denied? then (tables, Refused(check.reason))
            else
              var final := ApplyRls(where, check.filter);
              Finish(tables, Run(SelectText(table, allowed, final, order, limit, offset), ValuesOf(final), tables))
  {
    hide Run, CheckTable, CheckCrud, Having, Join, SelectText, ApplyRls;
    RecheckIsTableCheck(config, table, user, select.None?, ColumnsToCheck(ColumnList(tables, table), select));
  }

  method HandleSelect(db: Database, table: string, where: Option<Record>, select: Option<seq<string>>, order: seq<OrderTerm>,
                      limit: Option<int>, offset: Option<int>, config: Config, user: Option<User>) returns (r: Response)
    modifies db
    ensures (db.tables, r) == ServeText(config, user, old(db.tables), table, SelectRequest(where, select, order, limit, offset))
    ensures PlainNames(config, old(db.tables), table, SelectRequest(where, select, order, limit, offset)) ==>
              (db.tables, r) == Serve(config, user, old(db.tables), table, SelectRequest(where, select, order, limit, offset))
    ensures PlainNames(config, old(db.tables), table, SelectRequest(where, select, order, limit, offset)) ==> db.tables == old(db.tables)
  {
    ServedDirectly(config, user, db.tables, table, SelectRequest(where, select, order, limit, offset));
    SelectServed(config, user, db.tables, table, where, select, order, limit, offset);
    hide Run, CheckCrud, ApplyRls, Having, Join, Line, Trim, OrderText, CountText, WhereText, PlainNames, Serve, ServeText;
    var allColumns := db.Columns(table);
    var allowed, denied := FilterColumns(config, table, allColumns, user, select);
    if select.Some? && |denied| > 0 {
      return Refused("Permission denied for columns: " + Join(denied, ", "));
    }
    var check := CheckCrud(config, table, SelectOp, user, Some(allowed));
    if check.Denied? {
      return Refused(check.reason);
    }
    var finalWhere := ApplyRls(where, check.filter);
    var whereSql, values := BuildWhereClause(finalWhere, 1);
    var query := Trim(Line("SELECT " + Join(allowed, ", ")) + (Line("FROM " + table) + (Line(whereSql) +
      (Line(OrderText(order)) + (Line(CountText("LIMIT", limit)) + (Line(CountText("OFFSET", offset)) + "\n  "))))));
    assert query == SelectText(table, allowed, finalWhere, order, limit, offset);
    var answer := db.Query(query, values);
    r := if answer.Some? then Rows(answer.value) else DatabaseError;
  }

  method HandleInsert(db: Database, table: string, data: Record, config: Config, user: Option<User>) returns (r: Response)
    modifies db
    ensures (db.tables, r) == ServeText(config, user, old(db.tables), table, InsertRequest(data))
    ensures PlainNames(config, old(db.tables), table, InsertRequest(data)) ==>
              (db.tables, r) == Serve(config, user, old(db.tables), table, InsertRequest(data))
  {
    ServedDirectly(config, user, db.tables, table, InsertRequest(data));
    hide Run, DirectInsert, IsIdentifier, CheckTable, ColumnAllowed, Join, Line, Trim, PlainNames, Serve;
    var tableCheck := CheckCrud(config, table, InsertOp, user, None);
    if tableCheck.Denied? {
      return Refused(tableCheck.reason);
    }
    var columns := Keys(data);
    var check := CheckCrud(config, table, InsertOp, user, Some(columns));
    if check.Denied? {
      return Refused(check.reason);
    }
    var query := Trim(Line("INSERT INTO " + table + " (" + Join(columns, ", ") + ")") +
      (Line("VALUES (" + Join(Placeholders(1, |columns|), ", ") + ")") + (Line("RETURNING *") + "\n  ")));
    assert query == InsertText(table, data);
    var answer := db.Query(query, ValuesOf(data));
    r := if answer.Some? then Rows(answer.value) else DatabaseError;
  }

  method HandleUpdate(db: Database, table: string, where: Option<Record>, data: Record, config: Config, user: Option<User>)
    returns (r: Response)
    modifies db
    ensures (db.tables, r) == ServeText(config, user, old(db.tables), table, UpdateRequest(where, data))
    ensures PlainNames(config, old(db.tables), table, UpdateRequest(where, data)) ==>
              (db.tables, r) == Serve(config, user, old(db.tables), table, UpdateRequest(where, data))
  {
    ServedDirectly(config, user, db.tables, table, UpdateRequest(where, data));
    hide Run, DirectUpdate, IsIdentifier, CheckTable, ColumnAllowed, Join, Line, Trim, WhereText, PlainNames, Serve;
    var tableCheck := CheckCrud(config, table, UpdateOp, user, None);
    if tableCheck.Denied? {
      return Refused(tableCheck.reason);
    }
    var columns := Keys(data);
    var check := CheckCrud(config, table, UpdateOp, user, Some(columns));
    if check.Denied? {
      return Refused(check.reason);
    }
    var finalWhere := ApplyRls(where, tableCheck.filter);
    var setClause := Join(Conditions(data, 1), ", ");
    var whereSql, whereValues := BuildWhereClause(finalWhere, |columns| + 1);
    var query := Trim(Line("UPDATE " + table) + (Line("SET " + setClause) +
      (Line(whereSql) + (Line("RETURNING *") + "\n  "))));
    assert query == UpdateText(table, data, finalWhere);
    var answer := db.Query(query, ValuesOf(data) + whereValues);
    r := if answer.Some? then Rows(answer.value) else DatabaseError;
  }

  method HandleDelete(db: Database, table: string, where: Option<Record>, config: Config, user: Option<User>)
    returns (r: Response)
    modifies db
    ensures (db.tables, r) == ServeText(config, user, old(db.tables), table, DeleteRequest(where))
    ensures PlainNames(config, old(db.tables), table, DeleteRequest(where)) ==>
              (db.tables, r) == Serve(config, user, old(db.tables), table, DeleteRequest(where))
  {
    ServedDirectly(config, user, db.tables, table, DeleteRequest(where));
    hide Run, DirectDelete, IsIdentifier, CheckTable, Join, Line, Trim, WhereText, PlainNames, Serve;
    var check := CheckCrud(config, table, DeleteOp, user, None);
    if check.Denied? {
      return Refused(check.reason);
    }
    var finalWhere := ApplyRls(where, check.filter);
    var whereSql, values := BuildWhereClause(finalWhere, 1);
    var query := Trim(Line("DELETE FROM " + table) + (Line(whereSql) + (Line("RETURNING *") + "\n  ")));
    assert query == DeleteText(table, finalWhere);
    var answer := db.Query(query, values);
    r := if answer.Some? then Rows(answer.value) else DatabaseError;
  }

  method HandleCrud(db: Database, table: string, request: Request, config: Config, user: Option<User>) returns (r: Response)
    modifies db
    ensures (db.tables, r) == ServeText(config, user, old(db.tables), table, request)
    ensures PlainNames(config, old(db.tables), table, request) ==>
              (db.tables, r) == Serve(config, user, old(db.tables), table, request)
  {
    match request {
      case SelectRequest(where, select, order, limit, offset) =>
        r := HandleSelect(db, table, where, select, order, limit, offset, config, user);
      case InsertRequest(data) =>
        r := HandleInsert(db, table, data, config, user);
      case UpdateRequest(where, data) =>
        r := HandleUpdate(db, table, where, data, config, user);
      case DeleteRequest(where) =>
        r := HandleDelete(db, table, where, config, user);
    }
  }
}
