// Row-level security over whole runs of requests of any number of users, each answered
// by running the text it is compiled to.
module Isolation {
  import opened Text
  import opened Sql
  import opened Permissions
  import opened Crud

  // A request of a user, or of nobody in particular.
  datatype Call = Call(user: Option<User>, table: string, request: Request)

  function Answered(config: Config, tables: Tables, call: Call): (Tables, Response) {
    ServeText(config, call.user, tables, call.table, call.request)
  }

  // The tables after a run of calls, each sent to the database as text.
  function RunCalls(config: Config, tables: Tables, calls: seq<Call>): Tables
    decreases |calls|
  {
    if calls == [] then tables else RunCalls(config, Answered(config, tables, calls[0]).0, calls[1..])
  }

  // Every name in every call is an identifier.
  ghost predicate PlainCalls(config: Config, tables: Tables, calls: seq<Call>) {
    forall call :: call in calls ==> PlainNames(config, tables, call.table, call.request)
  }

  ghost predicate SameColumns(before: Tables, after: Tables) {
    forall table :: ColumnList(after, table) == ColumnList(before, table)
  }

  lemma {:induction false} ServeKeepsColumns(config: Config, user: Option<User>, tables: Tables, table: string, request: Request)
    ensures SameColumns(tables, Serve(config, user, tables, table, request).0)
  {
    hide CheckTable, CheckCrud, Having, ApplyRls, Matching, PatchMatching, Patch;
  }

  // A plain call does what it says, and leaves the next ones plain.
  lemma {:induction false} PlainStep(config: Config, tables: Tables, calls: seq<Call>)
    requires calls != [] && PlainCalls(config, tables, calls)
    ensures Answered(config, tables, calls[0]) == Serve(config, calls[0].user, tables, calls[0].table, calls[0].request)
    ensures PlainCalls(config, Answered(config, tables, calls[0]).0, calls[1..])
  {
    hide ServeText, Serve, IsIdentifier, OwnerColumn;
    assert calls[0] in calls;
    CompiledMeaning(config, calls[0].user, tables, calls[0].table, calls[0].request);
    ServeKeepsColumns(config, calls[0].user, tables, calls[0].table, calls[0].request);
  }

  lemma {:induction false} PlainRun(config: Config, tables: Tables, calls: seq<Call>, n: nat)
    requires PlainCalls(config, tables, calls) && n <= |calls|
    ensures PlainCalls(config, RunCalls(config, tables, calls[..n]), calls[n..])
    decreases n
  {
    hide PlainCalls, Answered, Serve;
    if n == 0 {
      assert calls[..0] == [] && calls[0..] == calls;
    } else {
      PlainStep(config, tables, calls);
      assert calls[..n][1..] == calls[1..][..n - 1] && calls[..n][0] == calls[0];
      assert calls[1..][n - 1..] == calls[n..];
      PlainRun(config, Answered(config, tables, calls[0]).0, calls[1..], n - 1);
    }
  }

  ghost predicate Owned(row: Row, column: string, id: string) {
    column in row && row[column] == Str(id)
  }

  // No role of the user opens the table: only the owner rule can.
  ghost predicate OwnerOnly(config: Config, table: string, user: Option<User>) {
    && !AdmittedByRole(config, table, SelectOp, user)
    && !AdmittedByRole(config, table, UpdateOp, user)
    && !AdmittedByRole(config, table, DeleteOp, user)
  }

  // The ids of those who call.
  function Callers(calls: seq<Call>): set<string> {
    set call | call in calls && call.user.Some? :: call.user.value.id
  }

  ghost predicate OwnedByAny(row: Row, column: string, ids: set<string>) {
    exists id :: id in ids && Owned(row, column, id)
  }

  // The rows that belong to none of them, in order.
  ghost function Foreign(rows: seq<Row>, column: string, ids: set<string>): (r: seq<Row>)
    ensures forall row :: row in r ==> !OwnedByAny(row, column, ids)
  {
    if rows == [] then []
    else if OwnedByAny(rows[0], column, ids) then Foreign(rows[1..], column, ids)
    else [rows[0]] + Foreign(rows[1..], column, ids)
  }

  ghost predicate Subsequence<T>(s: seq<T>, t: seq<T>)
    decreases |t|
  {
    s == [] || (t != [] && ((s[0] == t[0] && Subsequence(s[1..], t[1..])) || Subsequence(s, t[1..])))
  }

  lemma {:induction false} ForeignIsSubsequence(rows: seq<Row>, column: string, ids: set<string>)
    ensures Subsequence(Foreign(rows, column, ids), rows)
  {
    if rows != [] {
      ForeignIsSubsequence(rows[1..], column, ids);
    }
  }

  // ---------- the row filter guards every statement ----------

  // A where map with the filter in it matches owned rows only, whatever else it says.
  lemma {:induction false} PutGuards(row: Row, where: Record, column: string, id: string)
    requires Matches(row, Put(where, column, Str(id)))
    ensures Owned(row, column, id)
  {
    var merged := Put(where, column, Str(id));
    var i := PutIndex(where, column, Str(id));
    assert merged[i].0 in row && Equal(row[merged[i].0], merged[i].1);
  }

  lemma {:induction false} PutIndex(where: Record, column: string, value: Value) returns (i: nat)
    ensures i < |Put(where, column, value)| && Put(where, column, value)[i] == (column, value)
  {
    if where == [] || where[0].0 == column {
      i := 0;
    } else {
      var j := PutIndex(where[1..], column, value);
      i := j + 1;
    }
  }

  lemma {:induction false} FilterPresent(config: Config, table: string, op: Operation, user: Option<User>)
    requires !AdmittedByRole(config, table, op, user) && CheckTable(config, table, op, user).Allowed?
    ensures user.Some? && CheckTable(config, table, op, user).filter == Some(RlsFilter(OwnerColumn(config, table), user.value.id))
  {
  }

  // Every where map such a user's request runs with.
  ghost predicate Guarded(where: Record, column: string, id: string) {
    forall row :: Matches(row, where) ==> Owned(row, column, id)
  }

  lemma {:induction false} RlsGuards(config: Config, table: string, op: Operation, user: Option<User>, where: Option<Record>)
    requires !AdmittedByRole(config, table, op, user) && CheckTable(config, table, op, user).Allowed?
    ensures user.Some?
    ensures Guarded(ApplyRls(where, CheckTable(config, table, op, user).filter), OwnerColumn(config, table), user.value.id)
  {
    FilterPresent(config, table, op, user);
    var base := OrElse(where, Some([])).value;
    forall row | Matches(row, Put(base, OwnerColumn(config, table), Str(user.value.id)))
      ensures Owned(row, OwnerColumn(config, table), user.value.id)
    {
      PutGuards(row, base, OwnerColumn(config, table), user.value.id);
    }
  }

  // ---------- one statement leaves foreign rows alone ----------

  lemma {:induction false} DeletionKeeps(s: seq<Row>, rows: seq<Row>, where: Record, column: string, id: string)
    requires Subsequence(s, rows) && (forall row :: row in s ==> !Owned(row, column, id))
    requires Guarded(where, column, id)
    ensures Subsequence(s, Matching(rows, where, false))
    decreases |rows|
  {
    if s != [] {
      var kept := Matching(rows, where, false);
      if s[0] == rows[0] && Subsequence(s[1..], rows[1..]) {
        assert s[0] in s;
        assert !Matches(rows[0], where);
        DeletionKeeps(s[1..], rows[1..], where, column, id);
        assert kept[0] == rows[0] && kept[1..] == Matching(rows[1..], where, false);
      } else {
        DeletionKeeps(s, rows[1..], where, column, id);
        assert kept == Matching(rows[1..], where, false) || kept[1..] == Matching(rows[1..], where, false);
      }
    }
  }

  lemma {:induction false} UpdateKeeps(s: seq<Row>, rows: seq<Row>, where: Record, data: Record, column: string, id: string)
    requires Subsequence(s, rows) && (forall row :: row in s ==> !Owned(row, column, id))
    requires Guarded(where, column, id)
    ensures Subsequence(s, PatchMatching(rows, where, data))
    decreases |rows|
  {
    if s != [] {
      var after := PatchMatching(rows, where, data);
      assert after[1..] == PatchMatching(rows[1..], where, data);
      if s[0] == rows[0] && Subsequence(s[1..], rows[1..]) {
        assert s[0] in s;
        assert !Matches(rows[0], where);
        UpdateKeeps(s[1..], rows[1..], where, data, column, id);
        assert after[0] == rows[0];
      } else {
        UpdateKeeps(s, rows[1..], where, data, column, id);
      }
    }
  }

  lemma {:induction false} InsertionKeeps(s: seq<Row>, rows: seq<Row>, row: Row)
    requires Subsequence(s, rows)
    ensures Subsequence(s, rows + [row])
    decreases |rows|
  {
    if s != [] {
      assert (rows + [row])[1..] == rows[1..] + [row];
      if s[0] == rows[0] && Subsequence(s[1..], rows[1..]) {
        InsertionKeeps(s[1..], rows[1..], row);
      } else {
        InsertionKeeps(s, rows[1..], row);
      }
    }
  }

  // The rows are not the user's.
  ghost predicate NotOf(s: seq<Row>, column: string, user: Option<User>) {
    user.Some? ==> forall row :: row in s ==> !Owned(row, column, user.value.id)
  }

  lemma {:induction false} ServeKeepsForeign(config: Config, tables: Tables, call: Call, table: string, s: seq<Row>)
    requires table in tables && (call.table == table ==> OwnerOnly(config, table, call.user))
    requires Subsequence(s, tables[table].rows) && NotOf(s, OwnerColumn(config, table), call.user)
    ensures var after := Serve(config, call.user, tables, call.table, call.request).0;
            table in after && Subsequence(s, after[table].rows)
  {
    hide Matches, CheckTable, AdmittedByRole, ApplyRls, Subsequence, Guarded, Owned, Matching, PatchMatching, Patch, OwnerColumn, Having;
    var rows, user := tables[table].rows, call.user;
    var column := OwnerColumn(config, table);
    if call.table == table {
      match call.request {
        case SelectRequest(_, _, _, _, _) =>
        case InsertRequest(data) =>
          InsertionKeeps(s, rows, Patch(tables[table].defaults, data));
        case UpdateRequest(where, data) =>
          if CheckTable(config, table, UpdateOp, user).Allowed? {
            RlsGuards(config, table, UpdateOp, user, where);
            UpdateKeeps(s, rows, ApplyRls(where, CheckTable(config, table, UpdateOp, user).filter), data, column, user.value.id);
          }
        case DeleteRequest(where) =>
          if CheckTable(config, table, DeleteOp, user).Allowed? {
            RlsGuards(config, table, DeleteOp, user, where);
            DeletionKeeps(s, rows, ApplyRls(where, CheckTable(config, table, DeleteOp, user).filter), column, user.value.id);
          }
      }
    }
  }

  // ---------- whole runs ----------

  // Whoever calls on the table is owner-only there.
  ghost predicate OwnersOnly(config: Config, table: string, calls: seq<Call>) {
    forall call :: call in calls && call.table == table ==> OwnerOnly(config, table, call.user)
  }

  // However long the run, however the calls of its users mix and whatever values they
  // send, every row that belonged to none of them at the start is still in the table at
  // the end, unchanged and in order.
  lemma {:induction false} OwnerIsolation(config: Config, tables: Tables, calls: seq<Call>, table: string)
    requires table in tables && OwnersOnly(config, table, calls) && PlainCalls(config, tables, calls)
    ensures var after := RunCalls(config, tables, calls);
            && table in after
            && Subsequence(Foreign(tables[table].rows, OwnerColumn(config, table), Callers(calls)), after[table].rows)
  {
    hide RunCalls, OwnersOnly, PlainCalls, Owned, Subsequence;
    var column := OwnerColumn(config, table);
    var s := Foreign(tables[table].rows, column, Callers(calls));
    ForeignIsSubsequence(tables[table].rows, column, Callers(calls));
    forall call | call in calls ensures NotOf(s, column, call.user) {
      if call.user.Some? {
        assert call.user.value.id in Callers(calls);
        forall row | row in s ensures !Owned(row, column, call.user.value.id) {
          assert !OwnedByAny(row, column, Callers(calls));
        }
      }
    }
    RunKeeps(config, tables, calls, table, s);
  }

  lemma {:induction false} RunKeeps(config: Config, tables: Tables, calls: seq<Call>, table: string, s: seq<Row>)
    requires table in tables && OwnersOnly(config, table, calls) && PlainCalls(config, tables, calls)
    requires Subsequence(s, tables[table].rows) && forall call :: call in calls ==> NotOf(s, OwnerColumn(config, table), call.user)
    ensures var after := RunCalls(config, tables, calls); table in after && Subsequence(s, after[table].rows)
    decreases |calls|
  {
    hide Serve, Answered, OwnerOnly, Subsequence, PlainCalls, NotOf;
    if calls != [] {
      assert calls[0] in calls;
      PlainStep(config, tables, calls);
      ServeKeepsForeign(config, tables, calls[0], table, s);
      RunKeeps(config, Answered(config, tables, calls[0]).0, calls[1..], table, s);
    }
  }

  // The row of the table a returned row was made from.
  ghost predicate MadeFrom(returned: Row, row: Row, request: Request) {
    match request
    case SelectRequest(_, _, _, _, _) => forall c :: c in returned ==> c in row && returned[c] == row[c]
    case InsertRequest(_) => false
    case UpdateRequest(_, data) => returned == Patch(row, data)
    case DeleteRequest(_) => returned == row
  }

  // At every step of a run, a row returned by a select, an update or a delete was
  // made from a row of the table that the caller owned when the request arrived.
  lemma {:induction false} ReturnsOwnedOnly(config: Config, tables: Tables, calls: seq<Call>, i: nat, returned: Row)
    requires i < |calls| && !calls[i].request.InsertRequest?
    requires OwnerOnly(config, calls[i].table, calls[i].user) && PlainCalls(config, tables, calls)
    requires var response := Answered(config, RunCalls(config, tables, calls[..i]), calls[i]).1;
             response.Rows? && returned in response.rows
    ensures calls[i].user.Some?
    ensures var before := RunCalls(config, tables, calls[..i]);
            var table := calls[i].table;
            && table in before
            && (exists row :: row in before[table].rows
                  && Owned(row, OwnerColumn(config, table), calls[i].user.value.id) && MadeFrom(returned, row, calls[i].request))
  {
    hide Answered, Serve, RunCalls, OwnerOnly, PlainCalls, MadeFrom, Owned;
    var before := RunCalls(config, tables, calls[..i]);
    PlainRun(config, tables, calls, i);
    PlainStep(config, before, calls[i..]);
    assert calls[i..][0] == calls[i];
    ServeReturnsOwned(config, before, calls[i], returned);
  }

  lemma {:induction false} ServeReturnsOwned(config: Config, tables: Tables, call: Call, returned: Row)
    requires OwnerOnly(config, call.table, call.user) && !call.request.InsertRequest?
    requires var response := Serve(config, call.user, tables, call.table, call.request).1;
             response.Rows? && returned in response.rows
    ensures call.table in tables && call.user.Some?
    ensures exists row :: row in tables[call.table].rows
              && Owned(row, OwnerColumn(config, call.table), call.user.value.id) && MadeFrom(returned, row, call.request)
  {
    hide CheckTable, AdmittedByRole, ApplyRls, OwnerColumn, Having, Matches, Owned, IsIdentifier;
    var table, user := call.table, call.user;
    match call.request {
      case SelectRequest(where, select, order, limit, offset) =>
        RlsGuards(config, table, SelectOp, user, where);
        var final := ApplyRls(where, CheckTable(config, table, SelectOp, user).filter);
        var columns := Having(config, table, user, select.None?, ColumnsToCheck(ColumnList(tables, table), select), Keep);
        var row := SelectedFrom(tables, table, columns, final, order, limit, offset, returned);
        assert Matches(row, final) && row in tables[table].rows;
      case UpdateRequest(where, data) =>
        RlsGuards(config, table, UpdateOp, user, where);
        var final := ApplyRls(where, CheckTable(config, table, UpdateOp, user).filter);
        var hits := Matching(tables[table].rows, final, true);
        var j :| 0 <= j < |hits| && Patched(hits, data)[j] == returned;
        assert hits[j] in hits;
      case DeleteRequest(where) =>
        RlsGuards(config, table, DeleteOp, user, where);
    }
  }
}
