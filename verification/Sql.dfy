// The database the CRUD handlers talk to: tables of rows, a parser for the SQL
// they emit and an evaluator in which $i reads the i-th bound value.
module Sql {
  import opened Text
  import opened Order
  import opened Lexer

  datatype Value = Null | Bool(b: bool) | Num(n: int) | Str(s: string)

  type Row = map<string, Value>

  // A JavaScript object used as an ordered record.
  type Record = seq<(string, Value)>

  datatype Direction = Asc | Desc

  datatype OrderTerm = OrderTerm(column: string, direction: Direction)

  // column = $param
  datatype Binding = Binding(column: string, param: nat)

  datatype Statement =
    | Select(columns: seq<string>, from: string, where: seq<Binding>, order: seq<OrderTerm>,
             limit: Option<nat>, offset: Option<nat>)
    | Insert(into: string, names: seq<string>, params: seq<nat>)
    | Update(table: string, sets: seq<Binding>, where: seq<Binding>)
    | Delete(from: string, where: seq<Binding>)

  // ---------- identifiers ----------

  // The words PostgreSQL does not take for the name of a column, by first letter.
  const RESERVED: map<char, set<string>> :=
    map['a' := {"all", "analyse", "analyze", "and", "any", "array", "as", "asc", "asymmetric", "authorization"},
        'b' := {"binary", "both"},
        'c' := {"case", "cast", "check", "collate", "collation", "column", "concurrently", "constraint", "create",
                "cross", "current_catalog", "current_date", "current_role", "current_schema", "current_time",
                "current_timestamp", "current_user"},
        'd' := {"default", "deferrable", "desc", "distinct", "do"},
        'e' := {"else", "end", "except"},
        'f' := {"false", "fetch", "for", "foreign", "freeze", "from", "full"},
        'g' := {"grant", "group"},
        'h' := {"having"},
        'i' := {"ilike", "in", "initially", "inner", "intersect", "into", "is", "isnull"},
        'j' := {"join"},
        'l' := {"lateral", "leading", "left", "like", "limit", "localtime", "localtimestamp"},
        'n' := {"natural", "not", "notnull", "null"},
        'o' := {"offset", "on", "only", "or", "order", "outer", "overlaps"},
        'p' := {"placing", "primary"},
        'r' := {"references", "returning", "right"},
        's' := {"select", "session_user", "similar", "some", "symmetric", "system_user"},
        't' := {"table", "tablesample", "then", "to", "trailing", "true"},
        'u' := {"union", "unique", "user", "using"},
        'v' := {"variadic", "verbose"},
        'w' := {"when", "where", "window", "with"}]

  predicate IsReserved(w: string) {
    w != [] && w[0] in RESERVED && w in RESERVED[w[0]]
  }

  // A lower-case identifier that is no reserved word, so an unquoted occurrence names
  // exactly itself.
  predicate IsIdentifier(w: string) {
    && w != []
    && (forall i :: 0 <= i < |w| ==> 'a' <= w[i] <= 'z' || w[i] == '_' || IsDigit(w[i]))
    && !IsDigit(w[0])
    && !IsReserved(w)
  }

  lemma {:induction false} IdentifierIsName(w: string)
    requires IsIdentifier(w)
    ensures IsName(w)
  {
    forall i | 0 <= i < |w| ensures IsNameChar(w[i]) {
      assert 'a' <= w[i] <= 'z' || w[i] == '_' || IsDigit(w[i]);
    }
  }

  // ---------- parser ----------

  type Tokens = seq<Token>

  // What a parser has read, and what it leaves.
  datatype Read<+T> = Fail | Got(value: T, rest: Tokens)

  predicate StartsWith(ts: Tokens, t: Token) {
    ts != [] && ts[0] == t
  }

  predicate IsIdentifierToken(t: Token) {
    t.Word? && IsIdentifier(t.text)
  }

  function ParseNumeral(w: string): Option<nat> {
    if w != [] && forall i :: 0 <= i < |w| ==> IsDigit(w[i]) then Some(DecimalValue(w)) else None
  }

  function ParseParam(ts: Tokens): Read<nat> {
    if ts != [] && ts[0].Word? && "$" <= ts[0].text then
      match ParseNumeral(ts[0].text[1..])
      case Some(n) => Got(n, ts[1..])
      case None => Fail
    else Fail
  }

  // name, name, ...
  function ParseNames(ts: Tokens): (r: Read<seq<string>>)
    decreases |ts|
  {
    if ts == [] || !IsIdentifierToken(ts[0]) then Fail
    else if StartsWith(ts[1..], Mark(',')) then
      match ParseNames(ts[2..])
      case Got(names, rest) => Got([ts[0].text] + names, rest)
      case Fail => Fail
    else Got([ts[0].text], ts[1..])
  }

  // $i, $j, ...
  function ParseParams(ts: Tokens): Read<seq<nat>>
    decreases |ts|
  {
    match ParseParam(ts)
    case Fail => Fail
    case Got(n, rest) =>
      if |rest| < |ts| && StartsWith(rest, Mark(',')) then
        match ParseParams(rest[1..])
        case Got(ns, rest') => Got([n] + ns, rest')
        case Fail => Fail
      else Got([n], rest)
  }

  function ParseBinding(ts: Tokens): Read<Binding> {
    if |ts| >= 3 && IsIdentifierToken(ts[0]) && ts[1] == Mark('=') then
      match ParseParam(ts[2..])
      case Got(n, rest) => Got(Binding(ts[0].text, n), rest)
      case Fail => Fail
    else Fail
  }

  // name = $i separator name = $j ...
  function ParseBindings(ts: Tokens, separator: Token): Read<seq<Binding>>
    decreases |ts|
  {
    match ParseBinding(ts)
    case Fail => Fail
    case Got(b, rest) =>
      if |rest| < |ts| && StartsWith(rest, separator) then
        match ParseBindings(rest[1..], separator)
        case Got(bs, rest') => Got([b] + bs, rest')
        case Fail => Fail
      else Got([b], rest)
  }

  function ParseWhere(ts: Tokens): Read<seq<Binding>> {
    if StartsWith(ts, Word("WHERE")) then ParseBindings(ts[1..], Word("AND")) else Got([], ts)
  }

  function ParseDirection(t: Token): Option<Direction> {
    if t == Word("ASC") then Some(Asc) else if t == Word("DESC") then Some(Desc) else None
  }

  // name ASC, name DESC, ...
  function ParseOrderTerms(ts: Tokens): Read<seq<OrderTerm>>
    decreases |ts|
  {
    if |ts| < 2 || !IsIdentifierToken(ts[0]) || ParseDirection(ts[1]).None? then Fail else
    var term := OrderTerm(ts[0].text, ParseDirection(ts[1]).value);
    if StartsWith(ts[2..], Mark(',')) then
      match ParseOrderTerms(ts[3..])
      case Got(terms, rest) => Got([term] + terms, rest)
      case Fail => Fail
    else Got([term], ts[2..])
  }

  function ParseOrder(ts: Tokens): Read<seq<OrderTerm>> {
    if |ts| >= 2 && ts[0] == Word("ORDER") && ts[1] == Word("BY") then ParseOrderTerms(ts[2..]) else Got([], ts)
  }

  function ParseCount(ts: Tokens, keyword: string): Read<Option<nat>> {
    if StartsWith(ts, Word(keyword)) then
      if |ts| >= 2 && ts[1].Word? then
        match ParseNumeral(ts[1].text)
        case Some(n) => Got(Some(n), ts[2..])
        case None => Fail
      else Fail
    else Got(None, ts)
  }

  predicate IsReturningAll(ts: Tokens) {
    ts == [Word("RETURNING"), Mark('*')]
  }

  function ParseSelect(ts: Tokens): Option<Statement> {
    match ParseNames(ts)
    case Fail => None
    case Got(columns, r1) =>
      if !(|r1| >= 2 && r1[0] == Word("FROM") && IsIdentifierToken(r1[1])) then None else
      match ParseWhere(r1[2..])
      case Fail => None
      case Got(where, r2) =>
        match ParseOrder(r2)
        case Fail => None
        case Got(order, r3) =>
          match ParseCount(r3, "LIMIT")
          case Fail => None
          case Got(limit, r4) =>
            match ParseCount(r4, "OFFSET")
            case Fail => None
            case Got(offset, r5) =>
              if r5 == [] then Some(Select(columns, r1[1].text, where, order, limit, offset)) else None
  }

  function ParseInsert(ts: Tokens): Option<Statement> {
    if !(|ts| >= 3 && ts[0] == Word("INTO") && IsIdentifierToken(ts[1]) && ts[2] == Mark('(')) then None else
    match ParseNames(ts[3..])
    case Fail => None
    case Got(names, r1) =>
      if !(|r1| >= 3 && r1[..3] == [Mark(')'), Word("VALUES"), Mark('(')]) then None else
      match ParseParams(r1[3..])
      case Fail => None
      case Got(params, r2) =>
        if StartsWith(r2, Mark(')')) && IsReturningAll(r2[1..]) && |params| == |names|
        then Some(Insert(ts[1].text, names, params)) else None
  }

  function ParseUpdate(ts: Tokens): Option<Statement> {
    if !(|ts| >= 2 && IsIdentifierToken(ts[0]) && ts[1] == Word("SET")) then None else
    match ParseBindings(ts[2..], Mark(','))
    case Fail => None
    case Got(sets, r1) =>
      match ParseWhere(r1)
      case Fail => None
      case Got(where, r2) =>
        if IsReturningAll(r2) then Some(Update(ts[0].text, sets, where)) else None
  }

  function ParseDelete(ts: Tokens): Option<Statement> {
    if !(|ts| >= 2 && ts[0] == Word("FROM") && IsIdentifierToken(ts[1])) then None else
    match ParseWhere(ts[2..])
    case Fail => None
    case Got(where, r1) =>
      if IsReturningAll(r1) then Some(Delete(ts[1].text, where)) else None
  }

  function Parse(ts: Tokens): Option<Statement> {
    if ts == [] then None
    else if ts[0] == Word("SELECT") then ParseSelect(ts[1..])
    else if ts[0] == Word("INSERT") then ParseInsert(ts[1..])
    else if ts[0] == Word("UPDATE") then ParseUpdate(ts[1..])
    else if ts[0] == Word("DELETE") then ParseDelete(ts[1..])
    else None
  }

  // ---------- tables ----------

  datatype Table = Table(columns: seq<string>, defaults: Row, rows: seq<Row>)

  type Tables = map<string, Table>

  datatype Outcome = Failed | Done(tables: Tables, rows: seq<Row>)

  // = is never true of NULL.
  predicate Equal(a: Value, b: Value) {
    a != Null && a == b
  }

  predicate BindingsHold(row: Row, where: seq<Binding>, values: seq<Value>) {
    forall i :: 0 <= i < |where| ==>
      && where[i].column in row
      && 1 <= where[i].param <= |values|
      && Equal(row[where[i].column], values[where[i].param - 1])
  }

  function Assign(row: Row, sets: seq<Binding>, values: seq<Value>): Row
    decreases |sets|
  {
    if sets == [] then row
    else
      var b := sets[0];
      Assign(if 1 <= b.param <= |values| then row[b.column := values[b.param - 1]] else row, sets[1..], values)
  }

  function ColumnsOf(bindings: seq<Binding>): seq<string> {
    if bindings == [] then [] else [bindings[0].column] + ColumnsOf(bindings[1..])
  }

  function OrderColumns(order: seq<OrderTerm>): seq<string> {
    if order == [] then [] else [order[0].column] + OrderColumns(order[1..])
  }

  function Zip(names: seq<string>, params: seq<nat>): seq<Binding>
    requires |names| == |params|
  {
    if names == [] then [] else [Binding(names[0], params[0])] + Zip(names[1..], params[1..])
  }

  function HighestParam(bindings: seq<Binding>): nat {
    if bindings == [] then 0
    else
      var rest := HighestParam(bindings[1..]);
      if bindings[0].param > rest then bindings[0].param else rest
  }

  predicate Known(columns: seq<string>, table: Table) {
    forall c :: c in columns ==> c in table.columns
  }

  // The rows for which the conditions hold, or fail.
  function Hits(rows: seq<Row>, where: seq<Binding>, values: seq<Value>, holds: bool): seq<Row> {
    if rows == [] then []
    else
      var rest := Hits(rows[1..], where, values, holds);
      if BindingsHold(rows[0], where, values) == holds then [rows[0]] + rest else rest
  }

  function Changed(rows: seq<Row>, sets: seq<Binding>, where: seq<Binding>, values: seq<Value>): seq<Row> {
    if rows == [] then []
    else
      [if BindingsHold(rows[0], where, values) then Assign(rows[0], sets, values) else rows[0]]
      + Changed(rows[1..], sets, where, values)
  }

  function AssignAll(rows: seq<Row>, sets: seq<Binding>, values: seq<Value>): seq<Row> {
    if rows == [] then [] else [Assign(rows[0], sets, values)] + AssignAll(rows[1..], sets, values)
  }

  function Project(row: Row, columns: seq<string>): Row {
    map c | c in columns && c in row :: row[c]
  }

  function ProjectAll(rows: seq<Row>, columns: seq<string>): (r: seq<Row>)
    ensures |r| == |rows| && forall i :: 0 <= i < |rows| ==> r[i] == Project(rows[i], columns)
  {
    if rows == [] then [] else [Project(rows[0], columns)] + ProjectAll(rows[1..], columns)
  }

  // A total order on values, NULL last, for ORDER BY.
  function KindRank(v: Value): int {
    match v
    case Bool(_) => 0
    case Num(_) => 1
    case Str(_) => 2
    case Null => 3
  }

  predicate ValueLess(a: Value, b: Value) {
    if KindRank(a) != KindRank(b) then KindRank(a) < KindRank(b)
    else match a
      case Bool(x) => !x && b.b
      case Num(x) => x < b.n
      case Str(x) => Less(CodePoints, x, b.s)
      case Null => false
  }

  // a must come before b.
  predicate Precedes(a: Row, b: Row, order: seq<OrderTerm>) {
    order != [] &&
    var c := order[0].column;
    if c in a && c in b && (ValueLess(a[c], b[c]) || ValueLess(b[c], a[c])) then
      if order[0].direction == Asc then ValueLess(a[c], b[c]) else ValueLess(b[c], a[c])
    else Precedes(a, b, order[1..])
  }

  function InsertRow(row: Row, rows: seq<Row>, order: seq<OrderTerm>): (r: seq<Row>)
    ensures multiset(r) == multiset(rows) + multiset{row}
  {
    if rows == [] || !Precedes(rows[0], row, order) then [row] + rows
    else
      assert rows == [rows[0]] + rows[1..];
      [rows[0]] + InsertRow(row, rows[1..], order)
  }

  function SortRows(rows: seq<Row>, order: seq<OrderTerm>): (r: seq<Row>)
    ensures multiset(r) == multiset(rows)
  {
    if rows == [] then [] else
      assert rows == [rows[0]] + rows[1..];
      InsertRow(rows[0], SortRows(rows[1..], order), order)
  }

  function Window(rows: seq<Row>, limit: Option<nat>, offset: Option<nat>): (r: seq<Row>)
    ensures forall row :: row in r ==> row in rows
    ensures limit.None? && offset.None? ==> r == rows
  {
    var skipped := match offset
      case Some(n) => if n <= |rows| then rows[n..] else []
      case None => rows;
    match limit
    case Some(n) => if n <= |skipped| then skipped[..n] else skipped
    case None => skipped
  }

  // Runs one statement; every parameter must be bound, and every value used.
  function Execute(statement: Statement, values: seq<Value>, tables: Tables): Outcome {
    match statement
    case Select(columns, name, where, order, limit, offset) =>
      if name !in tables then Failed else
      var table := tables[name];
      if !Known(columns, table) || !Known(ColumnsOf(where), table)
         || !Known(OrderColumns(order), table)
         || HighestParam(where) != |values| then Failed
      else
        var shown := Window(SortRows(Hits(table.rows, where, values, true), order), limit, offset);
        Done(tables, ProjectAll(shown, columns))
    case Insert(name, names, params) =>
      if name !in tables then Failed else
      var table := tables[name];
      if !Known(names, table) || |names| != |params| then Failed else
      var sets := Zip(names, params);
      if HighestParam(sets) != |values| then Failed
      else
        var row := Assign(table.defaults, sets, values);
        Done(tables[name := table.(rows := table.rows + [row])], [row])
    case Update(name, sets, where) =>
      if name !in tables then Failed else
      var table := tables[name];
      if !Known(ColumnsOf(sets), table) || !Known(ColumnsOf(where), table)
         || HighestParam(sets + where) != |values| then Failed
      else
        Done(tables[name := table.(rows := Changed(table.rows, sets, where, values))],
             AssignAll(Hits(table.rows, where, values, true), sets, values))
    case Delete(name, where) =>
      if name !in tables then Failed else
      var table := tables[name];
      if !Known(ColumnsOf(where), table) || HighestParam(where) != |values| then Failed
      else
        Done(tables[name := table.(rows := Hits(table.rows, where, values, false))],
             Hits(table.rows, where, values, true))
  }

  // What the database does with a text and its bound values.
  function Run(text: string, values: seq<Value>, tables: Tables): Outcome {
    match Parse(Lex(text))
    case None => Failed
    case Some(statement) => Execute(statement, values, tables)
  }

  class Database {
    var tables: Tables

    method Query(text: string, values: seq<Value>) returns (r: Option<seq<Row>>)
      modifies this
      ensures match Run(text, values, old(tables))
              case Failed => r == None && tables == old(tables)
              case Done(tables', rows) => r == Some(rows) && tables == tables'
    {
      match Run(text, values, tables) {
        case Failed => r := None;
        case Done(tables', rows) =>
          tables := tables';
          r := Some(rows);
      }
    }

    // The columns information_schema lists; none for an unknown table.
    function Columns(table: string): seq<string>
      reads this
    {
      if table in tables then tables[table].columns else []
    }
  }
}
