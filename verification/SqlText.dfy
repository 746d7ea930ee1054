// The SQL text crud.ts writes, and the proof that parsing it gives back exactly
// the statement it was written for.
module SqlText {
  import opened Text
  import opened Lexer
  import opened Sql

  // ---------- text ----------

  function Keys(record: Record): (r: seq<string>)
    ensures |r| == |record|
  {
    if record == [] then [] else [record[0].0] + Keys(record[1..])
  }

  function ValuesOf(record: Record): (r: seq<Value>)
    ensures |r| == |record|
  {
    if record == [] then [] else [record[0].1] + ValuesOf(record[1..])
  }

  // key = $i, with i counting from start.
  function Conditions(record: Record, start: nat): seq<string> {
    if record == [] then []
    else [record[0].0 + " = $" + Decimal(start)] + Conditions(record[1..], start + 1)
  }

  function WhereText(where: Record, start: nat): string {
    if where == [] then "" else "WHERE " + Join(Conditions(where, start), " AND ")
  }

  function SetText(data: Record): string {
    Join(Conditions(data, 1), ", ")
  }

  function Placeholders(start: nat, count: nat): seq<string>
    decreases count
  {
    if count == 0 then [] else ["$" + Decimal(start)] + Placeholders(start + 1, count - 1)
  }

  function DirectionText(d: Direction): string {
    if d == Asc then "ASC" else "DESC"
  }

  function OrderTexts(order: seq<OrderTerm>): seq<string> {
    if order == [] then []
    else [order[0].column + " " + DirectionText(order[0].direction)] + OrderTexts(order[1..])
  }

  function OrderText(order: seq<OrderTerm>): string {
    if order == [] then "" else "ORDER BY " + Join(OrderTexts(order), ", ")
  }

  function IntegerText(n: int): string {
    if n < 0 then "-" + Decimal(-n) else Decimal(n)
  }

  // An absent count and a count of 0 are both falsy: no clause.
  function CountText(keyword: string, count: Option<int>): string {
    if count.Some? && count.value != 0 then keyword + " " + IntegerText(count.value) else ""
  }

  // One line of the query templates.
  function Line(body: string): string {
    "\n    " + body
  }

  function Trim(s: string): string {
    TrimRight(TrimLeft(s, IsSpace), IsSpace)
  }

  function SelectText(table: string, columns: seq<string>, where: Record, order: seq<OrderTerm>,
                      limit: Option<int>, offset: Option<int>): string {
    Trim(Line("SELECT " + Join(columns, ", ")) + (Line("FROM " + table) + (Line(WhereText(where, 1)) +
      (Line(OrderText(order)) + (Line(CountText("LIMIT", limit)) + (Line(CountText("OFFSET", offset)) + "\n  "))))))
  }

  function InsertText(table: string, data: Record): string {
    Trim(Line("INSERT INTO " + table + " (" + Join(Keys(data), ", ") + ")") +
      (Line("VALUES (" + Join(Placeholders(1, |data|), ", ") + ")") + (Line("RETURNING *") + "\n  ")))
  }

  function UpdateText(table: string, data: Record, where: Record): string {
    Trim(Line("UPDATE " + table) + (Line("SET " + SetText(data)) +
      (Line(WhereText(where, |data| + 1)) + (Line("RETURNING *") + "\n  "))))
  }

  function DeleteText(table: string, where: Record): string {
    Trim(Line("DELETE FROM " + table) + (Line(WhereText(where, 1)) + (Line("RETURNING *") + "\n  ")))
  }

  // ---------- the statements they stand for ----------

  function Bindings(record: Record, start: nat): (r: seq<Binding>)
    ensures |r| == |record|
  {
    if record == [] then [] else [Binding(record[0].0, start)] + Bindings(record[1..], start + 1)
  }

  function Params(start: nat, count: nat): (r: seq<nat>)
    ensures |r| == count
    decreases count
  {
    if count == 0 then [] else [start] + Params(start + 1, count - 1)
  }

  function Count(count: Option<int>): Option<nat>
    requires count.Some? ==> count.value >= 0
  {
    if count.Some? && count.value != 0 then Some(count.value) else None
  }

  predicate Negative(count: Option<int>) {
    count.Some? && count.value < 0
  }

  ghost predicate Identifiers(names: seq<string>) {
    forall n :: n in names ==> IsIdentifier(n)
  }

  // ---------- token images ----------

  function ParamToken(n: nat): Token {
    Word("$" + Decimal(n))
  }

  function NameTokens(names: seq<string>): Tokens {
    if names == [] then []
    else if |names| == 1 then [Word(names[0])]
    else [Word(names[0]), Mark(',')] + NameTokens(names[1..])
  }

  function ParamTokens(start: nat, count: nat): Tokens
    decreases count
  {
    if count == 0 then []
    else if count == 1 then [ParamToken(start)]
    else [ParamToken(start), Mark(',')] + ParamTokens(start + 1, count - 1)
  }

  function BindingTokens(record: Record, start: nat, separator: Token): Tokens {
    if record == [] then []
    else
      var first := [Word(record[0].0), Mark('='), ParamToken(start)];
      if |record| == 1 then first else first + [separator] + BindingTokens(record[1..], start + 1, separator)
  }

  function OrderTokens(order: seq<OrderTerm>): Tokens {
    if order == [] then []
    else
      var first := [Word(order[0].column), Word(DirectionText(order[0].direction))];
      if |order| == 1 then first else first + [Mark(',')] + OrderTokens(order[1..])
  }

  function WhereTokens(where: Record, start: nat): Tokens {
    if where == [] then [] else [Word("WHERE")] + BindingTokens(where, start, Word("AND"))
  }

  function OrderClauseTokens(order: seq<OrderTerm>): Tokens {
    if order == [] then [] else [Word("ORDER"), Word("BY")] + OrderTokens(order)
  }

  function CountTokens(keyword: string, count: Option<int>): Tokens {
    if count.None? || count.value == 0 then []
    else if count.value < 0 then [Word(keyword), Mark('-'), Word(Decimal(-count.value))]
    else [Word(keyword), Word(Decimal(count.value))]
  }

  // ---------- lexing ----------

  lemma {:induction false} LexKeyword(w: string, rest: string)
    requires IsName(w)
    ensures Lex(w + " " + rest) == [Word(w)] + Lex(rest)
  {
    hide Lex;
    assert w + " " + rest == w + ([' '] + rest);
    LexWordThen(w, [' '] + rest);
    LexSpaceThen(' ', rest);
  }

  lemma {:induction false} LexLine(body: string, rest: string)
    requires rest != [] && IsSpace(rest[0])
    ensures Lex(Line(body) + rest) == Lex(body) + Lex(rest)
  {
    hide Lex;
    LexConcat(Line(body), rest);
    var margin := "\n    ";
    LexSpaces(margin);
    LexConcat(margin, body);
  }

  lemma {:induction false} LexSpaces(s: string)
    requires forall i :: 0 <= i < |s| ==> IsSpace(s[i])
    ensures Lex(s) == []
  {
    if s != [] {
      LexSpaces(s[1..]);
    }
  }

  lemma {:induction false} LexTrimLeft(s: string)
    ensures Lex(TrimLeft(s, IsSpace)) == Lex(s)
  {
    hide Lex;
    if s != [] && IsSpace(s[0]) {
      LexTrimLeft(s[1..]);
      assert s == [s[0]] + s[1..];
      LexSpaceThen(s[0], s[1..]);
    }
  }

  lemma {:induction false} LexTrimRight(s: string)
    ensures Lex(TrimRight(s, IsSpace)) == Lex(s)
    decreases |s|
  {
    hide Lex;
    if s != [] && IsSpace(s[|s| - 1]) {
      var front, last := s[..|s| - 1], s[|s| - 1..];
      LexTrimRight(front);
      assert s == front + last;
      LexConcat(front, last);
      LexSpaces(last);
    }
  }

  lemma {:induction false} LexTrim(s: string)
    ensures Lex(Trim(s)) == Lex(s)
  {
    hide Lex;
    LexTrimLeft(s);
    LexTrimRight(TrimLeft(s, IsSpace));
  }

  // Joining with a separator that starts and ends outside words.
  lemma {:induction false} LexJoinStep(parts: seq<string>, separator: string)
    requires |parts| >= 2
    requires separator != [] && !IsNameChar(separator[0]) && !IsNameChar(separator[|separator| - 1])
    ensures Lex(Join(parts, separator)) == Lex(parts[0]) + Lex(separator) + Lex(Join(parts[1..], separator))
  {
    hide Lex;
    var rest := Join(parts[1..], separator);
    assert Join(parts, separator) == parts[0] + separator + rest;
    LexConcat(parts[0] + separator, rest);
    LexConcat(parts[0], separator);
  }

  lemma {:induction false} LexComma()
    ensures Lex(", ") == [Mark(',')]
  {
    hide Lex;
    assert ", " == [','] + " ";
    LexMarkThen(',', " ");
    LexSpaces(" ");
  }

  lemma {:induction false} LexAnd()
    ensures Lex(" AND ") == [Word("AND")]
  {
    hide Lex;
    var and, space := "AND", " ";
    assert " AND " == [' '] + (and + space);
    LexSpaceThen(' ', and + space);
    LexWordThen(and, space);
    LexSpaces(space);
  }

  lemma {:induction false} LexNames(names: seq<string>)
    requires Identifiers(names)
    ensures Lex(Join(names, ", ")) == NameTokens(names)
  {
    hide Lex;
    LexEmpty();
    if names != [] {
      IdentifierIsName(names[0]);
      LexWord(names[0]);
      if |names| >= 2 {
        assert forall n :: n in names[1..] ==> n in names;
        LexNames(names[1..]);
        LexJoinStep(names, ", ");
        LexComma();
      }
    }
  }

  lemma {:induction false} LexParam(n: nat)
    ensures Lex("$" + Decimal(n)) == [ParamToken(n)]
  {
    hide Lex;
    LexWord("$" + Decimal(n));
  }

  lemma {:induction false} LexPlaceholders(start: nat, count: nat)
    ensures Lex(Join(Placeholders(start, count), ", ")) == ParamTokens(start, count)
    decreases count
  {
    hide Lex;
    LexEmpty();
    if count > 0 {
      LexParam(start);
      if count >= 2 {
        LexPlaceholders(start + 1, count - 1);
        LexJoinStep(Placeholders(start, count), ", ");
        LexComma();
      }
    }
  }

  lemma {:induction false} LexCondition(key: string, n: nat)
    requires IsIdentifier(key)
    ensures Lex(key + " = $" + Decimal(n)) == [Word(key), Mark('='), ParamToken(n)]
  {
    hide IsReserved, Lex;
    var param := "$" + Decimal(n);
    assert key + " = $" + Decimal(n) == key + " " + (['='] + ([' '] + param));
    IdentifierIsName(key);
    LexKeyword(key, ['='] + ([' '] + param));
    LexMarkThen('=', [' '] + param);
    LexSpaceThen(' ', param);
    LexParam(n);
  }

  lemma {:induction false} LexConditions(record: Record, start: nat, separator: string, token: Token)
    requires Identifiers(Keys(record))
    requires (separator == " AND " && token == Word("AND")) || (separator == ", " && token == Mark(','))
    ensures Lex(Join(Conditions(record, start), separator)) == BindingTokens(record, start, token)
    decreases |record|
  {
    hide Lex;
    LexEmpty();
    if record != [] {
      assert record[0].0 in Keys(record);
      LexCondition(record[0].0, start);
      if |record| >= 2 {
        LexConditions(record[1..], start + 1, separator, token);
        LexJoinStep(Conditions(record, start), separator);
        LexComma();
        LexAnd();
      }
    }
  }

  lemma {:induction false} LexWhere(where: Record, start: nat)
    requires Identifiers(Keys(where))
    ensures Lex(WhereText(where, start)) == WhereTokens(where, start)
  {
    hide Lex;
    LexEmpty();
    if where != [] {
      LexConditions(where, start, " AND ", Word("AND"));
      var conditions := Join(Conditions(where, start), " AND ");
      assert WhereText(where, start) == "WHERE" + " " + conditions;
      LexKeyword("WHERE", conditions);
    }
  }

  lemma {:induction false} LexOrderTerms(order: seq<OrderTerm>)
    requires Identifiers(OrderColumns(order))
    ensures Lex(Join(OrderTexts(order), ", ")) == OrderTokens(order)
  {
    hide IsReserved, Lex;
    LexEmpty();
    if order != [] {
      var direction := DirectionText(order[0].direction);
      assert order[0].column in OrderColumns(order);
      IdentifierIsName(order[0].column);
      LexKeyword(order[0].column, direction);
      LexWord(direction);
      if |order| >= 2 {
        LexOrderTerms(order[1..]);
        LexJoinStep(OrderTexts(order), ", ");
        LexComma();
      }
    }
  }

  lemma {:induction false} LexOrder(order: seq<OrderTerm>)
    requires Identifiers(OrderColumns(order))
    ensures Lex(OrderText(order)) == OrderClauseTokens(order)
  {
    hide IsReserved, Lex, Join, OrderTexts, OrderTokens, OrderColumns;
    LexEmpty();
    if order != [] {
      var terms := Join(OrderTexts(order), ", ");
      assert OrderText(order) == "ORDER" + " " + ("BY" + " " + terms);
      LexKeyword("ORDER", "BY" + " " + terms);
      LexKeyword("BY", terms);
      LexOrderTerms(order);
    }
  }

  lemma {:induction false} LexCount(keyword: string, count: Option<int>)
    requires IsName(keyword)
    ensures Lex(CountText(keyword, count)) == CountTokens(keyword, count)
  {
    hide Lex;
    LexEmpty();
    if count.Some? && count.value != 0 {
      var n := count.value;
      LexKeyword(keyword, IntegerText(n));
      LexWord(Decimal(if n < 0 then -n else n));
      if n < 0 {
        assert IntegerText(n) == ['-'] + Decimal(-n);
        LexMarkThen('-', Decimal(-n));
      }
    }
  }

  lemma {:induction false} LexReturning()
    ensures Lex("RETURNING *") == [Word("RETURNING"), Mark('*')]
  {
    hide Lex;
    LexEmpty();
    assert "RETURNING *" == "RETURNING" + " " + "*";
    LexKeyword("RETURNING", "*");
    assert "*" == ['*'] + "";
    LexMarkThen('*', "");
  }
}
