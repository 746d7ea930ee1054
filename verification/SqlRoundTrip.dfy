// Parsing an emitted text gives back the statement it was written for.
module SqlRoundTrip {
  import opened Text
  import opened Lexer
  import opened Sql
  import opened SqlText

  // ---------- lists of tokens ----------

  lemma {:induction false} ParseNamesStep(name: string, rest: Tokens)
    requires IsIdentifier(name)
    ensures ParseNames([Word(name)] + rest) ==
            if !StartsWith(rest, Mark(',')) then Got([name], rest)
            else match ParseNames(rest[1..])
              case Got(names, rest') => Got([name] + names, rest')
              case Fail => Fail
  {
    hide IsIdentifier;
    var ts := [Word(name)] + rest;
    assert IsIdentifierToken(ts[0]) && ts[1..] == rest;
    assert StartsWith(rest, Mark(',')) ==> ts[2..] == rest[1..];
  }

  lemma {:induction false} ParseNameTokens(names: seq<string>, rest: Tokens)
    requires names != [] && Identifiers(names) && !StartsWith(rest, Mark(','))
    ensures ParseNames(NameTokens(names) + rest) == Got(names, rest)
  {
    hide IsIdentifier, ParseNames;
    assert names[0] in names;
    assert names == [names[0]] + names[1..];
    if |names| == 1 {
      ParseNamesStep(names[0], rest);
      assert names == [names[0]];
    } else {
      var tail := NameTokens(names[1..]) + rest;
      var more := [Mark(',')] + tail;
      assert forall n :: n in names[1..] ==> n in names;
      ParseNameTokens(names[1..], rest);
      ParseNamesStep(names[0], more);
      assert NameTokens(names) + rest == [Word(names[0])] + more;
      assert more[1..] == tail;
    }
  }

  lemma {:induction false} ParseParamToken(n: nat, rest: Tokens)
    ensures ParseParam([ParamToken(n)] + rest) == Got(n, rest)
  {
    var ts := [ParamToken(n)] + rest;
    assert ("$" + Decimal(n))[1..] == Decimal(n);
    DecimalRoundTrip(n);
    assert ts[1..] == rest;
  }

  lemma {:induction false} ParseParamTokens(start: nat, count: nat, rest: Tokens)
    requires count > 0 && !StartsWith(rest, Mark(','))
    ensures ParseParams(ParamTokens(start, count) + rest) == Got(Params(start, count), rest)
    decreases count
  {
    hide ParseParam;
    if count == 1 {
      ParseParamToken(start, rest);
      assert Params(start, 1) == [start];
    } else {
      var tail := ParamTokens(start + 1, count - 1) + rest;
      var more := [Mark(',')] + tail;
      ParseParamTokens(start + 1, count - 1, rest);
      ParseParamToken(start, more);
      assert ParamTokens(start, count) + rest == [ParamToken(start)] + more;
      assert more[1..] == tail;
    }
  }

  lemma {:induction false} ParseBindingToken(key: string, n: nat, rest: Tokens)
    requires IsIdentifier(key)
    ensures ParseBinding([Word(key), Mark('='), ParamToken(n)] + rest) == Got(Binding(key, n), rest)
  {
    var ts := [Word(key), Mark('='), ParamToken(n)] + rest;
    assert ts[2..] == [ParamToken(n)] + rest;
    ParseParamToken(n, rest);
  }

  lemma {:induction false} ParseBindingsStep(key: string, n: nat, separator: Token, rest: Tokens)
    requires IsIdentifier(key)
    ensures ParseBindings([Word(key), Mark('='), ParamToken(n)] + rest, separator) ==
            if !StartsWith(rest, separator) then Got([Binding(key, n)], rest)
            else match ParseBindings(rest[1..], separator)
              case Got(bs, rest') => Got([Binding(key, n)] + bs, rest')
              case Fail => Fail
  {
    hide ParseBinding, IsIdentifier;
    ParseBindingToken(key, n, rest);
  }

  lemma {:induction false} ParseBindingTokens(record: Record, start: nat, separator: Token, rest: Tokens)
    requires record != [] && Identifiers(Keys(record)) && !StartsWith(rest, separator)
    ensures ParseBindings(BindingTokens(record, start, separator) + rest, separator) == Got(Bindings(record, start), rest)
    decreases |record|
  {
    hide ParseBindings, IsIdentifier, ParamToken;
    var key := record[0].0;
    assert key in Keys(record);
    if |record| == 1 {
      ParseBindingsStep(key, start, separator, rest);
      assert Bindings(record, start) == [Binding(key, start)];
    } else {
      var tail := BindingTokens(record[1..], start + 1, separator) + rest;
      var more := [separator] + tail;
      ParseBindingTokens(record[1..], start + 1, separator, rest);
      ParseBindingsStep(key, start, separator, more);
      assert BindingTokens(record, start, separator) + rest == [Word(key), Mark('='), ParamToken(start)] + more;
      assert more[1..] == tail;
    }
  }

  lemma {:induction false} ParseWhereTokens(where: Record, start: nat, rest: Tokens)
    requires Identifiers(Keys(where)) && !StartsWith(rest, Word("AND")) && !StartsWith(rest, Word("WHERE"))
    ensures ParseWhere(WhereTokens(where, start) + rest) == Got(Bindings(where, start), rest)
  {
    hide ParseBindings, BindingTokens, IsIdentifier;
    var ts := WhereTokens(where, start) + rest;
    if where == [] {
      assert ts == rest;
    } else {
      assert ts[1..] == BindingTokens(where, start, Word("AND")) + rest;
      ParseBindingTokens(where, start, Word("AND"), rest);
    }
  }

  lemma {:induction false} DirectionRoundTrip(d: Direction)
    ensures ParseDirection(Word(DirectionText(d))) == Some(d)
  {
    assert |"ASC"| != |"DESC"|;
  }

  lemma {:induction false} ParseOrderStep(term: OrderTerm, rest: Tokens)
    requires IsIdentifier(term.column)
    ensures ParseOrderTerms([Word(term.column), Word(DirectionText(term.direction))] + rest) ==
            if !StartsWith(rest, Mark(',')) then Got([term], rest)
            else match ParseOrderTerms(rest[1..])
              case Got(terms, rest') => Got([term] + terms, rest')
              case Fail => Fail
  {
    hide IsIdentifier, ParseDirection, DirectionText;
    var ts := [Word(term.column), Word(DirectionText(term.direction))] + rest;
    DirectionRoundTrip(term.direction);
    assert IsIdentifierToken(ts[0]) && ts[2..] == rest;
    assert StartsWith(rest, Mark(',')) ==> ts[3..] == rest[1..];
  }

  lemma {:induction false} ParseOrderTokens(order: seq<OrderTerm>, rest: Tokens)
    requires order != [] && Identifiers(OrderColumns(order)) && !StartsWith(rest, Mark(','))
    ensures ParseOrderTerms(OrderTokens(order) + rest) == Got(order, rest)
  {
    hide IsIdentifier, ParseOrderTerms, DirectionText;
    assert order[0].column in OrderColumns(order);
    assert order == [order[0]] + order[1..];
    if |order| == 1 {
      ParseOrderStep(order[0], rest);
      assert order == [order[0]];
    } else {
      var tail := OrderTokens(order[1..]) + rest;
      var more := [Mark(',')] + tail;
      ParseOrderTokens(order[1..], rest);
      ParseOrderStep(order[0], more);
      assert OrderTokens(order) + rest == [Word(order[0].column), Word(DirectionText(order[0].direction))] + more;
      assert more[1..] == tail;
    }
  }

  lemma {:induction false} ParseOrderClause(order: seq<OrderTerm>, rest: Tokens)
    requires Identifiers(OrderColumns(order)) && !StartsWith(rest, Mark(',')) && !StartsWith(rest, Word("ORDER"))
    ensures ParseOrder(OrderClauseTokens(order) + rest) == Got(order, rest)
  {
    hide ParseOrderTerms, OrderTokens, IsIdentifier;
    var ts := OrderClauseTokens(order) + rest;
    if order == [] {
      assert ts == rest;
    } else {
      assert ts[2..] == OrderTokens(order) + rest;
      ParseOrderTokens(order, rest);
    }
  }

  lemma {:induction false} ParseCountTokens(keyword: string, count: Option<int>, rest: Tokens)
    requires !StartsWith(rest, Word(keyword))
    ensures ParseCount(CountTokens(keyword, count) + rest, keyword) ==
            if Negative(count) then Fail else Got(Count(count), rest)
  {
    var ts := CountTokens(keyword, count) + rest;
    if count.None? || count.value == 0 {
      assert ts == rest;
    } else if count.value > 0 {
      DecimalRoundTrip(count.value);
      assert ts[2..] == rest;
    }
  }

  // ---------- whole statements ----------

  lemma {:induction false} SelectRoundTrip(table: string, columns: seq<string>, where: Record, order: seq<OrderTerm>,
                        limit: Option<int>, offset: Option<int>)
    requires IsIdentifier(table) && Identifiers(columns) && Identifiers(Keys(where)) && Identifiers(OrderColumns(order))
    ensures Parse(Lex(SelectText(table, columns, where, order, limit, offset))) ==
            if columns == [] || Negative(limit) || Negative(offset) then None
            else Some(Select(columns, table, Bindings(where, 1), order, Count(limit), Count(offset)))
  {
    hide Lex;
    LexSelect(table, columns, where, order, limit, offset);
    ParseSelectTokens(table, columns, where, order, limit, offset);
  }

  function SelectTokens(table: string, columns: seq<string>, where: Record, order: seq<OrderTerm>,
                        limit: Option<int>, offset: Option<int>): Tokens {
    [Word("SELECT")] + (NameTokens(columns) + ([Word("FROM"), Word(table)] + (WhereTokens(where, 1) +
      (OrderClauseTokens(order) + (CountTokens("LIMIT", limit) + CountTokens("OFFSET", offset))))))
  }

  lemma {:induction false} LexFrom(keyword: string, table: string)
    requires IsName(keyword) && IsName(table)
    ensures Lex(keyword + " " + table) == [Word(keyword), Word(table)]
  {
    hide Lex;
    LexKeyword(keyword, table);
    LexWord(table);
  }

  lemma {:induction false} LexSelect(table: string, columns: seq<string>, where: Record, order: seq<OrderTerm>,
                  limit: Option<int>, offset: Option<int>)
    requires IsIdentifier(table) && Identifiers(columns) && Identifiers(Keys(where)) && Identifiers(OrderColumns(order))
    ensures Lex(SelectText(table, columns, where, order, limit, offset)) ==
            SelectTokens(table, columns, where, order, limit, offset)
  {
    hide Lex, Trim, Join, WhereText, OrderText, CountText, NameTokens, WhereTokens, OrderClauseTokens, CountTokens, IsIdentifier;
    var s6 := "\n  ";
    var s5 := Line(CountText("OFFSET", offset)) + s6;
    var s4 := Line(CountText("LIMIT", limit)) + s5;
    var s3 := Line(OrderText(order)) + s4;
    var s2 := Line(WhereText(where, 1)) + s3;
    var from := "FROM" + " " + table;
    var select := "SELECT" + " " + Join(columns, ", ");
    var s1 := Line(from) + s2;
    assert "SELECT " + Join(columns, ", ") == select && "FROM " + table == from;
    assert SelectText(table, columns, where, order, limit, offset) == Trim(Line(select) + s1);
    LexTrim(Line(select) + s1);
    LexLine(select, s1);
    LexLine(from, s2);
    LexLine(WhereText(where, 1), s3);
    LexLine(OrderText(order), s4);
    LexLine(CountText("LIMIT", limit), s5);
    LexLine(CountText("OFFSET", offset), s6);
    LexSpaces(s6);
    LexKeyword("SELECT", Join(columns, ", "));
    LexNames(columns);
    IdentifierIsName(table);
    LexFrom("FROM", table);
    LexWhere(where, 1);
    LexOrder(order);
    LexCount("LIMIT", limit);
    LexCount("OFFSET", offset);
  }

  lemma {:induction false} ParseSelectTokens(table: string, columns: seq<string>, where: Record, order: seq<OrderTerm>,
                          limit: Option<int>, offset: Option<int>)
    requires IsIdentifier(table) && Identifiers(columns) && Identifiers(Keys(where)) && Identifiers(OrderColumns(order))
    ensures Parse(SelectTokens(table, columns, where, order, limit, offset)) ==
            if columns == [] || Negative(limit) || Negative(offset) then None
            else Some(Select(columns, table, Bindings(where, 1), order, Count(limit), Count(offset)))
  {
    hide ParseNames, ParseWhere, ParseOrder, ParseCount, NameTokens, WhereTokens, OrderClauseTokens, IsIdentifier;
    var t5 := CountTokens("OFFSET", offset);
    var t4 := CountTokens("LIMIT", limit) + t5;
    var t3 := OrderClauseTokens(order) + t4;
    var t2 := WhereTokens(where, 1) + t3;
    var t1 := [Word("FROM"), Word(table)] + t2;
    var body := NameTokens(columns) + t1;
    assert SelectTokens(table, columns, where, order, limit, offset)[1..] == body;
    if columns == [] {
      NoNames(t1);
    } else {
      ParseNameTokens(columns, t1);
      assert t1[2..] == t2;
      TailsDoNotContinue(order, limit, offset);
      ParseWhereTokens(where, 1, t3);
      ParseOrderClause(order, t4);
      ParseCountTokens("LIMIT", limit, t5);
      ParseCountTokens("OFFSET", offset, []);
      assert t5 + [] == t5;
    }
  }

  lemma {:induction false} NoNames(ts: Tokens)
    requires ts != [] && (ts[0] == Word("FROM") || ts[0] == Mark(')'))
    ensures ParseNames(NameTokens([]) + ts) == Fail
  {
    assert NameTokens([]) + ts == ts;
    assert "FROM"[0] == 'F';
    assert !IsIdentifier("FROM");
  }

  // What follows the WHERE clause of a SELECT does not continue it, and what
  // follows the ORDER BY clause does not continue that.
  lemma {:induction false} TailsDoNotContinue(order: seq<OrderTerm>, limit: Option<int>, offset: Option<int>)
    ensures var t5 := CountTokens("OFFSET", offset); var t4 := CountTokens("LIMIT", limit) + t5;
            && !StartsWith(t5, Word("LIMIT"))
            && !StartsWith(t4, Mark(',')) && !StartsWith(t4, Word("ORDER"))
            && !StartsWith(OrderClauseTokens(order) + t4, Word("AND"))
            && !StartsWith(OrderClauseTokens(order) + t4, Word("WHERE"))
  {
    hide OrderTokens;
    assert "OFFSET"[0] == 'O' && "LIMIT"[0] == 'L' && "AND"[0] == 'A' && "WHERE"[0] == 'W';
    assert "ORDER"[1] == 'R' && "OFFSET"[1] == 'F';
  }

  // ---------- insert ----------

  function InsertTokens(table: string, data: Record): Tokens {
    [Word("INSERT"), Word("INTO"), Word(table), Mark('(')] + (NameTokens(Keys(data)) +
      ([Mark(')'), Word("VALUES"), Mark('(')] + (ParamTokens(1, |data|) +
        [Mark(')'), Word("RETURNING"), Mark('*')])))
  }

  lemma {:induction false} LexInParens(keyword: string, body: string)
    requires IsName(keyword)
    ensures Lex(keyword + " (" + body + ")") == [Word(keyword), Mark('(')] + (Lex(body) + [Mark(')')])
  {
    hide Lex;
    LexEmpty();
    assert keyword + " (" + body + ")" == keyword + " " + (['('] + (body + ")"));
    LexKeyword(keyword, ['('] + (body + ")"));
    LexMarkThen('(', body + ")");
    LexConcat(body, ")");
    assert ")" == [')'] + "";
    LexMarkThen(')', "");
  }

  lemma {:induction false} LexInsert(table: string, data: Record)
    requires IsIdentifier(table) && Identifiers(Keys(data))
    ensures Lex(InsertText(table, data)) == InsertTokens(table, data)
  {
    hide IsReserved, Lex, Trim, Join, Keys, Placeholders, NameTokens, ParamTokens, IsIdentifier;
    var s3 := "\n  ";
    var s2 := Line("RETURNING *") + s3;
    var values := "VALUES" + " (" + Join(Placeholders(1, |data|), ", ") + ")";
    var s1 := Line(values) + s2;
    var names := table + " (" + Join(Keys(data), ", ") + ")";
    var insert := "INSERT" + " " + ("INTO" + " " + names);
    assert "INSERT INTO " + table + " (" + Join(Keys(data), ", ") + ")" == insert;
    assert "VALUES (" + Join(Placeholders(1, |data|), ", ") + ")" == values;
    assert InsertText(table, data) == Trim(Line(insert) + s1);
    LexTrim(Line(insert) + s1);
    LexLine(insert, s1);
    LexLine(values, s2);
    LexLine("RETURNING *", s3);
    LexSpaces(s3);
    LexReturning();
    LexKeyword("INSERT", "INTO" + " " + names);
    LexKeyword("INTO", names);
    IdentifierIsName(table);
    LexInParens(table, Join(Keys(data), ", "));
    LexNames(Keys(data));
    LexInParens("VALUES", Join(Placeholders(1, |data|), ", "));
    LexPlaceholders(1, |data|);
  }

  lemma {:induction false} InsertRoundTrip(table: string, data: Record)
    requires IsIdentifier(table) && Identifiers(Keys(data))
    ensures Parse(Lex(InsertText(table, data))) ==
            if data == [] then None else Some(Insert(table, Keys(data), Params(1, |data|)))
  {
    hide Lex;
    LexInsert(table, data);
    ParseInsertTokens(table, data);
  }

  lemma {:induction false} ParseInsertTokens(table: string, data: Record)
    requires IsIdentifier(table) && Identifiers(Keys(data))
    ensures Parse(InsertTokens(table, data)) ==
            if data == [] then None else Some(Insert(table, Keys(data), Params(1, |data|)))
  {
    hide ParseNames, ParseParams, NameTokens, ParamTokens, IsIdentifier;
    var t2 := [Mark(')'), Word("RETURNING"), Mark('*')];
    var params := ParamTokens(1, |data|) + t2;
    var t1 := [Mark(')'), Word("VALUES"), Mark('(')] + params;
    var names := NameTokens(Keys(data)) + t1;
    assert InsertTokens(table, data)[1..] == [Word("INTO"), Word(table), Mark('(')] + names;
    assert InsertTokens(table, data)[1..][3..] == names;
    if data == [] {
      NoNames(t1);
    } else {
      ParseNameTokens(Keys(data), t1);
      ParseParamTokens(1, |data|, t2);
      assert t1[3..] == params;
    }
  }

  // ---------- update and delete ----------

  const RETURNING_ALL: Tokens := [Word("RETURNING"), Mark('*')]

  function UpdateTokens(table: string, data: Record, where: Record): Tokens {
    [Word("UPDATE"), Word(table), Word("SET")] + (BindingTokens(data, 1, Mark(',')) +
      (WhereTokens(where, |data| + 1) + RETURNING_ALL))
  }

  lemma {:induction false} LexUpdate(table: string, data: Record, where: Record)
    requires IsIdentifier(table) && Identifiers(Keys(data)) && Identifiers(Keys(where))
    ensures Lex(UpdateText(table, data, where)) == UpdateTokens(table, data, where)
  {
    hide Lex, Trim, Join, WhereText, WhereTokens, BindingTokens, IsIdentifier;
    var s4 := "\n  ";
    var s3 := Line("RETURNING *") + s4;
    var s2 := Line(WhereText(where, |data| + 1)) + s3;
    var set_ := "SET" + " " + SetText(data);
    var s1 := Line(set_) + s2;
    var update := "UPDATE" + " " + table;
    assert "UPDATE " + table == update && "SET " + SetText(data) == set_;
    assert UpdateText(table, data, where) == Trim(Line(update) + s1);
    LexTrim(Line(update) + s1);
    LexLine(update, s1);
    LexLine(set_, s2);
    LexLine(WhereText(where, |data| + 1), s3);
    LexLine("RETURNING *", s4);
    LexSpaces(s4);
    LexReturning();
    IdentifierIsName(table);
    LexFrom("UPDATE", table);
    LexKeyword("SET", SetText(data));
    LexConditions(data, 1, ", ", Mark(','));
    LexWhere(where, |data| + 1);
  }

  lemma {:induction false} UpdateRoundTrip(table: string, data: Record, where: Record)
    requires IsIdentifier(table) && Identifiers(Keys(data)) && Identifiers(Keys(where))
    ensures Parse(Lex(UpdateText(table, data, where))) ==
            if data == [] then None else Some(Update(table, Bindings(data, 1), Bindings(where, |data| + 1)))
  {
    hide Lex;
    LexUpdate(table, data, where);
    ParseUpdateTokens(table, data, where);
  }

  lemma {:induction false} ParseUpdateTokens(table: string, data: Record, where: Record)
    requires IsIdentifier(table) && Identifiers(Keys(data)) && Identifiers(Keys(where))
    ensures Parse(UpdateTokens(table, data, where)) ==
            if data == [] then None else Some(Update(table, Bindings(data, 1), Bindings(where, |data| + 1)))
  {
    hide ParseBindings, ParseWhere, BindingTokens, IsIdentifier;
    var t1 := WhereTokens(where, |data| + 1) + RETURNING_ALL;
    var sets := BindingTokens(data, 1, Mark(',')) + t1;
    assert UpdateTokens(table, data, where)[1..] == [Word(table), Word("SET")] + sets;
    assert UpdateTokens(table, data, where)[1..][2..] == sets;
    if data == [] {
      NoBindings(t1, Mark(','));
    } else {
      ParseBindingTokens(data, 1, Mark(','), t1);
      ParseWhereTokens(where, |data| + 1, RETURNING_ALL);
    }
  }

  lemma {:induction false} NoBindings(ts: Tokens, separator: Token)
    requires ts != [] && (ts[0] == Word("WHERE") || ts[0] == Word("RETURNING"))
    ensures ParseBindings(BindingTokens([], 1, separator) + ts, separator) == Fail
  {
    assert BindingTokens([], 1, separator) + ts == ts;
    assert "WHERE"[0] == 'W' && "RETURNING"[0] == 'R';
    assert !IsIdentifier("WHERE") && !IsIdentifier("RETURNING");
  }

  function DeleteTokens(table: string, where: Record): Tokens {
    [Word("DELETE"), Word("FROM"), Word(table)] + (WhereTokens(where, 1) + RETURNING_ALL)
  }

  lemma {:induction false} LexDelete(table: string, where: Record)
    requires IsName(table) && Identifiers(Keys(where))
    ensures Lex(DeleteText(table, where)) == DeleteTokens(table, where)
  {
    hide Lex, Trim, WhereText, WhereTokens, IsIdentifier;
    var s3 := "\n  ";
    var s2 := Line("RETURNING *") + s3;
    var s1 := Line(WhereText(where, 1)) + s2;
    var delete := "DELETE" + " " + ("FROM" + " " + table);
    assert "DELETE FROM " + table == delete;
    assert DeleteText(table, where) == Trim(Line(delete) + s1);
    LexTrim(Line(delete) + s1);
    LexLine(delete, s1);
    LexLine(WhereText(where, 1), s2);
    LexLine("RETURNING *", s3);
    LexSpaces(s3);
    LexReturning();
    LexKeyword("DELETE", "FROM" + " " + table);
    LexFrom("FROM", table);
    LexWhere(where, 1);
  }

  lemma {:induction false} DeleteRoundTrip(table: string, where: Record)
    requires IsIdentifier(table) && Identifiers(Keys(where))
    ensures Parse(Lex(DeleteText(table, where))) == Some(Delete(table, Bindings(where, 1)))
  {
    hide Lex;
    IdentifierIsName(table);
    LexDelete(table, where);
    ParseDeleteTokens(table, where);
  }

  lemma {:induction false} ParseDeleteTokens(table: string, where: Record)
    requires IsIdentifier(table) && Identifiers(Keys(where))
    ensures Parse(DeleteTokens(table, where)) == Some(Delete(table, Bindings(where, 1)))
  {
    hide ParseWhere, WhereTokens, IsIdentifier;
    var t1 := WhereTokens(where, 1) + RETURNING_ALL;
    assert DeleteTokens(table, where)[1..] == [Word("FROM"), Word(table)] + t1;
    assert DeleteTokens(table, where)[1..][2..] == t1;
    ParseWhereTokens(where, 1, RETURNING_ALL);
  }

  // A table whose name is one word but no plain identifier, such as a reserved word or a
  // word with a capital letter or a dollar, makes a text that is no statement.
  lemma {:induction false} OtherNamesRefused(table: string, where: Record)
    requires IsName(table) && Identifiers(Keys(where))
    requires IsReserved(table) || IsDigit(table[0]) || exists c :: c in table && ('A' <= c <= 'Z' || c == '$')
    ensures Parse(Lex(DeleteText(table, where))) == None
  {
    OtherNames(table);
    hide *;
    LexDelete(table, where);
    OtherNamesUnparsed(table, where);
  }

  lemma {:induction false} OtherNames(table: string)
    requires IsName(table)
    requires IsReserved(table) || IsDigit(table[0]) || exists c :: c in table && ('A' <= c <= 'Z' || c == '$')
    ensures !IsIdentifier(table)
  {
    hide IsReserved;
    if c :| c in table && ('A' <= c <= 'Z' || c == '$') {
      var i :| 0 <= i < |table| && table[i] == c;
    }
  }

  lemma {:induction false} OtherNamesUnparsed(table: string, where: Record)
    requires !IsIdentifier(table)
    ensures Parse(DeleteTokens(table, where)) == None
  {
    hide Lex, IsIdentifier, WhereTokens, ParseWhere;
    var t1 := WhereTokens(where, 1) + RETURNING_ALL;
    assert DeleteTokens(table, where)[1..] == [Word("FROM"), Word(table)] + t1;
  }
}
