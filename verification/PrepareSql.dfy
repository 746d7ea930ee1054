// prepareSql of logic.ts: every :name of a SQL template becomes $1, $2, ... and the
// named parameters become a list of values.
module PrepareSql {
  import opened Text
  import opened Positional
  import Canonical

  type Value = Canonical.Json

  type Params = map<string, Value>

  // A template as the regular expression :(\w+) cuts it: matches, and the
  // characters between them.
  datatype Token = Name(name: string) | Char(c: char)

  // The length of the match at the start of s, or 0.
  function MatchLength(s: string): (n: nat)
    ensures n <= |s| && n != 1
  {
    if s != [] && s[0] == ':' then
      var m := SpanLength(s[1..], IsWordChar);
      if m > 0 then m + 1 else 0
    else 0
  }

  function FirstToken(s: string): Token
    requires s != []
  {
    var n := MatchLength(s);
    if n > 0 then Name(s[1..n]) else Char(s[0])
  }

  function FirstLength(s: string): (n: nat)
    requires s != []
    ensures 0 < n <= |s|
  {
    if MatchLength(s) > 0 then MatchLength(s) else 1
  }

  function Scan(template: string): seq<Token>
    decreases |template|
  {
    if template == [] then [] else [FirstToken(template)] + Scan(template[FirstLength(template)..])
  }

  function Get(params: Params, name: string): Option<Value> {
    if name in params then Some(params[name]) else None
  }

  // ---------- the prepared text and values ----------

  function TokenText(t: Token, index: nat): string {
    match t
    case Name(_) => "$" + Decimal(index)
    case Char(c) => [c]
  }

  function PreparedText(tokens: seq<Token>, index: nat): string {
    if tokens == [] then []
    else TokenText(tokens[0], index) + PreparedText(tokens[1..], if tokens[0].Name? then index + 1 else index)
  }

  // The values in order of appearance, repeated for repeated names; a parameter
  // that is not given is undefined.
  function ValuesFor(tokens: seq<Token>, params: Params): seq<Option<Value>> {
    if tokens == [] then []
    else (if tokens[0].Name? then [Get(params, tokens[0].name)] else []) + ValuesFor(tokens[1..], params)
  }

  lemma {:induction false} TextMoves(sql: string, tokens: seq<Token>, index: nat)
    requires tokens != []
    ensures sql + PreparedText(tokens, index) ==
            sql + TokenText(tokens[0], index) + PreparedText(tokens[1..], if tokens[0].Name? then index + 1 else index)
  {
    hide TokenText;
  }

  lemma {:induction false} ScanFirst(s: string)
    requires s != []
    ensures Scan(s) != [] && Scan(s)[0] == FirstToken(s) && Scan(s)[1..] == Scan(s[FirstLength(s)..])
  {
    hide FirstToken, FirstLength;
  }

  // Moving the first token over to what has been written already.
  lemma {:induction false} TokenMoves(sql: string, values: seq<Option<Value>>, rest: string, index: nat, params: Params)
    requires rest != []
    ensures var n := MatchLength(rest);
            if n > 0 then
              && sql + PreparedText(Scan(rest), index) == sql + "$" + Decimal(index) + PreparedText(Scan(rest[n..]), index + 1)
              && values + ValuesFor(Scan(rest), params) == values + [Get(params, rest[1..n])] + ValuesFor(Scan(rest[n..]), params)
            else
              && sql + PreparedText(Scan(rest), index) == sql + [rest[0]] + PreparedText(Scan(rest[1..]), index)
              && values + ValuesFor(Scan(rest), params) == values + ValuesFor(Scan(rest[1..]), params)
  {
    hide Scan, PreparedText, ValuesFor, MatchLength, FirstToken, FirstLength, Decimal, Get;
    ScanFirst(rest);
    FirstIs(rest);
    TextMoves(sql, Scan(rest), index);
    ValuesMove(values, Scan(rest), params);
    assert sql + ("$" + Decimal(index)) == sql + "$" + Decimal(index);
  }

  lemma {:induction false} FirstIs(s: string)
    requires s != []
    ensures var n := MatchLength(s);
            if n > 0 then FirstToken(s) == Name(s[1..n]) && FirstLength(s) == n
            else FirstToken(s) == Char(s[0]) && FirstLength(s) == 1
  {
    hide MatchLength;
  }

  lemma {:induction false} ValuesFirst(tokens: seq<Token>, params: Params)
    requires tokens != []
    ensures ValuesFor(tokens, params) ==
            (if tokens[0].Name? then [Get(params, tokens[0].name)] else []) + ValuesFor(tokens[1..], params)
  {
  }

  lemma {:induction false} ValuesMove(values: seq<Option<Value>>, tokens: seq<Token>, params: Params)
    requires tokens != []
    ensures values + ValuesFor(tokens, params) ==
            if tokens[0].Name? then values + [Get(params, tokens[0].name)] + ValuesFor(tokens[1..], params)
            else values + ValuesFor(tokens[1..], params)
  {
    hide Get, ValuesFor;
    ValuesFirst(tokens, params);
    var rest := ValuesFor(tokens[1..], params);
    if tokens[0].Name? {
      var value := Get(params, tokens[0].name);
      assert values + ([value] + rest) == values + [value] + rest;
    } else {
      assert [] + rest == rest;
    }
  }

  lemma {:induction false} NothingLeft(sql: string, values: seq<Option<Value>>, index: nat, params: Params)
    ensures sql + PreparedText(Scan(""), index) == sql && values + ValuesFor(Scan(""), params) == values
  {
    assert sql + [] == sql && values + [] == values;
  }

  method Prepare(template: string, params: Params) returns (sql: string, values: seq<Option<Value>>)
    ensures sql == PreparedText(Scan(template), 1)
    ensures values == ValuesFor(Scan(template), params)
  {
    hide *;
    sql, values := "", [];
    var paramIndex := 0;
    var i := 0;
    assert template[0..] == template;
    while i < |template|
      invariant i <= |template|
      invariant sql + PreparedText(Scan(template[i..]), paramIndex + 1) == PreparedText(Scan(template), 1)
      invariant values + ValuesFor(Scan(template[i..]), params) == ValuesFor(Scan(template), params)
    {
      var rest := template[i..];
      var n := MatchLength(rest);
      TokenMoves(sql, values, rest, paramIndex + 1, params);
      assert rest[1..] == template[i + 1..] && rest[n..] == template[i + n..];
      if n > 0 {
        paramIndex := paramIndex + 1;
        values := values + [Get(params, rest[1..n])];
        sql := sql + "$" + Decimal(paramIndex);
        i := i + n;
      } else {
        sql := sql + [rest[0]];
        i := i + 1;
      }
    }
    assert template[|template|..] == "";
    NothingLeft(sql, values, paramIndex + 1, params);
  }

  // ---------- binding is kept ----------

  // A piece of a text once its parameters are looked up; a number past the end of
  // the list is dangling.
  datatype Resolved = Text(c: char) | Bound(value: Option<Value>) | Dangling(n: nat)

  // The template with every :name replaced by its parameter.
  function ReadNamed(tokens: seq<Token>, params: Params): seq<Resolved> {
    if tokens == [] then []
    else
      var first :=
        match tokens[0]
        case Name(name) => Bound(if name in params then Some(params[name]) else None)
        case Char(c) => Text(c);
      [first] + ReadNamed(tokens[1..], params)
  }

  function ResolvePiece(p: Piece, values: seq<Option<Value>>): Resolved {
    match p
    case Lit(c) => Text(c)
    case Arg(n) => if 1 <= n <= |values| then Bound(values[n - 1]) else Dangling(n)
  }

  // A positional text with every $n replaced by the n-th value.
  function Resolve(pieces: seq<Piece>, values: seq<Option<Value>>): seq<Resolved> {
    if pieces == [] then [] else [ResolvePiece(pieces[0], values)] + Resolve(pieces[1..], values)
  }

  // A name is cut as long as possible: no digit directly follows it.
  ghost predicate Greedy(tokens: seq<Token>) {
    forall i :: 0 <= i < |tokens| - 1 && tokens[i].Name? && tokens[i + 1].Char? ==> !IsDigit(tokens[i + 1].c)
  }

  predicate DollarAt(tokens: seq<Token>, i: nat)
    requires i < |tokens|
  {
    tokens[i] == Char('$') && i + 1 < |tokens| && tokens[i + 1].Char? && IsDigit(tokens[i + 1].c)
  }

  ghost predicate NoDollar(tokens: seq<Token>) {
    forall i :: 0 <= i < |tokens| ==> !DollarAt(tokens, i)
  }

  lemma {:induction false} NoDollarTail(tokens: seq<Token>)
    requires tokens != []
    ensures NoDollar(tokens) <==> !DollarAt(tokens, 0) && NoDollar(tokens[1..])
  {
    forall i | 0 <= i < |tokens[1..]| ensures DollarAt(tokens[1..], i) <==> DollarAt(tokens, i + 1) {
    }
    if !DollarAt(tokens, 0) && NoDollar(tokens[1..]) {
      forall i | 0 <= i < |tokens| ensures !DollarAt(tokens, i) {
        assert i > 0 ==> !DollarAt(tokens[1..], i - 1);
      }
    }
  }

  lemma {:induction false} GreedyTail(tokens: seq<Token>)
    requires tokens != [] && Greedy(tokens)
    ensures Greedy(tokens[1..])
    ensures tokens[0].Name? && |tokens| > 1 && tokens[1].Char? ==> !IsDigit(tokens[1].c)
  {
    assert forall i :: 0 <= i < |tokens| - 1 ==> tokens[1..][i] == tokens[i + 1];
  }

  // Whether the text starts with a digit is seen at its first token.
  lemma {:induction false} TextStart(tokens: seq<Token>, index: nat)
    ensures tokens == [] <==> PreparedText(tokens, index) == []
    ensures tokens != [] ==> (IsDigit(PreparedText(tokens, index)[0]) <==> tokens[0].Char? && IsDigit(tokens[0].c))
  {
  }

  lemma {:induction false} ResolveCons(p: Piece, rest: seq<Piece>, values: seq<Option<Value>>)
    ensures Resolve([p] + rest, values) == [ResolvePiece(p, values)] + Resolve(rest, values)
  {
    hide ResolvePiece;
    assert ([p] + rest)[1..] == rest;
  }

  lemma {:induction false} SameTails(p: Resolved, a: seq<Resolved>, b: seq<Resolved>)
    ensures [p] + a == [p] + b <==> a == b
  {
    assert ([p] + a)[1..] == a && ([p] + b)[1..] == b;
  }

  // From index on, values holds the values of the tokens.
  lemma {:induction false} BindingKeptFrom(tokens: seq<Token>, params: Params, before: seq<Option<Value>>)
    requires Greedy(tokens)
    ensures var values := before + ValuesFor(tokens, params);
            Resolve(Read(PreparedText(tokens, |before| + 1)), values) == ReadNamed(tokens, params) <==> NoDollar(tokens)
    decreases |tokens|
  {
    hide Greedy, NoDollar, DollarAt, Read, Resolve, Decimal;
    var index, values := |before| + 1, before + ValuesFor(tokens, params);
    if tokens == [] {
      EmptyKept(values);
    } else {
      var rest := tokens[1..];
      GreedyTail(tokens);
      NoDollarTail(tokens);
      match tokens[0] {
        case Name(name) =>
          var tail := PreparedText(rest, index + 1);
          TextStart(rest, index + 1);
          ReadArg(index, tail);
          ResolveCons(Arg(index), Read(tail), values);
          assert values == before + [Get(params, name)] + ValuesFor(rest, params);
          assert values[index - 1] == Get(params, name);
          BindingKeptFrom(rest, params, before + [Get(params, name)]);
          SameTails(Bound(Get(params, name)), Resolve(Read(tail), values), ReadNamed(rest, params));
          NameIsNoDollar(tokens);
        case Char(c) =>
          var tail := PreparedText(rest, index);
          TextStart(rest, index);
          assert values == before + ValuesFor(rest, params);
          BindingKeptFrom(rest, params, before);
          CharKept(tokens, c, tail, values);
          SameTails(Text(c), Resolve(Read(tail), values), ReadNamed(rest, params));
      }
    }
  }

  lemma {:induction false} EmptyKept(values: seq<Option<Value>>)
    ensures Resolve(Read([]), values) == [] && NoDollar([])
  {
  }

  lemma {:induction false} NameIsNoDollar(tokens: seq<Token>)
    requires tokens != [] && tokens[0].Name?
    ensures !DollarAt(tokens, 0)
  {
  }

  lemma {:induction false} CharKept(tokens: seq<Token>, c: char, tail: string, values: seq<Option<Value>>)
    requires tokens != [] && tokens[0] == Char(c)
    requires |tokens| == 1 <==> tail == []
    requires |tokens| > 1 ==> (IsDigit(tail[0]) <==> tokens[1].Char? && IsDigit(tokens[1].c))
    ensures DollarAt(tokens, 0) ==> Resolve(Read([c] + tail), values) != [] && !Resolve(Read([c] + tail), values)[0].Text?
    ensures !DollarAt(tokens, 0) ==> Resolve(Read([c] + tail), values) == [Text(c)] + Resolve(Read(tail), values)
  {
    if DollarAt(tokens, 0) {
      var pieces := Read([c] + tail);
      assert DollarDigit([c] + tail, 0);
      assert pieces[0].Arg?;
    } else {
      ReadLit(c, tail);
      ResolveCons(Lit(c), Read(tail), values);
    }
  }

  // ---------- the scanner ----------

  // A letter, a digit or an underscore.
  ghost predicate IsOfName(c: char) {
    'a' <= c <= 'z' || 'A' <= c <= 'Z' || '0' <= c <= '9' || c == '_'
  }

  // The tokens written out again.
  function Spelled(tokens: seq<Token>): string {
    if tokens == [] then []
    else (match tokens[0] case Name(name) => ":" + name case Char(c) => [c]) + Spelled(tokens[1..])
  }

  // Names are not empty and of name characters.
  ghost predicate GoodNames(tokens: seq<Token>) {
    forall t :: t in tokens && t.Name? ==> t.name != "" && forall i :: 0 <= i < |t.name| ==> IsOfName(t.name[i])
  }

  // No name could go on, and no colon that is left as it is could start one.
  ghost predicate Maximal(tokens: seq<Token>) {
    forall i :: 0 <= i < |tokens| - 1 && tokens[i + 1].Char? && IsOfName(tokens[i + 1].c) ==> tokens[i].Char? && tokens[i].c != ':'
  }

  // The template is cut into every name that a colon starts, as long as it goes, and
  // single characters: nothing is lost, and there is only one way to cut it so.
  lemma {:induction false} ScanCuts(s: string)
    ensures Spelled(Scan(s)) == s && GoodNames(Scan(s)) && Maximal(Scan(s))
    decreases |s|
  {
    hide Scan, FirstToken, FirstLength, MatchLength, Spelled, IsOfName, GoodNames, Maximal;
    if s == [] {
      NothingCut();
    } else {
      var n := FirstLength(s);
      ScanCuts(s[n..]);
      SpelledFirst(s);
      assert s == s[..n] + s[n..];
      FirstTokenCut(s);
      CutMore(Scan(s));
    }
  }

  lemma {:induction false} NothingCut()
    ensures Scan("") == [] && Spelled([]) == "" && GoodNames([]) && Maximal([])
  {
  }

  // The first token is as CutMore wants it.
  lemma {:induction false} FirstTokenCut(s: string)
    requires s != []
    ensures var tokens := Scan(s);
            && tokens != [] && tokens[1..] == Scan(s[FirstLength(s)..])
            && (tokens[0].Name? ==> tokens[0].name != "" && forall i :: 0 <= i < |tokens[0].name| ==> IsOfName(tokens[0].name[i]))
            && (|tokens| > 1 && tokens[1].Char? && IsOfName(tokens[1].c) ==> tokens[0].Char? && tokens[0].c != ':')
  {
    var n := FirstLength(s);
    var rest := s[n..];
    ScanFirst(s);
    FirstIs(s);
    FirstIsMaximal(s);
    if rest != [] {
      ScanFirst(rest);
      FirstIs(rest);
      assert rest[0] == s[n] && Scan(s)[1] == Scan(rest)[0];
    } else {
      assert Scan(rest) == [];
    }
    hide Scan, FirstToken, FirstLength, MatchLength, IsOfName;
  }

  lemma {:induction false} FirstIsMaximal(s: string)
    requires s != []
    ensures var n := MatchLength(s);
            && (n > 0 ==> s[0] == ':' && (forall i :: 1 <= i < n ==> IsOfName(s[i])) && (n < |s| ==> !IsOfName(s[n])))
            && (n == 0 && |s| > 1 && s[0] == ':' ==> !IsOfName(s[1]))
  {
    if MatchLength(s) > 0 {
      MatchIsWord(s);
    } else if |s| > 1 && s[0] == ':' {
      assert s[1..][0] == s[1];
    }
  }

  lemma {:induction false} SpelledFirst(s: string)
    requires s != []
    ensures Spelled(Scan(s)) == s[..FirstLength(s)] + Spelled(Scan(s[FirstLength(s)..]))
  {
    hide MatchLength;
    ScanFirst(s);
    FirstIs(s);
    FirstIsMaximal(s);
    hide Scan, FirstToken, FirstLength;
    if MatchLength(s) > 0 {
      assert s[..MatchLength(s)] == ":" + s[1..MatchLength(s)];
    } else {
      assert s[..1] == [s[0]];
    }
  }

  lemma {:induction false} CutMore(tokens: seq<Token>)
    requires tokens != [] && GoodNames(tokens[1..]) && Maximal(tokens[1..])
    requires tokens[0].Name? ==> tokens[0].name != "" && forall i :: 0 <= i < |tokens[0].name| ==> IsOfName(tokens[0].name[i])
    requires |tokens| > 1 && tokens[1].Char? && IsOfName(tokens[1].c) ==> tokens[0].Char? && tokens[0].c != ':'
    ensures GoodNames(tokens) && Maximal(tokens)
  {
    hide IsOfName;
    assert forall t :: t in tokens ==> t == tokens[0] || t in tokens[1..];
    var rest := tokens[1..];
    forall i | 0 <= i < |tokens| - 1 && tokens[i + 1].Char? && IsOfName(tokens[i + 1].c) ensures tokens[i].Char? && tokens[i].c != ':' {
      if i > 0 {
        assert rest[i - 1] == tokens[i] && rest[i] == tokens[i + 1];
      }
    }
  }

  lemma {:induction false} MatchIsWord(s: string)
    requires MatchLength(s) > 0
    ensures s[0] == ':' && forall i :: 1 <= i < MatchLength(s) ==> IsWordChar(s[i])
    ensures MatchLength(s) < |s| ==> !IsWordChar(s[MatchLength(s)])
  {
    var m := SpanLength(s[1..], IsWordChar);
    assert forall i :: 1 <= i < |s| ==> s[i] == s[1..][i - 1];
  }

  lemma {:induction false} ScanIsGreedy(s: string)
    ensures Greedy(Scan(s))
    decreases |s|
  {
    if s != [] {
      var n := FirstLength(s);
      var rest := s[n..];
      ScanIsGreedy(rest);
      ScanFirst(s);
      if MatchLength(s) > 0 {
        MatchIsWord(s);
      }
      if rest != [] {
        ScanFirst(rest);
        assert rest[0] == s[n];
      }
      var tokens := Scan(s);
      assert forall i :: 0 <= i < |tokens| - 1 ==> tokens[i + 1] == tokens[1..][i];
      hide Scan, MatchLength;
      forall i | 0 <= i < |tokens| - 1 && tokens[i].Name? && tokens[i + 1].Char? ensures !IsDigit(tokens[i + 1].c) {
        if i > 0 {
          assert tokens[i] == tokens[1..][i - 1] && tokens[i + 1] == tokens[1..][i];
        }
      }
    }
  }

  // A $ before a digit in the template is one in its tokens, and the reverse.
  lemma {:induction false} ScanKeepsDollars(s: string)
    ensures NoDollarDigit(s) <==> NoDollar(Scan(s))
    decreases |s|
  {
    if s != [] {
      var n := FirstLength(s);
      var rest := s[n..];
      ScanKeepsDollars(rest);
      ScanFirst(s);
      NoDollarTail(Scan(s));
      if rest != [] {
        ScanFirst(rest);
        assert rest[0] == s[n];
      }
      if MatchLength(s) > 0 {
        MatchHasNoDollar(s);
      } else {
        NoDollarDigitTail(s);
      }
    }
  }

  lemma {:induction false} MatchHasNoDollar(s: string)
    requires MatchLength(s) > 0
    ensures NoDollarDigit(s) <==> NoDollarDigit(s[MatchLength(s)..])
  {
    var n := MatchLength(s);
    var rest := s[n..];
    MatchIsWord(s);
    hide MatchLength;
    forall i | 0 <= i < |rest| ensures DollarDigit(rest, i) <==> DollarDigit(s, i + n) {
    }
    if NoDollarDigit(rest) {
      forall i | 0 <= i < |s| ensures !DollarDigit(s, i) {
        assert i >= n ==> !DollarDigit(rest, i - n);
      }
    }
  }

  lemma {:induction false} NoDollarDigitTail(s: string)
    requires s != []
    ensures NoDollarDigit(s) <==> !DollarDigit(s, 0) && NoDollarDigit(s[1..])
  {
    forall i | 0 <= i < |s[1..]| ensures DollarDigit(s[1..], i) <==> DollarDigit(s, i + 1) {
    }
    if !DollarDigit(s, 0) && NoDollarDigit(s[1..]) {
      forall i | 0 <= i < |s| ensures !DollarDigit(s, i) {
        assert i > 0 ==> !DollarDigit(s[1..], i - 1);
      }
    }
  }

  // Filling in $1, $2, ... from the values gives what replacing each :name by its
  // parameter gives, for exactly the templates with no $ directly before a digit.
  lemma {:induction false} PrepareKeepsBinding(template: string, params: Params)
    ensures Resolve(Read(PreparedText(Scan(template), 1)), ValuesFor(Scan(template), params)) == ReadNamed(Scan(template), params)
       <==> NoDollarDigit(template)
  {
    hide Scan, NoDollarDigit, NoDollar, Greedy, Resolve, Read, PreparedText;
    ScanIsGreedy(template);
    ScanKeepsDollars(template);
    BindingKeptFrom(Scan(template), params, []);
    assert [] + ValuesFor(Scan(template), params) == ValuesFor(Scan(template), params);
  }

  // The parameters of the prepared text are $1 .. $n in order, n the number of values.
  lemma {:induction false} ParametersCount(template: string, params: Params)
    requires NoDollarDigit(template)
    ensures ArgsOf(Read(PreparedText(Scan(template), 1))) == Counting(1, |ValuesFor(Scan(template), params)|)
  {
    hide Scan, Read, PreparedText;
    ScanIsGreedy(template);
    ScanKeepsDollars(template);
    CountFrom(Scan(template), params, 1);
  }

  lemma {:induction false} CountFrom(tokens: seq<Token>, params: Params, index: nat)
    requires Greedy(tokens) && NoDollar(tokens)
    ensures ArgsOf(Read(PreparedText(tokens, index))) == Counting(index, |ValuesFor(tokens, params)|)
    decreases |tokens|
  {
    hide Greedy, NoDollar, DollarAt, Decimal, Get;
    if tokens != [] {
      var rest := tokens[1..];
      var next := if tokens[0].Name? then index + 1 else index;
      var tail := PreparedText(rest, next);
      GreedyTail(tokens);
      NoDollarTail(tokens);
      TextStart(rest, next);
      CountFrom(rest, params, next);
      if tokens[0].Name? {
        ReadArg(index, tail);
        hide Read;
        assert ([Arg(index)] + Read(tail))[1..] == Read(tail);
      } else {
        PlainChar(tokens, tail);
        hide Read;
        assert ([Lit(tokens[0].c)] + Read(tail))[1..] == Read(tail);
      }
    }
  }

  lemma {:induction false} PlainChar(tokens: seq<Token>, tail: string)
    requires tokens != [] && tokens[0].Char? && !DollarAt(tokens, 0)
    requires |tokens| == 1 <==> tail == []
    requires |tokens| > 1 ==> (IsDigit(tail[0]) <==> tokens[1].Char? && IsDigit(tokens[1].c))
    ensures Read([tokens[0].c] + tail) == [Lit(tokens[0].c)] + Read(tail)
  {
    ReadLit(tokens[0].c, tail);
  }
}
