// The TypeScript declarations types.go prints, as data: printing, parsing the
// printed text back, and the balance of its braces.
module TypeDecls {
  import opened Text
  import opened Lexer

  datatype Param = Param(name: string, optional: bool, tsType: string)

  datatype Fn = Fn(name: string, params: seq<Param>)

  // A namespace: its functions, then its child namespaces.
  datatype Decl = Decl(fns: seq<Fn>, children: seq<Child>)

  datatype Child = Child(name: string, decl: Decl)

  // ---------- printing ----------

  function Pad(n: nat): (s: string)
    ensures |s| == n && forall c :: c in s ==> c == ' '
  {
    seq(n, i => ' ')
  }

  function ParamText(p: Param, indent: nat): string {
    Pad(indent) + p.name + (if p.optional then "?" else "") + ": " + p.tsType + ";\n"
  }

  function ParamsText(params: seq<Param>, indent: nat): string {
    if params == [] then "" else ParamText(params[0], indent) + ParamsText(params[1..], indent)
  }

  function FnText(f: Fn, indent: nat): string {
    (Pad(indent) + f.name + ": (params: {\n") + ParamsText(f.params, indent + 2) + (Pad(indent) + "}) => Promise<any>;\n")
  }

  function FnsText(fns: seq<Fn>, indent: nat): string {
    if fns == [] then "" else FnText(fns[0], indent) + FnsText(fns[1..], indent)
  }

  function ChildText(c: Child, indent: nat): string
    decreases c, 0
  {
    (Pad(indent) + c.name + ": {\n") + DeclText(c.decl, indent + 2) + (Pad(indent) + "};\n")
  }

  function ChildrenText(children: seq<Child>, indent: nat): string
    decreases children, 0
  {
    if children == [] then "" else ChildText(children[0], indent) + ChildrenText(children[1..], indent)
  }

  function DeclText(d: Decl, indent: nat): string
    decreases d, 0
  {
    FnsText(d.fns, indent) + ChildrenText(d.children, indent)
  }

  const TOP := "// This file is auto-generated " + "by Santokit CLI.\n" + "// Do not edit manually.\n\n"
    + "import '@santokit/client';\n\n" + "declare module " + "'@santokit/client' "

  const HEADER := TOP + "{" + "\n  interface LogicNamespace " + "{" + "\n"

  const FOOTER := "  }\n}\n"

  function FileText(d: Decl): string {
    HEADER + DeclText(d, 4) + FOOTER
  }

  // ---------- parsing ----------

  type Tokens = seq<Token>

  datatype Read<+T> = Fail | Got(value: T, rest: Tokens)

  const FN_END: Tokens :=
    [Mark('}'), Mark(')'), Mark('='), Mark('>'), Word("Promise"), Mark('<'), Word("any"), Mark('>'), Mark(';')]

  const CHILD_END: Tokens := [Mark('}'), Mark(';')]

  predicate IsNamed(ts: Tokens, c: char) {
    |ts| >= 3 && ts[0].Word? && ts[1] == Mark(':') && ts[2] == Mark(c)
  }

  // name: type;  or  name?: type;
  function ParseParams(ts: Tokens): (r: Read<seq<Param>>)
    ensures r.Got? ==> |r.rest| <= |ts|
    decreases |ts|
  {
    if |ts| >= 4 && ts[0].Word? && ts[1] == Mark(':') && ts[2].Word? && ts[3] == Mark(';') then
      match ParseParams(ts[4..])
      case Got(params, rest) => Got([Param(ts[0].text, false, ts[2].text)] + params, rest)
      case Fail => Fail
    else if |ts| >= 5 && ts[0].Word? && ts[1] == Mark('?') && ts[2] == Mark(':') && ts[3].Word? && ts[4] == Mark(';') then
      match ParseParams(ts[5..])
      case Got(params, rest) => Got([Param(ts[0].text, true, ts[3].text)] + params, rest)
      case Fail => Fail
    else Got([], ts)
  }

  // name: (params: { ... }) => Promise<any>;
  function ParseFns(ts: Tokens): (r: Read<seq<Fn>>)
    ensures r.Got? ==> |r.rest| <= |ts|
    decreases |ts|
  {
    if !(IsNamed(ts, '(') && |ts| >= 6 && ts[3..6] == [Word("params"), Mark(':'), Mark('{')]) then Got([], ts)
    else
      match ParseParams(ts[6..])
      case Fail => Fail
      case Got(params, rest) =>
        if !(FN_END <= rest) then Fail else
        match ParseFns(rest[9..])
        case Got(fns, rest') => Got([Fn(ts[0].text, params)] + fns, rest')
        case Fail => Fail
  }

  function ParseDecl(ts: Tokens): (r: Read<Decl>)
    ensures r.Got? ==> |r.rest| <= |ts|
    decreases |ts|, 1
  {
    match ParseFns(ts)
    case Fail => Fail
    case Got(fns, rest) =>
      match ParseChildren(rest)
      case Fail => Fail
      case Got(children, rest') => Got(Decl(fns, children), rest')
  }

  // name: { ... };
  function ParseChildren(ts: Tokens): (r: Read<seq<Child>>)
    ensures r.Got? ==> |r.rest| <= |ts|
    decreases |ts|, 0
  {
    if !IsNamed(ts, '{') then Got([], ts)
    else
      match ParseDecl(ts[3..])
      case Fail => Fail
      case Got(child, rest) =>
        if !(CHILD_END <= rest) then Fail else
        match ParseChildren(rest[2..])
        case Got(children, rest') => Got([Child(ts[0].text, child)] + children, rest')
        case Fail => Fail
  }

  function ParseFile(text: string): Option<Decl> {
    if !(HEADER <= text) then None
    else
      match ParseDecl(Lex(text[|HEADER|..]))
      case Got(d, rest) => if rest == [Mark('}'), Mark('}')] then Some(d) else None
      case Fail => None
  }

  // ---------- token images ----------

  function ParamTokens(p: Param): Tokens {
    [Word(p.name)] + (if p.optional then [Mark('?')] else []) + [Mark(':'), Word(p.tsType), Mark(';')]
  }

  function ParamsTokens(params: seq<Param>): Tokens {
    if params == [] then [] else ParamTokens(params[0]) + ParamsTokens(params[1..])
  }

  function FnTokens(f: Fn): Tokens {
    [Word(f.name), Mark(':'), Mark('('), Word("params"), Mark(':'), Mark('{')] + ParamsTokens(f.params) + FN_END
  }

  function FnsTokens(fns: seq<Fn>): Tokens {
    if fns == [] then [] else FnTokens(fns[0]) + FnsTokens(fns[1..])
  }

  function ChildTokens(c: Child): Tokens
    decreases c, 0
  {
    [Word(c.name), Mark(':'), Mark('{')] + DeclTokens(c.decl) + CHILD_END
  }

  function ChildrenTokens(children: seq<Child>): Tokens
    decreases children, 0
  {
    if children == [] then [] else ChildTokens(children[0]) + ChildrenTokens(children[1..])
  }

  function DeclTokens(d: Decl): Tokens
    decreases d, 0
  {
    FnsTokens(d.fns) + ChildrenTokens(d.children)
  }

  // ---------- names ----------

  ghost predicate ParamsNamed(params: seq<Param>) {
    forall p :: p in params ==> IsName(p.name) && IsName(p.tsType)
  }

  ghost predicate FnsNamed(fns: seq<Fn>) {
    forall f :: f in fns ==> IsName(f.name) && ParamsNamed(f.params)
  }

  // Every name is identifier-like.
  ghost predicate Named(d: Decl)
    decreases d
  {
    FnsNamed(d.fns) && forall c :: c in d.children ==> IsName(c.name) && Named(c.decl)
  }

  // ---------- lexing ----------

  lemma {:induction false} LexPad(n: nat, rest: string)
    ensures Lex(Pad(n) + rest) == Lex(rest)
  {
    hide Lex;
    if n == 0 {
      assert Pad(0) + rest == rest;
    } else {
      assert Pad(n) + rest == [' '] + (Pad(n - 1) + rest);
      LexSpaceThen(' ', Pad(n - 1) + rest);
      LexPad(n - 1, rest);
    }
  }

  // A line ends in a newline, so it lexes on its own.
  lemma {:induction false} LexLineThen(line: string, rest: string)
    requires line == [] || line[|line| - 1] == '\n'
    ensures Lex(line + rest) == Lex(line) + Lex(rest)
  {
    LexConcat(line, rest);
  }

  lemma {:induction false} LexMarks(marks: string, rest: string)
    requires forall i :: 0 <= i < |marks| ==> !IsSpace(marks[i]) && !IsNameChar(marks[i])
    ensures Lex(marks + rest) == seq(|marks|, i requires 0 <= i < |marks| => Mark(marks[i])) + Lex(rest)
  {
    hide Lex;
    if marks == [] {
      assert marks + rest == rest;
    } else {
      assert marks + rest == [marks[0]] + (marks[1..] + rest);
      LexMarkThen(marks[0], marks[1..] + rest);
      LexMarks(marks[1..], rest);
    }
  }

  lemma {:induction false} LexNewline()
    ensures Lex("\n") == []
  {
    hide Lex;
    LexEmpty();
    assert "\n" == ['\n'] + "";
    LexSpaceThen('\n', "");
  }

  lemma {:induction false} LexParam(p: Param, indent: nat)
    requires IsName(p.name) && IsName(p.tsType)
    ensures Lex(ParamText(p, indent)) == ParamTokens(p)
  {
    hide Lex, Pad;
    var end := ";" + "\n";
    var typed := " " + (p.tsType + end);
    var marks := if p.optional then "?:" else ":";
    assert ParamText(p, indent) == Pad(indent) + (p.name + (marks + typed));
    LexPad(indent, p.name + (marks + typed));
    LexWordThen(p.name, marks + typed);
    LexMarks(marks, typed);
    assert typed == [' '] + (p.tsType + end);
    LexSpaceThen(' ', p.tsType + end);
    LexWordThen(p.tsType, end);
    LexMarks(";", "\n");
    LexNewline();
  }

  lemma {:induction false} LexParams(params: seq<Param>, indent: nat)
    requires ParamsNamed(params)
    ensures Lex(ParamsText(params, indent)) == ParamsTokens(params)
  {
    hide Lex, ParamTokens;
    if params == [] {
      LexEmpty();
    } else {
      assert params[0] in params;
      LexParam(params[0], indent);
      LexLineThen(ParamText(params[0], indent), ParamsText(params[1..], indent));
      LexParams(params[1..], indent);
    }
  }

  lemma {:induction false} LexFnStart(name: string, indent: nat)
    requires IsName(name)
    ensures Lex(Pad(indent) + name + ": (params: {\n") ==
            [Word(name), Mark(':'), Mark('('), Word("params"), Mark(':'), Mark('{')]
  {
    hide Lex, Pad;
    var open := " " + ("{" + "\n");
    var params := "params" + (":" + open);
    var colon := ":" + (" " + ("(" + params));
    assert Pad(indent) + name + ": (params: {\n" == Pad(indent) + (name + colon);
    LexPad(indent, name + colon);
    LexWordThen(name, colon);
    LexMarks(":", " " + ("(" + params));
    assert " " + ("(" + params) == [' '] + ("(" + params);
    LexSpaceThen(' ', "(" + params);
    LexMarks("(", params);
    LexWordThen("params", ":" + open);
    LexMarks(":", open);
    assert open == [' '] + ("{" + "\n");
    LexSpaceThen(' ', "{" + "\n");
    LexMarks("{", "\n");
    LexNewline();
  }

  lemma {:induction false} LexPromise()
    ensures Lex("Promise<any>;\n") == [Word("Promise"), Mark('<'), Word("any"), Mark('>'), Mark(';')]
  {
    hide Lex;
    var end := ">;" + "\n";
    var any := "any" + end;
    assert "Promise<any>;\n" == "Promise" + ("<" + any);
    LexWordThen("Promise", "<" + any);
    LexMarks("<", any);
    LexWordThen("any", end);
    LexMarks(">;", "\n");
    LexNewline();
  }

  lemma {:induction false} LexFnEnd(indent: nat)
    ensures Lex(Pad(indent) + "}) => Promise<any>;\n") == FN_END
  {
    hide Lex, Pad;
    var promise := "Promise<any>;\n";
    var arrow := "=>" + ([' '] + promise);
    assert "}) => Promise<any>;\n" == "})" + ([' '] + arrow);
    LexPad(indent, "})" + ([' '] + arrow));
    LexMarks("})", [' '] + arrow);
    LexSpaceThen(' ', arrow);
    LexMarks("=>", [' '] + promise);
    LexSpaceThen(' ', promise);
    LexPromise();
  }

  lemma {:induction false} LexFn(f: Fn, indent: nat)
    requires IsName(f.name) && ParamsNamed(f.params)
    ensures Lex(FnText(f, indent)) == FnTokens(f)
  {
    hide Lex, Pad, ParamsTokens, ParamsText;
    var start := Pad(indent) + f.name + ": (params: {\n";
    var params := ParamsText(f.params, indent + 2);
    var end := Pad(indent) + "}) => Promise<any>;\n";
    LexFnStart(f.name, indent);
    LexParams(f.params, indent + 2);
    LexFnEnd(indent);
    LexLineThen(start, params + end);
    ParamsEndInNewline(f.params, indent + 2);
    LexLineThen(params, end);
    assert FnText(f, indent) == start + (params + end);
  }

  lemma {:induction false} ParamsEndInNewline(params: seq<Param>, indent: nat)
    ensures var s := ParamsText(params, indent); s == [] || s[|s| - 1] == '\n'
  {
    if params != [] {
      ParamsEndInNewline(params[1..], indent);
    }
  }

  lemma {:induction false} LexFns(fns: seq<Fn>, indent: nat)
    requires FnsNamed(fns)
    ensures Lex(FnsText(fns, indent)) == FnsTokens(fns)
    ensures var s := FnsText(fns, indent); s == [] || s[|s| - 1] == '\n'
  {
    hide Lex, FnTokens;
    if fns == [] {
      LexEmpty();
    } else {
      assert fns[0] in fns;
      LexFn(fns[0], indent);
      LexLineThen(FnText(fns[0], indent), FnsText(fns[1..], indent));
      LexFns(fns[1..], indent);
    }
  }

  lemma {:induction false} LexChildStart(name: string, indent: nat)
    requires IsName(name)
    ensures Lex(Pad(indent) + name + ": {\n") == [Word(name), Mark(':'), Mark('{')]
  {
    hide Lex, Pad;
    var open := " " + ("{" + "\n");
    assert Pad(indent) + name + ": {\n" == Pad(indent) + (name + (":" + open));
    LexPad(indent, name + (":" + open));
    LexWordThen(name, ":" + open);
    LexMarks(":", open);
    assert open == [' '] + ("{" + "\n");
    LexSpaceThen(' ', "{" + "\n");
    LexMarks("{", "\n");
    LexNewline();
  }

  lemma {:induction false} LexChildEnd(indent: nat)
    ensures Lex(Pad(indent) + "};\n") == CHILD_END
  {
    hide Lex, Pad;
    assert "};\n" == "};" + "\n";
    LexPad(indent, "};" + "\n");
    LexMarks("};", "\n");
    LexNewline();
  }

  lemma {:induction false} LexChild(c: Child, indent: nat)
    requires IsName(c.name) && Named(c.decl)
    ensures Lex(ChildText(c, indent)) == ChildTokens(c)
    decreases c, 0
  {
    hide Lex, Pad, DeclText, DeclTokens;
    var start := Pad(indent) + c.name + ": {\n";
    var body := DeclText(c.decl, indent + 2);
    var end := Pad(indent) + "};\n";
    LexChildStart(c.name, indent);
    LexDecl(c.decl, indent + 2);
    LexChildEnd(indent);
    LexLineThen(start, body + end);
    LexLineThen(body, end);
    assert ChildText(c, indent) == start + (body + end);
  }

  lemma {:induction false} LexChildren(children: seq<Child>, indent: nat)
    requires forall c :: c in children ==> IsName(c.name) && Named(c.decl)
    ensures Lex(ChildrenText(children, indent)) == ChildrenTokens(children)
    ensures var s := ChildrenText(children, indent); s == [] || s[|s| - 1] == '\n'
    decreases children, 0
  {
    hide Lex, ChildTokens;
    if children == [] {
      LexEmpty();
    } else {
      assert children[0] in children;
      LexChild(children[0], indent);
      LexLineThen(ChildText(children[0], indent), ChildrenText(children[1..], indent));
      LexChildren(children[1..], indent);
    }
  }

  lemma {:induction false} LexDecl(d: Decl, indent: nat)
    requires Named(d)
    ensures Lex(DeclText(d, indent)) == DeclTokens(d)
    ensures var s := DeclText(d, indent); s == [] || s[|s| - 1] == '\n'
    decreases d, 0
  {
    hide Lex, FnsText, ChildrenText, FnsTokens, ChildrenTokens;
    LexFns(d.fns, indent);
    LexChildren(d.children, indent);
    LexLineThen(FnsText(d.fns, indent), ChildrenText(d.children, indent));
  }

  // ---------- parsing what was printed ----------

  // After the declarations of a block comes its closing brace, or the end.
  ghost predicate Closes(rest: Tokens) {
    rest == [] || rest[0] == Mark('}')
  }

  lemma {:induction false} ParseEnd(rest: Tokens)
    requires Closes(rest)
    ensures ParseParams(rest) == Got([], rest) && ParseChildren(rest) == Got([], rest)
  {
  }

  lemma {:induction false} ParseNoFn(rest: Tokens)
    requires NoFn(rest)
    ensures ParseFns(rest) == Got([], rest)
  {
  }

  lemma {:induction false} ParseParamStep(p: Param, rest: Tokens)
    requires ParseParams(rest).Got?
    ensures ParseParams(ParamTokens(p) + rest) == Got([p] + ParseParams(rest).value, ParseParams(rest).rest)
  {
    var ts := ParamTokens(p) + rest;
    assert p == Param(p.name, p.optional, p.tsType);
    if p.optional {
      assert ts[5..] == rest;
    } else {
      assert ts[4..] == rest;
    }
  }

  lemma {:induction false} ParseParamsTokens(params: seq<Param>, rest: Tokens)
    requires Closes(rest)
    ensures ParseParams(ParamsTokens(params) + rest) == Got(params, rest)
  {
    hide ParamTokens, ParseParams;
    if params == [] {
      ParseEnd(rest);
      assert ParamsTokens(params) + rest == rest;
    } else {
      ParseParamsTokens(params[1..], rest);
      ParseParamStep(params[0], ParamsTokens(params[1..]) + rest);
      assert ParamsTokens(params) + rest == ParamTokens(params[0]) + (ParamsTokens(params[1..]) + rest);
      assert params == [params[0]] + params[1..];
    }
  }

  lemma {:induction false} ParseFnStep(f: Fn, rest: Tokens)
    requires ParseFns(rest).Got?
    ensures ParseFns(FnTokens(f) + rest) == Got([f] + ParseFns(rest).value, ParseFns(rest).rest)
  {
    hide ParseParams, ParamsTokens;
    var ts := FnTokens(f) + rest;
    var afterParams := FN_END + rest;
    assert ts[3..6] == [Word("params"), Mark(':'), Mark('{')];
    assert ts[6..] == ParamsTokens(f.params) + afterParams;
    ParseParamsTokens(f.params, afterParams);
    assert afterParams[9..] == rest;
    assert f == Fn(f.name, f.params);
  }

  // No function declaration starts here.
  ghost predicate NoFn(rest: Tokens) {
    !IsNamed(rest, '(')
  }

  lemma {:induction false} ParseFnsTokens(fns: seq<Fn>, rest: Tokens)
    requires NoFn(rest)
    ensures ParseFns(FnsTokens(fns) + rest) == Got(fns, rest)
  {
    hide FnTokens, ParseFns, NoFn;
    if fns == [] {
      ParseNoFn(rest);
      assert FnsTokens(fns) + rest == rest;
    } else {
      ParseFnsTokens(fns[1..], rest);
      ParseFnStep(fns[0], FnsTokens(fns[1..]) + rest);
      assert FnsTokens(fns) + rest == FnTokens(fns[0]) + (FnsTokens(fns[1..]) + rest);
      assert fns == [fns[0]] + fns[1..];
    }
  }

  lemma {:induction false} ChildrenStart(children: seq<Child>, rest: Tokens)
    requires Closes(rest)
    ensures NoFn(ChildrenTokens(children) + rest)
  {
    hide DeclTokens;
    if children == [] {
      assert ChildrenTokens(children) + rest == rest;
    } else {
      var more := DeclTokens(children[0].decl) + CHILD_END + ChildrenTokens(children[1..]) + rest;
      assert ChildrenTokens(children) + rest == [Word(children[0].name), Mark(':'), Mark('{')] + more;
    }
  }

  lemma {:induction false} ParseDeclTokens(d: Decl, rest: Tokens)
    requires Closes(rest)
    ensures ParseDecl(DeclTokens(d) + rest) == Got(d, rest)
    decreases d, 0
  {
    hide ParseFns, ParseChildren, FnsTokens, ChildrenTokens;
    var more := ChildrenTokens(d.children) + rest;
    assert DeclTokens(d) + rest == FnsTokens(d.fns) + more;
    ChildrenStart(d.children, rest);
    ParseFnsTokens(d.fns, more);
    ParseChildrenTokens(d.children, rest);
    assert d == Decl(d.fns, d.children);
  }

  lemma {:induction false} ParseChildStep(c: Child, rest: Tokens)
    requires ParseDecl(DeclTokens(c.decl) + (CHILD_END + rest)) == Got(c.decl, CHILD_END + rest)
    requires ParseChildren(rest).Got?
    ensures ParseChildren(ChildTokens(c) + rest) == Got([c] + ParseChildren(rest).value, ParseChildren(rest).rest)
  {
    hide ParseDecl, DeclTokens;
    var ts := ChildTokens(c) + rest;
    assert ts[3..] == DeclTokens(c.decl) + (CHILD_END + rest);
    assert (CHILD_END + rest)[2..] == rest;
    assert c == Child(c.name, c.decl);
  }

  lemma {:induction false} ParseChildrenTokens(children: seq<Child>, rest: Tokens)
    requires Closes(rest)
    ensures ParseChildren(ChildrenTokens(children) + rest) == Got(children, rest)
    decreases children, 0
  {
    hide ChildTokens, DeclTokens, ParseDecl, ParseChildren;
    if children == [] {
      ParseEnd(rest);
      assert ChildrenTokens(children) + rest == rest;
    } else {
      var more := ChildrenTokens(children[1..]) + rest;
      ParseChildrenTokens(children[1..], rest);
      ParseDeclTokens(children[0].decl, CHILD_END + more);
      ParseChildStep(children[0], more);
      assert ChildrenTokens(children) + rest == ChildTokens(children[0]) + more;
      assert children == [children[0]] + children[1..];
    }
  }

  // The printed file parses back to the namespace tree it was printed from.
  lemma {:induction false} FileRoundTrip(d: Decl)
    requires Named(d)
    ensures ParseFile(FileText(d)) == Some(d)
  {
    hide Lex, DeclText, DeclTokens, ParseDecl, HEADER, FOOTER;
    var body := DeclText(d, 4);
    LexDecl(d, 4);
    LexLineThen(body, FOOTER);
    LexFooter();
    DropPrefix(HEADER, body, FOOTER);
    ParseDeclTokens(d, [Mark('}'), Mark('}')]);
  }

  lemma {:induction false} DropPrefix(a: string, b: string, c: string)
    ensures a <= a + b + c && (a + b + c)[|a|..] == b + c
  {
    assert a + b + c == a + (b + c);
  }

  lemma {:induction false} LexFooter()
    ensures Lex(FOOTER) == [Mark('}'), Mark('}')]
  {
    hide Lex;
    assert FOOTER == [' '] + ([' '] + ("}" + (['\n'] + ("}" + "\n"))));
    LexSpaceThen(' ', [' '] + ("}" + (['\n'] + ("}" + "\n"))));
    LexSpaceThen(' ', "}" + (['\n'] + ("}" + "\n")));
    LexMarks("}", ['\n'] + ("}" + "\n"));
    LexSpaceThen('\n', "}" + "\n");
    LexMarks("}", "\n");
    LexNewline();
  }

  // ---------- braces ----------

  // The depth of open braces after the tokens, or None if one closes too many.
  function Depth(ts: Tokens, depth: nat): Option<nat>
    decreases |ts|
  {
    if ts == [] then Some(depth)
    else if ts[0] == Mark('{') then Depth(ts[1..], depth + 1)
    else if ts[0] == Mark('}') then if depth == 0 then None else Depth(ts[1..], depth - 1)
    else Depth(ts[1..], depth)
  }

  lemma {:induction false} DepthConcat(a: Tokens, b: Tokens, depth: nat)
    ensures Depth(a + b, depth) == match Depth(a, depth) case Some(n) => Depth(b, n) case None => None
    decreases |a|
  {
    if a == [] {
      assert a + b == b;
    } else {
      assert (a + b)[1..] == a[1..] + b;
      if a[0] == Mark('{') {
        DepthConcat(a[1..], b, depth + 1);
      } else if a[0] != Mark('}') {
        DepthConcat(a[1..], b, depth);
      } else if depth > 0 {
        DepthConcat(a[1..], b, depth - 1);
      }
    }
  }

  lemma {:induction false} DepthParams(params: seq<Param>, depth: nat)
    ensures Depth(ParamsTokens(params), depth) == Some(depth)
  {
    if params != [] {
      DepthConcat(ParamTokens(params[0]), ParamsTokens(params[1..]), depth);
      DepthFlat(ParamTokens(params[0]), depth);
      DepthParams(params[1..], depth);
    }
  }

  lemma {:induction false} DepthFlat(ts: Tokens, depth: nat)
    requires Mark('{') !in ts && Mark('}') !in ts
    ensures Depth(ts, depth) == Some(depth)
  {
    if ts != [] {
      assert ts[0] in ts;
      DepthFlat(ts[1..], depth);
    }
  }

  // An opening line, a balanced body and a closing line are balanced.
  lemma {:induction false} DepthBlock(start: Tokens, body: Tokens, end: Tokens, depth: nat)
    requires start != [] && start[|start| - 1] == Mark('{') && Mark('{') !in start[..|start| - 1] && Mark('}') !in start
    requires end != [] && end[0] == Mark('}') && Mark('{') !in end && Mark('}') !in end[1..]
    requires Depth(body, depth + 1) == Some(depth + 1)
    ensures Depth(start + body + end, depth) == Some(depth)
  {
    var front := start[..|start| - 1];
    assert start == front + [Mark('{')];
    DepthConcat(start + body, end, depth);
    DepthConcat(start, body, depth);
    DepthConcat(front, [Mark('{')], depth);
    assert forall t :: t in front ==> t in start;
    DepthFlat(front, depth);
    assert [Mark('{')][1..] == [];
    assert forall t :: t in end[1..] ==> t in end;
    DepthFlat(end[1..], depth);
  }

  // Braces balance in every declaration, at whatever depth it is nested.
  lemma {:induction false} BracesBalance(d: Decl, depth: nat)
    ensures Depth(DeclTokens(d), depth) == Some(depth)
    decreases d, 0
  {
    hide Depth, FnsTokens, ChildrenTokens;
    DepthFns(d.fns, depth);
    DepthChildren(d.children, depth);
    DepthConcat(FnsTokens(d.fns), ChildrenTokens(d.children), depth);
  }

  lemma {:induction false} DepthFns(fns: seq<Fn>, depth: nat)
    ensures Depth(FnsTokens(fns), depth) == Some(depth)
  {
    if fns != [] {
      var start := [Word(fns[0].name), Mark(':'), Mark('('), Word("params"), Mark(':'), Mark('{')];
      DepthParams(fns[0].params, depth + 1);
      hide Depth, ParamsTokens;
      DepthBlock(start, ParamsTokens(fns[0].params), FN_END, depth);
      DepthConcat(FnTokens(fns[0]), FnsTokens(fns[1..]), depth);
      DepthFns(fns[1..], depth);
    }
  }

  lemma {:induction false} DepthChildren(children: seq<Child>, depth: nat)
    ensures Depth(ChildrenTokens(children), depth) == Some(depth)
    decreases children, 0
  {
    if children != [] {
      var start := [Word(children[0].name), Mark(':'), Mark('{')];
      BracesBalance(children[0].decl, depth + 1);
      hide Depth, DeclTokens;
      DepthBlock(start, DeclTokens(children[0].decl), CHILD_END, depth);
      DepthConcat(ChildTokens(children[0]), ChildrenTokens(children[1..]), depth);
      DepthChildren(children[1..], depth);
    }
  }

  // The same, read off the characters of a text.
  function Braces(s: string, depth: nat): Option<nat> {
    if s == [] then Some(depth)
    else if s[0] == '{' then Braces(s[1..], depth + 1)
    else if s[0] == '}' then if depth == 0 then None else Braces(s[1..], depth - 1)
    else Braces(s[1..], depth)
  }

  lemma {:induction false} BracesConcat(a: string, b: string, depth: nat)
    ensures Braces(a + b, depth) == match Braces(a, depth) case Some(n) => Braces(b, n) case None => None
    decreases |a|
  {
    if a == [] {
      assert a + b == b;
    } else {
      assert (a + b)[1..] == a[1..] + b;
      if a[0] == '{' {
        BracesConcat(a[1..], b, depth + 1);
      } else if a[0] != '}' {
        BracesConcat(a[1..], b, depth);
      } else if depth > 0 {
        BracesConcat(a[1..], b, depth - 1);
      }
    }
  }

  lemma {:induction false} BracesFlat(s: string, depth: nat)
    requires '{' !in s && '}' !in s
    ensures Braces(s, depth) == Some(depth)
  {
    if s != [] {
      assert s[0] in s;
      BracesFlat(s[1..], depth);
    }
  }

  lemma {:induction false} TokenBraces(s: string, depth: nat)
    requires s != []
    ensures Braces(s[..TokenLength(s)], depth) == Depth(TokenOf(s[..TokenLength(s)]), depth)
  {
    var t := s[..TokenLength(s)];
    if |t| == 1 {
      assert t[1..] == [] && [Mark(t[0])][1..] == [] && [Word(t)][1..] == [];
    } else {
      forall i | 0 <= i < |t| ensures t[i] != '{' && t[i] != '}' {
        assert IsNameChar(t[i]);
      }
      BracesFlat(t, depth);
      assert [Word(t)][1..] == [];
    }
  }

  // A brace is never part of a longer token.
  lemma {:induction false} BracesAreMarks(s: string, depth: nat)
    ensures Braces(s, depth) == Depth(Lex(s), depth)
    decreases |s|
  {
    hide Braces, Depth, TokenOf, TokenLength;
    if s == [] {
      NoBraces(depth);
      LexEmpty();
    } else {
      var n := TokenLength(s);
      LexStep(s);
      assert s == s[..n] + s[n..];
      TokenBraces(s, depth);
      BracesConcat(s[..n], s[n..], depth);
      DepthConcat(TokenOf(s[..n]), Lex(s[n..]), depth);
      match Braces(s[..n], depth) {
        case Some(m) => BracesAreMarks(s[n..], m);
        case None =>
      }
    }
  }

  lemma {:induction false} NoBraces(depth: nat)
    ensures Braces("", depth) == Some(depth) && Depth([], depth) == Some(depth)
  {
  }

  // In the printed text the braces of every declaration balance, at whatever depth.
  lemma {:induction false} TextBalances(d: Decl, indent: nat, depth: nat)
    requires Named(d)
    ensures Braces(DeclText(d, indent), depth) == Some(depth)
  {
    hide Braces, Depth, Lex, DeclText, DeclTokens;
    LexDecl(d, indent);
    BracesBalance(d, depth);
    BracesAreMarks(DeclText(d, indent), depth);
  }

  ghost predicate Flat(s: string) {
    '{' !in s && '}' !in s
  }

  lemma {:induction false} FlatConcat(a: string, b: string)
    requires Flat(a) && Flat(b)
    ensures Flat(a + b)
  {
  }

  lemma {:induction false} CommentStartFlat()
    ensures Flat("// This file is auto-generated ")
  {
  }

  lemma {:induction false} CommentEndFlat()
    ensures Flat("by Santokit CLI.\n")
  {
  }

  lemma {:induction false} WarningFlat()
    ensures Flat("// Do not edit manually.\n\n")
  {
  }

  lemma {:induction false} ImportFlat()
    ensures Flat("import '@santokit/client';\n\n")
  {
  }

  lemma {:induction false} ModuleFlat()
    ensures Flat("declare module ") && Flat("'@santokit/client' ")
  {
  }

  lemma {:induction false} TopIsFlat()
    ensures Flat(TOP)
  {
    hide Flat;
    CommentStartFlat();
    CommentEndFlat();
    WarningFlat();
    ImportFlat();
    ModuleFlat();
    var a, b, c := "// This file is auto-generated ", "by Santokit CLI.\n", "// Do not edit manually.\n\n";
    var d, e, f := "import '@santokit/client';\n\n", "declare module ", "'@santokit/client' ";
    FlatConcat(a, b);
    FlatConcat(a + b, c);
    FlatConcat(a + b + c, d);
    FlatConcat(a + b + c + d, e);
    FlatConcat(a + b + c + d + e, f);
  }

  lemma {:induction false} HeaderOpens()
    ensures Braces(HEADER, 0) == Some(2)
  {
    var next := "\n  interface LogicNamespace ";
    TopIsFlat();
    BracesFlat(TOP, 0);
    BracesFlat(next, 1);
    BracesFlat("\n", 2);
    OneBrace(0);
    OneBrace(1);
    hide Braces, TOP;
    BracesConcat(TOP, "{", 0);
    BracesConcat(TOP + "{", next, 0);
    BracesConcat(TOP + "{" + next, "{", 0);
    BracesConcat(TOP + "{" + next + "{", "\n", 0);
  }

  lemma {:induction false} FooterCloses()
    ensures Braces(FOOTER, 2) == Some(0)
  {
    assert FOOTER == "  " + ("}" + ("\n" + ("}" + "\n")));
    BracesFlat("  ", 2);
    BracesFlat("\n", 1);
    BracesFlat("\n", 0);
    OneBrace(0);
    OneBrace(1);
    hide Braces;
    BracesConcat("  ", "}" + ("\n" + ("}" + "\n")), 2);
    BracesConcat("}", "\n" + ("}" + "\n"), 2);
    BracesConcat("\n", "}" + "\n", 1);
    BracesConcat("}", "\n", 1);
  }

  lemma {:induction false} OneBrace(n: nat)
    ensures Braces("{", n) == Some(n + 1) && Braces("}", n + 1) == Some(n)
  {
    assert "{"[1..] == "" && "}"[1..] == "";
    NoBraces(n);
    NoBraces(n + 1);
  }

  // The whole file closes every brace it opens.
  lemma {:induction false} FileBalances(d: Decl)
    requires Named(d)
    ensures Braces(FileText(d), 0) == Some(0)
  {
    hide Braces, DeclText, HEADER, FOOTER;
    HeaderOpens();
    FooterCloses();
    TextBalances(d, 4, 2);
    BracesConcat(HEADER + DeclText(d, 4), FOOTER, 0);
    BracesConcat(HEADER, DeclText(d, 4), 0);
  }
}
