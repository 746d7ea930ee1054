// A lexer for the texts this repository generates: SQL statements and
// TypeScript declarations. White space separates tokens and is otherwise ignored.
module Lexer {
  import opened Text

  datatype Token = Word(text: string) | Mark(mark: char)

  predicate IsSpace(c: char) {
    c == ' ' || c == '\n' || c == '\t' || c == '\r'
  }

  // Characters of identifiers, numerals and $n parameters.
  predicate IsNameChar(c: char) {
    IsWordChar(c) || c == '$'
  }

  function TokenLength(s: string): (n: nat)
    requires s != []
    ensures 0 < n <= |s|
  {
    if IsNameChar(s[0]) then SpanLength(s, IsNameChar) else 1
  }

  function TokenOf(s: string): seq<Token>
    requires s != []
  {
    if IsSpace(s[0]) then [] else if IsNameChar(s[0]) then [Word(s)] else [Mark(s[0])]
  }

  function Lex(s: string): seq<Token>
    decreases |s|
  {
    if s == [] then [] else
      var n := TokenLength(s);
      TokenOf(s[..n]) + Lex(s[n..])
  }

  ghost predicate IsName(w: string) {
    w != [] && forall i :: 0 <= i < |w| ==> IsNameChar(w[i])
  }

  // No token straddles the place where a meets b.
  ghost predicate Separate(a: string, b: string) {
    a == [] || b == [] || !IsNameChar(a[|a| - 1]) || !IsNameChar(b[0])
  }

  lemma {:induction false} LexStep(s: string)
    requires s != []
    ensures var n := TokenLength(s); Lex(s) == TokenOf(s[..n]) + Lex(s[n..])
  {
    hide TokenLength, TokenOf;
  }

  lemma {:induction false} LexEmpty()
    ensures Lex("") == []
  {
  }

  lemma {:induction false} LexConcat(a: string, b: string)
    requires Separate(a, b)
    ensures Lex(a + b) == Lex(a) + Lex(b)
    decreases |a|
  {
    hide Lex, TokenLength, TokenOf, IsNameChar;
    if a == [] {
      LexEmpty();
      assert a + b == b;
    } else {
      var n := TokenLength(a);
      assert Separate(a[n..], b);
      LexConcat(a[n..], b);
      TokenLengthConcat(a, b);
      assert (a + b)[n..] == a[n..] + b && (a + b)[..n] == a[..n];
      LexStep(a);
      LexStep(a + b);
      calc {
        Lex(a + b);
        TokenOf(a[..n]) + Lex(a[n..] + b);
        TokenOf(a[..n]) + (Lex(a[n..]) + Lex(b));
        (TokenOf(a[..n]) + Lex(a[n..])) + Lex(b);
        Lex(a) + Lex(b);
      }
    }
  }

  lemma {:induction false} TokenLengthConcat(a: string, b: string)
    requires a != [] && Separate(a, b)
    ensures TokenLength(a + b) == TokenLength(a)
  {
    if IsNameChar(a[0]) {
      SpanLengthIs(a + b, IsNameChar, TokenLength(a));
    }
  }

  lemma {:induction false} LexWord(w: string)
    requires IsName(w)
    ensures Lex(w) == [Word(w)]
  {
    SpanLengthIs(w, IsNameChar, |w|);
    assert w[..|w|] == w && w[|w|..] == [];
  }

  // A word, then something that does not continue it.
  lemma {:induction false} LexWordThen(w: string, rest: string)
    requires IsName(w) && (rest == [] || !IsNameChar(rest[0]))
    ensures Lex(w + rest) == [Word(w)] + Lex(rest)
  {
    hide Lex;
    LexConcat(w, rest);
    LexWord(w);
  }

  lemma {:induction false} LexSpaceThen(c: char, rest: string)
    requires IsSpace(c)
    ensures Lex([c] + rest) == Lex(rest)
  {
    assert ([c] + rest)[1..] == rest;
  }

  lemma {:induction false} LexMarkThen(c: char, rest: string)
    requires !IsSpace(c) && !IsNameChar(c)
    ensures Lex([c] + rest) == [Mark(c)] + Lex(rest)
  {
    assert ([c] + rest)[1..] == rest;
  }
}
