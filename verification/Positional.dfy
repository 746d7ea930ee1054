// Reading a SQL text with positional parameters the way a driver does: $ and the
// longest run of digits after it name an argument.
module Positional {
  import opened Text

  datatype Piece = Lit(c: char) | Arg(n: nat)

  predicate DollarDigit(s: string, i: nat)
    requires i < |s|
  {
    s[i] == '$' && i + 1 < |s| && IsDigit(s[i + 1])
  }

  ghost predicate NoDollarDigit(s: string) {
    forall i :: 0 <= i < |s| ==> !DollarDigit(s, i)
  }

  function Read(s: string): seq<Piece>
    decreases |s|
  {
    if s == [] then []
    else if DollarDigit(s, 0) then
      var n := SpanLength(s[1..], IsDigit);
      [Arg(DecimalValue(s[1..][..n]))] + Read(s[1..][n..])
    else [Lit(s[0])] + Read(s[1..])
  }

  function ArgsOf(pieces: seq<Piece>): seq<nat> {
    if pieces == [] then []
    else (if pieces[0].Arg? then [pieces[0].n] else []) + ArgsOf(pieces[1..])
  }

  // first, first + 1, ...
  function Counting(first: nat, count: nat): seq<nat>
    decreases count
  {
    if count == 0 then [] else [first] + Counting(first + 1, count - 1)
  }

  lemma {:induction false} ReadLit(c: char, rest: string)
    requires c != '$' || rest == [] || !IsDigit(rest[0])
    ensures Read([c] + rest) == [Lit(c)] + Read(rest)
  {
    assert ([c] + rest)[1..] == rest;
  }

  // A numeral that no further digit follows is read as itself.
  lemma {:induction false} ReadArg(n: nat, rest: string)
    requires rest == [] || !IsDigit(rest[0])
    ensures Read("$" + Decimal(n) + rest) == [Arg(n)] + Read(rest)
  {
    var s := "$" + Decimal(n) + rest;
    assert s[1..] == Decimal(n) + rest;
    SpanLengthIs(s[1..], IsDigit, |Decimal(n)|);
    assert s[1..][..|Decimal(n)|] == Decimal(n) && s[1..][|Decimal(n)|..] == rest;
    DecimalRoundTrip(n);
  }

  // If a digit does follow, a larger argument is read.
  lemma {:induction false} ReadLongerArg(n: nat, rest: string)
    requires n > 0 && rest != [] && IsDigit(rest[0])
    ensures Read("$" + Decimal(n) + rest) != [] && Read("$" + Decimal(n) + rest)[0] != Arg(n)
  {
    var s := "$" + Decimal(n) + rest;
    assert s[1..] == Decimal(n) + rest;
    var m := SpanLength(rest, IsDigit);
    SpanLengthIs(s[1..], IsDigit, |Decimal(n)| + m);
    assert s[1..][..|Decimal(n)| + m] == Decimal(n) + rest[..m];
    DecimalRoundTrip(n);
    DecimalValueGrows(Decimal(n), rest[..m]);
  }
}
