// rebind.go: the ?s of a query become $1, $2, ... for PostgreSQL, the numbers
// printed backwards into a buffer of 16 bytes.
module Rebind {
  import opened Text
  import opened Positional

  // An index out of range panics.
  datatype Result<+T> = Ok(value: T) | Panic

  const POSTGRES := "postgres"

  const BUFFER := 16

  function Pow10(k: nat): nat {
    if k == 0 then 1 else 10 * Pow10(k - 1)
  }

  lemma {:induction false} DecimalLength(n: nat, k: nat)
    requires k > 0
    ensures |Decimal(n)| <= k <==> n < Pow10(k)
  {
    if k == 1 {
      assert Pow10(1) == 10 * Pow10(0);
    } else if n >= 10 {
      DecimalLength(n / 10, k - 1);
      assert n / 10 < Pow10(k - 1) <==> n < 10 * Pow10(k - 1);
    } else {
      DecimalLength(n, k - 1);
    }
  }

  // One more digit moved to the front of the tail.
  lemma {:induction false} DecimalStep(n: nat, tail: string)
    requires n > 0
    ensures Decimal(n) + tail == (if n / 10 == 0 then "" else Decimal(n / 10)) + ([Digit(n % 10)] + tail)
  {
    if n >= 10 {
      assert Decimal(n) + tail == Decimal(n / 10) + ([Digit(n % 10)] + tail);
    }
  }

  lemma {:induction false} DecimalZero()
    ensures Decimal(0) == "0" && Pow10(BUFFER) > 0
  {
    Pow10Positive(BUFFER);
  }

  lemma {:induction false} SixteenDigits()
    ensures Pow10(BUFFER) == 10_000_000_000_000_000
  {
    assert Pow10(4) == 10_000 by {
      assert Pow10(2) == 100;
    }
    assert Pow10(8) == 100_000_000 by {
      assert Pow10(6) == 1_000_000;
    }
    assert Pow10(12) == 1_000_000_000_000 by {
      assert Pow10(10) == 10_000_000_000;
    }
    assert Pow10(14) == 100_000_000_000_000;
  }

  method IntToString(value: int) returns (r: Result<string>)
    ensures r == if value < 0 then Ok("") else if value < 10_000_000_000_000_000 then Ok(Decimal(value)) else Panic
  {
    SixteenDigits();
    hide Pow10, Decimal, Digit;
    if value == 0 {
      DecimalZero();
      return Ok("0");
    }
    var buf := new char[BUFFER](_ => '\0');
    var i := buf.Length;
    var rest := value;
    assert buf[i..] == [];
    assert value > 0 ==> Decimal(value) == Decimal(value) + buf[i..];
    while rest > 0
      invariant 0 <= i <= BUFFER == buf.Length
      invariant value < 0 ==> rest == value && i == BUFFER
      invariant value > 0 ==> rest >= 0 && Decimal(value) == (if rest == 0 then "" else Decimal(rest)) + buf[i..]
    {
      if i == 0 {
        DecimalLength(value, BUFFER);
        return Panic;
      }
      ghost var tail := buf[i..];
      DecimalStep(rest, tail);
      i := i - 1;
      buf[i] := Digit(rest % 10);
      assert buf[i..] == [Digit(rest % 10)] + tail;
      rest := rest / 10;
    }
    if value > 0 {
      DecimalLength(value, BUFFER);
      assert "" + buf[i..] == buf[i..];
    } else {
      assert buf[i..] == "";
    }
    r := Ok(buf[i..]);
  }

  lemma {:induction false} Pow10Positive(k: nat)
    ensures Pow10(k) > 0
  {
    if k > 0 {
      Pow10Positive(k - 1);
    }
  }

  // ---------- Rebind ----------

  function Questions(query: string): nat {
    if query == [] then 0 else (if query[0] == '?' then 1 else 0) + Questions(query[1..])
  }

  // The rewritten query, numbering from arg.
  function Rebound(query: string, arg: nat): string
    decreases |query|
  {
    if query == [] then []
    else if query[0] == '?' then "$" + Decimal(arg) + Rebound(query[1..], arg + 1)
    else [query[0]] + Rebound(query[1..], arg)
  }

  // The next character moved over to the output.
  lemma {:induction false} Moves(out: string, query: string, arg: nat)
    requires query != []
    ensures Questions(query) == (if query[0] == '?' then 1 else 0) + Questions(query[1..])
    ensures out + Rebound(query, arg) ==
            if query[0] == '?' then out + "$" + Decimal(arg) + Rebound(query[1..], arg + 1)
            else out + [query[0]] + Rebound(query[1..], arg)
  {
    hide Decimal;
    if query[0] == '?' {
      var tail := Rebound(query[1..], arg + 1);
      assert Rebound(query, arg) == "$" + Decimal(arg) + tail;
      assert out + ("$" + Decimal(arg) + tail) == out + "$" + Decimal(arg) + tail;
    } else {
      var tail := Rebound(query[1..], arg);
      assert out + ([query[0]] + tail) == out + [query[0]] + tail;
    }
  }

  lemma {:induction false} NothingLeft(out: string, arg: nat)
    ensures out + Rebound("", arg) == out && Questions("") == 0
  {
    assert out + [] == out;
  }

  method Rebind(dialect: string, query: string) returns (r: Result<string>)
    ensures r == if dialect != "postgres" then Ok(query)
                 else if Questions(query) < 10_000_000_000_000_000 then Ok(Rebound(query, 1)) else Panic
  {
    SixteenDigits();
    hide Pow10, Decimal, Rebound, Questions;
    if dialect != POSTGRES {
      return Ok(query);
    }
    var out := "";
    var arg := 1;
    Pow10Positive(BUFFER);
    assert query[0..] == query;
    assert "" + Rebound(query, 1) == Rebound(query, 1);
    for i := 0 to |query|
      invariant 1 <= arg <= Pow10(BUFFER)
      invariant arg - 1 + Questions(query[i..]) == Questions(query)
      invariant out + Rebound(query[i..], arg) == Rebound(query, 1)
    {
      Moves(out, query[i..], arg);
      assert query[i..][1..] == query[i + 1..] && query[i..][0] == query[i];
      if query[i] == '?' {
        var text := IntToString(arg);
        if text == Panic {
          return Panic;
        }
        out := out + "$" + text.value;
        arg := arg + 1;
        continue;
      }
      out := out + [query[i]];
    }
    assert query[|query|..] == "";
    NothingLeft(out, arg);
    r := Ok(out);
  }

  // ---------- binding is kept ----------

  // The query read with its question marks numbered left to right.
  function ReadQuestions(query: string, arg: nat): seq<Piece>
    decreases |query|
  {
    if query == [] then []
    else if query[0] == '?' then [Arg(arg)] + ReadQuestions(query[1..], arg + 1)
    else [Lit(query[0])] + ReadQuestions(query[1..], arg)
  }

  // $ or ? with a digit right after it.
  predicate Confusing(query: string, i: nat)
    requires i < |query|
  {
    (query[i] == '$' || query[i] == '?') && i + 1 < |query| && IsDigit(query[i + 1])
  }

  ghost predicate Clean(query: string) {
    forall i :: 0 <= i < |query| ==> !Confusing(query, i)
  }

  lemma {:induction false} CleanTail(query: string)
    requires query != []
    ensures Clean(query) <==> !Confusing(query, 0) && Clean(query[1..])
  {
    forall i | 0 <= i < |query[1..]| ensures Confusing(query[1..], i) <==> Confusing(query, i + 1) {
    }
    if !Confusing(query, 0) && Clean(query[1..]) {
      forall i | 0 <= i < |query| ensures !Confusing(query, i) {
        if i > 0 {
          assert !Confusing(query[1..], i - 1);
        }
      }
    }
  }

  lemma {:induction false} ReboundStart(query: string, arg: nat)
    ensures query == [] <==> Rebound(query, arg) == []
    ensures query != [] ==> (IsDigit(Rebound(query, arg)[0]) <==> IsDigit(query[0]))
    ensures query != [] && IsDigit(query[0]) ==> Rebound(query, arg)[0] == query[0]
  {
  }

  // The output read positionally is the input read by question marks, for exactly
  // the queries with no $ or ? directly before a digit.
  lemma {:induction false} RebindKeepsBinding(query: string, arg: nat)
    requires arg > 0
    ensures Read(Rebound(query, arg)) == ReadQuestions(query, arg) <==> Clean(query)
    decreases |query|
  {
    if query != [] {
      CleanTail(query);
      var isArg := query[0] == '?';
      var next := if isArg then arg + 1 else arg;
      var tail := Rebound(query[1..], next);
      ReboundStart(query[1..], next);
      hide Clean, Read, Rebound;
      RebindKeepsBinding(query[1..], next);
      ReboundStep(query, arg);
      if isArg {
        if Confusing(query, 0) {
          ReadLongerArg(arg, tail);
          assert ReadQuestions(query, arg)[0] == Arg(arg);
        } else {
          ReadArg(arg, tail);
          SameTails(Arg(arg), Read(tail), ReadQuestions(query[1..], next));
        }
      } else if Confusing(query, 0) {
        ReadDollar(tail);
        assert ReadQuestions(query, arg)[0] == Lit('$');
      } else {
        ReadLit(query[0], tail);
        SameTails(Lit(query[0]), Read(tail), ReadQuestions(query[1..], next));
      }
    }
  }

  lemma {:induction false} ReboundStep(query: string, arg: nat)
    requires query != []
    ensures Rebound(query, arg) ==
            if query[0] == '?' then "$" + Decimal(arg) + Rebound(query[1..], arg + 1)
            else [query[0]] + Rebound(query[1..], arg)
  {
  }

  lemma {:induction false} SameTails(p: Piece, a: seq<Piece>, b: seq<Piece>)
    ensures [p] + a == [p] + b <==> a == b
  {
    assert ([p] + a)[1..] == a && ([p] + b)[1..] == b;
  }

  lemma {:induction false} ReadDollar(tail: string)
    requires tail != [] && IsDigit(tail[0])
    ensures Read(['$'] + tail) != [] && Read(['$'] + tail)[0].Arg?
  {
    assert DollarDigit(['$'] + tail, 0);
  }

  // Turning every argument back into a question mark.
  function Unbound(pieces: seq<Piece>): string {
    if pieces == [] then [] else [if pieces[0].Arg? then '?' else pieces[0].c] + Unbound(pieces[1..])
  }

  lemma {:induction false} QuestionsUnbound(query: string, arg: nat)
    ensures Unbound(ReadQuestions(query, arg)) == query
    ensures ArgsOf(ReadQuestions(query, arg)) == Counting(arg, Questions(query))
    decreases |query|
  {
    if query != [] {
      var next := if query[0] == '?' then arg + 1 else arg;
      QuestionsUnbound(query[1..], next);
      assert ReadQuestions(query, arg)[1..] == ReadQuestions(query[1..], next);
      assert query == [query[0]] + query[1..];
    }
  }

  // For those queries the arguments of the output are $1 .. $n in order, and
  // putting a ? back for each gives the input.
  lemma {:induction false} RebindInvertible(query: string)
    requires Clean(query)
    ensures Unbound(Read(Rebound(query, 1))) == query
    ensures ArgsOf(Read(Rebound(query, 1))) == Counting(1, Questions(query))
  {
    hide Clean, Unbound, Read, Rebound, ReadQuestions;
    RebindKeepsBinding(query, 1);
    QuestionsUnbound(query, 1);
  }
}
