// What the two string orders compare: Go compares the bytes of UTF-8, JavaScript the
// code units of UTF-16.
module Encodings {
  import opened Order

  type Units = seq<nat>

  // The bytes of a code point, section 3 of RFC 3629.
  function Utf8Of(c: nat): (r: Units)
    ensures r != []
  {
    if c < 0x80 then [c]
    else if c < 0x800 then [0xC0 + c / 0x40, 0x80 + c % 0x40]
    else if c < 0x10000 then [0xE0 + c / 0x1000, 0x80 + c / 0x40 % 0x40, 0x80 + c % 0x40]
    else [0xF0 + c / 0x40000, 0x80 + c / 0x1000 % 0x40, 0x80 + c / 0x40 % 0x40, 0x80 + c % 0x40]
  }

  // Its code units, section 2.1 of RFC 2781.
  function Utf16Of(c: nat): (r: Units)
    ensures r != []
  {
    if c < 0x10000 then [c] else [0xD800 + (c - 0x10000) / 0x400, 0xDC00 + (c - 0x10000) % 0x400]
  }

  function UnitsOf(c: Collation, ch: char): (r: Units)
    ensures r != []
  {
    if c == Utf16 then Utf16Of(ch as int) else Utf8Of(ch as int)
  }

  function Encoded(c: Collation, s: string): Units {
    if s == [] then [] else UnitsOf(c, s[0]) + Encoded(c, s[1..])
  }

  // Unit by unit, a prefix first.
  predicate LexLeq(a: Units, b: Units) {
    a == [] || (b != [] && (a[0] < b[0] || (a[0] == b[0] && LexLeq(a[1..], b[1..]))))
  }

  // a and b are first apart at k, where a is the smaller exactly if less.
  ghost predicate ApartAt(a: Units, b: Units, k: nat, less: bool) {
    k < |a| && k < |b| && a[..k] == b[..k] && a[k] != b[k] && (a[k] < b[k] <==> less)
  }

  lemma {:induction false} CommonFront(front: Units, a: Units, b: Units)
    ensures LexLeq(front + a, front + b) <==> LexLeq(a, b)
  {
    if front == [] {
      assert front + a == a && front + b == b;
    } else {
      CommonFront(front[1..], a, b);
      assert (front + a)[1..] == front[1..] + a && (front + b)[1..] == front[1..] + b;
    }
  }

  lemma {:induction false} ApartDecides(a: Units, b: Units, k: nat, less: bool, x: Units, y: Units)
    requires ApartAt(a, b, k, less)
    ensures LexLeq(a + x, b + y) <==> less
  {
    var c, d := a[k..] + x, b[k..] + y;
    assert a + x == a[..k] + c && b + y == a[..k] + d;
    CommonFront(a[..k], c, d);
    assert c[0] == a[k] && d[0] == b[k];
  }

  // Quotients decide, and remainders where they are equal.
  lemma {:induction false} Quotients(x: nat, y: nat, n: nat)
    requires x < y && (n == 0x40 || n == 0x400)
    ensures x / n <= y / n && (x / n == y / n ==> x % n < y % n)
  {
    assert x / 0x40 <= y / 0x40 && x / 0x400 <= y / 0x400;
  }

  lemma {:induction false} Utf16Apart(x: nat, y: nat) returns (k: nat)
    requires x < y < 0x110000 && !(0xD800 <= x < 0xE000) && !(0xD800 <= y < 0xE000)
    ensures ApartAt(Utf16Of(x), Utf16Of(y), k, !(0xE000 <= x < 0x10000 <= y))
    ensures ApartAt(Utf16Of(y), Utf16Of(x), k, 0xE000 <= x < 0x10000 <= y)
  {
    k := 0;
    if x >= 0x10000 {
      Quotients(x - 0x10000, y - 0x10000, 0x400);
      k := if (x - 0x10000) / 0x400 == (y - 0x10000) / 0x400 then 1 else 0;
    } else if y >= 0x10000 {
      assert 0 <= (y - 0x10000) / 0x400 < 0x400;
    }
  }

  function Length(c: nat): nat {
    if c < 0x80 then 1 else if c < 0x800 then 2 else if c < 0x10000 then 3 else 4
  }

  // The first byte tells the length: more bytes, a larger first byte.
  lemma {:induction false} FirstByte(c: nat)
    requires c < 0x110000
    ensures |Utf8Of(c)| == Length(c)
    ensures var first := Utf8Of(c)[0];
            match Length(c)
            case 1 => first < 0xC0
            case 2 => 0xC0 <= first < 0xE0
            case 3 => 0xE0 <= first < 0xF0
            case _ => 0xF0 <= first
  {
  }

  // Two code points of one length are apart where their base-64 digits are.
  lemma {:induction false} SameLength(x: nat, y: nat) returns (k: nat)
    requires x < y < 0x110000 && Length(x) == Length(y)
    ensures ApartAt(Utf8Of(x), Utf8Of(y), k, true)
  {
    Quotients(x, y, 0x40);
    if Length(x) <= 2 {
      k := if Utf8Of(x)[0] != Utf8Of(y)[0] then 0 else 1;
    } else {
      var x1, y1 := x / 0x40, y / 0x40;
      assert x / 0x1000 == x1 / 0x40 && y / 0x1000 == y1 / 0x40;
      if x1 != y1 {
        Quotients(x1, y1, 0x40);
      }
      if Length(x) == 3 {
        k := if x1 / 0x40 != y1 / 0x40 then 0 else if x1 != y1 then 1 else 2;
      } else {
        k := FourBytes(x, y);
      }
    }
  }

  lemma {:induction false} FourBytes(x: nat, y: nat) returns (k: nat)
    requires 0x10000 <= x < y < 0x110000
    ensures ApartAt(Utf8Of(x), Utf8Of(y), k, true)
  {
    var x1, y1, x2, y2 := x / 0x40, y / 0x40, x / 0x1000, y / 0x1000;
    assert x2 == x1 / 0x40 && y2 == y1 / 0x40;
    assert x / 0x40000 == x2 / 0x40 && y / 0x40000 == y2 / 0x40;
    Quotients(x, y, 0x40);
    if x1 != y1 {
      Quotients(x1, y1, 0x40);
    }
    if x2 != y2 {
      Quotients(x2, y2, 0x40);
    }
    k := if x2 / 0x40 != y2 / 0x40 then 0 else if x2 != y2 then 1 else if x1 != y1 then 2 else 3;
  }

  lemma {:induction false} Utf8Apart(x: nat, y: nat) returns (k: nat)
    requires x < y < 0x110000
    ensures ApartAt(Utf8Of(x), Utf8Of(y), k, true) && ApartAt(Utf8Of(y), Utf8Of(x), k, false)
  {
    FirstByte(x);
    FirstByte(y);
    hide Utf8Of;
    if Length(x) == Length(y) {
      k := SameLength(x, y);
    } else {
      k := 0;
    }
  }

  lemma {:induction false} UnitsApart(c: Collation, x: char, y: char) returns (k: nat)
    requires x != y
    ensures ApartAt(UnitsOf(c, x), UnitsOf(c, y), k, Rank(c, x) < Rank(c, y))
  {
    hide ApartAt, Utf8Of, Utf16Of;
    if c == Utf16 {
      if x < y {
        k := Utf16Apart(x as int, y as int);
      } else {
        k := Utf16Apart(y as int, x as int);
      }
    } else if x < y {
      k := Utf8Apart(x as int, y as int);
    } else {
      k := Utf8Apart(y as int, x as int);
    }
  }

  lemma {:induction false} OrderIsOfUnits(c: Collation, a: string, b: string)
    ensures Leq(c, a, b) <==> LexLeq(Encoded(c, a), Encoded(c, b))
  {
    hide UnitsOf, Rank, ApartAt;
    if a != [] && b != [] {
      if a[0] == b[0] {
        OrderIsOfUnits(c, a[1..], b[1..]);
        CommonFront(UnitsOf(c, a[0]), Encoded(c, a[1..]), Encoded(c, b[1..]));
      } else {
        var k := UnitsApart(c, a[0], b[0]);
        ApartDecides(UnitsOf(c, a[0]), UnitsOf(c, b[0]), k, Rank(c, a[0]) < Rank(c, b[0]), Encoded(c, a[1..]), Encoded(c, b[1..]));
      }
    }
  }
}
