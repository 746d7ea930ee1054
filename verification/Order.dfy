// The two string orders of the repository (Go compares bytes of UTF-8, which is
// the order of code points; JavaScript compares UTF-16 code units), sorting, and
// the fact that makes sorted output canonical: a strictly sorted sequence is
// determined by its elements.
module Order {

  datatype Collation = CodePoints | Utf16

  // In UTF-16 a code point above U+FFFF starts with a surrogate, so it comes
  // before U+E000..U+FFFF.
  function Rank(c: Collation, ch: char): int {
    if c == Utf16 && 0xE000 <= ch as int < 0x10000 then ch as int + 0x200000 else ch as int
  }

  predicate Leq(c: Collation, a: string, b: string) {
    a == [] || (b != [] && (Rank(c, a[0]) < Rank(c, b[0]) || (a[0] == b[0] && Leq(c, a[1..], b[1..]))))
  }

  predicate Less(c: Collation, a: string, b: string) {
    a != b && Leq(c, a, b)
  }

  lemma {:induction false} LeqTotal(c: Collation, a: string, b: string)
    ensures Leq(c, a, b) || Leq(c, b, a)
  {
    if a != [] && b != [] && a[0] == b[0] {
      LeqTotal(c, a[1..], b[1..]);
    }
  }

  lemma {:induction false} LeqAntisymmetric(c: Collation, a: string, b: string)
    requires Leq(c, a, b) && Leq(c, b, a)
    ensures a == b
  {
    if a != [] && b != [] {
      LeqAntisymmetric(c, a[1..], b[1..]);
      assert a == [a[0]] + a[1..] && b == [b[0]] + b[1..];
    }
  }

  lemma {:induction false} LeqTransitive(x: Collation, a: string, b: string, c: string)
    requires Leq(x, a, b) && Leq(x, b, c)
    ensures Leq(x, a, c)
  {
    if a != [] && a[0] == b[0] == c[0] {
      LeqTransitive(x, a[1..], b[1..], c[1..]);
    }
  }

  ghost predicate Sorted(c: Collation, s: seq<string>) {
    forall i, j :: 0 <= i < j < |s| ==> Leq(c, s[i], s[j])
  }

  ghost predicate StrictlySorted(c: Collation, s: seq<string>) {
    forall i, j :: 0 <= i < j < |s| ==> Less(c, s[i], s[j])
  }

  ghost predicate Distinct<T>(s: seq<T>) {
    forall i, j :: 0 <= i < j < |s| ==> s[i] != s[j]
  }

  function Elements<T>(s: seq<T>): set<T> {
    set x | x in s
  }

  function Insert(c: Collation, x: string, s: seq<string>): (r: seq<string>)
    ensures multiset(r) == multiset(s) + multiset{x}
  {
    if s == [] || Leq(c, x, s[0]) then
      [x] + s
    else
      assert s == [s[0]] + s[1..];
      [s[0]] + Insert(c, x, s[1..])
  }

  // sort.Strings of Go under CodePoints, Array.prototype.sort under Utf16.
  function Sort(c: Collation, s: seq<string>): (r: seq<string>)
    ensures multiset(r) == multiset(s)
  {
    if s == [] then [] else
      assert s == [s[0]] + s[1..];
      Insert(c, s[0], Sort(c, s[1..]))
  }

  lemma {:induction false} InsertSorted(c: Collation, x: string, s: seq<string>)
    requires Sorted(c, s)
    ensures Sorted(c, Insert(c, x, s))
  {
    hide Leq;
    var r := Insert(c, x, s);
    if s == [] {
    } else if Leq(c, x, s[0]) {
      forall j | 0 <= j < |s| ensures Leq(c, x, s[j]) {
        if j > 0 { LeqTransitive(c, x, s[0], s[j]); }
      }
    } else {
      InsertSorted(c, x, s[1..]);
      LeqTotal(c, x, s[0]);
      forall j | 1 <= j < |r| ensures Leq(c, s[0], r[j]) {
        var tail := Insert(c, x, s[1..]);
        assert r[j] == tail[j - 1] && tail[j - 1] in multiset(tail);
        assert r[j] == x || r[j] in s[1..];
      }
    }
  }

  lemma {:induction false} SortSorted(c: Collation, s: seq<string>)
    ensures Sorted(c, Sort(c, s))
  {
    if s != [] {
      SortSorted(c, s[1..]);
      InsertSorted(c, s[0], Sort(c, s[1..]));
    }
  }

  lemma {:induction false} SameMultisetDistinct<T>(s: seq<T>, t: seq<T>)
    requires multiset(s) == multiset(t) && Distinct(s)
    ensures Distinct(t)
  {
    forall i, j | 0 <= i < j < |t| ensures t[i] != t[j] {
      assert t[i] in multiset(s);
      DistinctOnce(s, t[i]);
      EqualTwice(t, i, j);
    }
  }

  lemma {:induction false} EqualTwice<T>(s: seq<T>, i: nat, j: nat)
    requires i < j < |s|
    ensures s[i] == s[j] ==> multiset(s)[s[i]] >= 2
  {
    assert s == s[..i] + [s[i]] + s[i + 1..j] + [s[j]] + s[j + 1..];
  }

  lemma {:induction false} DistinctOnce<T>(s: seq<T>, x: T)
    requires Distinct(s) && x in s
    ensures multiset(s)[x] == 1
  {
    var i :| 0 <= i < |s| && s[i] == x;
    assert s == s[..i] + [x] + s[i + 1..];
  }

  lemma {:induction false} SortStrict(c: Collation, s: seq<string>)
    requires Distinct(s)
    ensures StrictlySorted(c, Sort(c, s)) && Elements(Sort(c, s)) == Elements(s)
  {
    SortSorted(c, s);
    SameMultisetDistinct(s, Sort(c, s));
    forall x ensures x in Sort(c, s) <==> x in s {
      assert x in Sort(c, s) <==> x in multiset(Sort(c, s));
      assert x in s <==> x in multiset(s);
    }
  }

  // A strictly sorted sequence is determined by the set of its elements.
  lemma {:induction false} SortedUnique(c: Collation, s: seq<string>, t: seq<string>)
    requires StrictlySorted(c, s) && StrictlySorted(c, t) && Elements(s) == Elements(t)
    ensures s == t
  {
    assert s != [] ==> s[0] in Elements(s);
    assert t != [] ==> t[0] in Elements(t);
    if s != [] && t != [] {
      assert s[0] in Elements(t) && t[0] in Elements(s);
      if s[0] != t[0] {
        LeqAntisymmetric(c, s[0], t[0]);
      }
      TailElements(c, s);
      TailElements(c, t);
      SortedUnique(c, s[1..], t[1..]);
      assert s == [s[0]] + s[1..] && t == [t[0]] + t[1..];
    }
  }

  lemma {:induction false} TailElements(c: Collation, s: seq<string>)
    requires StrictlySorted(c, s) && s != []
    ensures Elements(s[1..]) == Elements(s) - {s[0]}
  {
    forall x ensures x in s[1..] <==> x in s && x != s[0] {
      if x in s && x != s[0] {
        var i :| 0 <= i < |s| && s[i] == x;
        assert s[1..][i - 1] == x;
      }
    }
  }

  lemma {:induction false} FirstIsLeast(c: Collation, s: seq<string>, x: string)
    requires Sorted(c, s) && x in multiset(s)
    ensures Leq(c, s[0], x)
  {
    var i :| 0 <= i < |s| && s[i] == x;
    if i == 0 {
      LeqTotal(c, x, x);
    }
  }

  lemma {:induction false} SortedTail(c: Collation, s: seq<string>)
    requires Sorted(c, s) && s != []
    ensures Sorted(c, s[1..])
  {
    hide Leq;
  }

  lemma {:induction false} DropFirst(s: seq<string>)
    requires s != []
    ensures multiset(s) == multiset{s[0]} + multiset(s[1..])
  {
    assert s == [s[0]] + s[1..];
  }

  lemma {:induction false} SameRest<T>(x: T, a: multiset<T>, b: multiset<T>)
    requires multiset{x} + a == multiset{x} + b
    ensures a == b
  {
    assert a == multiset{x} + a - multiset{x} && b == multiset{x} + b - multiset{x};
  }

  // So is a sorted sequence by the multiset of its elements.
  lemma {:induction false} SortedPermutationUnique(c: Collation, s: seq<string>, t: seq<string>)
    requires Sorted(c, s) && Sorted(c, t) && multiset(s) == multiset(t)
    ensures s == t
  {
    assert |s| == |multiset(s)| && |t| == |multiset(t)|;
    if s != [] {
      SortedTail(c, s);
      SortedTail(c, t);
      hide Leq, Sorted;
      assert s[0] in multiset(s) && t[0] in multiset(t);
      FirstIsLeast(c, s, t[0]);
      FirstIsLeast(c, t, s[0]);
      LeqAntisymmetric(c, s[0], t[0]);
      DropFirst(s);
      DropFirst(t);
      SameRest(s[0], multiset(s[1..]), multiset(t[1..]));
      SortedPermutationUnique(c, s[1..], t[1..]);
      assert s == [s[0]] + s[1..] && t == [t[0]] + t[1..];
    }
  }

  // The keys of a map in sorted order.
  ghost function SortedKeys(c: Collation, keys: set<string>): (s: seq<string>)
    ensures StrictlySorted(c, s) && Elements(s) == keys
  {
    SortedKeysExist(c, keys);
    var s :| StrictlySorted(c, s) && Elements(s) == keys;
    s
  }

  lemma {:induction false} SortedKeysExist(c: Collation, keys: set<string>)
    ensures exists s :: StrictlySorted(c, s) && Elements(s) == keys
  {
    var listed := Listing(keys);
    SortStrict(c, listed);
    var s := Sort(c, listed);
    assert StrictlySorted(c, s) && Elements(s) == keys;
  }

  lemma {:induction false} Listing<T>(s: set<T>) returns (listed: seq<T>)
    ensures Distinct(listed) && Elements(listed) == s
  {
    if s == {} {
      listed := [];
    } else {
      var x :| x in s;
      var rest := Listing(s - {x});
      listed := [x] + rest;
      assert forall y :: y in rest <==> y in Elements(rest);
    }
  }

  // Go and JavaScript collect the keys of a map in some order, then sort them.
  method CollectSorted(c: Collation, keys: set<string>) returns (s: seq<string>)
    ensures s == SortedKeys(c, keys)
  {
    var listed: seq<string> := [];
    var rest := keys;
    while rest != {}
      invariant Distinct(listed) && Elements(listed) !! rest && Elements(listed) + rest == keys
      decreases |rest|
    {
      var x :| x in rest;
      assert x !in Elements(listed);
      listed := listed + [x];
      rest := rest - {x};
    }
    SortStrict(c, listed);
    s := Sort(c, listed);
    SortedUnique(c, s, SortedKeys(c, keys));
  }
}
