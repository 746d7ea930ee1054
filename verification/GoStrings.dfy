// The functions of the Go package strings that the command line tool and the Hub use.
module GoStrings {
  import opened Text

  // unicode.IsSpace
  predicate IsSpace(c: char) {
    || 9 <= c as int <= 13 || 0x2000 <= c as int <= 0x200A
    || c as int in {0x20, 0x85, 0xA0, 0x1680, 0x2028, 0x2029, 0x202F, 0x205F, 0x3000}
  }

  // The characters with the property White_Space, chapter 4 of the Unicode Standard.
  lemma {:induction false} SpacesAre(c: char)
    ensures IsSpace(c) == (c as int in {
              0x09, 0x0A, 0x0B, 0x0C, 0x0D, 0x20, 0x85, 0xA0, 0x1680,
              0x2000, 0x2001, 0x2002, 0x2003, 0x2004, 0x2005, 0x2006, 0x2007, 0x2008, 0x2009, 0x200A,
              0x2028, 0x2029, 0x202F, 0x205F, 0x3000})
  {
  }

  function TrimSpace(s: string): string {
    TrimRight(TrimLeft(s, IsSpace), IsSpace)
  }

  // strings.Index: where sub occurs first.
  function Index(s: string, sub: string): (r: Option<nat>)
    ensures r.Some? ==> r.value <= |s| && sub <= s[r.value..]
    ensures r.Some? ==> forall i :: 0 <= i < r.value ==> !(sub <= s[i..])
    ensures r.None? ==> forall i :: 0 <= i <= |s| ==> !(sub <= s[i..])
  {
    if sub <= s then Some(0)
    else if s == [] then None
    else
      var rest := Index(s[1..], sub);
      assert forall i :: 0 < i <= |s| ==> s[i..] == s[1..][i - 1..];
      if rest.Some? then Some(rest.value + 1) else None
  }

  ghost predicate EndsIn(s: string, suffix: string) {
    exists front :: s == front + suffix
  }

  // strings.HasSuffix
  predicate HasSuffix(s: string, suffix: string) {
    |suffix| <= |s| && s[|s| - |suffix|..] == suffix
  }

  lemma {:induction false} SuffixIs(s: string, suffix: string)
    ensures HasSuffix(s, suffix) <==> EndsIn(s, suffix)
  {
    if HasSuffix(s, suffix) {
      assert s == s[..|s| - |suffix|] + suffix;
    }
  }

  // ---------- trimming ----------

  lemma {:induction false} TrimRightCons(x: char, t: string)
    ensures TrimRight([x] + t, IsSpace) ==
            if TrimRight(t, IsSpace) == [] then TrimRight([x], IsSpace) else [x] + TrimRight(t, IsSpace)
  {
    hide IsSpace;
    if t == [] {
      assert [x] + t == [x];
    } else if IsSpace(t[|t| - 1]) {
      var front := t[..|t| - 1];
      assert ([x] + t)[..|t|] == [x] + front && ([x] + t)[|t|] == t[|t| - 1];
      TrimRightCons(x, front);
    } else {
      assert ([x] + t)[|t|] == t[|t| - 1];
    }
  }

  lemma {:induction false} TrimsCommute(s: string)
    ensures TrimLeft(TrimRight(s, IsSpace), IsSpace) == TrimSpace(s)
  {
    hide IsSpace;
    if s != [] {
      var x, t := s[0], s[1..];
      assert s == [x] + t;
      TrimRightCons(x, t);
      TrimsCommute(t);
      TrimRightOne(x);
      hide TrimRight;
      if TrimRight(t, IsSpace) != [] {
        assert TrimRight(s, IsSpace) == [x] + TrimRight(t, IsSpace);
        assert TrimRight(s, IsSpace)[1..] == TrimRight(t, IsSpace);
      }
    }
  }

  lemma {:induction false} TrimRightOne(x: char)
    ensures TrimRight([x], IsSpace) == if IsSpace(x) then [] else [x]
  {
    assert [x][..0] == [];
  }

  // Trimming a text that starts and ends, before s, with something visible.
  lemma {:induction false} TrimAfter(p: string, s: string)
    requires p != [] && !IsSpace(p[0]) && !IsSpace(p[|p| - 1])
    ensures TrimSpace(p + s) == p + TrimRight(s, IsSpace)
  {
    hide IsSpace;
    assert (p + s)[0] == p[0];
    TrimRightAfter(p, s);
  }

  lemma {:induction false} TrimRightAfter(p: string, s: string)
    requires p != [] && !IsSpace(p[|p| - 1])
    ensures TrimRight(p + s, IsSpace) == p + TrimRight(s, IsSpace)
  {
    hide IsSpace;
    if s == [] {
      assert p + s == p;
    } else if IsSpace(s[|s| - 1]) {
      assert (p + s)[..|p + s| - 1] == p + s[..|s| - 1];
      TrimRightAfter(p, s[..|s| - 1]);
    }
  }

  ghost predicate AllSpace(s: string) {
    forall i :: 0 <= i < |s| ==> IsSpace(s[i])
  }

  lemma {:induction false} TrimAllSpace(s: string)
    requires AllSpace(s)
    ensures TrimRight(s, IsSpace) == []
  {
    if s != [] {
      TrimAllSpace(s[..|s| - 1]);
    }
  }

  lemma {:induction false} TrimBefore(w: string, s: string)
    requires AllSpace(w)
    ensures TrimSpace(w + s) == TrimSpace(s)
  {
    if w == [] {
      assert w + s == s;
    } else {
      TrimBefore(w[1..], s);
      assert (w + s)[1..] == w[1..] + s;
    }
  }

  lemma {:induction false} TrimTwice(s: string)
    ensures TrimSpace(TrimRight(s, IsSpace)) == TrimSpace(s) && TrimSpace(TrimSpace(s)) == TrimSpace(s)
  {
    TrimsCommute(s);
    TrimRightTwice(s);
    TrimRightTwice(TrimLeft(s, IsSpace));
    TrimLeftTwice(TrimRight(s, IsSpace));
    TrimsCommute(TrimRight(s, IsSpace));
    TrimsCommute(TrimSpace(s));
  }

  lemma {:induction false} TrimRightTwice(s: string)
    ensures TrimRight(TrimRight(s, IsSpace), IsSpace) == TrimRight(s, IsSpace)
  {
    hide IsSpace;
  }

  lemma {:induction false} TrimLeftTwice(s: string)
    ensures TrimLeft(TrimLeft(s, IsSpace), IsSpace) == TrimLeft(s, IsSpace)
  {
    hide IsSpace;
  }
}
