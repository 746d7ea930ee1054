// types.go sorts bundles by name with sort.Slice, which promises nothing about equal
// names. When the generated text is determined by the bundles alone.
module TypeOrder {
  import opened Text
  import opened Order
  import opened Lexer
  import opened TypeDecls
  import opened TypeGenerator

  // ---------- every manifest has a declaration ----------

  // Every path of the tree, by the index of a bundle below it and a length.
  function Paths(manifest: seq<Bundle>): set<Path> {
    {[]} + set i, n | 0 <= i < |manifest| && IsPublicLogic(manifest[i]) && 0 <= n <= |PathOf(manifest[i])| :: PathOf(manifest[i])[..n]
  }

  lemma {:induction false} PathsAreTree(manifest: seq<Bundle>, p: Path)
    ensures p in Paths(manifest) <==> InTree(manifest, p)
  {
    hide IsPublicLogic, PathOf;
    if i :| 0 <= i < |manifest| && IsPublicLogic(manifest[i]) && IsPrefix(p, PathOf(manifest[i])) {
      assert p == PathOf(manifest[i])[..|p|];
    }
  }

  function ContentsFor(manifest: seq<Bundle>): Contents {
    map p | p in Paths(manifest) :: At(manifest, p)
  }

  lemma {:induction false} ContentsHold(manifest: seq<Bundle>)
    ensures Holds(ContentsFor(manifest), manifest)
  {
    hide Paths, InTree, At;
    forall p ensures p in Paths(manifest) <==> InTree(manifest, p) {
      PathsAreTree(manifest, p);
    }
  }

  function SortByName(s: seq<Bundle>): (r: seq<Bundle>)
    ensures multiset(r) == multiset(s)
  {
    if s == [] then []
    else
      assert s == [s[0]] + s[1..];
      InsertByName(s[0], SortByName(s[1..]))
  }

  lemma {:induction false} SortByNameArranges(s: seq<Bundle>)
    ensures Arranged(SortByName(s), s)
  {
    hide Sorted, InsertByName, Names;
    if s == [] {
      NothingSorted();
    } else {
      SortByNameArranges(s[1..]);
      InsertByNameSorts(s[0], SortByName(s[1..]));
    }
  }

  lemma {:induction false} NothingSorted()
    ensures Sorted(CodePoints, Names([]))
  {
  }

  // d shows the bundles of every path from p down in the order arr gives.
  ghost predicate RendersBy(arr: Contents, p: Path, d: Decl)
    decreases d
  {
    && p in arr && d.fns == FnsOf(arr[p])
    && StrictlySorted(CodePoints, ChildNames(d.children))
    && (forall k :: k in ChildNames(d.children) <==> p + [k] in arr)
    && (forall i :: 0 <= i < |d.children| ==> RendersBy(arr, p + [d.children[i].name], d.children[i].decl))
  }

  ghost predicate ArrangesAll(arr: Contents, contents: Contents) {
    arr.Keys == contents.Keys && forall p :: p in contents ==> Arranged(arr[p], contents[p])
  }

  lemma {:induction false} RendersByRenders(arr: Contents, contents: Contents, p: Path, d: Decl)
    requires RendersBy(arr, p, d) && ArrangesAll(arr, contents)
    ensures Renders(contents, p, d)
    decreases d
  {
    hide Arranged, StrictlySorted;
    assert Arranged(arr[p], contents[p]);
    forall i | 0 <= i < |d.children| ensures Renders(contents, p + [d.children[i].name], d.children[i].decl) {
      RendersByRenders(arr, contents, p + [d.children[i].name], d.children[i].decl);
    }
  }

  function ChildKeysOf(arr: Contents, p: Path): set<string> {
    set q | q in arr && |q| == |p| + 1 && q[..|p|] == p :: q[|p|]
  }

  lemma {:induction false} ChildKeysAre(arr: Contents, p: Path, k: string)
    ensures k in ChildKeysOf(arr, p) <==> p + [k] in arr
  {
    if p + [k] in arr {
      var q := p + [k];
      assert |q| == |p| + 1 && q[..|p|] == p && q[|p|] == k;
    }
    if k in ChildKeysOf(arr, p) {
      var q :| q in arr && |q| == |p| + 1 && q[..|p|] == p && q[|p|] == k;
      assert q == p + [k];
    }
  }

  lemma {:induction false} Rendering(arr: Contents, p: Path, height: nat) returns (d: Decl)
    requires p in arr && forall q :: q in arr ==> |q| <= height
    ensures RendersBy(arr, p, d)
    decreases height - |p|, 1, 0
  {
    var keys := ChildKeysOf(arr, p);
    var names := SortedKeys(CodePoints, keys);
    forall k ensures k in names <==> p + [k] in arr {
      ChildKeysAre(arr, p, k);
      assert k in names <==> k in Elements(names);
    }
    var children := RenderingChildren(arr, p, names, height);
    d := Decl(FnsOf(arr[p]), children);
    assert ChildNames(children) == names;
  }

  lemma {:induction false} RenderingChildren(arr: Contents, p: Path, names: seq<string>, height: nat) returns (children: seq<Child>)
    requires p in arr && (forall q :: q in arr ==> |q| <= height) && forall k :: k in names ==> p + [k] in arr
    ensures |children| == |names|
    ensures forall i :: 0 <= i < |names| ==> children[i].name == names[i] && RendersBy(arr, p + [names[i]], children[i].decl)
    decreases height - |p|, 0, |names|
  {
    hide RendersBy;
    children := [];
    if names != [] {
      assert names[0] in names && p + [names[0]] in arr;
      var d := Rendering(arr, p + [names[0]], height);
      var rest := RenderingChildren(arr, p, names[1..], height);
      children := [Child(names[0], d)] + rest;
    }
  }

  // ---------- what a declaration tells of the order ----------

  ghost predicate PrefixClosed(arr: Contents) {
    forall p :: p in arr && p != [] ==> p[..|p| - 1] in arr
  }

  lemma {:induction false} PrefixIn(arr: Contents, q: Path, n: nat)
    requires PrefixClosed(arr) && q in arr && n <= |q|
    ensures q[..n] in arr
    decreases |q| - n
  {
    if n == |q| {
      assert q[..n] == q;
    } else {
      PrefixIn(arr, q, n + 1);
      assert q[..n + 1][..n] == q[..n];
    }
  }

  // Two arrangements with one rendering show the same functions at every path.
  lemma {:induction false} SameFns(a: Contents, b: Contents, n: nat, q: Path, d: Decl)
    requires PrefixClosed(a) && q in a && n <= |q|
    requires RendersBy(a, q[..n], d) && RendersBy(b, q[..n], d)
    ensures q in b && FnsOf(a[q]) == FnsOf(b[q])
    decreases |q| - n
  {
    hide FnsOf, PrefixClosed, StrictlySorted;
    if n == |q| {
      assert q[..n] == q;
    } else {
      PrefixIn(a, q, n + 1);
      assert q[..n + 1] == q[..n] + [q[n]];
      var names := ChildNames(d.children);
      assert q[n] in names;
      var i :| 0 <= i < |names| && names[i] == q[n];
      SameFns(a, b, n + 1, q, d.children[i].decl);
    }
  }

  lemma {:induction false} TreeClosed(manifest: seq<Bundle>)
    ensures PrefixClosed(ContentsFor(manifest))
  {
    hide IsPublicLogic, PathOf, Paths, At;
    forall p | p in Paths(manifest) && p != [] ensures p[..|p| - 1] in Paths(manifest) {
      PathsAreTree(manifest, p);
      PathsAreTree(manifest, p[..|p| - 1]);
      var i :| 0 <= i < |manifest| && IsPublicLogic(manifest[i]) && IsPrefix(p, PathOf(manifest[i]));
      assert IsPrefix(p[..|p| - 1], PathOf(manifest[i]));
    }
  }

  // ---------- two texts for one manifest ----------

  function Swap(s: seq<Bundle>, i: nat, j: nat): seq<Bundle>
    requires i < |s| && j < |s|
  {
    s[i := s[j]][j := s[i]]
  }

  lemma {:induction false} SwapArranges(s: seq<Bundle>, i: nat, j: nat, bundles: seq<Bundle>)
    requires Arranged(s, bundles) && i < |s| && j < |s| && s[i].name == s[j].name
    ensures Arranged(Swap(s, i, j), bundles)
  {
    hide Sorted;
    assert Names(Swap(s, i, j)) == Names(s);
    assert multiset(Swap(s, i, j)) == multiset(s);
  }

  lemma {:induction false} SortedAll(contents: Contents) returns (arr: Contents)
    ensures ArrangesAll(arr, contents)
  {
    arr := map p | p in contents :: SortByName(contents[p]);
    hide Arranged;
    forall p | p in contents ensures Arranged(arr[p], contents[p]) {
      SortByNameArranges(contents[p]);
    }
  }

  // Two orders of bundles of one name that differ in their parameters.
  lemma {:induction false} TwoArrangements(manifest: seq<Bundle>, x: Bundle, y: Bundle) returns (a: Contents, b: Contents)
    requires x in manifest && y in manifest && IsPublicLogic(x) && IsPublicLogic(y) && PathOf(x) == PathOf(y) && x.name == y.name
    requires ParamsOf(x) != ParamsOf(y)
    ensures ArrangesAll(a, ContentsFor(manifest)) && ArrangesAll(b, ContentsFor(manifest))
    ensures PathOf(x) in a && FnsOf(a[PathOf(x)]) != FnsOf(b[PathOf(x)])
  {
    hide IsPublicLogic, PathOf, ParamsOf, At, Paths, InTree, Arranged;
    var p := PathOf(x);
    var contents := ContentsFor(manifest);
    InContents(manifest, x);
    InContents(manifest, y);
    a := SortedAll(contents);
    var s := a[p];
    ArrangedElements(s, contents[p]);
    var i :| 0 <= i < |s| && s[i] == x;
    var j :| 0 <= j < |s| && s[j] == y;
    SwapArranges(s, i, j, contents[p]);
    b := a[p := Swap(s, i, j)];
    assert FnsOf(a[p])[i] == Fn(x.name, ParamsOf(x)) && FnsOf(b[p])[i] == Fn(y.name, ParamsOf(y));
  }

  lemma {:induction false} ArrangedElements(s: seq<Bundle>, bundles: seq<Bundle>)
    requires Arranged(s, bundles)
    ensures forall b :: b in s <==> b in bundles
  {
    hide Sorted;
    assert forall b :: b in s <==> b in multiset(s);
    assert forall b :: b in bundles <==> b in multiset(bundles);
  }

  lemma {:induction false} InContents(manifest: seq<Bundle>, b: Bundle)
    requires b in manifest && IsPublicLogic(b)
    ensures PathOf(b) in ContentsFor(manifest) && b in ContentsFor(manifest)[PathOf(b)]
  {
    hide IsPublicLogic, PathOf, At, Paths;
    var i :| 0 <= i < |manifest| && manifest[i] == b;
    PathsAreTree(manifest, PathOf(b));
    assert IsPrefix(PathOf(b), PathOf(manifest[i]));
    AtCounts(manifest, PathOf(b), b);
    assert b in multiset(manifest);
    assert b in multiset(At(manifest, PathOf(b)));
  }

  // A rendering of an arrangement is a declaration of the manifest.
  lemma {:induction false} Declared(manifest: seq<Bundle>, arr: Contents) returns (d: Decl)
    requires ArrangesAll(arr, ContentsFor(manifest))
    ensures RendersBy(arr, [], d) && DeclaredBy(manifest, d)
  {
    hide RendersBy, Renders, Holds, Paths, ArrangesAll;
    var contents := ContentsFor(manifest);
    ContentsHold(manifest);
    RootIn(manifest, arr);
    var height := HeightOf(arr.Keys);
    d := Rendering(arr, [], height);
    RendersByRenders(arr, contents, [], d);
    assert Holds(contents, manifest) && Renders(contents, [], d);
  }

  lemma {:induction false} RootIn(manifest: seq<Bundle>, arr: Contents)
    requires ArrangesAll(arr, ContentsFor(manifest))
    ensures [] in arr
  {
    assert [] in ContentsFor(manifest);
  }

  lemma {:induction false} TwoTexts(manifest: seq<Bundle>, x: Bundle, y: Bundle) returns (text: string, other: string)
    requires Identifiers(manifest)
    requires x in manifest && y in manifest && IsPublicLogic(x) && IsPublicLogic(y) && PathOf(x) == PathOf(y) && x.name == y.name
    requires ParamsOf(x) != ParamsOf(y)
    ensures IsGenerated(manifest, text) && IsGenerated(manifest, other) && text != other
  {
    hide IsPublicLogic, PathOf, ParamsOf, Identifiers, RendersBy, FnsOf, FileText, ParseFile, ContentsFor;
    var a, b := TwoArrangements(manifest, x, y);
    var d := Declared(manifest, a);
    var e := Declared(manifest, b);
    TreeClosed(manifest);
    ClosedToo(manifest, a);
    assert PathOf(x)[..0] == [];
    if d == e {
      SameFns(a, b, 0, PathOf(x), d);
      assert false;
    }
    text, other := FileText(d), FileText(e);
    DeclaredNamed(manifest, d);
    DeclaredNamed(manifest, e);
    hide DeclaredBy, Named;
    FileRoundTrip(d);
    FileRoundTrip(e);
  }

  lemma {:induction false} ClosedToo(manifest: seq<Bundle>, arr: Contents)
    requires PrefixClosed(ContentsFor(manifest)) && ArrangesAll(arr, ContentsFor(manifest))
    ensures PrefixClosed(arr)
  {
    hide ContentsFor, Arranged;
  }

  lemma {:induction false} DeclaredNamed(manifest: seq<Bundle>, d: Decl)
    requires DeclaredBy(manifest, d) && Identifiers(manifest)
    ensures Named(d)
  {
    hide Holds, Renders, Identifiers, Named;
    var contents :| Holds(contents, manifest) && Renders(contents, [], d);
    RenderedNamed(contents, manifest, [], d);
  }

  // ---------- the condition ----------

  // All orders of the manifest's bundles, and all orders of equal names, give one text.
  ghost predicate OneText(manifest: seq<Bundle>) {
    forall other, text, more :: multiset(other) == multiset(manifest) && IsGenerated(manifest, text) && IsGenerated(other, more)
      ==> text == more
  }

  // For identifier names: the text is determined by the bundles if and only if those
  // that share namespace and name share their parameters.
  lemma {:induction false} TextIsDetermined(manifest: seq<Bundle>)
    requires Identifiers(manifest)
    ensures OneText(manifest) <==> SameNameSameParams(manifest)
  {
    hide Identifiers, IsGenerated, IsPublicLogic, PathOf, ParamsOf;
    if SameNameSameParams(manifest) {
      forall other, text, more | multiset(other) == multiset(manifest) && IsGenerated(manifest, text) && IsGenerated(other, more)
        ensures text == more
      {
        OrderDoesNotMatter(manifest, other, text, more);
      }
    } else {
      var x, y :| x in manifest && y in manifest && IsPublicLogic(x) && IsPublicLogic(y) && PathOf(x) == PathOf(y) && x.name == y.name
        && ParamsOf(x) != ParamsOf(y);
      var text, other := TwoTexts(manifest, x, y);
    }
  }
}
