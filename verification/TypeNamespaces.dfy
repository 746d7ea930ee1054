// Where types.go declares a bundle: the namespace text names the path, with empty parts
// and dots left out, and the declaration found there has the bundle's parameters.
module TypeNamespaces {
  import opened Text
  import opened Order
  import opened TypeDecls
  import opened TypeGenerator

  // ---------- from the namespace text to the path ----------

  // ns is these parts with slashes between them.
  ghost predicate Spells(ns: string, parts: seq<string>) {
    ns == Join(parts, "/") && parts != [] && forall part :: part in parts ==> '/' !in part
  }

  // The parts that count.
  ghost function Proper(parts: seq<string>): seq<string> {
    if parts == [] then []
    else if parts[0] in {"", "."} then Proper(parts[1..])
    else [parts[0]] + Proper(parts[1..])
  }

  lemma {:induction false} ProperConcat(a: seq<string>, b: seq<string>)
    ensures Proper(a + b) == Proper(a) + Proper(b)
  {
    if a == [] {
      assert a + b == b;
    } else {
      ProperConcat(a[1..], b);
      assert (a + b)[1..] == a[1..] + b;
    }
  }

  lemma {:induction false} VisitedIsProper(parts: seq<string>)
    ensures Visited(parts) == Proper(parts)
  {
    if parts != [] {
      var front, last := parts[..|parts| - 1], parts[|parts| - 1];
      VisitedIsProper(front);
      ProperConcat(front, [last]);
      assert parts == front + [last] && [last][1..] == [];
    }
  }

  lemma {:induction false} ProperTrimLeft(s: string)
    ensures Proper(Split(TrimLeft(s, IsSlash), '/')) == Proper(Split(s, '/'))
  {
    if s != [] && s[0] == '/' {
      ProperTrimLeft(s[1..]);
      assert ([""] + Split(s[1..], '/'))[1..] == Split(s[1..], '/');
    }
  }

  lemma {:induction false} ProperTrimRight(s: string)
    ensures Proper(Split(TrimRight(s, IsSlash), '/')) == Proper(Split(s, '/'))
  {
    if s != [] && s[|s| - 1] == '/' {
      var front := s[..|s| - 1];
      ProperTrimRight(front);
      assert s == front + ['/'] + "";
      SplitConcat(front, "", '/');
      ProperConcat(Split(front, '/'), [""]);
      assert [""][1..] == [];
    }
  }

  lemma {:induction false} PathIs(b: Bundle, parts: seq<string>)
    requires Spells(b.namespace, parts)
    ensures PathOf(b) == Proper(parts)
  {
    var ns := TrimRight(TrimLeft(b.namespace, IsSlash), IsSlash);
    SplitJoin(parts, '/');
    ProperTrimLeft(b.namespace);
    ProperTrimRight(TrimLeft(b.namespace, IsSlash));
    hide TrimLeft, TrimRight;
    VisitedIsProper(Split(ns, '/'));
    if ns == "" || ns == "." {
      SplitOne(ns, '/');
      assert [ns][1..] == [];
    }
  }

  // ---------- the bundles that are declared ----------

  ghost predicate IsDeclared(b: Bundle) {
    && (b.kind == "logic" || b.kind == "js" || b.kind == "sql")
    && (b.name == "" || b.name[0] != '_')
  }

  lemma {:induction false} DeclaredIsPublic(b: Bundle)
    ensures IsDeclared(b) <==> IsPublicLogic(b)
  {
    assert "_" <= b.name <==> b.name != "" && b.name[0] == '_';
  }

  // In every trie that holds the manifest, such a bundle is at the path its namespace
  // spells, as often as in the manifest, and at no other path.
  lemma {:induction false} AtItsPath(contents: Contents, manifest: seq<Bundle>, b: Bundle, parts: seq<string>)
    requires Holds(contents, manifest) && b in manifest && IsDeclared(b) && Spells(b.namespace, parts)
    ensures Proper(parts) in contents && multiset(contents[Proper(parts)])[b] == multiset(manifest)[b]
    ensures forall p :: p in contents && p != Proper(parts) ==> b !in contents[p]
  {
    PathIs(b, parts);
    DeclaredIsPublic(b);
    hide IsDeclared, IsPublicLogic, PathOf, Proper, Spells, At;
    var i :| 0 <= i < |manifest| && manifest[i] == b;
    assert IsPrefix(PathOf(b), PathOf(manifest[i]));
    AtCounts(manifest, Proper(parts), b);
    forall p | p in contents && p != Proper(parts) ensures b !in contents[p] {
      AtCounts(manifest, p, b);
      assert multiset(At(manifest, p))[b] == 0;
    }
  }

  // Proper parts are the path as they stand.
  lemma {:induction false} ProperParts(parts: seq<string>)
    requires forall part :: part in parts ==> part != "" && part != "."
    ensures Proper(parts) == parts
  {
    if parts != [] {
      assert forall part :: part in parts[1..] ==> part in parts;
      ProperParts(parts[1..]);
      assert parts[0] in parts && parts == [parts[0]] + parts[1..];
    }
  }

  // The same text but for a slash at either end, a doubled slash, or a dot between slashes.
  ghost predicate Respelled(x: string, y: string, before: string, after: string) {
    && y == before + "/" + after
    && (x == before + "//" + after || x == before + "/./" + after || (before == "" && x == after) || (after == "" && x == before))
  }

  lemma {:induction false} RespelledProper(x: string, y: string, before: string, after: string)
    requires Respelled(x, y, before, after)
    ensures Proper(Split(x, '/')) == Proper(Split(y, '/'))
  {
    hide Split, Proper;
    NothingBetween(before, "", after);
    NothingBetween(before, ".", after);
    NothingOutside(x);
    assert before + "/" + "" + "/" + after == before + "//" + after;
    assert before + "/" + "." + "/" + after == before + "/./" + after;
    assert before + "/" + "" == before + "/" && "" + "/" + after == "/" + after;
  }

  // These change nothing.
  lemma {:induction false} SlashesAndDots(contents: Contents, manifest: seq<Bundle>, x: Bundle, y: Bundle, before: string, after: string)
    requires Holds(contents, manifest) && x in manifest && y in manifest && IsDeclared(x) && IsDeclared(y)
    requires Respelled(x.namespace, y.namespace, before, after)
    ensures forall p :: p in contents ==> (x in contents[p] <==> y in contents[p])
  {
    hide *;
    RespelledProper(x.namespace, y.namespace, before, after);
    OnlyAt(contents, manifest, x);
    OnlyAt(contents, manifest, y);
  }

  lemma {:induction false} OnlyAt(contents: Contents, manifest: seq<Bundle>, b: Bundle)
    requires Holds(contents, manifest) && b in manifest && IsDeclared(b)
    ensures forall p :: p in contents ==> (b in contents[p] <==> p == Proper(Split(b.namespace, '/')))
  {
    hide *;
    var parts := Split(b.namespace, '/');
    SpellsOf(b.namespace);
    AtItsPath(contents, manifest, b, parts);
    assert b in multiset(manifest);
    assert b in multiset(contents[Proper(parts)]);
  }

  lemma {:induction false} SpellsOf(ns: string)
    ensures Spells(ns, Split(ns, '/'))
  {
    JoinSplit(ns, '/');
  }

  lemma {:induction false} SlashBetween(a: string, b: string)
    ensures Proper(Split(a + "/" + b, '/')) == Proper(Split(a, '/')) + Proper(Split(b, '/'))
  {
    hide Split, Proper;
    SplitConcat(a, b, '/');
    ProperConcat(Split(a, '/'), Split(b, '/'));
  }

  lemma {:induction false} ProperOne(part: string)
    requires part in {"", "."}
    ensures Proper(Split(part, '/')) == []
  {
    SplitOne(part, '/');
    assert [part][1..] == [];
  }

  lemma {:induction false} NothingBetween(a: string, part: string, b: string)
    requires part in {"", "."}
    ensures Proper(Split(a + "/" + part + "/" + b, '/')) == Proper(Split(a + "/" + b, '/'))
  {
    hide Split, Proper;
    ProperOne(part);
    SlashBetween(a + "/" + part, b);
    SlashBetween(a, part);
    SlashBetween(a, b);
  }

  lemma {:induction false} NothingOutside(s: string)
    ensures Proper(Split("/" + s, '/')) == Proper(Split(s + "/", '/')) == Proper(Split(s, '/'))
  {
    hide Split, Proper;
    ProperOne("");
    SlashBetween("", s);
    SlashBetween(s, "");
    assert "" + "/" + s == "/" + s && s + "/" + "" == s + "/";
  }

  lemma {:induction false} RootNamespaces()
    ensures Spells("", [""]) && Proper([""]) == []
    ensures Spells(".", ["."]) && Proper(["."]) == []
  {
    assert [""][1..] == [] && ["."][1..] == [];
  }

  // ---------- where the declaration is found ----------

  // e is what d declares under the names of the path, one namespace inside the other.
  ghost predicate Leads(d: Decl, path: seq<string>, e: Decl)
    decreases |path|
  {
    if path == [] then e == d
    else exists i :: 0 <= i < |d.children| && d.children[i].name == path[0] && Leads(d.children[i].decl, path[1..], e)
  }

  lemma {:induction false} LeadsOn(d: Decl, path: seq<string>, e: Decl) returns (i: nat)
    requires Leads(d, path, e) && path != []
    ensures i < |d.children| && d.children[i].name == path[0] && Leads(d.children[i].decl, path[1..], e)
  {
    i :| 0 <= i < |d.children| && d.children[i].name == path[0] && Leads(d.children[i].decl, path[1..], e);
  }

  lemma {:induction false} LeadsBy(d: Decl, path: seq<string>, e: Decl, i: nat)
    requires path != [] && i < |d.children| && d.children[i].name == path[0] && Leads(d.children[i].decl, path[1..], e)
    ensures Leads(d, path, e)
  {
  }

  lemma {:induction false} RendersChild(contents: Contents, p: Path, d: Decl, k: string)
    requires Renders(contents, p, d)
    ensures forall i :: 0 <= i < |d.children| ==> Renders(contents, p + [d.children[i].name], d.children[i].decl)
    ensures p + [k] in contents ==> exists i :: 0 <= i < |d.children| && d.children[i].name == k
  {
    hide Arranged, StrictlySorted;
    if p + [k] in contents {
      var names := ChildNames(d.children);
      assert k in names;
      var i :| 0 <= i < |names| && names[i] == k;
    }
  }

  lemma {:induction false} RenderedAt(contents: Contents, p: Path, d: Decl, path: seq<string>, e: Decl)
    requires Renders(contents, p, d) && Leads(d, path, e)
    ensures Renders(contents, p + path, e)
    decreases |path|
  {
    hide Renders;
    if path == [] {
      assert p + path == p;
    } else {
      hide Leads;
      var i := LeadsOn(d, path, e);
      RendersChild(contents, p, d, path[0]);
      RenderedAt(contents, p + [path[0]], d.children[i].decl, path[1..], e);
      assert p + [path[0]] + path[1..] == p + path;
    }
  }

  lemma {:induction false} WayTo(contents: Contents, manifest: seq<Bundle>, p: Path, d: Decl, path: seq<string>) returns (e: Decl)
    requires Holds(contents, manifest) && Renders(contents, p, d) && p + path in contents
    ensures Leads(d, path, e)
    decreases |path|
  {
    hide Renders, Holds;
    if path == [] {
      e := d;
    } else {
      hide Leads;
      PrefixHeld(contents, manifest, p + path, |p| + 1);
      assert (p + path)[..|p| + 1] == p + [path[0]];
      RendersChild(contents, p, d, path[0]);
      var i :| 0 <= i < |d.children| && d.children[i].name == path[0];
      assert p + [path[0]] + path[1..] == p + path;
      e := WayTo(contents, manifest, p + [path[0]], d.children[i].decl, path[1..]);
      LeadsBy(d, path, e, i);
    }
  }

  lemma {:induction false} PrefixHeld(contents: Contents, manifest: seq<Bundle>, p: Path, n: nat)
    requires Holds(contents, manifest) && p in contents && n <= |p|
    ensures p[..n] in contents
  {
    hide IsPublicLogic, PathOf, At;
    assert InTree(manifest, p);
    if n > 0 {
      var i :| 0 <= i < |manifest| && IsPublicLogic(manifest[i]) && IsPrefix(p, PathOf(manifest[i]));
      assert p[..n] <= p;
      assert IsPrefix(p[..n], PathOf(manifest[i]));
    }
    assert InTree(manifest, p[..n]);
  }

  // Every such bundle is declared, with its parameters, in the namespaces its text spells.
  lemma {:induction false} DeclaredThere(manifest: seq<Bundle>, d: Decl, b: Bundle, parts: seq<string>) returns (e: Decl)
    requires DeclaredBy(manifest, d) && b in manifest && IsDeclared(b) && Spells(b.namespace, parts)
    ensures Leads(d, Proper(parts), e) && Fn(b.name, ParamsOf(b)) in e.fns
  {
    hide Holds, Renders, IsDeclared, Spells, Proper, ParamsOf, Leads;
    var contents :| Holds(contents, manifest) && Renders(contents, [], d);
    var path := Proper(parts);
    AtItsPath(contents, manifest, b, parts);
    assert [] + path == path;
    e := WayTo(contents, manifest, [], d, path);
    RenderedAt(contents, [], d, path, e);
    assert b in multiset(manifest);
    assert b in multiset(contents[path]);
    FnOfBundle(contents, path, e, b);
  }

  lemma {:induction false} FnOfBundle(contents: Contents, p: Path, e: Decl, b: Bundle)
    requires Renders(contents, p, e) && b in contents[p]
    ensures Fn(b.name, ParamsOf(b)) in e.fns
  {
    hide Sorted, StrictlySorted, ParamsOf;
    var arranged :| Arranged(arranged, contents[p]) && e.fns == FnsOf(arranged);
    assert b in multiset(contents[p]) && b in multiset(arranged);
    var i :| 0 <= i < |arranged| && arranged[i] == b;
    assert e.fns[i] == Fn(b.name, ParamsOf(b));
  }

  // Nothing else is declared anywhere.
  lemma {:induction false} DeclaredOnlyThere(manifest: seq<Bundle>, d: Decl, path: seq<string>, e: Decl, f: Fn) returns (b: Bundle)
    requires DeclaredBy(manifest, d) && Leads(d, path, e) && f in e.fns
    ensures b in manifest && IsDeclared(b) && f == Fn(b.name, ParamsOf(b))
    ensures forall parts :: Spells(b.namespace, parts) ==> path == Proper(parts)
  {
    hide Leads, IsDeclared, Spells, Proper, ParamsOf, IsPublicLogic, PathOf, StrictlySorted, Sorted, At, InTree;
    var contents :| Holds(contents, manifest) && Renders(contents, [], d);
    RenderedAt(contents, [], d, path, e);
    assert [] + path == path;
    var arranged :| Arranged(arranged, contents[path]) && e.fns == FnsOf(arranged);
    hide Renders;
    var i :| 0 <= i < |e.fns| && e.fns[i] == f;
    b := arranged[i];
    assert b in multiset(arranged) && b in multiset(contents[path]) && b in contents[path];
    AtElements(manifest, path);
    DeclaredIsPublic(b);
    forall parts | Spells(b.namespace, parts) ensures path == Proper(parts) {
      PathIs(b, parts);
    }
  }

  // ---------- the parameters ----------

  ghost predicate IsTypeOf(tsType: string, typ: string) {
    && (typ == "string" ==> tsType == "string")
    && (typ == "int" ==> tsType == "number")
    && (typ == "bool" ==> tsType == "boolean")
    && (typ != "string" && typ != "int" && typ != "bool" ==> tsType == "any")
  }

  // The parameters declared for a bundle, by name, each once: those its config gives as
  // objects, optional unless required, with the type's name in TypeScript.
  lemma {:induction false} ParamsAre(b: Bundle)
    ensures forall i, j :: 0 <= i < j < |ParamsOf(b)| ==> Less(CodePoints, ParamsOf(b)[i].name, ParamsOf(b)[j].name)
    ensures forall p :: p in ParamsOf(b) <==>
              && b.params.Some? && p.name in b.params.value && b.params.value[p.name].ParamConfig?
              && p.optional == !b.params.value[p.name].required && IsTypeOf(p.tsType, b.params.value[p.name].typ)
  {
    if b.params.Some? {
      var params := b.params.value;
      var keys := SortedKeys(CodePoints, params.Keys);
      assert forall k :: k in keys <==> k in Elements(keys);
      ParamListIs(params, keys);
    }
  }

  lemma {:induction false} ParamListIs(params: map<string, ParamConfig>, keys: seq<string>)
    requires StrictlySorted(CodePoints, keys) && forall k :: k in keys ==> k in params
    ensures var ps := ParamList(params, keys);
            && (forall i, j :: 0 <= i < j < |ps| ==> Less(CodePoints, ps[i].name, ps[j].name))
            && (forall p :: p in ps <==>
                  && p.name in keys && params[p.name].ParamConfig?
                  && p.optional == !params[p.name].required && IsTypeOf(p.tsType, params[p.name].typ))
  {
    hide Less;
    if keys != [] {
      var front, last := keys[..|keys| - 1], keys[|keys| - 1];
      ParamListIs(params, front);
      if params[last].ParamConfig? {
        TypeIs(params[last]);
      }
      assert keys == front + [last];
      assert forall k :: k in front ==> Less(CodePoints, k, last);
      hide TsType, IsTypeOf, StrictlySorted;
      assert forall p :: p in ParamList(params, front) ==> p.name in front;
    }
  }

  lemma {:induction false} TypeIs(config: ParamConfig)
    requires config.ParamConfig?
    ensures forall t :: IsTypeOf(t, config.typ) <==> t == TsType(config.typ)
  {
  }

  // ---------- in the generated text ----------

  // For identifier names the generated text, read back, declares every such bundle at
  // the namespaces its text spells ...
  lemma {:induction false} GeneratedThere(manifest: seq<Bundle>, text: string, b: Bundle, parts: seq<string>) returns (e: Decl)
    requires IsGenerated(manifest, text) && Identifiers(manifest)
    requires b in manifest && IsDeclared(b) && Spells(b.namespace, parts)
    ensures ParseFile(text).Some? && Leads(ParseFile(text).value, Proper(parts), e) && Fn(b.name, ParamsOf(b)) in e.fns
  {
    hide *;
    GeneratedFileParses(manifest, text);
    e := DeclaredThere(manifest, ParseFile(text).value, b, parts);
  }

  // ... and nothing else.
  lemma {:induction false} GeneratedOnlyThere(manifest: seq<Bundle>, text: string, path: seq<string>, e: Decl, f: Fn) returns (b: Bundle)
    requires IsGenerated(manifest, text) && Identifiers(manifest)
    requires ParseFile(text).Some? && Leads(ParseFile(text).value, path, e) && f in e.fns
    ensures b in manifest && IsDeclared(b) && f == Fn(b.name, ParamsOf(b))
    ensures forall parts :: Spells(b.namespace, parts) ==> path == Proper(parts)
  {
    hide *;
    GeneratedFileParses(manifest, text);
    b := DeclaredOnlyThere(manifest, ParseFile(text).value, path, e, f);
  }
}
