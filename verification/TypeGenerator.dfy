// types.go: bundles are inserted into a namespace trie on the heap, which is then
// printed recursively, sorting bundles, parameters and child names on the way.
module TypeGenerator {
  import opened Text
  import opened Order
  import opened Lexer
  import opened TypeDecls

  // A params entry that is no object is skipped; a missing type reads as "".
  datatype ParamConfig = NotAnObject | ParamConfig(typ: string, required: bool)

  datatype Bundle = Bundle(kind: string, namespace: string, name: string, params: Option<map<string, ParamConfig>>)

  type Path = seq<string>

  predicate IsPrefix(p: Path, q: Path) {
    p <= q
  }

  predicate IsPublicLogic(b: Bundle) {
    (b.kind == "logic" || b.kind == "js" || b.kind == "sql") && !("_" <= b.name)
  }

  predicate IsSlash(c: char) {
    c == '/'
  }

  function NamespaceParts(namespace: string): seq<string> {
    var ns := TrimRight(TrimLeft(namespace, IsSlash), IsSlash);
    if ns != "" && ns != "." then Split(ns, '/') else []
  }

  // The parts that are visited: empty ones and dots are skipped.
  function Visited(parts: seq<string>): Path {
    if parts == [] then []
    else
      var last := parts[|parts| - 1];
      Visited(parts[..|parts| - 1]) + (if last == "" || last == "." then [] else [last])
  }

  function PathOf(b: Bundle): Path {
    Visited(NamespaceParts(b.namespace))
  }

  // ---------- what the trie must hold ----------

  // The public logic bundles of one namespace, in manifest order.
  function At(manifest: seq<Bundle>, p: Path): seq<Bundle> {
    if manifest == [] then []
    else
      var b := manifest[|manifest| - 1];
      At(manifest[..|manifest| - 1], p) + (if IsPublicLogic(b) && PathOf(b) == p then [b] else [])
  }

  // The root and every namespace on the way to a public logic bundle.
  ghost predicate InTree(manifest: seq<Bundle>, p: Path) {
    p == [] || exists i :: 0 <= i < |manifest| && IsPublicLogic(manifest[i]) && IsPrefix(p, PathOf(manifest[i]))
  }

  type Contents = map<Path, seq<Bundle>>

  // Every public logic bundle sits at the node of its namespace, as often as the
  // manifest has it, and nothing else is in the tree.
  ghost predicate Holds(contents: Contents, manifest: seq<Bundle>) {
    && (forall p :: p in contents <==> InTree(manifest, p))
    && (forall p :: p in contents ==> contents[p] == At(manifest, p))
  }

  // ---------- the trie on the heap ----------

  class NamespaceNode {
    var children: map<string, NamespaceNode>
    var bundles: seq<Bundle>

    constructor ()
      ensures children == map[] && bundles == []
    {
      children := map[];
      bundles := [];
    }
  }

  type Nodes = map<Path, NamespaceNode>

  // nodes lists the trie by path: a child is the node one part further, distinct
  // paths are distinct objects, and paths are closed under prefix.
  ghost predicate Trie(nodes: Nodes)
    reads nodes.Values`children
  {
    && [] in nodes
    && (forall p, q :: p in nodes && q in nodes && nodes[p] == nodes[q] ==> p == q)
    && (forall p, k :: p in nodes ==> (k in nodes[p].children <==> p + [k] in nodes))
    && (forall p, k :: p in nodes && k in nodes[p].children ==> nodes[p].children[k] == nodes[p + [k]])
    && (forall p :: p in nodes && p != [] ==> p[..|p| - 1] in nodes)
  }

  ghost function ContentsOf(nodes: Nodes): (c: Contents)
    reads nodes.Values`bundles
    ensures c.Keys == nodes.Keys
    ensures forall p :: p in nodes ==> c[p] == nodes[p].bundles
  {
    map p | p in nodes :: nodes[p].bundles
  }

  lemma {:induction false} InTreeMore(manifest: seq<Bundle>, b: Bundle, p: Path)
    ensures InTree(manifest + [b], p) <==> InTree(manifest, p) || (IsPublicLogic(b) && IsPrefix(p, PathOf(b)))
  {
    hide IsPublicLogic, PathOf, IsPrefix;
    var m := manifest + [b];
    assert m[|manifest|] == b;
    assert forall i :: 0 <= i < |manifest| ==> m[i] == manifest[i];
    if IsPublicLogic(b) && IsPrefix(p, PathOf(b)) {
      assert IsPublicLogic(m[|manifest|]) && IsPrefix(p, PathOf(m[|manifest|]));
    }
    if p != [] && InTree(manifest, p) {
      var i :| 0 <= i < |manifest| && IsPublicLogic(manifest[i]) && IsPrefix(p, PathOf(manifest[i]));
      assert IsPublicLogic(m[i]) && IsPrefix(p, PathOf(m[i]));
    }
    if p != [] && InTree(m, p) {
      var i :| 0 <= i < |m| && IsPublicLogic(m[i]) && IsPrefix(p, PathOf(m[i]));
      assert i < |manifest| ==> IsPublicLogic(manifest[i]) && IsPrefix(p, PathOf(manifest[i]));
    }
  }

  lemma {:induction false} AtMore(manifest: seq<Bundle>, b: Bundle, p: Path)
    ensures At(manifest + [b], p) == At(manifest, p) + (if IsPublicLogic(b) && PathOf(b) == p then [b] else [])
  {
    assert (manifest + [b])[..|manifest|] == manifest;
  }

  lemma {:induction false} HoldsMore(manifest: seq<Bundle>, b: Bundle, c: Contents, d: Contents)
    requires Holds(c, manifest) && IsPublicLogic(b)
    requires forall p :: p in d <==> p in c || IsPrefix(p, PathOf(b))
    requires forall p :: p in d ==> d[p] == (if p in c then c[p] else []) + (if p == PathOf(b) then [b] else [])
    ensures Holds(d, manifest + [b])
  {
    hide IsPublicLogic, PathOf, IsPrefix, InTree, At;
    forall p ensures p in d <==> InTree(manifest + [b], p) {
      InTreeMore(manifest, b, p);
    }
    forall p | p in d ensures d[p] == At(manifest + [b], p) {
      AtMore(manifest, b, p);
      if p !in c {
        NotInTreeEmpty(manifest, p);
      }
    }
  }

  lemma {:induction false} NotInTreeEmpty(manifest: seq<Bundle>, p: Path)
    requires !InTree(manifest, p)
    ensures At(manifest, p) == []
  {
    if manifest != [] {
      var front := manifest[..|manifest| - 1];
      forall i | 0 <= i < |front| ensures !(IsPublicLogic(front[i]) && IsPrefix(p, PathOf(front[i]))) {
        assert front[i] == manifest[i];
      }
      NotInTreeEmpty(front, p);
    }
  }

  lemma {:induction false} HoldsSkipped(manifest: seq<Bundle>, b: Bundle, c: Contents)
    requires Holds(c, manifest) && !IsPublicLogic(b)
    ensures Holds(c, manifest + [b])
  {
    hide IsPublicLogic, PathOf, IsPrefix, InTree, At;
    forall p ensures p in c <==> InTree(manifest + [b], p) {
      InTreeMore(manifest, b, p);
    }
    forall p | p in c ensures c[p] == At(manifest + [b], p) {
      AtMore(manifest, b, p);
    }
  }

  method AddChild(current: NamespaceNode, part: string, ghost nodes: Nodes, ghost path: Path)
    returns (child: NamespaceNode, ghost grown: Nodes)
    requires Trie(nodes) && path in nodes && current == nodes[path] && part !in current.children
    modifies current`children
    ensures fresh(child) && child.bundles == []
    ensures grown == nodes[path + [part] := child] && path + [part] !in nodes
    ensures Trie(grown)
  {
    child := new NamespaceNode();
    current.children := current.children[part := child];
    grown := nodes[path + [part] := child];
    forall p, k | p in grown
      ensures k in grown[p].children <==> p + [k] in grown
      ensures k in grown[p].children ==> grown[p].children[k] == grown[p + [k]]
    {
      if p == path + [part] {
        assert |p + [k]| == |p| + 1 && (p + [k])[..|p + [k]| - 1] == p;
      } else if p + [k] == path + [part] {
        assert p == (p + [k])[..|p|] && path == (path + [part])[..|path|];
        assert k == (p + [k])[|p|] == part;
      }
    }
    assert (path + [part])[..|path + [part]| - 1] == path;
  }

  lemma {:induction false} PrefixesOfNext(path: Path, part: string, p: Path)
    ensures IsPrefix(p, path + [part]) <==> IsPrefix(p, path) || p == path + [part]
  {
    var next := path + [part];
    assert |p| <= |path| ==> next[..|p|] == path[..|p|];
    assert next[..|next|] == next;
  }

  lemma {:induction false} ChildAt(nodes: Nodes, p: Path, k: string)
    requires Trie(nodes) && p in nodes
    ensures k in nodes[p].children <==> p + [k] in nodes
    ensures k in nodes[p].children ==> nodes[p].children[k] == nodes[p + [k]]
  {
  }

  // One step down, creating the node if it is missing.
  method Enter(current: NamespaceNode, part: string, ghost nodes: Nodes, ghost path: Path)
    returns (child: NamespaceNode, ghost grown: Nodes)
    requires Trie(nodes) && path in nodes && current == nodes[path]
    modifies current`children
    ensures Trie(grown) && path + [part] in grown && child == grown[path + [part]]
    ensures forall p :: p in nodes ==> p in grown && grown[p] == nodes[p]
    ensures forall p :: p in grown <==> p in nodes || p == path + [part]
    ensures forall p :: p in grown && p !in nodes ==> fresh(grown[p]) && grown[p].bundles == []
  {
    hide Trie;
    ChildAt(nodes, path, part);
    if part in current.children {
      child, grown := current.children[part], nodes;
    } else {
      child, grown := AddChild(current, part, nodes, path);
    }
  }

  lemma {:induction false} VisitedMore(parts: seq<string>, i: nat)
    requires i < |parts|
    ensures Visited(parts[..i + 1]) ==
            Visited(parts[..i]) + (if parts[i] == "" || parts[i] == "." then [] else [parts[i]])
  {
    assert parts[..i + 1][..i] == parts[..i];
  }

  // grown is nodes with the missing nodes on the way to path added.
  ghost predicate Extends(grown: Nodes, nodes: Nodes, path: Path) {
    && (forall p :: p in nodes ==> p in grown && grown[p] == nodes[p])
    && (forall p :: p in grown <==> p in nodes || IsPrefix(p, path))
  }

  lemma {:induction false} ExtendsSelf(nodes: Nodes)
    requires [] in nodes
    ensures Extends(nodes, nodes, [])
  {
    PrefixesOfRoot();
  }

  lemma {:induction false} ExtendsMore(more: Nodes, grown: Nodes, nodes: Nodes, path: Path, part: string)
    requires Extends(grown, nodes, path)
    requires forall p :: p in grown ==> p in more && more[p] == grown[p]
    requires forall p :: p in more <==> p in grown || p == path + [part]
    ensures Extends(more, nodes, path + [part])
  {
    hide IsPrefix;
    forall p ensures p in more <==> p in nodes || IsPrefix(p, path + [part]) {
      PrefixesOfNext(path, part, p);
    }
  }

  // Walks down from the root, creating missing nodes; returns the last one.
  method Descend(root: NamespaceNode, parts: seq<string>, ghost nodes: Nodes)
    returns (current: NamespaceNode, ghost grown: Nodes)
    requires Trie(nodes) && [] in nodes && root == nodes[[]]
    modifies nodes.Values`children
    ensures Trie(grown) && Extends(grown, nodes, Visited(parts))
    ensures forall p :: p in grown && p !in nodes ==> fresh(grown[p]) && grown[p].bundles == []
    ensures Visited(parts) in grown && current == grown[Visited(parts)]
  {
    assert Visited(parts[..0]) == [];
    hide Trie, Visited, Extends, IsPrefix;
    current, grown := root, nodes;
    ghost var path: Path := [];
    ExtendsSelf(nodes);
    for i := 0 to |parts|
      invariant path == Visited(parts[..i])
      invariant Trie(grown) && path in grown && current == grown[path]
      invariant Extends(grown, nodes, path)
      invariant current in nodes.Values || fresh(current)
      invariant forall p :: p in grown && p !in nodes ==> fresh(grown[p]) && grown[p].bundles == []
    {
      var part := parts[i];
      VisitedMore(parts, i);
      if part == "" || part == "." {
        continue;
      }
      ghost var before := grown;
      current, grown := Enter(current, part, before, path);
      ExtendsMore(grown, before, nodes, path, part);
      if path + [part] in nodes {
        ExtendsValue(grown, nodes, path + [part]);
      }
      path := path + [part];
    }
    assert parts[..|parts|] == parts;
  }

  lemma {:induction false} ExtendsValue(grown: Nodes, nodes: Nodes, path: Path)
    requires Extends(grown, nodes, path) && path in nodes
    ensures path in grown && grown[path] in nodes.Values
  {
    assert nodes[path] in nodes.Values;
  }

  lemma {:induction false} PrefixesOfRoot()
    ensures forall p :: IsPrefix(p, []) <==> p == []
  {
  }

  lemma {:induction false} HoldsNothing(c: Contents)
    requires c == map[[] := []]
    ensures Holds(c, [])
  {
  }

  method NewRoot() returns (root: NamespaceNode, ghost nodes: Nodes)
    ensures fresh(root) && nodes == map[[] := root] && Trie(nodes) && Holds(ContentsOf(nodes), [])
  {
    root := new NamespaceNode();
    nodes := map[[] := root];
    HoldsNothing(ContentsOf(nodes));
    hide Holds;
  }

  method BuildTrie(manifest: seq<Bundle>) returns (root: NamespaceNode, ghost nodes: Nodes)
    ensures Trie(nodes) && root == nodes[[]] && (forall p :: p in nodes ==> fresh(nodes[p]))
    ensures Holds(ContentsOf(nodes), manifest)
  {
    hide Holds, IsPublicLogic, PathOf, IsPrefix, Trie;
    root, nodes := NewRoot();
    assert manifest[..0] == [];
    for i := 0 to |manifest|
      invariant Trie(nodes) && [] in nodes && root == nodes[[]] && (forall p :: p in nodes ==> fresh(nodes[p]))
      invariant Holds(ContentsOf(nodes), manifest[..i])
    {
      var b := manifest[i];
      assert manifest[..i + 1] == manifest[..i] + [b];
      if !IsPublicLogic(b) {
        HoldsSkipped(manifest[..i], b, ContentsOf(nodes));
        continue;
      }
      nodes := InsertBundle(root, b, nodes, manifest[..i]);
    }
    assert manifest[..|manifest|] == manifest;
  }

  // The contents of the trie once b is appended to its node.
  lemma {:induction false} AppendedContents(before: Contents, grown: Contents, path: Path, b: Bundle)
    requires path in grown && before.Keys <= grown.Keys
    requires forall p :: p in grown <==> p in before || IsPrefix(p, path)
    requires forall p :: p in before ==> grown[p] == before[p]
    requires forall p :: p in grown && p !in before ==> grown[p] == []
    ensures var after := grown[path := grown[path] + [b]];
            forall p :: p in after ==> after[p] == (if p in before then before[p] else []) + (if p == path then [b] else [])
  {
    hide IsPrefix;
  }

  lemma {:induction false} PathIsVisited(b: Bundle)
    ensures PathOf(b) == Visited(NamespaceParts(b.namespace))
  {
  }

  method InsertBundle(root: NamespaceNode, b: Bundle, ghost nodes: Nodes, ghost before: seq<Bundle>)
    returns (ghost grown: Nodes)
    requires Trie(nodes) && [] in nodes && root == nodes[[]] && IsPublicLogic(b) && Holds(ContentsOf(nodes), before)
    modifies nodes.Values
    ensures Trie(grown) && [] in grown && root == grown[[]] && (forall p :: p in grown ==> (p in nodes && grown[p] == nodes[p]) || fresh(grown[p]))
    ensures Holds(ContentsOf(grown), before + [b])
  {
    hide Holds, IsPublicLogic, IsPrefix, Visited, NamespaceParts, Trie;
    hide PathOf;
    var parts := NamespaceParts(b.namespace);
    PathIsVisited(b);
    ghost var c := ContentsOf(nodes);
    var current: NamespaceNode;
    current, grown := Descend(root, parts, nodes);
    ghost var middle := ContentsOf(grown);
    NodesDistinct(grown, PathOf(b));
    AppendedContents(c, middle, PathOf(b), b);
    current.bundles := current.bundles + [b];
    assert ContentsOf(grown) == middle[PathOf(b) := middle[PathOf(b)] + [b]];
    HoldsMore(before, b, c, ContentsOf(grown));
  }

  // ---------- what is printed ----------

  function TsType(typ: string): string {
    if typ == "string" then "string"
    else if typ == "int" then "number"
    else if typ == "bool" then "boolean"
    else "any"
  }

  function ParamFor(name: string, config: ParamConfig): seq<Param> {
    if config.NotAnObject? then [] else [Param(name, !config.required, TsType(config.typ))]
  }

  // The parameters in the order of the given keys.
  function ParamList(params: map<string, ParamConfig>, keys: seq<string>): seq<Param>
    requires forall k :: k in keys ==> k in params
  {
    if keys == [] then []
    else
      var k := keys[|keys| - 1];
      ParamList(params, keys[..|keys| - 1]) + ParamFor(k, params[k])
  }

  ghost function ParamsOf(b: Bundle): seq<Param> {
    if b.params.None? then [] else ParamList(b.params.value, SortedKeys(CodePoints, b.params.value.Keys))
  }

  ghost function FnsOf(bundles: seq<Bundle>): (r: seq<Fn>)
    ensures |r| == |bundles| && forall i :: 0 <= i < |r| ==> r[i] == Fn(bundles[i].name, ParamsOf(bundles[i]))
  {
    if bundles == [] then [] else FnsOf(bundles[..|bundles| - 1]) + [Fn(bundles[|bundles| - 1].name, ParamsOf(bundles[|bundles| - 1]))]
  }

  function Names(bundles: seq<Bundle>): (r: seq<string>)
    ensures |r| == |bundles| && forall i :: 0 <= i < |r| ==> r[i] == bundles[i].name
  {
    seq(|bundles|, i requires 0 <= i < |bundles| => bundles[i].name)
  }

  // The bundles sorted by name; how equal names are ordered is not determined.
  ghost predicate Arranged(arranged: seq<Bundle>, bundles: seq<Bundle>) {
    multiset(arranged) == multiset(bundles) && Sorted(CodePoints, Names(arranged))
  }

  function ChildNames(children: seq<Child>): (r: seq<string>)
    ensures |r| == |children| && forall i :: 0 <= i < |r| ==> r[i] == children[i].name
  {
    seq(|children|, i requires 0 <= i < |children| => children[i].name)
  }

  // d declares what the tree holds from p down: its bundles sorted by name, then
  // its child namespaces sorted by name.
  ghost predicate Renders(contents: Contents, p: Path, d: Decl)
    decreases d
  {
    && p in contents
    && (exists arranged :: Arranged(arranged, contents[p]) && d.fns == FnsOf(arranged))
    && StrictlySorted(CodePoints, ChildNames(d.children))
    && (forall k :: k in ChildNames(d.children) <==> p + [k] in contents)
    && (forall i :: 0 <= i < |d.children| ==> Renders(contents, p + [d.children[i].name], d.children[i].decl))
  }

  // Only what lies at or below p matters.
  lemma {:induction false} RendersFrame(c1: Contents, c2: Contents, p: Path, d: Decl)
    requires Renders(c1, p, d) && c1.Keys == c2.Keys
    requires forall q :: q in c1 && IsPrefix(p, q) ==> c2[q] == c1[q]
    ensures Renders(c2, p, d)
    decreases d
  {
    assert IsPrefix(p, p);
    forall i | 0 <= i < |d.children| ensures Renders(c2, p + [d.children[i].name], d.children[i].decl) {
      forall q | q in c1 && IsPrefix(p + [d.children[i].name], q) ensures IsPrefix(p, q) {
        assert p <= p + [d.children[i].name];
      }
      RendersFrame(c1, c2, p + [d.children[i].name], d.children[i].decl);
    }
  }

  lemma {:induction false} ParamsTextAppend(params: seq<Param>, more: seq<Param>, indent: nat)
    ensures ParamsText(params + more, indent) == ParamsText(params, indent) + ParamsText(more, indent)
  {
    hide ParamText;
    if params == [] {
      assert params + more == more;
    } else {
      ParamsTextAppend(params[1..], more, indent);
      assert (params + more)[1..] == params[1..] + more;
    }
  }

  lemma {:induction false} FnsTextAppend(fns: seq<Fn>, f: Fn, indent: nat)
    ensures FnsText(fns + [f], indent) == FnsText(fns, indent) + FnText(f, indent)
  {
    hide FnText;
    if fns == [] {
      assert fns + [f] == [f];
    } else {
      FnsTextAppend(fns[1..], f, indent);
      assert (fns + [f])[1..] == fns[1..] + [f];
    }
  }

  lemma {:induction false} ChildrenTextAppend(children: seq<Child>, c: Child, indent: nat)
    ensures ChildrenText(children + [c], indent) == ChildrenText(children, indent) + ChildText(c, indent)
    decreases |children|
  {
    hide ChildText;
    if children == [] {
      assert children + [c] == [c];
    } else {
      ChildrenTextAppend(children[1..], c, indent);
      assert (children + [c])[1..] == children[1..] + [c];
    }
  }

  // ---------- printing ----------

  class StringBuilder {
    var text: string

    constructor ()
      ensures text == ""
    {
      text := "";
    }

    method WriteString(s: string)
      modifies this
      ensures text == old(text) + s
    {
      text := text + s;
    }
  }

  function InsertByName(b: Bundle, s: seq<Bundle>): (r: seq<Bundle>)
    ensures multiset(r) == multiset(s) + multiset{b}
  {
    if s == [] || Leq(CodePoints, b.name, s[0].name) then [b] + s
    else
      assert s == [s[0]] + s[1..];
      [s[0]] + InsertByName(b, s[1..])
  }

  lemma {:induction false} InsertByNameSorts(b: Bundle, s: seq<Bundle>)
    requires Sorted(CodePoints, Names(s))
    ensures Sorted(CodePoints, Names(InsertByName(b, s)))
  {
    hide Sorted, Insert, InsertByName;
    InsertByNameNames(b, s);
    InsertSorted(CodePoints, b.name, Names(s));
  }

  lemma {:induction false} NamesCons(b: Bundle, s: seq<Bundle>)
    ensures Names([b] + s) == [b.name] + Names(s)
  {
  }

  lemma {:induction false} InsertByNameNames(b: Bundle, s: seq<Bundle>)
    ensures Names(InsertByName(b, s)) == Insert(CodePoints, b.name, Names(s))
  {
    hide Leq, Names;
    if s == [] || Leq(CodePoints, b.name, s[0].name) {
      NamesCons(b, s);
    } else {
      InsertByNameNames(b, s[1..]);
      NamesCons(s[0], s[1..]);
      NamesCons(s[0], InsertByName(b, s[1..]));
      assert s == [s[0]] + s[1..];
      assert Names(s)[1..] == Names(s[1..]);
    }
  }

  // sort.Slice by name.
  method SortBundles(node: NamespaceNode)
    modifies node`bundles
    ensures Arranged(node.bundles, old(node.bundles))
  {
    assert Sorted(CodePoints, Names([]));
    hide Sorted, InsertByName, Names;
    var sorted: seq<Bundle> := [];
    var bundles := node.bundles;
    for i := 0 to |bundles|
      invariant multiset(sorted) == multiset(bundles[..i]) && Sorted(CodePoints, Names(sorted))
    {
      InsertByNameSorts(bundles[i], sorted);
      assert bundles[..i + 1] == bundles[..i] + [bundles[i]];
      sorted := InsertByName(bundles[i], sorted);
    }
    assert bundles[..|bundles|] == bundles;
    node.bundles := sorted;
  }

  lemma {:induction false} EmptyTexts(indent: nat)
    ensures ParamsText([], indent) == "" && FnsText([], indent) == "" && ChildrenText([], indent) == ""
  {
  }

  method WriteParam(sb: StringBuilder, name: string, config: ParamConfig, indent: nat)
    modifies sb
    ensures sb.text == old(sb.text) + ParamsText(ParamFor(name, config), indent)
  {
    if config.ParamConfig? {
      var p := Param(name, !config.required, TsType(config.typ));
      sb.WriteString(ParamText(p, indent));
      assert ParamFor(name, config)[1..] == [];
    }
  }

  lemma {:induction false} ParamListStep(params: map<string, ParamConfig>, keys: seq<string>, i: nat)
    requires i < |keys| && forall k :: k in keys ==> k in params
    ensures ParamList(params, keys[..i + 1]) == ParamList(params, keys[..i]) + ParamFor(keys[i], params[keys[i]])
  {
    assert keys[..i + 1][..i] == keys[..i];
  }

  // The text of the parameters up to i, and of the next one.
  function ParamsSoFar(params: map<string, ParamConfig>, keys: seq<string>, i: nat, indent: nat): string
    requires i <= |keys| && forall k :: k in keys ==> k in params
  {
    ParamsText(ParamList(params, keys[..i]), indent)
  }

  lemma {:induction false} ParamsSoFarStep(params: map<string, ParamConfig>, keys: seq<string>, i: nat, indent: nat)
    requires i < |keys| && forall k :: k in keys ==> k in params
    ensures ParamsSoFar(params, keys, i + 1, indent) ==
            ParamsSoFar(params, keys, i, indent) + ParamsText(ParamFor(keys[i], params[keys[i]]), indent)
  {
    hide ParamFor, ParamsText, ParamList;
    ParamListStep(params, keys, i);
    ParamsTextAppend(ParamList(params, keys[..i]), ParamFor(keys[i], params[keys[i]]), indent);
  }

  lemma {:induction false} ParamsSoFarEnds(params: map<string, ParamConfig>, keys: seq<string>, indent: nat)
    requires forall k :: k in keys ==> k in params
    ensures ParamsSoFar(params, keys, 0, indent) == ""
    ensures ParamsSoFar(params, keys, |keys|, indent) == ParamsText(ParamList(params, keys), indent)
  {
    assert keys[..|keys|] == keys && keys[..0] == [];
  }

  method WriteParamList(sb: StringBuilder, params: map<string, ParamConfig>, keys: seq<string>, indent: nat)
    requires forall k :: k in keys ==> k in params
    modifies sb
    ensures sb.text == old(sb.text) + ParamsText(ParamList(params, keys), indent)
  {
    hide ParamFor, ParamsText, ParamList, ParamsSoFar;
    ParamsSoFarEnds(params, keys, indent);
    ghost var start := sb.text;
    for i := 0 to |keys|
      invariant sb.text == start + ParamsSoFar(params, keys, i, indent)
    {
      ParamsSoFarStep(params, keys, i, indent);
      WriteParam(sb, keys[i], params[keys[i]], indent);
    }
  }

  method WriteParams(sb: StringBuilder, b: Bundle, indent: nat)
    modifies sb
    ensures sb.text == old(sb.text) + ParamsText(ParamsOf(b), indent)
  {
    hide ParamText, ParamList, StrictlySorted;
    EmptyTexts(indent);
    if b.params.Some? {
      var keys := CollectSorted(CodePoints, b.params.value.Keys);
      assert forall k :: k in keys ==> k in Elements(keys);
      WriteParamList(sb, b.params.value, keys, indent);
    }
  }

  method WriteFn(sb: StringBuilder, b: Bundle, indent: nat)
    modifies sb
    ensures sb.text == old(sb.text) + FnText(Fn(b.name, ParamsOf(b)), indent)
  {
    hide ParamsText, ParamsOf, Pad;
    sb.WriteString(Pad(indent) + b.name + ": (params: {\n");
    WriteParams(sb, b, indent + 2);
    sb.WriteString(Pad(indent) + "}) => Promise<any>;\n");
  }

  method WriteBundles(sb: StringBuilder, bundles: seq<Bundle>, indent: nat)
    modifies sb
    ensures sb.text == old(sb.text) + FnsText(FnsOf(bundles), indent)
  {
    hide FnText, ParamsOf;
    for i := 0 to |bundles|
      invariant sb.text == old(sb.text) + FnsText(FnsOf(bundles[..i]), indent)
    {
      WriteFn(sb, bundles[i], indent);
      assert bundles[..i + 1][..i] == bundles[..i];
      FnsTextAppend(FnsOf(bundles[..i]), Fn(bundles[i].name, ParamsOf(bundles[i])), indent);
    }
    assert bundles[..|bundles|] == bundles;
  }

  ghost function Subtree(nodes: Nodes, p: Path): set<NamespaceNode> {
    set q | q in nodes && IsPrefix(p, q) :: nodes[q]
  }

  lemma {:induction false} SubtreesApart(nodes: Nodes, p: Path, k: string, q: Path)
    requires Trie(nodes) && q in nodes
    ensures nodes[q] in Subtree(nodes, p + [k]) <==> IsPrefix(p + [k], q)
    ensures IsPrefix(p + [k], q) ==> IsPrefix(p, q) && |q| > |p| && q[|p|] == k
    ensures Subtree(nodes, p + [k]) <= Subtree(nodes, p)
  {
    forall r | r in nodes && IsPrefix(p + [k], r) ensures IsPrefix(p, r) {
      assert p <= p + [k];
    }
    assert (p + [k])[|p|] == k && p == (p + [k])[..|p|];
    if IsPrefix(p + [k], q) {
      assert q[|p|] == (p + [k])[|p|] && p == q[..|p|];
    }
  }

  lemma {:induction false} AssembleRenders(contents: Contents, p: Path, arranged: seq<Bundle>, children: seq<Child>)
    requires p in contents && Arranged(arranged, contents[p])
    requires StrictlySorted(CodePoints, ChildNames(children))
    requires forall k :: k in ChildNames(children) <==> p + [k] in contents
    requires forall i :: 0 <= i < |children| ==> Renders(contents, p + [children[i].name], children[i].decl)
    ensures Renders(contents, p, Decl(FnsOf(arranged), children))
  {
    hide Arranged, StrictlySorted, FnsOf;
  }

  // Prints the subtree at p. d is the declaration that was printed.
  method WriteNamespace(sb: StringBuilder, node: NamespaceNode, indent: nat, ghost nodes: Nodes, ghost p: Path, ghost height: nat)
    returns (ghost d: Decl)
    requires Trie(nodes) && p in nodes && node == nodes[p] && forall q :: q in nodes ==> |q| <= height
    modifies sb, Subtree(nodes, p)`bundles
    ensures sb.text == old(sb.text) + DeclText(d, indent)
    ensures Renders(old(ContentsOf(nodes)), p, d)
    decreases height - |p|, 2
  {
    hide Trie, Arranged, Renders, StrictlySorted, FnsOf, FnsText, ChildrenText;
    ghost var contents := ContentsOf(nodes);
    assert IsPrefix(p, p);
    SortBundles(node);
    ghost var arranged := node.bundles;
    WriteBundles(sb, node.bundles, indent);
    NodesDistinct(nodes, p);
    ghost var children := WriteChildren(sb, node, indent, nodes, p, height, contents);
    AssembleRenders(contents, p, arranged, children);
    d := Decl(FnsOf(arranged), children);
  }

  lemma {:induction false} NodesDistinct(nodes: Nodes, p: Path)
    requires Trie(nodes) && p in nodes
    ensures forall q :: q in nodes && q != p ==> nodes[q] != nodes[p]
  {
  }

  method WriteChildren(sb: StringBuilder, node: NamespaceNode, indent: nat, ghost nodes: Nodes, ghost p: Path, ghost height: nat,
                       ghost contents: Contents)
    returns (ghost children: seq<Child>)
    requires Trie(nodes) && p in nodes && node == nodes[p] && forall q :: q in nodes ==> |q| <= height
    requires contents.Keys == nodes.Keys
    requires forall q :: q in nodes && q != p ==> contents[q] == nodes[q].bundles
    modifies sb, Subtree(nodes, p)`bundles
    ensures sb.text == old(sb.text) + ChildrenText(children, indent)
    ensures StrictlySorted(CodePoints, ChildNames(children))
    ensures forall k :: k in ChildNames(children) <==> p + [k] in contents
    ensures forall i :: 0 <= i < |children| ==> Renders(contents, p + [children[i].name], children[i].decl)
    decreases height - |p|, 1
  {
    hide Trie, Renders, ChildText, ChildrenText, IsPrefix, Subtree, Less, Leq;
    children := [];
    var names := CollectSorted(CodePoints, node.children.Keys);
    NamesDistinct(names);
    hide StrictlySorted;
    ChildKeys(nodes, p, names);
    EmptyTexts(indent);
    forall j, q | 0 <= j < |names| && q in nodes && IsPrefix(p + [names[j]], q) ensures q != p {
      SubtreesApart(nodes, p, names[j], q);
    }
    for i := 0 to |names|
      invariant sb.text == old(sb.text) + ChildrenText(children, indent)
      invariant |children| == i && ChildNames(children) == names[..i]
      invariant forall j :: 0 <= j < i ==> Renders(contents, p + [names[j]], children[j].decl)
      invariant forall j, q :: i <= j < |names| && q in nodes && IsPrefix(p + [names[j]], q) ==> contents[q] == nodes[q].bundles
    {
      SubtreesApart(nodes, p, names[i], p);
      forall j, q | i < j < |names| && q in nodes && IsPrefix(p + [names[j]], q)
        ensures nodes[q] !in Subtree(nodes, p + [names[i]])
      {
        SubtreesApart(nodes, p, names[i], q);
        SubtreesApart(nodes, p, names[j], q);
      }
      ghost var c := WriteChild(sb, node, names[i], indent, nodes, p, height, contents);
      ChildrenTextAppend(children, c, indent);
      children := children + [c];
    }
    assert names[..|names|] == names;
  }

  lemma {:induction false} NamesDistinct(names: seq<string>)
    requires StrictlySorted(CodePoints, names)
    ensures Distinct(names)
  {
  }

  lemma {:induction false} ChildKeys(nodes: Nodes, p: Path, names: seq<string>)
    requires Trie(nodes) && p in nodes && Elements(names) == nodes[p].children.Keys
    ensures forall k :: k in names <==> p + [k] in nodes
  {
    forall k ensures k in names <==> p + [k] in nodes {
      assert k in names <==> k in Elements(names);
      ChildAt(nodes, p, k);
    }
  }

  method WriteChild(sb: StringBuilder, node: NamespaceNode, name: string, indent: nat, ghost nodes: Nodes, ghost p: Path,
                    ghost height: nat, ghost contents: Contents)
    returns (ghost c: Child)
    requires Trie(nodes) && p in nodes && node == nodes[p] && p + [name] in nodes && forall q :: q in nodes ==> |q| <= height
    requires contents.Keys == nodes.Keys
    requires forall q :: q in nodes && IsPrefix(p + [name], q) ==> contents[q] == nodes[q].bundles
    modifies sb, Subtree(nodes, p + [name])`bundles
    ensures c.name == name && sb.text == old(sb.text) + ChildText(c, indent)
    ensures Renders(contents, p + [name], c.decl)
    decreases height - |p|, 0
  {
    hide Trie, Renders, IsPrefix, DeclText, Pad;
    ChildAt(nodes, p, name);
    ghost var now := ContentsOf(nodes);
    sb.WriteString(Pad(indent) + name + ": {\n");
    assert ContentsOf(nodes) == now;
    ghost var decl := WriteNamespace(sb, node.children[name], indent + 2, nodes, p + [name], height);
    sb.WriteString(Pad(indent) + "};\n");
    RendersFrame(now, contents, p + [name], decl);
    c := Child(name, decl);
  }

  lemma {:induction false} HeightOf(paths: set<Path>) returns (height: nat)
    ensures forall q :: q in paths ==> |q| <= height
    decreases paths
  {
    height := 0;
    if paths != {} {
      var q :| q in paths;
      var h := HeightOf(paths - {q});
      height := if |q| > h then |q| else h;
    }
  }

  // d declares exactly the public logic bundles of the manifest, each at its namespace.
  ghost predicate DeclaredBy(manifest: seq<Bundle>, d: Decl) {
    exists contents :: Holds(contents, manifest) && Renders(contents, [], d)
  }

  // The text prints such a declaration.
  ghost predicate IsGenerated(manifest: seq<Bundle>, text: string) {
    exists d :: DeclaredBy(manifest, d) && text == FileText(d)
  }

  method GenerateTypes(manifest: seq<Bundle>) returns (text: string)
    ensures IsGenerated(manifest, text)
  {
    hide Renders, Holds, DeclText, Trie, HEADER, FOOTER;
    var sb := new StringBuilder();
    sb.WriteString(HEADER);
    var root: NamespaceNode;
    ghost var nodes: Nodes;
    root, nodes := BuildTrie(manifest);
    RootPresent(nodes);
    ghost var contents := ContentsOf(nodes);
    ghost var height := HeightOf(nodes.Keys);
    ghost var d := WriteNamespace(sb, root, 4, nodes, [], height);
    sb.WriteString(FOOTER);
    text := sb.text;
    assert DeclaredBy(manifest, d) by {
      assert Holds(contents, manifest) && Renders(contents, [], d);
    }
    assert text == FileText(d);
  }

  lemma {:induction false} RootPresent(nodes: Nodes)
    requires Trie(nodes)
    ensures [] in nodes
  {
  }

  // ---------- permuted manifests ----------

  // Public logic bundles of one namespace and name take the same parameters.
  ghost predicate SameNameSameParams(manifest: seq<Bundle>) {
    forall b, c :: b in manifest && c in manifest && IsPublicLogic(b) && IsPublicLogic(c) && PathOf(b) == PathOf(c) && b.name == c.name
      ==> ParamsOf(b) == ParamsOf(c)
  }

  ghost predicate Agree(bundles: seq<Bundle>) {
    forall b, c :: b in bundles && c in bundles && b.name == c.name ==> ParamsOf(b) == ParamsOf(c)
  }

  lemma {:induction false} AtElements(manifest: seq<Bundle>, p: Path)
    ensures forall b :: b in At(manifest, p) ==> b in manifest && IsPublicLogic(b) && PathOf(b) == p
  {
    hide IsPublicLogic, PathOf;
    if manifest != [] {
      var front := manifest[..|manifest| - 1];
      AtElements(front, p);
      assert forall b :: b in front ==> b in manifest;
    }
  }

  lemma {:induction false} AtAgree(manifest: seq<Bundle>, p: Path)
    requires SameNameSameParams(manifest)
    ensures Agree(At(manifest, p))
  {
    hide IsPublicLogic, PathOf, ParamsOf, At;
    AtElements(manifest, p);
  }

  lemma {:induction false} AtNone(p: Path)
    ensures At([], p) == []
  {
  }

  // How often a bundle sits at a node: as often as the manifest has it.
  lemma {:induction false} AtCounts(manifest: seq<Bundle>, p: Path, b: Bundle)
    ensures multiset(At(manifest, p))[b] == if IsPublicLogic(b) && PathOf(b) == p then multiset(manifest)[b] else 0
  {
    hide IsPublicLogic, PathOf, At;
    if manifest == [] {
      AtNone(p);
    } else {
      var front, last := manifest[..|manifest| - 1], manifest[|manifest| - 1];
      AtCounts(front, p, b);
      assert manifest == front + [last];
      AtMore(front, last, p);
    }
  }

  lemma {:induction false} SameTree(m1: seq<Bundle>, m2: seq<Bundle>, p: Path)
    requires multiset(m1) == multiset(m2)
    ensures InTree(m1, p) ==> InTree(m2, p)
    ensures multiset(At(m1, p)) == multiset(At(m2, p))
  {
    hide IsPublicLogic, PathOf;
    if p != [] && InTree(m1, p) {
      var i :| 0 <= i < |m1| && IsPublicLogic(m1[i]) && IsPrefix(p, PathOf(m1[i]));
      assert m1[i] in multiset(m1) && m1[i] in multiset(m2);
      var j :| 0 <= j < |m2| && m2[j] == m1[i];
    }
    forall b ensures multiset(At(m1, p))[b] == multiset(At(m2, p))[b] {
      AtCounts(m1, p, b);
      AtCounts(m2, p, b);
    }
  }

  lemma {:induction false} WithoutAt(b: seq<Bundle>, i: nat)
    requires i < |b|
    ensures multiset(b) == multiset{b[i]} + multiset(b[..i] + b[i + 1..])
    ensures multiset(Names(b)) == multiset{b[i].name} + multiset(Names(b[..i] + b[i + 1..]))
  {
    assert b == b[..i] + [b[i]] + b[i + 1..];
    var names := Names(b);
    assert names == names[..i] + [b[i].name] + names[i + 1..];
    assert Names(b[..i] + b[i + 1..]) == names[..i] + names[i + 1..];
  }

  lemma {:induction false} NamesPermuted(a: seq<Bundle>, b: seq<Bundle>)
    requires multiset(a) == multiset(b)
    ensures multiset(Names(a)) == multiset(Names(b))
    decreases |a|
  {
    hide Names;
    assert |a| == |multiset(a)| && |b| == |multiset(b)|;
    if a == [] {
      assert a == b;
    } else {
      assert a[0] in multiset(a) && a[0] in multiset(b);
      var i :| 0 <= i < |b| && b[i] == a[0];
      WithoutAt(a, 0);
      WithoutAt(b, i);
      var front, rest := a[..0] + a[1..], b[..i] + b[i + 1..];
      SameRest(a[0], multiset(front), multiset(rest));
      NamesPermuted(front, rest);
    }
  }

  // However equal names are ordered, the sorted bundles declare the same functions.
  lemma {:induction false} ArrangedUnique(a: seq<Bundle>, b: seq<Bundle>, bundles: seq<Bundle>, others: seq<Bundle>)
    requires Arranged(a, bundles) && Arranged(b, others) && multiset(bundles) == multiset(others)
    requires Agree(bundles)
    ensures FnsOf(a) == FnsOf(b)
  {
    hide ParamsOf;
    NamesPermuted(a, b);
    SortedPermutationUnique(CodePoints, Names(a), Names(b));
    assert |Names(a)| == |Names(b)|;
    forall i | 0 <= i < |a| ensures FnsOf(a)[i] == FnsOf(b)[i] {
      assert a[i].name == Names(a)[i] == Names(b)[i] == b[i].name;
      assert a[i] in multiset(a) && b[i] in multiset(b);
      assert a[i] in bundles && b[i] in bundles;
    }
  }

  lemma {:induction false} RendersUnique(c1: Contents, c2: Contents, p: Path, d1: Decl, d2: Decl)
    requires Renders(c1, p, d1) && Renders(c2, p, d2) && c1.Keys == c2.Keys
    requires forall q :: q in c1 ==> multiset(c1[q]) == multiset(c2[q]) && Agree(c1[q])
    ensures d1 == d2
    decreases d1
  {
    var a1 :| Arranged(a1, c1[p]) && d1.fns == FnsOf(a1);
    var a2 :| Arranged(a2, c2[p]) && d2.fns == FnsOf(a2);
    ArrangedUnique(a1, a2, c1[p], c2[p]);
    var n1, n2 := ChildNames(d1.children), ChildNames(d2.children);
    forall k ensures k in n1 <==> k in n2 {
      assert k in n1 <==> p + [k] in c1;
      assert k in n2 <==> p + [k] in c2;
    }
    SortedUnique(CodePoints, n1, n2);
    forall i | 0 <= i < |d1.children| ensures d1.children[i] == d2.children[i] {
      assert n1[i] == n2[i];
      RendersUnique(c1, c2, p + [n1[i]], d1.children[i].decl, d2.children[i].decl);
    }
    assert |n1| == |n2|;
    assert d1.children == d2.children;
  }

  // The same bundles in another order give the same text, when bundles that share a
  // name in a namespace share their parameters.
  lemma {:induction false} OrderDoesNotMatter(m1: seq<Bundle>, m2: seq<Bundle>, text1: string, text2: string)
    requires multiset(m1) == multiset(m2) && SameNameSameParams(m1)
    requires IsGenerated(m1, text1) && IsGenerated(m2, text2)
    ensures text1 == text2
  {
    hide DeclaredBy, FileText, SameNameSameParams;
    var d1 :| DeclaredBy(m1, d1) && text1 == FileText(d1);
    var d2 :| DeclaredBy(m2, d2) && text2 == FileText(d2);
    SameDeclaration(m1, m2, d1, d2);
  }

  lemma {:induction false} SameDeclaration(m1: seq<Bundle>, m2: seq<Bundle>, d1: Decl, d2: Decl)
    requires multiset(m1) == multiset(m2) && SameNameSameParams(m1)
    requires DeclaredBy(m1, d1) && DeclaredBy(m2, d2)
    ensures d1 == d2
  {
    hide InTree, At, SameNameSameParams, Renders;
    var c1 :| Holds(c1, m1) && Renders(c1, [], d1);
    var c2 :| Holds(c2, m2) && Renders(c2, [], d2);
    forall p ensures p in c1 <==> p in c2 {
      SameTree(m1, m2, p);
      SameTree(m2, m1, p);
    }
    forall p | p in c1 ensures multiset(c1[p]) == multiset(c2[p]) && Agree(c1[p]) {
      SameTree(m1, m2, p);
      AtAgree(m1, p);
    }
    RendersUnique(c1, c2, [], d1, d2);
  }

  // ---------- the text parses back ----------

  // Namespace parts, bundle names and parameter names are identifier-like.
  ghost predicate Identifiers(manifest: seq<Bundle>) {
    forall b :: b in manifest && IsPublicLogic(b) ==>
      && IsName(b.name)
      && (forall part :: part in PathOf(b) ==> IsName(part))
      && (b.params.Some? ==> forall k :: k in b.params.value ==> IsName(k))
  }

  lemma {:induction false} ParamListNamed(params: map<string, ParamConfig>, keys: seq<string>)
    requires (forall k :: k in keys ==> k in params) && forall k :: k in params ==> IsName(k)
    ensures ParamsNamed(ParamList(params, keys))
  {
    if keys != [] {
      var k := keys[|keys| - 1];
      assert k in keys;
      ParamListNamed(params, keys[..|keys| - 1]);
      assert IsName("string") && IsName("number") && IsName("boolean") && IsName("any");
    }
  }

  lemma {:induction false} RenderedNamed(contents: Contents, manifest: seq<Bundle>, p: Path, d: Decl)
    requires Holds(contents, manifest) && Identifiers(manifest) && Renders(contents, p, d)
    ensures Named(d)
    decreases d
  {
    hide PathOf, IsPublicLogic, IsName, StrictlySorted, Sorted, InTree, At, FnsNamed, Identifiers;
    var arranged :| Arranged(arranged, contents[p]) && d.fns == FnsOf(arranged);
    RenderedFnsNamed(manifest, p, arranged);
    forall c | c in d.children ensures IsName(c.name) && Named(c.decl) {
      var i :| 0 <= i < |d.children| && d.children[i] == c;
      RenderedNamed(contents, manifest, p + [c.name], c.decl);
      assert ChildNames(d.children)[i] == c.name;
      PathPartNamed(manifest, p, c.name);
    }
  }

  lemma {:induction false} RenderedFnsNamed(manifest: seq<Bundle>, p: Path, arranged: seq<Bundle>)
    requires Identifiers(manifest) && Arranged(arranged, At(manifest, p))
    ensures FnsNamed(FnsOf(arranged))
  {
    hide PathOf, IsPublicLogic, IsName, Sorted, At, ParamsNamed, ParamsOf;
    AtElements(manifest, p);
    forall f | f in FnsOf(arranged) ensures IsName(f.name) && ParamsNamed(f.params) {
      var i :| 0 <= i < |arranged| && FnsOf(arranged)[i] == f;
      assert arranged[i] in multiset(arranged) && arranged[i] in At(manifest, p);
      ParamsOfNamed(arranged[i]);
    }
  }

  lemma {:induction false} ParamsOfNamed(b: Bundle)
    requires b.params.Some? ==> forall k :: k in b.params.value ==> IsName(k)
    ensures ParamsNamed(ParamsOf(b))
  {
    hide IsName, StrictlySorted;
    if b.params.Some? {
      var keys := SortedKeys(CodePoints, b.params.value.Keys);
      assert forall k :: k in keys ==> k in Elements(keys);
      ParamListNamed(b.params.value, keys);
    }
  }

  lemma {:induction false} PathPartNamed(manifest: seq<Bundle>, p: Path, k: string)
    requires Identifiers(manifest) && InTree(manifest, p + [k])
    ensures IsName(k)
  {
    hide PathOf, IsPublicLogic, IsName;
    var q := p + [k];
    var i :| 0 <= i < |manifest| && IsPublicLogic(manifest[i]) && IsPrefix(q, PathOf(manifest[i]));
    assert manifest[i] in manifest;
    assert PathOf(manifest[i])[|p|] == q[|p|] == k;
  }

  // Reading the generated file gives back the declarations: every namespace with
  // its bundles, their parameters, optionality and types.
  lemma {:induction false} GeneratedFileParses(manifest: seq<Bundle>, text: string)
    requires IsGenerated(manifest, text) && Identifiers(manifest)
    ensures ParseFile(text).Some? && DeclaredBy(manifest, ParseFile(text).value)
  {
    hide Renders, Holds, Identifiers, ParseFile, FileText, Named;
    var d :| DeclaredBy(manifest, d) && text == FileText(d);
    var contents :| Holds(contents, manifest) && Renders(contents, [], d);
    RenderedNamed(contents, manifest, [], d);
    FileRoundTrip(d);
  }
}
