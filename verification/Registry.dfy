// registry.go: a push writes the whole manifest under the project's latest key,
// then each bundle under its own key, one write after the other.
module Registry {
  import opened Text

  datatype LogicConfig = LogicConfig(target: Option<string>, access: Option<string>, cache: Option<string>)

  datatype Bundle = Bundle(kind: string, namespace: string, name: string, hash: string, content: string,
                           config: Option<LogicConfig>)

  // A bundle as the server reads it. push is the number of the push that wrote it:
  // no code looks at it, it is there to say which push a reader sees.
  datatype ServerBundle = ServerBundle(kind: string, namespace: string, name: string, config: LogicConfig,
                                       content: string, hash: string, push: nat)

  datatype Doc = Latest(version: string, bundles: map<string, ServerBundle>) | Single(bundle: ServerBundle)

  type Kv = map<string, Doc>

  datatype Write = Write(key: string, doc: Doc)

  datatype Manifest = Manifest(version: string, bundles: seq<Bundle>)

  function LatestKey(project: string): string {
    "project:" + project + ":latest"
  }

  function LogicKey(project: string, namespace: string, name: string): string {
    project + ":logic:" + namespace + ":" + name
  }

  function CreateServerBundle(b: Bundle, push: nat): ServerBundle {
    var config := if b.config.Some? then b.config.value else LogicConfig(Some("main"), Some("public"), None);
    ServerBundle(b.kind, b.namespace, b.name, config, b.content, b.hash, push)
  }

  // What a published bundle must be, field by field: the bundle's own content, hash and
  // config, or without a config a public one for the main target with no caching.
  ghost predicate Publishes(r: ServerBundle, b: Bundle) {
    && r.kind == b.kind && r.namespace == b.namespace && r.name == b.name
    && r.content == b.content && r.hash == b.hash
    && match b.config
       case Some(config) => r.config == config
       case None => r.config.target == Some("main") && r.config.access == Some("public") && r.config.cache == None
  }

  lemma {:induction false} Published(b: Bundle, push: nat)
    ensures Publishes(CreateServerBundle(b, push), b) && CreateServerBundle(b, push).push == push
  {
  }

  // The last bundle with a given namespace/name wins.
  function EdgeBundles(bundles: seq<Bundle>, push: nat): map<string, ServerBundle> {
    if bundles == [] then map[]
    else
      var b := bundles[|bundles| - 1];
      EdgeBundles(bundles[..|bundles| - 1], push)[b.namespace + "/" + b.name := CreateServerBundle(b, push)]
  }

  function BundleWrites(project: string, bundles: seq<Bundle>, push: nat): (r: seq<Write>)
    ensures |r| == |bundles|
    ensures forall i :: 0 <= i < |r| ==>
              r[i] == Write(LogicKey(project, bundles[i].namespace, bundles[i].name), Single(CreateServerBundle(bundles[i], push)))
  {
    if bundles == [] then []
    else
      [Write(LogicKey(project, bundles[0].namespace, bundles[0].name), Single(CreateServerBundle(bundles[0], push)))]
      + BundleWrites(project, bundles[1..], push)
  }

  function PushWrites(project: string, manifest: Manifest, push: nat): seq<Write> {
    [Write(LatestKey(project), Latest(manifest.version, EdgeBundles(manifest.bundles, push)))]
    + BundleWrites(project, manifest.bundles, push)
  }

  // The store after the first n of the writes.
  function Written(kv: Kv, writes: seq<Write>, n: nat): Kv
    requires n <= |writes|
  {
    if n == 0 then kv else Written(kv, writes, n - 1)[writes[n - 1].key := writes[n - 1].doc]
  }

  class KvStore {
    var data: Kv

    method Set(key: string, doc: Doc)
      modifies this
      ensures data == old(data)[key := doc]
    {
      data := data[key := doc];
    }
  }

  method CreateEdgeLatest(version: string, bundles: seq<Bundle>, push: nat) returns (latest: Doc)
    ensures latest == Latest(version, EdgeBundles(bundles, push))
  {
    var edgeBundles: map<string, ServerBundle> := map[];
    for i := 0 to |bundles|
      invariant edgeBundles == EdgeBundles(bundles[..i], push)
    {
      assert bundles[..i + 1][..i] == bundles[..i];
      edgeBundles := edgeBundles[bundles[i].namespace + "/" + bundles[i].name := CreateServerBundle(bundles[i], push)];
    }
    assert bundles[..|bundles|] == bundles;
    latest := Latest(version, edgeBundles);
  }

  method Push(kv: KvStore, project: string, manifest: Manifest, push: nat)
    modifies kv
    ensures var writes := PushWrites(project, manifest, push);
            kv.data == Written(old(kv.data), writes, |writes|)
  {
    hide EdgeBundles, CreateServerBundle, LatestKey, LogicKey;
    ghost var writes := PushWrites(project, manifest, push);
    ghost var before := kv.data;
    var latest := CreateEdgeLatest(manifest.version, manifest.bundles, push);
    kv.Set(LatestKey(project), latest);
    assert Written(before, writes, 0) == before;
    for i := 0 to |manifest.bundles|
      invariant kv.data == Written(before, writes, i + 1)
    {
      var b := manifest.bundles[i];
      assert writes[i + 1] == BundleWrites(project, manifest.bundles, push)[i]
                           == Write(LogicKey(project, b.namespace, b.name), Single(CreateServerBundle(b, push)));
      kv.Set(LogicKey(project, b.namespace, b.name), Single(CreateServerBundle(b, push)));
    }
  }

  // ---------- keys ----------

  // a:b determines a and b when neither has a colon.
  lemma {:induction false} PairIdentified(a: string, b: string, c: string, d: string)
    requires ':' !in a && ':' !in b && a + ":" + b == c + ":" + d
    ensures a == c && b == d
  {
    var s := a + ":" + b;
    forall j | 0 <= j < |s| && j != |a| ensures s[j] != ':' {
      assert s[j] == if j < |a| then a[j] else b[j - |a| - 1];
    }
    assert s == c + ":" + d && s[|c|] == ':';
    assert a == s[..|a|] && c == s[..|c|];
    assert b == s[|a| + 1..] && d == s[|c| + 1..];
  }

  // A key belongs to one namespace and name exactly when neither has a colon.
  lemma {:induction false} KeyIdentifies(project: string, namespace: string, name: string)
    ensures ':' !in namespace && ':' !in name <==>
            forall ns, n :: LogicKey(project, ns, n) == LogicKey(project, namespace, name) ==> ns == namespace && n == name
  {
    forall ns, n | ':' !in namespace && ':' !in name && LogicKey(project, ns, n) == LogicKey(project, namespace, name)
      ensures ns == namespace && n == name
    {
      KeyTail(project, ns, n);
      KeyTail(project, namespace, name);
      PairIdentified(namespace, name, ns, n);
    }
    if ':' in namespace {
      var i :| 0 <= i < |namespace| && namespace[i] == ':';
      var ns, n := namespace[..i], namespace[i + 1..] + ":" + name;
      assert namespace == ns + ":" + namespace[i + 1..];
      assert ns + ":" + n == namespace + ":" + name;
      SameTail(project, ns, n, namespace, name);
      assert |ns| < |namespace|;
    } else if ':' in name {
      var i :| 0 <= i < |name| && name[i] == ':';
      var ns, n := namespace + ":" + name[..i], name[i + 1..];
      assert name == name[..i] + ":" + n;
      assert ns + ":" + n == namespace + ":" + name;
      SameTail(project, ns, n, namespace, name);
      assert |ns| > |namespace|;
    }
  }

  lemma {:induction false} SameKeySameName(project: string, ns: string, n: string, namespace: string, name: string)
    requires ':' !in namespace && ':' !in name && LogicKey(project, ns, n) == LogicKey(project, namespace, name)
    ensures ns == namespace && n == name
  {
    KeyIdentifies(project, namespace, name);
  }

  lemma {:induction false} KeyTail(project: string, namespace: string, name: string)
    ensures LogicKey(project, namespace, name) == project + ":logic:" + (namespace + ":" + name)
    ensures LogicKey(project, namespace, name)[|project + ":logic:"|..] == namespace + ":" + name
  {
    var prefix := project + ":logic:";
    assert LogicKey(project, namespace, name) == prefix + (namespace + ":" + name);
  }

  lemma {:induction false} SameTail(project: string, a: string, b: string, c: string, d: string)
    requires a + ":" + b == c + ":" + d
    ensures LogicKey(project, a, b) == LogicKey(project, c, d)
  {
    KeyTail(project, a, b);
    KeyTail(project, c, d);
  }

  // No bundle is written under the latest key.
  lemma {:induction false} LatestApart(project: string, namespace: string, name: string)
    ensures LogicKey(project, namespace, name) != LatestKey(project)
    decreases |project|
  {
    var a, b := LogicKey(project, namespace, name), LatestKey(project);
    var tail := ":logic:" + namespace + ":" + name;
    assert a == project + tail;
    assert b[..8] == "project:" && b[8..] == project + ":latest";
    if "project:" <= project {
      var rest := project[8..];
      LatestApart(rest, namespace, name);
      assert project == "project:" + rest;
      assert a[8..] == rest + tail == LogicKey(rest, namespace, name);
      assert b[8..] == LatestKey(rest);
    } else if |project| >= 8 {
      assert a[..8] == project[..8];
    } else {
      assert a[|project|] == ':' && a[|project| + 1] == 'l';
      if |project| < 7 {
        assert b[|project|] == "project:"[|project|] != ':';
      } else {
        assert b[8] == b[8..][0] == project[0];
      }
      if |project| == 7 && project[0] != 'p' {
        assert a[0] == project[0] && b[0] == 'p';
      }
    }
  }
}
