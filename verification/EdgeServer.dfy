// server.ts: the path of a call, and loading a bundle through the server's cache.
module EdgeServer {
  import opened Text
  import opened Order
  import opened Registry

  // ---------- parsePath ----------

  // namespace/name: at least two segments, the last of which is the name.
  function ParsePath(path: string): (r: Option<(string, string)>)
    ensures r.Some? ==> r.value.0 != "" && r.value.1 != "" && '/' !in r.value.1
  {
    var parts := NonEmpty(Split(path, '/'));
    if |parts| < 2 then None
    else
      var name := parts[|parts| - 1];
      assert parts[0] in parts && name in parts;
      JoinNonEmpty(parts[..|parts| - 1], "/");
      Some((Join(parts[..|parts| - 1], "/"), name))
  }

  // Segments with no slash in them, joined by slashes: the last is the name, the others
  // the namespace; empty segments count for nothing.
  lemma {:induction false} SegmentsParsed(path: string, segments: seq<string>)
    requires path == Join(segments, "/") && segments != [] && forall s :: s in segments ==> '/' !in s
    ensures var named := NotEmpty(segments);
            ParsePath(path) == if |named| < 2 then None else Some((Join(named[..|named| - 1], "/"), named[|named| - 1]))
  {
    SplitJoin(segments, '/');
    NonEmptyIs(segments);
  }

  ghost function NotEmpty(segments: seq<string>): seq<string> {
    if segments == [] then []
    else NotEmpty(segments[..|segments| - 1]) + if segments[|segments| - 1] != "" then [segments[|segments| - 1]] else []
  }

  lemma {:induction false} NonEmptyIs(segments: seq<string>)
    ensures NonEmpty(segments) == NotEmpty(segments)
  {
    if segments != [] {
      var front, last := segments[..|segments| - 1], segments[|segments| - 1];
      NonEmptyIs(front);
      assert segments == front + [last];
      NonEmptyMore(front, last);
    }
  }

  lemma {:induction false} NonEmptyMore(front: seq<string>, last: string)
    ensures NonEmpty(front + [last]) == NonEmpty(front) + if last != "" then [last] else []
  {
    if front == [] {
      assert [] + [last] == [last];
    } else {
      NonEmptyMore(front[1..], last);
      assert (front + [last])[1..] == front[1..] + [last];
    }
  }

  lemma {:induction false} JoinNonEmpty(parts: seq<string>, separator: string)
    requires parts != [] && parts[0] != ""
    ensures Join(parts, separator) != ""
  {
  }

  // The text namespace/name determines both, since the name has no slash.
  lemma {:induction false} PathIdentifies(a: string, b: string, c: string, d: string)
    requires '/' !in b && '/' !in d && a + "/" + b == c + "/" + d
    ensures a == c && b == d
  {
    var s := a + "/" + b;
    assert s == c + "/" + d && s[|a|] == '/' && s[|c|] == '/';
    forall j | |a| < j < |s| ensures s[j] != '/' { assert s[j] == b[j - |a| - 1]; }
    forall j | |c| < j < |s| ensures s[j] != '/' { assert s[j] == d[j - |c| - 1]; }
    assert a == s[..|a|] && c == s[..|c|];
    assert b == s[|a| + 1..] && d == s[|c| + 1..];
  }

  // ---------- loadBundle ----------

  type BundleCache = map<string, ServerBundle>

  function KeyOf(project: string, b: ServerBundle): string {
    LogicKey(project, b.namespace, b.name)
  }

  // Caching every bundle of the latest document, in the order of its keys;
  // bundles without a namespace or a name are skipped.
  function CacheAll(project: string, cache: BundleCache, bundles: map<string, ServerBundle>, keys: seq<string>): BundleCache
    requires forall k :: k in keys ==> k in bundles
  {
    if keys == [] then cache
    else
      var before := CacheAll(project, cache, bundles, keys[..|keys| - 1]);
      var b := bundles[keys[|keys| - 1]];
      if b.namespace == "" || b.name == "" then before else before[KeyOf(project, b) := b]
  }

  ghost function CacheLatest(project: string, cache: BundleCache, bundles: map<string, ServerBundle>): BundleCache {
    CacheAll(project, cache, bundles, SortedKeys(CodePoints, bundles.Keys))
  }

  // The latest key holds latest documents, every other key single bundles.
  ghost predicate WellTyped(project: string, kv: Kv) {
    forall k :: k in kv ==> (kv[k].Latest? <==> k == LatestKey(project))
  }

  ghost function LookUp<V>(m: map<string, V>, key: string): Option<V> {
    if key in m then Some(m[key]) else None
  }

  // The cache after a load, and what the load returns.
  ghost function Load(project: string, kv: Kv, cache: BundleCache, key: string): (BundleCache, Option<ServerBundle>) {
    if key in cache then (cache, Some(cache[key]))
    else if key in kv && kv[key].Single? then (cache[key := kv[key].bundle], Some(kv[key].bundle))
    else if LatestKey(project) in kv && kv[LatestKey(project)].Latest? then
      var filled := CacheLatest(project, cache, kv[LatestKey(project)].bundles);
      (filled, LookUp(filled, key))
    else (cache, None)
  }

  class Server {
    const project: string
    var bundleCache: BundleCache

    constructor (project: string)
      ensures this.project == project && bundleCache == map[]
    {
      this.project := project;
      bundleCache := map[];
    }

    method LoadBundle(kv: KvStore, namespace: string, name: string) returns (r: Option<ServerBundle>)
      requires WellTyped(project, kv.data)
      modifies this
      ensures (bundleCache, r) == Load(project, kv.data, old(bundleCache), LogicKey(project, namespace, name))
    {
      hide LogicKey, LatestKey, StrictlySorted;
      var key := LogicKey(project, namespace, name);
      LatestApart(project, namespace, name);
      if key in bundleCache {
        return Some(bundleCache[key]);
      }
      if key in kv.data {
        var bundle := kv.data[key].bundle;
        bundleCache := bundleCache[key := bundle];
        return Some(bundle);
      }
      if LatestKey(project) !in kv.data {
        return None;
      }
      var bundles := kv.data[LatestKey(project)].bundles;
      var keys := CollectSorted(CodePoints, bundles.Keys);
      assert forall k :: k in keys ==> k in Elements(keys);
      ghost var before := bundleCache;
      for i := 0 to |keys|
        invariant bundleCache == CacheAll(project, before, bundles, keys[..i])
      {
        assert keys[..i + 1][..i] == keys[..i];
        var bundle := bundles[keys[i]];
        if bundle.namespace == "" || bundle.name == "" {
          continue;
        }
        bundleCache := bundleCache[LogicKey(project, bundle.namespace, bundle.name) := bundle];
      }
      assert keys[..|keys|] == keys;
      r := if key in bundleCache then Some(bundleCache[key]) else None;
    }
  }

  // ---------- what caching the latest document does ----------

  // It adds to any cache exactly what it puts in an empty one.
  lemma {:induction false} CacheAllAdds(project: string, cache: BundleCache, bundles: map<string, ServerBundle>, keys: seq<string>)
    requires forall k :: k in keys ==> k in bundles
    ensures CacheAll(project, cache, bundles, keys) == cache + CacheAll(project, map[], bundles, keys)
  {
    if keys == [] {
      assert cache + map[] == cache;
    } else {
      CacheAllAdds(project, cache, bundles, keys[..|keys| - 1]);
    }
  }

  // Every bundle it puts there is one of the document, under that bundle's key.
  lemma {:induction false} CacheAllFrom(project: string, bundles: map<string, ServerBundle>, keys: seq<string>, k: string)
    requires forall j :: j in keys ==> j in bundles
    requires k in CacheAll(project, map[], bundles, keys)
    ensures var b := CacheAll(project, map[], bundles, keys)[k]; KeyOf(project, b) == k && b in bundles.Values
  {
    hide LogicKey;
    var front, last := keys[..|keys| - 1], keys[|keys| - 1];
    assert last in keys && bundles[last] in bundles.Values;
    var before, view := CacheAll(project, map[], bundles, front), CacheAll(project, map[], bundles, keys);
    if k in before && view[k] == before[k] {
      CacheAllFrom(project, bundles, front, k);
    }
  }

  // Every bundle of the document that has a namespace and a name gets an entry.
  lemma {:induction false} CacheAllCovers(project: string, bundles: map<string, ServerBundle>, keys: seq<string>)
    requires forall k :: k in keys ==> k in bundles
    ensures var view := CacheAll(project, map[], bundles, keys);
            forall k :: k in keys && bundles[k].namespace != "" && bundles[k].name != "" ==> KeyOf(project, bundles[k]) in view
  {
    if keys != [] {
      var front, last := keys[..|keys| - 1], keys[|keys| - 1];
      assert keys == front + [last];
      CacheAllCovers(project, bundles, front);
    }
  }

  // A load only ever adds to the cache or replaces entries by those of the latest document.
  lemma {:induction false} LoadEntries(project: string, kv: Kv, cache: BundleCache, key: string, k: string)
    requires k in Load(project, kv, cache, key).0
    ensures var after := Load(project, kv, cache, key).0;
            || (k in cache && after[k] == cache[k])
            || (k !in cache && k == key && k in kv && kv[k] == Single(after[k]))
            || (LatestKey(project) in kv && kv[LatestKey(project)].Latest?
                && after[k] in kv[LatestKey(project)].bundles.Values && KeyOf(project, after[k]) == k)
  {
    if key !in cache && !(key in kv && kv[key].Single?) && LatestKey(project) in kv && kv[LatestKey(project)].Latest? {
      var bundles := kv[LatestKey(project)].bundles;
      var keys := SortedKeys(CodePoints, bundles.Keys);
      CacheAllAdds(project, cache, bundles, keys);
      if k !in cache || Load(project, kv, cache, key).0[k] != cache[k] {
        CacheAllFrom(project, bundles, keys, k);
      }
    }
  }

  lemma {:induction false} LoadKeeps(project: string, kv: Kv, cache: BundleCache, key: string)
    ensures forall k :: k in cache ==> k in Load(project, kv, cache, key).0
    ensures var (after, r) := Load(project, kv, cache, key); r == LookUp(after, key)
  {
    if LatestKey(project) in kv && kv[LatestKey(project)].Latest? {
      var bundles := kv[LatestKey(project)].bundles;
      CacheAllAdds(project, cache, bundles, SortedKeys(CodePoints, bundles.Keys));
    }
  }
}
