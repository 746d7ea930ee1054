// One publisher pushing manifests write by write, and any number of servers
// loading bundles through caches that are never invalidated, in any interleaving.
// Loads are atomic and every write succeeds.
module Publication {
  import opened Text
  import opened Order
  import opened Registry
  import opened EdgeServer

  // done counts the writes of the current push that have landed.
  datatype State = State(kv: Kv, caches: map<nat, BundleCache>, history: seq<Manifest>, base: Kv, writes: seq<Write>, done: nat)

  datatype Step =
    | Begin(manifest: Manifest)       // start the next push; ignored while one is under way
    | WriteNext                       // the next single-key write lands
    | LoadStep(server: nat, namespace: string, name: string)

  const INITIAL := State(map[], map[], [], map[], [], 0)

  ghost function CacheOf(s: State, server: nat): BundleCache {
    if server in s.caches then s.caches[server] else map[]
  }

  ghost function Next(project: string, s: State, step: Step): State {
    match step
    case Begin(manifest) =>
      if s.done < |s.writes| then s
      else s.(history := s.history + [manifest], base := s.kv,
              writes := PushWrites(project, manifest, |s.history| + 1), done := 0)
    case WriteNext =>
      if s.done < |s.writes| then
        s.(kv := s.kv[s.writes[s.done].key := s.writes[s.done].doc], done := s.done + 1)
      else s
    case LoadStep(server, namespace, name) =>
      s.(caches := s.caches[server := Load(project, s.kv, CacheOf(s, server), LogicKey(project, namespace, name)).0])
  }

  ghost function Run(project: string, s: State, steps: seq<Step>): State
    decreases |steps|
  {
    if steps == [] then s else Run(project, Next(project, s, steps[0]), steps[1..])
  }

  // ---------- the invariant ----------

  // The number of the last push whose latest document has landed.
  ghost function Landed(s: State): nat {
    if s.history != [] && s.done == 0 then |s.history| - 1 else |s.history|
  }

  ghost predicate KvOk(project: string, kv: Kv, landed: nat) {
    && WellTyped(project, kv)
    && (landed > 0 ==> LatestKey(project) in kv)
    && (LatestKey(project) in kv ==> forall b :: b in kv[LatestKey(project)].bundles.Values ==> b.push == landed)
    && (forall k :: k in kv && k != LatestKey(project) ==> kv[k].bundle.push <= landed && KeyOf(project, kv[k].bundle) == k)
  }

  ghost predicate CacheOk(project: string, cache: BundleCache, landed: nat) {
    forall k :: k in cache ==> cache[k].push <= landed && KeyOf(project, cache[k]) == k
  }

  ghost predicate Inv(project: string, s: State) {
    && s.done <= |s.writes|
    && KvOk(project, s.kv, Landed(s))
    && (forall server :: server in s.caches ==> CacheOk(project, s.caches[server], Landed(s)))
    && s.kv == Written(s.base, s.writes, s.done)
    && (s.history == [] ==> s.writes == [] && s.kv == map[])
    && (s.history != [] ==> s.writes == PushWrites(project, s.history[|s.history| - 1], |s.history|))
  }

  lemma {:induction false} EdgeBundlesFrom(bundles: seq<Bundle>, push: nat)
    ensures forall x :: x in EdgeBundles(bundles, push).Values ==> x.push == push
  {
    if bundles != [] {
      EdgeBundlesFrom(bundles[..|bundles| - 1], push);
    }
  }

  lemma {:induction false} LatestLands(project: string, kv: Kv, manifest: Manifest, push: nat)
    requires push > 0 && KvOk(project, kv, push - 1)
    ensures KvOk(project, kv[LatestKey(project) := Latest(manifest.version, EdgeBundles(manifest.bundles, push))], push)
  {
    hide EdgeBundles, LatestKey;
    EdgeBundlesFrom(manifest.bundles, push);
  }

  lemma {:induction false} BundleLands(project: string, kv: Kv, b: Bundle, push: nat)
    requires push > 0 && KvOk(project, kv, push)
    ensures KvOk(project, kv[LogicKey(project, b.namespace, b.name) := Single(CreateServerBundle(b, push))], push)
  {
    LatestApart(project, b.namespace, b.name);
    hide LatestKey, LogicKey;
  }

  lemma {:induction false} WriteLands(project: string, s: State)
    requires Inv(project, s) && s.done < |s.writes|
    ensures KvOk(project, s.kv[s.writes[s.done].key := s.writes[s.done].doc], |s.history|)
  {
    hide KvOk, CacheOk, CreateServerBundle, EdgeBundles, KeyOf, Written;
    var manifest, push := s.history[|s.history| - 1], |s.history|;
    if s.done == 0 {
      LatestLands(project, s.kv, manifest, push);
    } else {
      assert s.writes[s.done] == BundleWrites(project, manifest.bundles, push)[s.done - 1];
      BundleLands(project, s.kv, manifest.bundles[s.done - 1], push);
    }
  }

  lemma {:induction false} CacheOkLater(project: string, cache: BundleCache, m: nat, n: nat)
    requires CacheOk(project, cache, m) && m <= n
    ensures CacheOk(project, cache, n)
  {
  }

  lemma {:induction false} WriteKeepsInv(project: string, s: State)
    requires Inv(project, s) && s.done < |s.writes|
    ensures Inv(project, Next(project, s, WriteNext))
  {
    hide KvOk, CacheOk, PushWrites;
    WriteLands(project, s);
    forall server | server in s.caches ensures CacheOk(project, s.caches[server], |s.history|) {
      CacheOkLater(project, s.caches[server], Landed(s), |s.history|);
    }
  }

  lemma {:induction false} LoadKeepsOk(project: string, kv: Kv, cache: BundleCache, key: string, landed: nat)
    requires KvOk(project, kv, landed) && CacheOk(project, cache, landed) && key != LatestKey(project)
    ensures CacheOk(project, Load(project, kv, cache, key).0, landed)
    ensures forall k :: k in cache ==> k in Load(project, kv, cache, key).0 && cache[k].push <= Load(project, kv, cache, key).0[k].push
  {
    hide Load, LogicKey;
    var after := Load(project, kv, cache, key).0;
    LoadKeeps(project, kv, cache, key);
    forall k | k in after
      ensures after[k].push <= landed && KeyOf(project, after[k]) == k && (k in cache ==> cache[k].push <= after[k].push)
    {
      LoadEntries(project, kv, cache, key, k);
    }
  }

  lemma {:induction false} BeginKeepsInv(project: string, s: State, manifest: Manifest)
    requires Inv(project, s)
    ensures Inv(project, Next(project, s, Begin(manifest)))
  {
    hide KvOk, CacheOk, EdgeBundles, BundleWrites;
    assert Written(s.kv, PushWrites(project, manifest, |s.history| + 1), 0) == s.kv;
    hide Written;
  }

  lemma {:induction false} CacheOfOk(project: string, s: State, server: nat)
    requires Inv(project, s)
    ensures CacheOk(project, CacheOf(s, server), Landed(s))
  {
    hide KvOk, Written, PushWrites;
  }

  lemma {:induction false} LoadStepKeepsInv(project: string, s: State, server: nat, namespace: string, name: string)
    requires Inv(project, s)
    ensures Inv(project, Next(project, s, LoadStep(server, namespace, name)))
  {
    hide KvOk, CacheOk, CacheOf, Written, PushWrites, LogicKey, LatestKey, Load;
    LatestApart(project, namespace, name);
    CacheOfOk(project, s, server);
    LoadKeepsOk(project, s.kv, CacheOf(s, server), LogicKey(project, namespace, name), Landed(s));
  }

  lemma {:induction false} StepKeepsInv(project: string, s: State, step: Step)
    requires Inv(project, s)
    ensures Inv(project, Next(project, s, step))
  {
    hide Inv;
    assert Next(project, s, WriteNext) == s || s.done < |s.writes|;
    match step {
      case Begin(manifest) =>
        BeginKeepsInv(project, s, manifest);
      case WriteNext =>
        if s.done < |s.writes| {
          WriteKeepsInv(project, s);
        }
      case LoadStep(server, namespace, name) =>
        LoadStepKeepsInv(project, s, server, namespace, name);
    }
  }

  lemma {:induction false} RunKeepsInv(project: string, s: State, steps: seq<Step>)
    requires Inv(project, s)
    ensures Inv(project, Run(project, s, steps))
    decreases |steps|
  {
    if steps != [] {
      StepKeepsInv(project, s, steps[0]);
      RunKeepsInv(project, Next(project, s, steps[0]), steps[1..]);
    }
  }

  lemma {:induction false} Reachable(project: string, steps: seq<Step>)
    ensures Inv(project, Run(project, INITIAL, steps))
  {
    RunKeepsInv(project, INITIAL, steps);
  }

  // ---------- caches never go back ----------

  ghost predicate NoOlder(old_: BundleCache, new_: BundleCache) {
    forall k :: k in old_ ==> k in new_ && old_[k].push <= new_[k].push
  }

  lemma {:induction false} StepNoOlder(project: string, s: State, step: Step, server: nat)
    requires Inv(project, s)
    ensures NoOlder(CacheOf(s, server), CacheOf(Next(project, s, step), server))
  {
    if step.LoadStep? && step.server == server {
      LatestApart(project, step.namespace, step.name);
      LoadKeepsOk(project, s.kv, CacheOf(s, server), LogicKey(project, step.namespace, step.name), Landed(s));
    }
  }

  lemma {:induction false} RunNoOlder(project: string, s: State, steps: seq<Step>, server: nat)
    requires Inv(project, s)
    ensures NoOlder(CacheOf(s, server), CacheOf(Run(project, s, steps), server))
    decreases |steps|
  {
    if steps != [] {
      StepKeepsInv(project, s, steps[0]);
      StepNoOlder(project, s, steps[0], server);
      RunNoOlder(project, Next(project, s, steps[0]), steps[1..], server);
    }
  }

  // After any run, and any continuation of it: what a server has cached under a
  // key stays cached, and is never replaced by the bundle of an earlier push.
  lemma {:induction false} CacheNeverGoesBack(project: string, first: seq<Step>, more: seq<Step>, server: nat)
    ensures var s := Run(project, INITIAL, first);
            NoOlder(CacheOf(s, server), CacheOf(Run(project, s, more), server))
  {
    Reachable(project, first);
    RunNoOlder(project, Run(project, INITIAL, first), more, server);
  }

  // A load in any run returns a bundle whose key is the one asked for, hence of the
  // namespace and name asked for when those have no colon.
  lemma {:induction false} LoadReturnsRequested(project: string, steps: seq<Step>, server: nat, namespace: string, name: string)
    ensures var s := Run(project, INITIAL, steps);
            var r := Load(project, s.kv, CacheOf(s, server), LogicKey(project, namespace, name)).1;
            r.Some? ==>
              && KeyOf(project, r.value) == LogicKey(project, namespace, name)
              && (':' !in namespace && ':' !in name ==> r.value.namespace == namespace && r.value.name == name)
  {
    var s := Run(project, INITIAL, steps);
    Reachable(project, steps);
    LatestApart(project, namespace, name);
    var key := LogicKey(project, namespace, name);
    LoadKeepsOk(project, s.kv, CacheOf(s, server), key, Landed(s));
    LoadKeeps(project, s.kv, CacheOf(s, server), key);
    KeyIdentifies(project, namespace, name);
  }

  // ---------- the last push wins ----------

  ghost function ColdLoad(project: string, kv: Kv, key: string): Option<ServerBundle> {
    Load(project, kv, map[], key).1
  }

  // The last bundle of the list with this namespace and name.
  function LastIn(bundles: seq<Bundle>, namespace: string, name: string): Option<Bundle> {
    if bundles == [] then None
    else if bundles[|bundles| - 1].namespace == namespace && bundles[|bundles| - 1].name == name then Some(bundles[|bundles| - 1])
    else LastIn(bundles[..|bundles| - 1], namespace, name)
  }

  // What the most recent push that had such a bundle published.
  function LastPushed(history: seq<Manifest>, namespace: string, name: string): Option<ServerBundle> {
    if history == [] then None
    else
      match LastIn(history[|history| - 1].bundles, namespace, name)
      case Some(b) => Some(CreateServerBundle(b, |history|))
      case None => LastPushed(history[..|history| - 1], namespace, name)
  }

  // Bundle j of push i is the last one of its namespace and name in the whole history.
  ghost predicate IsLatest(history: seq<Manifest>, i: nat, j: nat) {
    && i < |history| && j < |history[i].bundles|
    && forall k, l :: 0 <= k < |history| && 0 <= l < |history[k].bundles| && (i < k || (i == k && j < l)) ==>
         !Named(history[k].bundles[l], history[i].bundles[j].namespace, history[i].bundles[j].name)
  }

  predicate Named(b: Bundle, namespace: string, name: string) {
    b.namespace == namespace && b.name == name
  }

  // x is what the last push of such a bundle published.
  ghost predicate PublishedLast(history: seq<Manifest>, namespace: string, name: string, x: ServerBundle) {
    exists i: nat, j: nat ::
      IsLatest(history, i, j) && Named(history[i].bundles[j], namespace, name)
      && Publishes(x, history[i].bundles[j]) && x.push == i + 1
  }

  ghost predicate NeverPushed(history: seq<Manifest>, namespace: string, name: string) {
    forall i, j :: 0 <= i < |history| && 0 <= j < |history[i].bundles| ==> !Named(history[i].bundles[j], namespace, name)
  }

  lemma {:induction false} LastInIs(bundles: seq<Bundle>, namespace: string, name: string) returns (j: nat)
    ensures match LastIn(bundles, namespace, name)
            case Some(b) =>
              && j < |bundles| && bundles[j] == b && Named(b, namespace, name)
              && forall l :: j < l < |bundles| ==> !Named(bundles[l], namespace, name)
            case None => forall l :: 0 <= l < |bundles| ==> !Named(bundles[l], namespace, name)
  {
    j := |bundles| - if bundles == [] then 0 else 1;
    if bundles != [] && !Named(bundles[|bundles| - 1], namespace, name) {
      var front := bundles[..|bundles| - 1];
      j := LastInIs(front, namespace, name);
      assert forall l :: 0 <= l < |front| ==> bundles[l] == front[l];
    }
  }

  lemma {:induction false} LastPushedIs(history: seq<Manifest>, namespace: string, name: string)
    ensures match LastPushed(history, namespace, name)
            case Some(x) => PublishedLast(history, namespace, name, x)
            case None => NeverPushed(history, namespace, name)
  {
    if history != [] {
      var front, last := history[..|history| - 1], history[|history| - 1];
      var j := LastInIs(last.bundles, namespace, name);
      match LastIn(last.bundles, namespace, name) {
        case Some(b) =>
          Published(b, |history|);
          assert IsLatest(history, |history| - 1, j);
        case None =>
          LastPushedIs(front, namespace, name);
          LatestLater(history, namespace, name);
      }
    }
  }

  lemma {:induction false} LatestLater(history: seq<Manifest>, namespace: string, name: string)
    requires history != [] && LastPushed(history, namespace, name) == LastPushed(history[..|history| - 1], namespace, name)
    requires forall b :: b in history[|history| - 1].bundles ==> !Named(b, namespace, name)
    requires match LastPushed(history[..|history| - 1], namespace, name)
             case Some(x) => PublishedLast(history[..|history| - 1], namespace, name, x)
             case None => NeverPushed(history[..|history| - 1], namespace, name)
    ensures match LastPushed(history, namespace, name)
            case Some(x) => PublishedLast(history, namespace, name, x)
            case None => NeverPushed(history, namespace, name)
  {
    hide LastPushed, Publishes, Named;
    var front := history[..|history| - 1];
    match LastPushed(front, namespace, name) {
      case Some(x) =>
        var i: nat, j: nat :| IsLatest(front, i, j) && Named(front[i].bundles[j], namespace, name)
                              && Publishes(x, front[i].bundles[j]) && x.push == i + 1;
        assert front[i] == history[i];
        SameNames(front[i].bundles[j], namespace, name);
        assert IsLatest(history, i, j);
      case None =>
    }
  }

  lemma {:induction false} SameNames(b: Bundle, namespace: string, name: string)
    requires Named(b, namespace, name)
    ensures b.namespace == namespace && b.name == name
  {
  }

  // The history as far as it has been pushed completely.
  ghost function Completed(s: State): seq<Manifest> {
    if s.done == |s.writes| || s.history == [] then s.history else s.history[..|s.history| - 1]
  }

  ghost predicate Stores(project: string, kv: Kv, history: seq<Manifest>, namespace: string, name: string) {
    var key := LogicKey(project, namespace, name);
    match LastPushed(history, namespace, name)
    case Some(b) => key in kv && kv[key] == Single(b)
    case None => key !in kv
  }

  // A key is left as the last bundle of its name among the first n says, or alone.
  ghost predicate LeftAt(project: string, kv: Kv, after: Kv, bundles: seq<Bundle>, push: nat, namespace: string, name: string) {
    var key := LogicKey(project, namespace, name);
    match LastIn(bundles, namespace, name)
    case Some(b) => key in after && after[key] == Single(CreateServerBundle(b, push))
    case None => (key in after <==> key in kv) && (key in kv ==> after[key] == kv[key])
  }

  lemma {:induction false} OneMoreWritten(project: string, kv: Kv, after: Kv, bundles: seq<Bundle>, b: Bundle, push: nat,
                                          namespace: string, name: string)
    requires ':' !in namespace && ':' !in name && LeftAt(project, kv, after, bundles, push, namespace, name)
    ensures LeftAt(project, kv, after[LogicKey(project, b.namespace, b.name) := Single(CreateServerBundle(b, push))],
                   bundles + [b], push, namespace, name)
  {
    KeyIdentifies(project, namespace, name);
    hide LogicKey, CreateServerBundle;
    assert (bundles + [b])[..|bundles|] == bundles;
  }

  lemma {:induction false} WrittenAt(project: string, kv: Kv, manifest: Manifest, push: nat, n: nat, namespace: string, name: string)
    requires ':' !in namespace && ':' !in name && n <= |manifest.bundles|
    ensures LeftAt(project, kv, Written(kv, PushWrites(project, manifest, push), n + 1), manifest.bundles[..n], push, namespace, name)
  {
    hide EdgeBundles, CreateServerBundle, LatestKey, LogicKey;
    var writes := PushWrites(project, manifest, push);
    if n == 0 {
      LatestApart(project, namespace, name);
      assert Written(kv, writes, 0) == kv;
    } else {
      var b := manifest.bundles[n - 1];
      WrittenAt(project, kv, manifest, push, n - 1, namespace, name);
      assert manifest.bundles[..n] == manifest.bundles[..n - 1] + [b];
      assert writes[n] == BundleWrites(project, manifest.bundles, push)[n - 1];
      hide LeftAt;
      OneMoreWritten(project, kv, Written(kv, writes, n), manifest.bundles[..n - 1], b, push, namespace, name);
    }
  }

  // The store before the push under way, if there is one.
  ghost function Settled(s: State): Kv {
    if s.done == |s.writes| then s.kv else s.base
  }

  lemma {:induction false} StepStores(project: string, s: State, step: Step, namespace: string, name: string)
    requires ':' !in namespace && ':' !in name && Inv(project, s)
    requires Stores(project, Settled(s), Completed(s), namespace, name)
    ensures Stores(project, Settled(Next(project, s, step)), Completed(Next(project, s, step)), namespace, name)
  {
    hide KvOk, CacheOk, LogicKey, Load, Stores, PushWrites, Written;
    var t := Next(project, s, step);
    if step.WriteNext? && s.done < |s.writes| && s.done + 1 == |s.writes| {
      LastWriteSettles(project, s);
      PushStores(project, s.base, s.history, namespace, name);
    } else if step.Begin? && s.done == |s.writes| {
      assert (s.history + [step.manifest])[..|s.history|] == s.history;
      assert Completed(t) == Completed(s) && Settled(t) == Settled(s) by { BeginSettles(project, s, step.manifest); }
    } else {
      assert Completed(t) == Completed(s) && Settled(t) == Settled(s);
    }
  }

  lemma {:induction false} LastWriteSettles(project: string, s: State)
    requires Inv(project, s) && s.done < |s.writes| && s.done + 1 == |s.writes|
    ensures var t := Next(project, s, WriteNext);
            Settled(t) == Written(s.base, PushWrites(project, s.history[|s.history| - 1], |s.history|), |s.writes|)
            && Completed(t) == s.history && Completed(s) == s.history[..|s.history| - 1] && Settled(s) == s.base
  {
    hide KvOk, CacheOk, PushWrites;
  }

  lemma {:induction false} BeginSettles(project: string, s: State, manifest: Manifest)
    requires Inv(project, s) && s.done == |s.writes|
    ensures var t := Next(project, s, Begin(manifest));
            Completed(t) == Completed(s) && Settled(t) == Settled(s)
  {
    hide KvOk, CacheOk, EdgeBundles, BundleWrites, Written;
    assert (s.history + [manifest])[..|s.history|] == s.history;
  }

  lemma {:induction false} PushStores(project: string, kv: Kv, history: seq<Manifest>, namespace: string, name: string)
    requires ':' !in namespace && ':' !in name && history != []
    requires Stores(project, kv, history[..|history| - 1], namespace, name)
    ensures var writes := PushWrites(project, history[|history| - 1], |history|);
            Stores(project, Written(kv, writes, |writes|), history, namespace, name)
  {
    hide LogicKey, Written, CreateServerBundle;
    var manifest := history[|history| - 1];
    WrittenAt(project, kv, manifest, |history|, |manifest.bundles|, namespace, name);
    assert manifest.bundles[..|manifest.bundles|] == manifest.bundles;
  }

  lemma {:induction false} RunStores(project: string, s: State, steps: seq<Step>, namespace: string, name: string)
    requires ':' !in namespace && ':' !in name && Inv(project, s)
    requires Stores(project, Settled(s), Completed(s), namespace, name)
    ensures var t := Run(project, s, steps); Stores(project, Settled(t), Completed(t), namespace, name)
    decreases |steps|
  {
    hide Inv, Stores, Settled, Completed, Next;
    if steps != [] {
      StepKeepsInv(project, s, steps[0]);
      StepStores(project, s, steps[0], namespace, name);
      RunStores(project, Next(project, s, steps[0]), steps[1..], namespace, name);
    }
  }

  lemma {:induction false} LatestStays(project: string, kv: Kv, manifest: Manifest, push: nat, n: nat)
    requires 0 < n <= |manifest.bundles| + 1
    ensures var after := Written(kv, PushWrites(project, manifest, push), n);
            LatestKey(project) in after
            && after[LatestKey(project)] == Latest(manifest.version, EdgeBundles(manifest.bundles, push))
  {
    hide EdgeBundles, LatestKey, LogicKey;
    var writes := PushWrites(project, manifest, push);
    if n > 1 {
      LatestStays(project, kv, manifest, push, n - 1);
      assert writes[n - 1] == BundleWrites(project, manifest.bundles, push)[n - 2];
      LatestApart(project, manifest.bundles[n - 2].namespace, manifest.bundles[n - 2].name);
    }
  }

  lemma {:induction false} EdgeBundleOf(bundles: seq<Bundle>, push: nat, x: ServerBundle)
    requires x in EdgeBundles(bundles, push).Values
    ensures LastIn(bundles, x.namespace, x.name).Some?
  {
    var front, b := bundles[..|bundles| - 1], bundles[|bundles| - 1];
    if x != CreateServerBundle(b, push) {
      EdgeBundleOf(front, push, x);
    }
  }

  // What a fresh server would cache from the latest document.
  ghost function LatestView(project: string, kv: Kv): BundleCache {
    if LatestKey(project) in kv && kv[LatestKey(project)].Latest?
    then CacheLatest(project, map[], kv[LatestKey(project)].bundles) else map[]
  }

  lemma {:induction false} ViewNamesManifest(project: string, s: State, namespace: string, name: string)
    requires ':' !in namespace && ':' !in name && Inv(project, s) && s.history != [] && s.done > 0
    requires LogicKey(project, namespace, name) in LatestView(project, s.kv)
    ensures LastIn(s.history[|s.history| - 1].bundles, namespace, name).Some?
  {
    var manifest, push := s.history[|s.history| - 1], |s.history|;
    var bundles := EdgeBundles(manifest.bundles, push);
    var key := LogicKey(project, namespace, name);
    LatestStays(project, s.base, manifest, push, s.done);
    CacheAllFrom(project, bundles, SortedKeys(CodePoints, bundles.Keys), key);
    KeyIdentifies(project, namespace, name);
    EdgeBundleOf(manifest.bundles, push, LatestView(project, s.kv)[key]);
  }

  // Between pushes a cold load returns, field by field, the last bundle pushed under the
  // name in the whole history, and nothing if there never was one.
  lemma {:induction false} LastWriterWins(project: string, steps: seq<Step>, namespace: string, name: string)
    requires ':' !in namespace && ':' !in name
    requires var s := Run(project, INITIAL, steps); s.done == |s.writes|
    ensures var s := Run(project, INITIAL, steps);
            var r := ColdLoad(project, s.kv, LogicKey(project, namespace, name));
            match r
            case Some(x) => PublishedLast(s.history, namespace, name, x)
            case None => NeverPushed(s.history, namespace, name)
  {
    ColdLoadIsLastPushed(project, steps, namespace, name);
    LastPushedIs(Run(project, INITIAL, steps).history, namespace, name);
  }

  lemma {:induction false} ColdLoadIsLastPushed(project: string, steps: seq<Step>, namespace: string, name: string)
    requires ':' !in namespace && ':' !in name
    requires var s := Run(project, INITIAL, steps); s.done == |s.writes|
    ensures var s := Run(project, INITIAL, steps);
            ColdLoad(project, s.kv, LogicKey(project, namespace, name)) == LastPushed(s.history, namespace, name)
  {
    var s := Run(project, INITIAL, steps);
    Reachable(project, steps);
    RunStores(project, INITIAL, steps, namespace, name);
    ColdLoadIs(project, s.kv, LogicKey(project, namespace, name));
    hide LatestView, ColdLoad, LogicKey, KvOk, CacheOk, Run, PushWrites;
    if s.history != [] && LogicKey(project, namespace, name) in LatestView(project, s.kv) {
      hide *;
      ViewNamesManifest(project, s, namespace, name);
    }
  }

  // A cold load reads the key's own document, else the latest one.
  lemma {:induction false} ColdLoadIs(project: string, kv: Kv, key: string)
    ensures ColdLoad(project, kv, key) ==
            if key in kv && kv[key].Single? then Some(kv[key].bundle) else LookUp(LatestView(project, kv), key)
  {
  }

  // ---------- the cache is transparent ----------

  type Name = (string, string)

  // What the server can see of a bundle: all but the number of its push.
  function Shown(b: ServerBundle): ServerBundle {
    b.(push := 0)
  }

  function ShownAnswer(r: Option<ServerBundle>): Option<ServerBundle> {
    match r
    case Some(b) => Some(Shown(b))
    case None => None
  }

  // The answers a server gives to a sequence of loads with no write in between.
  ghost function Answers(project: string, kv: Kv, cache: BundleCache, names: seq<Name>): seq<Option<ServerBundle>>
    decreases |names|
  {
    if names == [] then []
    else
      var (after, r) := Load(project, kv, cache, LogicKey(project, names[0].0, names[0].1));
      [ShownAnswer(r)] + Answers(project, kv, after, names[1..])
  }

  ghost function ColdAnswers(project: string, kv: Kv, names: seq<Name>): seq<Option<ServerBundle>>
    decreases |names|
  {
    if names == [] then []
    else [ShownAnswer(ColdLoad(project, kv, LogicKey(project, names[0].0, names[0].1)))] + ColdAnswers(project, kv, names[1..])
  }

  // The latest document and the keys' own documents do not disagree.
  ghost predicate Agreeing(project: string, kv: Kv) {
    forall k :: k in LatestView(project, kv) && k in kv ==> kv[k].Single? && Shown(kv[k].bundle) == Shown(LatestView(project, kv)[k])
  }

  ghost predicate Faithful(project: string, kv: Kv, cache: BundleCache) {
    forall k :: k in cache ==> ShownAnswer(ColdLoad(project, kv, k)) == Some(Shown(cache[k]))
  }

  lemma {:induction false} LoadStaysFaithful(project: string, kv: Kv, cache: BundleCache, key: string)
    requires Agreeing(project, kv) && Faithful(project, kv, cache)
    ensures ShownAnswer(Load(project, kv, cache, key).1) == ShownAnswer(ColdLoad(project, kv, key))
    ensures Faithful(project, kv, Load(project, kv, cache, key).0)
  {
    var view := LatestView(project, kv);
    var after := Load(project, kv, cache, key).0;
    LoadAddsView(project, kv, cache, key);
    ColdLoadIs(project, kv, key);
    hide LatestView, ColdLoad, Load;
    forall k | k in after ensures ShownAnswer(ColdLoad(project, kv, k)) == Some(Shown(after[k])) {
      ColdLoadIs(project, kv, k);
    }
    LoadKeeps(project, kv, cache, key);
  }

  lemma {:induction false} LoadAddsView(project: string, kv: Kv, cache: BundleCache, key: string)
    ensures var (after, r) := Load(project, kv, cache, key);
            || (key in cache && after == cache)
            || (key !in cache && key in kv && kv[key].Single? && after == cache[key := kv[key].bundle])
            || (key !in cache && !(key in kv && kv[key].Single?) && after == cache + LatestView(project, kv))
  {
    if LatestKey(project) in kv && kv[LatestKey(project)].Latest? {
      var bundles := kv[LatestKey(project)].bundles;
      CacheAllAdds(project, cache, bundles, SortedKeys(CodePoints, bundles.Keys));
    } else {
      assert cache + map[] == cache;
    }
  }

  lemma {:induction false} FaithfulAnswers(project: string, kv: Kv, cache: BundleCache, names: seq<Name>)
    requires Agreeing(project, kv) && Faithful(project, kv, cache)
    ensures Answers(project, kv, cache, names) == ColdAnswers(project, kv, names)
    decreases |names|
  {
    if names != [] {
      hide Agreeing, Faithful, Load, LogicKey, ColdLoad;
      var key := LogicKey(project, names[0].0, names[0].1);
      LoadStaysFaithful(project, kv, cache, key);
      FaithfulAnswers(project, kv, Load(project, kv, cache, key).0, names[1..]);
    }
  }

  // Some name has no key in the store.
  lemma {:induction false} FreshName(project: string, keys: set<string>) returns (name: string)
    ensures LogicKey(project, "", name) !in keys
  {
    var n := LongestKey(keys);
    name := seq(n + 1, i => 'x');
    assert |LogicKey(project, "", name)| > n;
  }

  lemma {:induction false} LongestKey(keys: set<string>) returns (n: nat)
    ensures forall k :: k in keys ==> |k| <= n
    decreases keys
  {
    n := 0;
    if keys != {} {
      var k :| k in keys;
      var m := LongestKey(keys - {k});
      n := if |k| > m then |k| else m;
    }
  }

  ghost predicate Transparent(project: string, kv: Kv, cache: BundleCache) {
    forall names :: Answers(project, kv, cache, names) == ColdAnswers(project, kv, names)
  }

  // With no write in between, a server answers every sequence of loads as if it had no
  // cache, if and only if the documents agree and what it has cached already is what a
  // cold load shows. If the documents do not agree, asking for an unknown name first
  // brings in the other answer; a stale entry is shown by asking for its name.
  lemma {:induction false} CacheTransparent(project: string, kv: Kv, cache: BundleCache)
    requires WellTyped(project, kv) && forall k :: k in cache ==> KeyOf(project, cache[k]) == k
    ensures Transparent(project, kv, cache) <==> Agreeing(project, kv) && Faithful(project, kv, cache)
  {
    if !Agreeing(project, kv) {
      var names := Revealing(project, kv, cache);
    } else if !Faithful(project, kv, cache) {
      var names := RevealingEntry(project, kv, cache);
    } else {
      forall names ensures Answers(project, kv, cache, names) == ColdAnswers(project, kv, names) {
        FaithfulAnswers(project, kv, cache, names);
      }
    }
  }

  lemma {:induction false} RevealingEntry(project: string, kv: Kv, cache: BundleCache) returns (names: seq<Name>)
    requires !Faithful(project, kv, cache) && forall k :: k in cache ==> KeyOf(project, cache[k]) == k
    ensures Answers(project, kv, cache, names) != ColdAnswers(project, kv, names)
  {
    hide ColdLoad, LogicKey;
    var k :| k in cache && ShownAnswer(ColdLoad(project, kv, k)) != Some(Shown(cache[k]));
    names := [(cache[k].namespace, cache[k].name)];
    assert Answers(project, kv, cache, names)[0] == Some(Shown(cache[k]));
    assert ColdAnswers(project, kv, names)[0] == ShownAnswer(ColdLoad(project, kv, k));
  }

  lemma {:induction false} Revealing(project: string, kv: Kv, cache: BundleCache) returns (names: seq<Name>)
    requires WellTyped(project, kv) && !Agreeing(project, kv)
    ensures Answers(project, kv, cache, names) != ColdAnswers(project, kv, names)
  {
    var view := LatestView(project, kv);
    var k :| k in view && k in kv && !(kv[k].Single? && Shown(kv[k].bundle) == Shown(view[k]));
    var bundles := kv[LatestKey(project)].bundles;
    CacheAllFrom(project, bundles, SortedKeys(CodePoints, bundles.Keys), k);
    var b := view[k];
    LatestApart(project, b.namespace, b.name);
    var unused := FreshName(project, kv.Keys + cache.Keys);
    var key := LogicKey(project, "", unused);
    names := [("", unused), (b.namespace, b.name)];
    assert names[1..] == [(b.namespace, b.name)];
    hide LatestView, LogicKey, ColdLoad;
    assert key !in kv && key !in cache;
    LoadAddsView(project, kv, cache, key);
    var after := Load(project, kv, cache, key).0;
    assert after == cache + view;
    ColdLoadIs(project, kv, k);
    assert Load(project, kv, after, k).1 == Some(b);
    assert Answers(project, kv, after, names[1..])[0] == Some(Shown(b));
    assert ColdAnswers(project, kv, names[1..])[0] == Some(Shown(kv[k].bundle));
    assert Answers(project, kv, cache, names)[1] != ColdAnswers(project, kv, names)[1];
  }

  // So it is for every server in every reachable state, whatever it has loaded before.
  lemma {:induction false} TransparentServer(project: string, steps: seq<Step>, server: nat)
    ensures var s := Run(project, INITIAL, steps);
            Transparent(project, s.kv, CacheOf(s, server)) <==>
            Agreeing(project, s.kv) && Faithful(project, s.kv, CacheOf(s, server))
  {
    hide Transparent, Agreeing, Faithful, Run, LogicKey;
    var s := Run(project, INITIAL, steps);
    Reachable(project, steps);
    CacheOfOk(project, s, server);
    CacheTransparent(project, s.kv, CacheOf(s, server));
  }

  // ---------- after a push, and in the middle of one ----------

  // Names as file paths give them: no colon anywhere, no slash in a name.
  predicate PlainManifest(manifest: Manifest) {
    forall b :: b in manifest.bundles ==> ':' !in b.namespace && ':' !in b.name && '/' !in b.name
  }

  lemma {:induction false} EdgeAt(bundles: seq<Bundle>, push: nat, namespace: string, name: string)
    requires (forall b :: b in bundles ==> '/' !in b.name) && '/' !in name
    ensures match LastIn(bundles, namespace, name)
            case Some(b) => namespace + "/" + name in EdgeBundles(bundles, push)
                            && EdgeBundles(bundles, push)[namespace + "/" + name] == CreateServerBundle(b, push)
            case None => namespace + "/" + name !in EdgeBundles(bundles, push)
  {
    if bundles != [] {
      var front, b := bundles[..|bundles| - 1], bundles[|bundles| - 1];
      assert b in bundles && forall x :: x in front ==> x in bundles;
      EdgeAt(front, push, namespace, name);
      if b.namespace + "/" + b.name == namespace + "/" + name {
        PathIdentifies(b.namespace, b.name, namespace, name);
      }
    }
  }

  lemma {:induction false} EdgeFrom(bundles: seq<Bundle>, push: nat, x: ServerBundle)
    requires x in EdgeBundles(bundles, push).Values
    ensures exists b :: b in bundles && x == CreateServerBundle(b, push)
  {
    var front, b := bundles[..|bundles| - 1], bundles[|bundles| - 1];
    if x == CreateServerBundle(b, push) {
      assert b in bundles;
    } else {
      EdgeFrom(front, push, x);
      var c :| c in front && x == CreateServerBundle(c, push);
      assert c in bundles;
    }
  }

  // What the latest document shows of a name is what its own manifest says of it.
  lemma {:induction false} ViewIsLast(project: string, s: State, k: string)
    requires Inv(project, s) && s.history != [] && s.done > 0
    requires PlainManifest(s.history[|s.history| - 1]) && k in LatestView(project, s.kv)
    ensures var x := LatestView(project, s.kv)[k];
            var last := LastIn(s.history[|s.history| - 1].bundles, x.namespace, x.name);
            && k == KeyOf(project, x) && last.Some? && x == CreateServerBundle(last.value, |s.history|)
            && last.value in s.history[|s.history| - 1].bundles
            && ':' !in x.namespace && ':' !in x.name
  {
    var manifest, push := s.history[|s.history| - 1], |s.history|;
    var bundles := EdgeBundles(manifest.bundles, push);
    LatestStays(project, s.base, manifest, push, s.done);
    CacheAllFrom(project, bundles, SortedKeys(CodePoints, bundles.Keys), k);
    var x := LatestView(project, s.kv)[k];
    hide LatestView, KvOk, CacheOk, LogicKey, LatestKey, Written, PushWrites;
    EdgeFrom(manifest.bundles, push, x);
    EdgeBundleOf(manifest.bundles, push, x);
    EdgeAt(manifest.bundles, push, x.namespace, x.name);
    LastIsIn(manifest.bundles, x.namespace, x.name);
    EdgeValueOwn(manifest.bundles, push, x);
  }

  lemma {:induction false} LastIsIn(bundles: seq<Bundle>, namespace: string, name: string)
    requires LastIn(bundles, namespace, name).Some?
    ensures var b := LastIn(bundles, namespace, name).value; b in bundles && b.namespace == namespace && b.name == name
  {
    var b := bundles[|bundles| - 1];
    if !(b.namespace == namespace && b.name == name) {
      LastIsIn(bundles[..|bundles| - 1], namespace, name);
    }
  }

  lemma {:induction false} EdgeValueOwn(bundles: seq<Bundle>, push: nat, x: ServerBundle)
    requires x in EdgeBundles(bundles, push).Values
    ensures var j := x.namespace + "/" + x.name; j in EdgeBundles(bundles, push) && EdgeBundles(bundles, push)[j] == x
  {
    var front, b := bundles[..|bundles| - 1], bundles[|bundles| - 1];
    var j :| j in EdgeBundles(bundles, push) && EdgeBundles(bundles, push)[j] == x;
    if j != b.namespace + "/" + b.name {
      assert j in EdgeBundles(front, push) && EdgeBundles(front, push)[j] == x;
      assert x in EdgeBundles(front, push).Values;
      EdgeKeyOfValue(front, push, j);
    }
  }

  lemma {:induction false} EdgeKeyOfValue(bundles: seq<Bundle>, push: nat, j: string)
    requires j in EdgeBundles(bundles, push)
    ensures var x := EdgeBundles(bundles, push)[j]; j == x.namespace + "/" + x.name
  {
    var b := bundles[|bundles| - 1];
    if j != b.namespace + "/" + b.name {
      EdgeKeyOfValue(bundles[..|bundles| - 1], push, j);
    }
  }

  // What the store holds under the own key of a bundle of the last manifest is what
  // that manifest says, up to the number of the push. A caller can look this up.
  ghost predicate Follows(project: string, s: State, b: Bundle)
    requires s.history != []
  {
    var key := LogicKey(project, b.namespace, b.name);
    b.namespace != "" && b.name != "" && key in s.kv ==>
      && s.kv[key].Single?
      && match LastIn(s.history[|s.history| - 1].bundles, b.namespace, b.name)
         case Some(last) => Publishes(s.kv[key].bundle, last)
         case None => false
  }

  lemma {:induction false} PublishesIs(x: ServerBundle, b: Bundle, push: nat)
    ensures Publishes(x, b) <==> Shown(x) == Shown(CreateServerBundle(b, push))
  {
  }

  // At every step of a push from its latest write on, and after it: the cache of a
  // server is transparent if and only if what it has cached is what a cold load shows,
  // and every bundle of the manifest whose own key is in the store already has its new
  // content there.
  lemma {:induction false} TransparentDuringPush(project: string, steps: seq<Step>, server: nat)
    requires var s := Run(project, INITIAL, steps);
             s.history != [] && s.done > 0 && PlainManifest(s.history[|s.history| - 1])
    ensures var s := Run(project, INITIAL, steps);
            Transparent(project, s.kv, CacheOf(s, server)) <==>
            && Faithful(project, s.kv, CacheOf(s, server))
            && forall b :: b in s.history[|s.history| - 1].bundles ==> Follows(project, s, b)
  {
    hide Transparent, Faithful, Follows;
    var s := Run(project, INITIAL, steps);
    Reachable(project, steps);
    TransparentServer(project, steps, server);
    AgreeingIsFollowing(project, s);
  }

  lemma {:induction false} AgreeingIsFollowing(project: string, s: State)
    requires Inv(project, s) && s.history != [] && s.done > 0 && PlainManifest(s.history[|s.history| - 1])
    ensures Agreeing(project, s.kv) <==> forall b :: b in s.history[|s.history| - 1].bundles ==> Follows(project, s, b)
  {
    hide Inv, LatestView, PlainManifest, LogicKey, Shown, CreateServerBundle, Publishes;
    var bundles := s.history[|s.history| - 1].bundles;
    forall x, b ensures Publishes(x, b) <==> Shown(x) == Shown(CreateServerBundle(b, |s.history|)) {
      PublishesIs(x, b, |s.history|);
    }
    if Agreeing(project, s.kv) {
      forall b | b in bundles ensures Follows(project, s, b) {
        if b.namespace != "" && b.name != "" {
          var key := LogicKey(project, b.namespace, b.name);
          InView(project, s, b);
          ViewIsLast(project, s, key);
          var x := LatestView(project, s.kv)[key];
          PlainIn(project, s, b);
          SameKeySameName(project, x.namespace, x.name, b.namespace, b.name);
        }
      }
    }
    if forall b :: b in bundles ==> Follows(project, s, b) {
      forall k | k in LatestView(project, s.kv) && k in s.kv
        ensures s.kv[k].Single? && Shown(s.kv[k].bundle) == Shown(LatestView(project, s.kv)[k])
      {
        ViewIsLast(project, s, k);
        ViewIsNamed(project, s.kv, k);
        var x := LatestView(project, s.kv)[k];
        var last := LastIn(bundles, x.namespace, x.name).value;
        LastIsIn(bundles, x.namespace, x.name);
        assert Follows(project, s, last);
      }
    }
  }

  lemma {:induction false} PlainIn(project: string, s: State, b: Bundle)
    requires s.history != [] && PlainManifest(s.history[|s.history| - 1]) && b in s.history[|s.history| - 1].bundles
    ensures ':' !in b.namespace && ':' !in b.name
  {
  }

  // Bundles without a namespace or a name are never cached from the latest document.
  lemma {:induction false} ViewIsNamed(project: string, kv: Kv, k: string)
    requires k in LatestView(project, kv)
    ensures LatestView(project, kv)[k].namespace != "" && LatestView(project, kv)[k].name != ""
  {
    var bundles := kv[LatestKey(project)].bundles;
    CacheAllNamed(project, bundles, SortedKeys(CodePoints, bundles.Keys), k);
  }

  lemma {:induction false} CacheAllNamed(project: string, bundles: map<string, ServerBundle>, keys: seq<string>, k: string)
    requires (forall j :: j in keys ==> j in bundles) && k in CacheAll(project, map[], bundles, keys)
    ensures var b := CacheAll(project, map[], bundles, keys)[k]; b.namespace != "" && b.name != ""
  {
    hide LogicKey;
    var front, last := keys[..|keys| - 1], keys[|keys| - 1];
    var before, view := CacheAll(project, map[], bundles, front), CacheAll(project, map[], bundles, keys);
    if k in before && view[k] == before[k] {
      CacheAllNamed(project, bundles, front, k);
    }
  }

  // A bundle is pushed, then pushed again with what c says, up to the latest write.
  function Repush(b: Bundle, c: Bundle, version: string): seq<Step> {
    [Begin(Manifest(version, [b])), WriteNext, WriteNext, Begin(Manifest(version, [c])), WriteNext]
  }

  // In that state the cache of a server is transparent if and only if c is what b was:
  // with new content a server can answer the new bundle or the old one, by what it
  // loads first.
  lemma {:induction false} TransparentAfterRepush(project: string, b: Bundle, c: Bundle, version: string, server: nat)
    requires b.namespace == c.namespace != "" && b.name == c.name != ""
    requires ':' !in b.namespace && ':' !in b.name && '/' !in b.name
    ensures var s := Run(project, INITIAL, Repush(b, c, version));
            Transparent(project, s.kv, CacheOf(s, server)) <==> exists x :: Publishes(x, b) && Publishes(x, c)
  {
    var s := Run(project, INITIAL, Repush(b, c, version));
    RepushState(project, b, c, version);
    LatestApart(project, b.namespace, b.name);
    TransparentDuringPush(project, Repush(b, c, version), server);
    var old_ := CreateServerBundle(b, 1);
    forall x | Publishes(x, b) && Publishes(x, c) ensures Publishes(old_, c) {
      PublishesIs(x, b, 1);
      PublishesIs(x, c, 1);
      PublishesIs(old_, c, 1);
    }
    Published(b, 1);
    hide Run, Transparent, LogicKey, LatestKey, Repush, Publishes, CreateServerBundle;
    var bundles := [c];
    assert bundles[..0] == [];
    assert LastIn(bundles, c.namespace, c.name) == Some(c);
    assert (forall x :: x in bundles ==> Follows(project, s, x)) <==> Follows(project, s, c) by {
      assert c in bundles;
    }
    assert Follows(project, s, c) <==> Publishes(old_, c);
  }

  // The same with a server that loads the bundle between the pushes, and both pushes
  // complete.
  function Warmed(b: Bundle, c: Bundle, version: string, server: nat): seq<Step> {
    [Begin(Manifest(version, [b])), WriteNext, WriteNext, LoadStep(server, b.namespace, b.name),
     Begin(Manifest(version, [c])), WriteNext, WriteNext]
  }

  ghost predicate OneAnswer(answers: seq<Option<ServerBundle>>, b: Bundle) {
    |answers| == 1 && answers[0].Some? && Publishes(answers[0].value, b)
  }

  // That server goes on answering the old bundle where a cold load gives the new one.
  lemma {:induction false} WarmServerGoesStale(project: string, b: Bundle, c: Bundle, version: string, server: nat)
    requires b.namespace == c.namespace && b.name == c.name
    ensures var s := Run(project, INITIAL, Warmed(b, c, version, server));
            && s.done == |s.writes|
            && OneAnswer(Answers(project, s.kv, CacheOf(s, server), [(b.namespace, b.name)]), b)
            && OneAnswer(ColdAnswers(project, s.kv, [(b.namespace, b.name)]), c)
  {
    var key := LogicKey(project, b.namespace, b.name);
    var steps := Warmed(b, c, version, server);
    LatestApart(project, b.namespace, b.name);
    OneBundleWrites(project, b, version, 1);
    OneBundleWrites(project, c, version, 2);
    RunFirst(project, INITIAL, steps);
    hide EdgeBundles, CreateServerBundle, LatestKey, LogicKey, PushWrites, Run;
    var s3 := Next(project, Next(project, Next(project, INITIAL, steps[0]), steps[1]), steps[2]);
    assert s3.kv[key] == Single(CreateServerBundle(b, 1));
    var s4 := Next(project, s3, steps[3]);
    assert CacheOf(s4, server) == map[key := CreateServerBundle(b, 1)];
    var s7 := Next(project, Next(project, Next(project, s4, steps[4]), steps[5]), steps[6]);
    assert s7.kv[key] == Single(CreateServerBundle(c, 2));
    assert s7.caches == s4.caches;
    assert [(b.namespace, b.name)][1..] == [];
    PublishesIs(Shown(CreateServerBundle(b, 1)), b, 1);
    PublishesIs(Shown(CreateServerBundle(c, 2)), c, 2);
  }

  lemma {:induction false} RepushState(project: string, b: Bundle, c: Bundle, version: string)
    ensures var s := Run(project, INITIAL, Repush(b, c, version));
            && s.history == [Manifest(version, [b]), Manifest(version, [c])] && s.done == 1 && s.caches == map[]
            && s.kv == map[LatestKey(project) := Latest(version, EdgeBundles([b], 1))]
                          [LogicKey(project, b.namespace, b.name) := Single(CreateServerBundle(b, 1))]
                          [LatestKey(project) := Latest(version, EdgeBundles([c], 2))]
  {
    hide EdgeBundles, CreateServerBundle, LatestKey, LogicKey, Run;
    var steps := Repush(b, c, version);
    OneBundleWrites(project, b, version, 1);
    OneBundleWrites(project, c, version, 2);
    RunFirst(project, INITIAL, steps);
    var s3 := Next(project, Next(project, Next(project, INITIAL, steps[0]), steps[1]), steps[2]);
    var s5 := Next(project, Next(project, s3, steps[3]), steps[4]);
  }

  lemma {:induction false} OneBundleWrites(project: string, b: Bundle, version: string, push: nat)
    ensures PushWrites(project, Manifest(version, [b]), push) ==
            [Write(LatestKey(project), Latest(version, EdgeBundles([b], push))),
             Write(LogicKey(project, b.namespace, b.name), Single(CreateServerBundle(b, push)))]
  {
    hide EdgeBundles, CreateServerBundle, LatestKey, LogicKey;
    assert [b][1..] == [];
  }

  ghost function After(project: string, s: State, steps: seq<Step>): State
    requires |steps| == 5 || |steps| == 7
  {
    var t := Next(project, Next(project, Next(project, Next(project, Next(project, s, steps[0]), steps[1]), steps[2]), steps[3]), steps[4]);
    if |steps| == 5 then t else Next(project, Next(project, t, steps[5]), steps[6])
  }

  // A run of five or seven steps, written out.
  lemma {:induction false} RunFirst(project: string, s: State, steps: seq<Step>)
    requires |steps| == 5 || |steps| == 7
    ensures Run(project, s, steps) == After(project, s, steps)
  {
    hide Next;
    var s1 := Next(project, s, steps[0]);
    var s2 := Next(project, s1, steps[1]);
    var s3 := Next(project, s2, steps[2]);
    var s4 := Next(project, s3, steps[3]);
    var s5 := Next(project, s4, steps[4]);
    assert steps[1..][1..] == steps[2..] && steps[2..][1..] == steps[3..] && steps[3..][1..] == steps[4..] && steps[4..][1..] == steps[5..];
    assert Run(project, s, steps) == Run(project, s1, steps[1..]);
    assert Run(project, s1, steps[1..]) == Run(project, s2, steps[2..]);
    assert Run(project, s2, steps[2..]) == Run(project, s3, steps[3..]);
    assert Run(project, s3, steps[3..]) == Run(project, s4, steps[4..]);
    assert Run(project, s4, steps[4..]) == Run(project, s5, steps[5..]);
    if |steps| == 7 {
      var s6 := Next(project, s5, steps[5]);
      assert steps[5..][1..] == steps[6..] && steps[6..][1..] == [];
      assert Run(project, s5, steps[5..]) == Run(project, s6, steps[6..]);
      assert Run(project, s6, steps[6..]) == Run(project, Next(project, s6, steps[6]), []);
    } else {
      assert steps[5..] == [];
    }
  }

  lemma {:induction false} AgreeingBetweenPushes(project: string, steps: seq<Step>)
    requires var s := Run(project, INITIAL, steps);
             s.done == |s.writes| && (s.history != [] ==> PlainManifest(s.history[|s.history| - 1]))
    ensures Agreeing(project, Run(project, INITIAL, steps).kv)
  {
    var s := Run(project, INITIAL, steps);
    Reachable(project, steps);
    forall k | k in LatestView(project, s.kv) && k in s.kv
      ensures s.kv[k] == Single(LatestView(project, s.kv)[k])
    {
      ViewMatchesOwnDoc(project, s, k);
    }
  }

  // Between pushes the documents agree: the cache of a server is transparent if and
  // only if what it has cached is what a cold load shows.
  lemma {:induction false} TransparentBetweenPushes(project: string, steps: seq<Step>, server: nat)
    requires var s := Run(project, INITIAL, steps);
             s.done == |s.writes| && (s.history != [] ==> PlainManifest(s.history[|s.history| - 1]))
    ensures var s := Run(project, INITIAL, steps);
            Transparent(project, s.kv, CacheOf(s, server)) <==> Faithful(project, s.kv, CacheOf(s, server))
  {
    hide Run, Agreeing, Faithful, Transparent;
    AgreeingBetweenPushes(project, steps);
    TransparentServer(project, steps, server);
  }

  // In particular a server that starts then answers every sequence of loads as if it
  // had no cache.
  lemma {:induction false} ColdServerIsTransparent(project: string, steps: seq<Step>, names: seq<Name>)
    requires var s := Run(project, INITIAL, steps);
             s.done == |s.writes| && (s.history != [] ==> PlainManifest(s.history[|s.history| - 1]))
    ensures var s := Run(project, INITIAL, steps);
            Answers(project, s.kv, map[], names) == ColdAnswers(project, s.kv, names)
  {
    hide Run, Agreeing;
    AgreeingBetweenPushes(project, steps);
    FaithfulAnswers(project, Run(project, INITIAL, steps).kv, map[], names);
  }

  lemma {:induction false} ViewMatchesOwnDoc(project: string, s: State, k: string)
    requires Inv(project, s) && s.done == |s.writes|
    requires s.history != [] ==> PlainManifest(s.history[|s.history| - 1])
    requires k in LatestView(project, s.kv) && k in s.kv
    ensures s.kv[k] == Single(LatestView(project, s.kv)[k])
  {
    assert s.history != [];
    var manifest, push := s.history[|s.history| - 1], |s.history|;
    ViewIsLast(project, s, k);
    FullyWritten(project, s);
    var x := LatestView(project, s.kv)[k];
    WrittenAt(project, s.base, manifest, push, |manifest.bundles|, x.namespace, x.name);
    hide Inv, LatestView, LogicKey, LatestKey, Written, PushWrites, PlainManifest, CreateServerBundle;
  }

  lemma {:induction false} FullyWritten(project: string, s: State)
    requires Inv(project, s) && s.history != [] && s.done == |s.writes|
    ensures var manifest := s.history[|s.history| - 1];
            && s.done == |manifest.bundles| + 1 && manifest.bundles[..|manifest.bundles|] == manifest.bundles
            && s.kv == Written(s.base, PushWrites(project, manifest, |s.history|), |manifest.bundles| + 1)
  {
    hide KvOk, CacheOk, EdgeBundles, Written;
  }

  // From the moment the latest document lands, at every step of the push, every
  // bundle of the manifest can be loaded cold, under its own name: either as this
  // push publishes it or as the pushes before it did.
  lemma {:induction false} AvailableMidPush(project: string, steps: seq<Step>, b: Bundle)
    requires var s := Run(project, INITIAL, steps);
             s.history != [] && s.done > 0 && PlainManifest(s.history[|s.history| - 1])
             && b in s.history[|s.history| - 1].bundles && b.namespace != "" && b.name != ""
    ensures var s := Run(project, INITIAL, steps);
            GoodAnswer(s, b, ColdLoad(project, s.kv, LogicKey(project, b.namespace, b.name)))
  {
    var s := Run(project, INITIAL, steps);
    Reachable(project, steps);
    RunStores(project, INITIAL, steps, b.namespace, b.name);
    assert b in s.history[|s.history| - 1].bundles;
    Available(project, s, b);
  }

  // The answer r to a load of b's name in the state s is what this push publishes of a
  // bundle of that name, or what the last push before it that had one published.
  ghost predicate GoodAnswer(s: State, b: Bundle, r: Option<ServerBundle>)
    requires s.history != []
  {
    var front, current := s.history[..|s.history| - 1], s.history[|s.history| - 1];
    && r.Some?
    && ((exists c :: c in current.bundles && Named(c, b.namespace, b.name) && Publishes(r.value, c) && r.value.push == |s.history|)
        || PublishedLast(front, b.namespace, b.name, r.value))
  }

  lemma {:induction false} NewAnswer(s: State, b: Bundle, c: Bundle)
    requires s.history != [] && c in s.history[|s.history| - 1].bundles && c.namespace == b.namespace && c.name == b.name
    ensures GoodAnswer(s, b, Some(CreateServerBundle(c, |s.history|)))
  {
    Published(c, |s.history|);
    hide Publishes, CreateServerBundle, PublishedLast;
    assert Named(c, b.namespace, b.name);
  }

  lemma {:induction false} OldAnswer(s: State, b: Bundle)
    requires s.history != [] && LastPushed(s.history[..|s.history| - 1], b.namespace, b.name).Some?
    ensures GoodAnswer(s, b, LastPushed(s.history[..|s.history| - 1], b.namespace, b.name))
  {
    LastPushedIs(s.history[..|s.history| - 1], b.namespace, b.name);
  }

  lemma {:induction false} Available(project: string, s: State, b: Bundle)
    requires Inv(project, s) && s.history != [] && s.done > 0
    requires PlainManifest(s.history[|s.history| - 1]) && b in s.history[|s.history| - 1].bundles
    requires b.namespace != "" && b.name != "" && Stores(project, Settled(s), Completed(s), b.namespace, b.name)
    ensures GoodAnswer(s, b, ColdLoad(project, s.kv, LogicKey(project, b.namespace, b.name)))
  {
    hide ColdLoad, GoodAnswer, LatestView, Written, PushWrites, Stores, Settled, Completed;
    var key := LogicKey(project, b.namespace, b.name);
    LatestApart(project, b.namespace, b.name);
    ColdLoadIs(project, s.kv, key);
    if key in s.kv {
      AvailableOwn(project, s, b);
    } else {
      AvailableView(project, s, b);
    }
  }

  lemma {:induction false} AvailableOwn(project: string, s: State, b: Bundle)
    requires Inv(project, s) && s.history != [] && s.done > 0
    requires PlainManifest(s.history[|s.history| - 1]) && b in s.history[|s.history| - 1].bundles
    requires LogicKey(project, b.namespace, b.name) in s.kv && s.kv[LogicKey(project, b.namespace, b.name)].Single?
    requires Stores(project, Settled(s), Completed(s), b.namespace, b.name)
    ensures GoodAnswer(s, b, Some(s.kv[LogicKey(project, b.namespace, b.name)].bundle))
  {
    var manifest := s.history[|s.history| - 1];
    var key := LogicKey(project, b.namespace, b.name);
    var sofar := manifest.bundles[..s.done - 1];
    WrittenAt(project, s.base, manifest, |s.history|, s.done - 1, b.namespace, b.name);
    InLast(manifest.bundles, b);
    if s.done == |s.writes| {
      FullyWritten(project, s);
    }
    hide Written, PushWrites, LogicKey, LatestKey, KvOk, CacheOk, GoodAnswer, LastPushed, CreateServerBundle;
    match LastIn(sofar, b.namespace, b.name) {
      case Some(c) =>
        LastIsIn(sofar, b.namespace, b.name);
        assert c in manifest.bundles;
        NewAnswer(s, b, c);
      case None =>
        OldAnswer(s, b);
    }
  }

  lemma {:induction false} AvailableView(project: string, s: State, b: Bundle)
    requires Inv(project, s) && s.history != [] && s.done > 0
    requires PlainManifest(s.history[|s.history| - 1]) && b in s.history[|s.history| - 1].bundles
    requires b.namespace != "" && b.name != ""
    ensures GoodAnswer(s, b, LookUp(LatestView(project, s.kv), LogicKey(project, b.namespace, b.name)))
  {
    var key := LogicKey(project, b.namespace, b.name);
    InView(project, s, b);
    ViewIsLast(project, s, key);
    var x := LatestView(project, s.kv)[key];
    SameKeySameName(project, x.namespace, x.name, b.namespace, b.name);
    hide Inv, LatestView, LogicKey, PlainManifest;
    hide GoodAnswer, CreateServerBundle;
    LastIsIn(s.history[|s.history| - 1].bundles, x.namespace, x.name);
    NewAnswer(s, b, LastIn(s.history[|s.history| - 1].bundles, x.namespace, x.name).value);
  }

  lemma {:induction false} InView(project: string, s: State, b: Bundle)
    requires Inv(project, s) && s.history != [] && s.done > 0
    requires PlainManifest(s.history[|s.history| - 1]) && b in s.history[|s.history| - 1].bundles
    requires b.namespace != "" && b.name != ""
    ensures LogicKey(project, b.namespace, b.name) in LatestView(project, s.kv)
  {
    var manifest, push := s.history[|s.history| - 1], |s.history|;
    var bundles := EdgeBundles(manifest.bundles, push);
    LatestStays(project, s.base, manifest, push, s.done);
    InLast(manifest.bundles, b);
    EdgeAt(manifest.bundles, push, b.namespace, b.name);
    LastIsIn(manifest.bundles, b.namespace, b.name);
    var keys := SortedKeys(CodePoints, bundles.Keys);
    CacheAllCovers(project, bundles, keys);
    assert b.namespace + "/" + b.name in Elements(keys);
  }

  lemma {:induction false} InLast(bundles: seq<Bundle>, b: Bundle)
    requires b in bundles
    ensures LastIn(bundles, b.namespace, b.name).Some?
  {
    var last := bundles[|bundles| - 1];
    if !(last.namespace == b.namespace && last.name == b.name) {
      assert bundles == bundles[..|bundles| - 1] + [last];
      InLast(bundles[..|bundles| - 1], b);
    }
  }
}
