// The in-process response cache of server.ts, keyed by the call's path and the
// canonical text of its parameters, in any interleaving of requests: a request
// looks up, runs, and stores later, and others may do the same in between.
module ResponseCache {
  import opened Text
  import opened Registry
  import opened EdgeServer
  import opened Canonical

  datatype Call = Call(origin: string, namespace: string, name: string, config: LogicConfig, params: Json)

  // The synthetic cache URL: what is left of the request URL, path and params.
  datatype CacheKey = CacheKey(origin: string, path: string, params: string)

  datatype Stored = Stored(body: string, status: int, expiresAt: int)

  type Entries = map<CacheKey, Stored>

  datatype Outcome = Hit(body: string, status: int) | Miss | Uncached | Forbidden

  function KeyFor(call: Call): CacheKey {
    CacheKey(call.origin, call.namespace + "/" + call.name, Stringify(call.params))
  }

  // An absent or empty access is public; an absent or empty cache setting is none.
  predicate CanCache(config: LogicConfig) {
    && (config.access.None? || config.access.value == "" || config.access.value == "public")
    && config.cache.Some? && config.cache.value != ""
  }

  function Multiplier(unit: char): nat {
    if unit == 's' then 1 else if unit == 'm' then 60 else if unit == 'h' then 3600 else if unit == 'd' then 86400 else 0
  }

  // digits followed by one of s, m, h, d; anything else means 0.
  function CacheSeconds(setting: Option<string>): nat {
    if setting.None? then 0 else
    var s := setting.value;
    var n := SpanLength(s, IsDigit);
    if n > 0 && n + 1 == |s| then DecimalValue(s[..n]) * Multiplier(s[n]) else 0
  }

  // A second, a minute, an hour and a day.
  ghost function SecondsIn(unit: char): nat
    requires unit in ['s', 'm', 'h', 'd']
  {
    match unit
    case 's' => 1
    case 'm' => 60
    case 'h' => 60 * 60
    case 'd' => 24 * 60 * 60
  }

  // A numeral, leading zeros and all, and a unit.
  ghost predicate IsSetting(s: string, digits: string, unit: char) {
    s == digits + [unit] && digits != [] && AllDigits(digits) && unit in ['s', 'm', 'h', 'd']
  }

  lemma {:induction false} SettingIs(s: string, digits: string, unit: char)
    requires IsSetting(s, digits, unit)
    ensures CacheSeconds(Some(s)) == DecimalValue(digits) * SecondsIn(unit)
  {
    SpanLengthIs(s, IsDigit, |digits|);
    assert s[..|digits|] == digits;
  }

  // A setting that is a numeral and a unit gives that many seconds, minutes, hours or
  // days; every other setting, and none, gives 0.
  lemma {:induction false} CacheSecondsOf(setting: Option<string>)
    ensures forall digits, unit :: setting.Some? && IsSetting(setting.value, digits, unit) ==>
              CacheSeconds(setting) == DecimalValue(digits) * SecondsIn(unit)
    ensures (forall digits, unit :: setting.None? || !IsSetting(setting.value, digits, unit)) ==> CacheSeconds(setting) == 0
  {
    if setting.Some? {
      var s := setting.value;
      forall digits, unit | IsSetting(s, digits, unit) ensures CacheSeconds(setting) == DecimalValue(digits) * SecondsIn(unit) {
        SettingIs(s, digits, unit);
      }
      var n := SpanLength(s, IsDigit);
      if n > 0 && n + 1 == |s| && s[n] in ['s', 'm', 'h', 'd'] {
        assert IsSetting(s, s[..n], s[n]);
      }
    }
  }

  // The entries after a lookup, and its outcome. Private logic is refused first.
  function LookUpResponse(entries: Entries, call: Call, now: int): (Entries, Outcome) {
    if "_" <= call.name then (entries, Forbidden)
    else if !CanCache(call.config) then (entries, Uncached)
    else
      var key := KeyFor(call);
      if key !in entries then (entries, Miss)
      else if entries[key].expiresAt > now then (entries, Hit(entries[key].body, entries[key].status))
      else (entries - {key}, Miss)
  }

  function StoreResponse(entries: Entries, call: Call, body: string, status: int, now: int): Entries {
    var ttl := CacheSeconds(call.config.cache);
    if CanCache(call.config) && ttl > 0 then entries[KeyFor(call) := Stored(body, status, now + ttl * 1000)] else entries
  }

  class Cache {
    var entries: Entries

    method LookUp(call: Call, now: int) returns (outcome: Outcome)
      modifies this
      ensures (entries, outcome) == LookUpResponse(old(entries), call, now)
    {
      if "_" <= call.name {
        return Forbidden;
      }
      if !CanCache(call.config) {
        return Uncached;
      }
      var key := KeyFor(call);
      if key in entries && entries[key].expiresAt > now {
        return Hit(entries[key].body, entries[key].status);
      }
      if key in entries {
        entries := entries - {key};
      }
      outcome := Miss;
    }

    method Store(call: Call, body: string, status: int, now: int)
      modifies this
      ensures entries == StoreResponse(old(entries), call, body, status, now)
    {
      if CanCache(call.config) {
        var ttl := CacheSeconds(call.config.cache);
        if ttl > 0 {
          entries := entries[KeyFor(call) := Stored(body, status, now + ttl * 1000)];
        }
      }
    }
  }

  // ---------- runs ----------

  // Each request is looked up once; one that missed may later store its response.
  datatype Event =
    | Look(id: nat, call: Call, now: int)
    | Put(id: nat, body: string, status: int, now: int)

  datatype State = State(entries: Entries, seen: set<nat>, running: map<nat, Call>)

  function Step(s: State, e: Event): State {
    match e
    case Look(id, call, now) =>
      if id in s.seen then s
      else
        var (entries, outcome) := LookUpResponse(s.entries, call, now);
        State(entries, s.seen + {id}, if outcome == Miss then s.running[id := call] else s.running)
    case Put(id, body, status, now) =>
      if id in s.running then
        State(StoreResponse(s.entries, s.running[id], body, status, now), s.seen, s.running - {id})
      else s
  }

  function After(events: seq<Event>): State {
    if events == [] then State(map[], {}, map[])
    else Step(After(events[..|events| - 1]), events[|events| - 1])
  }

  // Event i is the first lookup of its request, and it missed.
  ghost predicate MissedAt(events: seq<Event>, i: nat, id: nat, call: Call) {
    && i < |events| && events[i].Look? && events[i].id == id && events[i].call == call
    && id !in After(events[..i]).seen
    && LookUpResponse(After(events[..i]).entries, call, events[i].now).1 == Miss
  }

  // Event j stores what is cached under the key, for a call that missed at event i.
  ghost predicate StoredAt(events: seq<Event>, i: nat, j: nat, call: Call, key: CacheKey, stored: Stored) {
    && i < j < |events| && events[j].Put?
    && MissedAt(events, i, events[j].id, call)
    && KeyFor(call) == key && CanCache(call.config) && CacheSeconds(call.config.cache) > 0
    && stored == Stored(events[j].body, events[j].status, events[j].now + CacheSeconds(call.config.cache) * 1000)
  }

  lemma {:induction false} EarlierMiss(events: seq<Event>, i: nat, id: nat, call: Call)
    requires events != [] && MissedAt(events[..|events| - 1], i, id, call)
    ensures MissedAt(events, i, id, call)
  {
    assert events[..|events| - 1][..i] == events[..i];
  }

  lemma {:induction false} RunningMissed(events: seq<Event>, id: nat) returns (i: nat)
    requires id in After(events).running
    ensures MissedAt(events, i, id, After(events).running[id])
  {
    var front, last := events[..|events| - 1], events[|events| - 1];
    var before := After(front);
    if last.Look? && last.id == id && id !in before.seen && LookUpResponse(before.entries, last.call, last.now).1 == Miss {
      i := |events| - 1;
    } else {
      i := RunningMissed(front, id);
      EarlierMiss(events, i, id, before.running[id]);
    }
  }

  lemma {:induction false} EntryStored(events: seq<Event>, key: CacheKey) returns (i: nat, j: nat, call: Call)
    requires key in After(events).entries
    ensures StoredAt(events, i, j, call, key, After(events).entries[key])
  {
    hide KeyFor, CanCache, CacheSeconds;
    var front, last := events[..|events| - 1], events[|events| - 1];
    var before, after := After(front), After(events);
    if key in before.entries && before.entries[key] == after.entries[key] {
      i, j, call := EntryStored(front, key);
      EarlierMiss(events, i, events[j].id, call);
    } else {
      i := RunningMissed(front, last.id);
      j, call := |events| - 1, before.running[last.id];
      EarlierMiss(events, i, last.id, call);
    }
  }

  // ---------- soundness ----------

  // Names as parsePath gives them, parameters as JSON.parse gives them, and no
  // double quote before a colon in a parameter name.
  ghost predicate Proper(call: Call) {
    '/' !in call.name && Valid(call.params) && ClearKeys(call.params)
  }

  ghost predicate SameCall(a: Call, b: Call) {
    && a.origin == b.origin && a.namespace == b.namespace && a.name == b.name
    && MeaningOf(a.params) == MeaningOf(b.params)
  }

  // Two proper calls share a cache entry exactly when they are the same call.
  lemma {:induction false} KeyMeansCall(a: Call, b: Call)
    requires Proper(a) && Proper(b)
    ensures KeyFor(a) == KeyFor(b) <==> SameCall(a, b)
  {
    hide Stringify, MeaningOf, Valid, ClearKeys;
    CanonicalText(a.params, b.params);
    if a.namespace + "/" + a.name == b.namespace + "/" + b.name {
      PathIdentifies(a.namespace, a.name, b.namespace, b.name);
    }
  }

  // Logic whose answers may be kept: public, by default or by name, with a cache setting.
  ghost predicate IsCacheable(config: LogicConfig) {
    && (config.access == None || config.access == Some("") || config.access == Some("public"))
    && config.cache != None && config.cache != Some("")
  }

  // Private logic is refused, other logic is looked up exactly when it is cacheable.
  lemma {:induction false} LookedUp(entries: Entries, call: Call, now: int)
    ensures var outcome := LookUpResponse(entries, call, now).1;
            && (outcome == Forbidden <==> call.name != "" && call.name[0] == '_')
            && (outcome == Miss || outcome.Hit? <==> outcome != Forbidden && IsCacheable(call.config))
  {
    hide KeyFor;
    assert "_" <= call.name <==> call.name != "" && call.name[0] == '_';
  }

  // A hit in any run: the logic is public with a cache setting, and the response is
  // the one an earlier miss of the same call stored, less than its ttl before.
  lemma {:induction false} HitIsSound(events: seq<Event>, call: Call, now: int) returns (i: nat, j: nat)
    requires Proper(call) && forall e :: e in events && e.Look? ==> Proper(e.call)
    requires LookUpResponse(After(events).entries, call, now).1.Hit?
    ensures var hit := LookUpResponse(After(events).entries, call, now).1;
            && IsCacheable(call.config) && (call.name == "" || call.name[0] != '_')
            && i < j < |events| && events[i].Look? && events[j].Put? && events[i].id == events[j].id
            && MissedAt(events, i, events[i].id, events[i].call)
            && SameCall(events[i].call, call)
            && hit == Hit(events[j].body, events[j].status)
            && now - events[j].now < CacheSeconds(events[i].call.config.cache) * 1000
  {
    LookedUp(After(events).entries, call, now);
    hide KeyFor, CacheSeconds, SameCall, Proper, CanCache, IsCacheable;
    var first: Call;
    i, j, first := EntryStored(events, KeyFor(call));
    assert events[i] in events;
    KeyMeansCall(first, call);
  }

  // Event j stores the answer of the call that missed at event i, the first to do so.
  ghost predicate AnsweredAt(events: seq<Event>, i: nat, j: nat) {
    && i < j < |events| && events[i].Look? && events[j].Put? && events[i].id == events[j].id
    && MissedAt(events, i, events[i].id, events[i].call)
    && forall k :: i < k < j && events[k].Put? ==> events[k].id != events[i].id
  }

  // From event j on nothing touches the entry of this call before it expires: no later
  // answer to the same call is stored, and no look at it comes when it has expired.
  ghost predicate LeftAlone(events: seq<Event>, j: nat, call: Call, expiry: int) {
    && (forall k, l, other :: j < k < |events| && events[k].Put? && MissedAt(events, l, events[k].id, other) ==> !SameCall(other, call))
    && (forall k :: j < k < |events| && events[k].Look? && SameCall(events[k].call, call) ==> events[k].now < expiry)
  }

  // The converse: an answer stored for cacheable logic with a positive ttl is what every
  // look at the same call gets until it expires.
  lemma {:induction false} StoredIsHit(events: seq<Event>, i: nat, j: nat, call: Call, now: int)
    requires Proper(call) && forall e :: e in events && e.Look? ==> Proper(e.call)
    requires AnsweredAt(events, i, j)
    requires SameCall(events[i].call, call) && IsCacheable(events[i].call.config) && IsCacheable(call.config)
    requires CacheSeconds(events[i].call.config.cache) > 0
    requires var expiry := events[j].now + CacheSeconds(events[i].call.config.cache) * 1000;
             LeftAlone(events, j, call, expiry) && now < expiry
    ensures LookUpResponse(After(events).entries, call, now).1 == Hit(events[j].body, events[j].status)
  {
    var first := events[i].call;
    assert first == events[i].call && events[i] in events;
    KeyMeansCall(first, call);
    NotPrivate(events, i);
    hide KeyFor, CacheSeconds, Proper, MissedAt, LeftAlone;
    StaysStored(events, i, j, call, |events|);
    assert events[..|events|] == events;
  }

  lemma {:induction false} NotPrivate(events: seq<Event>, i: nat)
    requires i < |events| && events[i].Look? && MissedAt(events, i, events[i].id, events[i].call)
    ensures !("_" <= events[i].call.name)
  {
  }

  lemma {:induction false} StaysRunning(events: seq<Event>, i: nat, n: nat)
    requires i < n <= |events| && events[i].Look? && MissedAt(events, i, events[i].id, events[i].call)
    requires forall k :: i < k < n && events[k].Put? ==> events[k].id != events[i].id
    ensures var s := After(events[..n]); events[i].id in s.seen && events[i].id in s.running && s.running[events[i].id] == events[i].call
  {
    hide StoreResponse, LookUpResponse;
    assert events[..n][..n - 1] == events[..n - 1];
    if n > i + 1 {
      StaysRunning(events, i, n - 1);
    }
  }

  lemma {:induction false} StaysStored(events: seq<Event>, i: nat, j: nat, call: Call, n: nat)
    requires Proper(call) && forall e :: e in events && e.Look? ==> Proper(e.call)
    requires AnsweredAt(events, i, j) && j < n <= |events|
    requires KeyFor(events[i].call) == KeyFor(call) && IsCacheable(events[i].call.config)
    requires CacheSeconds(events[i].call.config.cache) > 0
    requires LeftAlone(events, j, call, events[j].now + CacheSeconds(events[i].call.config.cache) * 1000)
    ensures var entries := After(events[..n]).entries;
            && KeyFor(call) in entries
            && entries[KeyFor(call)] == Stored(events[j].body, events[j].status,
                                               events[j].now + CacheSeconds(events[i].call.config.cache) * 1000)
    decreases n
  {
    hide KeyFor, CacheSeconds, SameCall, Proper, MissedAt;
    var before, last := After(events[..n - 1]), events[n - 1];
    assert events[..n][..n - 1] == events[..n - 1];
    if n == j + 1 {
      StaysRunning(events, i, j);
    } else {
      StaysStored(events, i, j, call, n - 1);
      assert last in events;
      if last.Look? {
        KeyMeansCall(last.call, call);
      } else if last.id in before.running {
        var l := RunningMissed(events[..n - 1], last.id);
        var other := before.running[last.id];
        MissedFirst(events, n - 1, l, last.id, other);
        KeyMeansCall(other, call);
      }
    }
  }

  lemma {:induction false} MissedFirst(events: seq<Event>, n: nat, l: nat, id: nat, call: Call)
    requires n <= |events| && MissedAt(events[..n], l, id, call)
    ensures MissedAt(events, l, id, call) && events[l].call == call && events[l] in events
  {
    assert events[..n][..l] == events[..l];
  }

  // With a quote in a parameter name a call can be answered with another's response.
  lemma {:induction false} QuotedParamsShareEntry(origin: string, namespace: string, name: string, config: LogicConfig)
    ensures exists a, b :: KeyFor(Call(origin, namespace, name, config, a)) == KeyFor(Call(origin, namespace, name, config, b))
                        && MeaningOf(a) != MeaningOf(b)
  {
    hide Stringify, MeaningOf;
    var a := JObject([("a", JNull), ("b", JNull)]);
    var b := JObject([("a" + "\":" + Stringify(JNull) + ",\"" + "b", JNull)]);
    QuotedKeysCollide("a", "b", JNull, JNull);
    assert KeyFor(Call(origin, namespace, name, config, a)) == KeyFor(Call(origin, namespace, name, config, b));
  }
}
